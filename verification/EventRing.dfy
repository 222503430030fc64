/** The bounded event ring of internal/events/ring.go.

    `Ring` is the circular buffer with its subscribers. `State` is the plain view
    it refines: a log that only grows, plus what each subscriber was given. */
module EventRing {
  import opened Basics

  const DefaultCapacity: nat := 10000
  const DefaultSubBuffer: nat := 16
  const DefaultLimit: nat := 50
  const MaxLimit: nat := 200
  const MaxSubscribers: nat := 128
  const SchemaVersion: int := 1

  /** `detail` stands for the fields no operation here looks at. A zero time means unset. */
  datatype Event = Event(
    id: nat, schemaVersion: int, time: int, category: string, protocol: string,
    listenerRole: string, packetCode: string, outcome: string, suppressExport: bool, detail: string)

  const ZeroEvent := Event(0, 0, 0, "", "", "", "", "", false, "")

  datatype Query = Query(
    afterId: nat, limit: int, categories: seq<string>, protocol: string,
    listenerRole: string, packetCode: string, outcome: string)

  datatype Page = Page(
    items: seq<Event>, nextAfterId: nat, hasMore: bool, reset: bool,
    overwritten: nat, oldestId: nat, newestId: nat)

  function Stamp(e: Event, id: nat, now: int): (r: Event)
  {
    e.(id := id,
    schemaVersion := if e.schemaVersion == 0 then SchemaVersion else e.schemaVersion,
    time := if e.time == 0 then now else e.time)
  }

  /** Blank categories are ignored; no category left means every category. */
  predicate CategoryOK(categories: seq<string>, got: string)
  {
    (forall c :: c in categories ==> c == "") || (got != "" && got in categories)
  }

  predicate Matches(q: Query, e: Event)
  {
    && CategoryOK(q.categories, e.category)
    && (q.protocol == "" || q.protocol == (if e.protocol == "" then "tacacs" else e.protocol))
    && (q.listenerRole == "" || e.listenerRole == q.listenerRole)
    && (q.packetCode == "" || e.packetCode == q.packetCode)
    && (q.outcome == "" || e.outcome == q.outcome)
  }

  /** An event a cursor read may return. */
  predicate Wanted(q: Query, e: Event)
  {
    e.id > q.afterId && !e.suppressExport && Matches(q, e)
  }

  function Pick(q: Query, s: seq<Event>): (r: seq<Event>)
    ensures |r| <= |s|
  {
    if s == [] then []
    else if Wanted(q, s[|s| - 1]) then Pick(q, s[..|s| - 1]) + [s[|s| - 1]]
    else Pick(q, s[..|s| - 1])
  }

  function Exportable(s: seq<Event>): (r: seq<Event>)
  {
    if s == [] then []
    else if s[|s| - 1].suppressExport then Exportable(s[..|s| - 1])
    else Exportable(s[..|s| - 1]) + [s[|s| - 1]]
  }

  /** How many events a ring of this capacity has overwritten. */
  function Lost(log: seq<Event>, cap: nat): (r: nat)
  {
    if |log| > cap then |log| - cap else 0
  }

  ghost predicate Numbered(log: seq<Event>)
  {
    forall i :: 0 <= i < |log| ==> log[i].id == i + 1
  }

  /** What a cursor read must answer, in terms of the log alone. */
  function PageOf(log: seq<Event>, cap: nat, q: Query, limit: nat): (r: Page)
    requires limit >= 1
  {
    if log == [] then Page([], 0, false, false, 0, 0, 0)
    else
      var lost := Lost(log, cap);
      var all := Pick(q, log[lost..]);
      var items := Take(all, limit);
      Page(items, if items == [] then q.afterId else items[|items| - 1].id,
           |all| > limit, 0 < q.afterId < lost, lost, lost + 1, |log|)
  }

  function ReadLimit(q: Query): (r: nat)
    ensures 1 <= r <= MaxLimit
  {
    if q.limit <= 0 then DefaultLimit else if q.limit > MaxLimit then MaxLimit else q.limit
  }

  // ---------------------------------------------------------------------------
  // Filtering
  // ---------------------------------------------------------------------------

  lemma {:induction false} PickConcat(q: Query, a: seq<Event>, b: seq<Event>)
    ensures Pick(q, a + b) == Pick(q, a) + Pick(q, b)
  {
    if b == [] {
      assert a + b == a;
    } else {
      assert (a + b)[..|a + b| - 1] == a + b[..|b| - 1];
      PickConcat(q, a, b[..|b| - 1]);
    }
  }

  lemma {:induction false} ExportableConcat(a: seq<Event>, b: seq<Event>)
    ensures Exportable(a + b) == Exportable(a) + Exportable(b)
  {
    if b == [] {
      assert a + b == a;
    } else {
      assert (a + b)[..|a + b| - 1] == a + b[..|b| - 1];
      ExportableConcat(a, b[..|b| - 1]);
    }
  }

  lemma PickAppend(q: Query, s: seq<Event>, e: Event)
    ensures Pick(q, s + [e]) == if Wanted(q, e) then Pick(q, s) + [e] else Pick(q, s)
  {
    assert (s + [e])[..|s|] == s;
  }

  lemma ExportableAppend(s: seq<Event>, e: Event)
    ensures Exportable(s + [e]) == if e.suppressExport then Exportable(s) else Exportable(s) + [e]
  {
    assert (s + [e])[..|s|] == s;
  }

  lemma {:induction false} PickNothing(q: Query, s: seq<Event>)
    requires forall e :: e in s ==> !Wanted(q, e)
    ensures Pick(q, s) == []
  {
    if s != [] { PickNothing(q, s[..|s| - 1]); }
  }

  /** Moving the cursor over events that all lie beyond it changes nothing. */
  lemma {:induction false} PickCursor(q: Query, c: nat, s: seq<Event>)
    requires forall e :: e in s ==> (e.id > q.afterId <==> e.id > c)
    ensures Pick(q, s) == Pick(q.(afterId := c), s)
  {
    if s != [] { PickCursor(q, c, s[..|s| - 1]); }
  }

  lemma {:induction false} PickMembers(q: Query, s: seq<Event>, e: Event)
    ensures e in Pick(q, s) <==> e in s && Wanted(q, e)
  {
    if s != [] {
      PickMembers(q, s[..|s| - 1], e);
      assert s == s[..|s| - 1] + [s[|s| - 1]];
    }
  }

  // ---------------------------------------------------------------------------
  // The ring as a state machine
  // ---------------------------------------------------------------------------

  /** A subscription is named by its position in the order of admission. */
  type Handle = nat

  datatype Cancel = Idle | Detached | Released

  /** A fan-out channel: what is queued in it, whether `dropped` is closed, and
      how far its cancel function has run. */
  datatype Channel = Channel(queue: seq<Event>, buffer: nat, dropped: bool, cancel: Cancel)

  /** History: the log length at subscription, what the consumer has received,
      and the log length at which the subscriber stopped being served. */
  datatype Trail = Trail(joined: nat, received: seq<Event>, until: Option<nat>)

  datatype Sub = Sub(attached: bool, chan: Channel, trail: Trail)

  datatype State = State(
    cap: nat, log: seq<Event>, subs: seq<Sub>, admitted: int, closed: bool, reject: bool)

  datatype Op =
    | Accept(event: Event, now: int)
    | Subscribe(buffer: int)
    | Receive(handle: Handle)
    | CancelDetach(handle: Handle)
    | CancelRelease(handle: Handle)
    | Close
    | SetReject(on: bool)

  function Init(cap: nat): (r: State)
  {
    State(cap, [], [], 0, false, false)
  }

  predicate Full(c: Channel) { |c.queue| >= c.buffer }

  /** One nonblocking send: it queues the event or detaches the slow consumer. */
  function Offer(s: Sub, e: Event, at: nat): (r: Sub)
  {
    if !s.attached then s
    else if Full(s.chan) then Sub(false, s.chan.(dropped := true), s.trail.(until := Some(at)))
    else s.(chan := s.chan.(queue := s.chan.queue + [e]))
  }

  function OfferAll(subs: seq<Sub>, e: Event, at: nat): (r: seq<Sub>)
    ensures |r| == |subs|
    ensures forall h :: 0 <= h < |r| ==> r[h] == Offer(subs[h], e, at)
  {
    seq(|subs|, h requires 0 <= h < |subs| => Offer(subs[h], e, at))
  }

  function Taken(s: Sub): (r: Sub)
  {
    if s.chan.queue == [] then s
    else s.(chan := s.chan.(queue := s.chan.queue[1..]),
      trail := s.trail.(received := s.trail.received + [s.chan.queue[0]]))
  }

  function Detach(s: Sub, at: nat): (r: Sub)
  {
    if s.chan.cancel != Idle then s
    else Sub(false, s.chan.(cancel := Detached), if s.attached then s.trail.(until := Some(at)) else s.trail)
  }

  function Drop(s: Sub, at: nat): (r: Sub)
  {
    if s.attached then Sub(false, s.chan.(dropped := true), s.trail.(until := Some(at))) else s
  }

  function DropAll(subs: seq<Sub>, at: nat): (r: seq<Sub>)
    ensures |r| == |subs|
    ensures forall h :: 0 <= h < |r| ==> r[h] == Drop(subs[h], at)
  {
    seq(|subs|, h requires 0 <= h < |subs| => Drop(subs[h], at))
  }

  function SubBuffer(buffer: int, cap: nat): (r: nat)
  {
    var b := if buffer <= 0 then DefaultSubBuffer else buffer;
    if b > cap then cap else b
  }

  function Step(s: State, op: Op): (r: State)
  {
    match op
    case Accept(e, now) =>
      if s.reject || s.closed then s
      else
        var stamped := Stamp(e, |s.log| + 1, now);
        s.(log := s.log + [stamped],
        subs := if stamped.suppressExport then s.subs else OfferAll(s.subs, stamped, |s.log|))
    case Subscribe(buffer) =>
      if s.closed || s.admitted >= MaxSubscribers then s
      else
        var sub := Sub(true, Channel([], SubBuffer(buffer, s.cap), false, Idle), Trail(|s.log|, [], None));
        s.(subs := s.subs + [sub], admitted := s.admitted + 1)
    case Receive(h) =>
      if h < |s.subs| then s.(subs := s.subs[h := Taken(s.subs[h])]) else s
    case CancelDetach(h) =>
      if h < |s.subs| then s.(subs := s.subs[h := Detach(s.subs[h], |s.log|)]) else s
    case CancelRelease(h) =>
      if h < |s.subs| && s.subs[h].chan.cancel == Detached then
        s.(subs := s.subs[h := s.subs[h].(chan := s.subs[h].chan.(cancel := Released))],
        admitted := s.admitted - 1)
      else s
    case Close =>
      if s.closed then s else s.(subs := DropAll(s.subs, |s.log|), closed := true)
    case SetReject(on) => s.(reject := on)
  }

  /** The admission slots in use: subscriptions whose cancel function has not finished. */
  function Slots(subs: seq<Sub>): (n: nat)
  {
    if subs == [] then 0
    else Slots(subs[..|subs| - 1]) + (if subs[|subs| - 1].chan.cancel != Released then 1 else 0)
  }

  function AttachedCount(subs: seq<Sub>): (n: nat)
  {
    if subs == [] then 0
    else AttachedCount(subs[..|subs| - 1]) + (if subs[|subs| - 1].attached then 1 else 0)
  }

  /** Everything ever put in the subscriber's channel, oldest first. */
  function Sent(s: Sub): (r: seq<Event>)
  {
    s.trail.received + s.chan.queue
  }

  /** How far into a log of this length the subscriber was served. */
  function Until(s: Sub, now: nat): (r: nat)
  {
    match s.trail.until case None => now case Some(k) => k
  }

  ghost predicate Served(s: Sub, log: seq<Event>)
  {
    && s.trail.joined <= Until(s, |log|) <= |log|
    && Sent(s) == Exportable(log[s.trail.joined..Until(s, |log|)])
    && (s.attached <==> s.trail.until.None?)
    && (s.attached ==> !s.chan.dropped && s.chan.cancel == Idle)
    && (!s.attached ==> s.chan.dropped || s.chan.cancel != Idle)
  }

  ghost predicate Inv(s: State)
  {
    && s.cap >= 1
    && Numbered(s.log)
    && s.admitted == Slots(s.subs)
    && s.admitted <= MaxSubscribers
    && (forall h :: 0 <= h < |s.subs| ==> Served(s.subs[h], s.log))
    && (s.closed ==> forall h :: 0 <= h < |s.subs| ==> !s.subs[h].attached)
  }

  // ---------------------------------------------------------------------------
  // Every step keeps the invariant
  // ---------------------------------------------------------------------------

  lemma {:induction false} SlotsSame(a: seq<Sub>, b: seq<Sub>)
    requires |a| == |b|
    requires forall h :: 0 <= h < |a| ==> (a[h].chan.cancel == Released <==> b[h].chan.cancel == Released)
    ensures Slots(a) == Slots(b)
  {
    if a != [] { SlotsSame(a[..|a| - 1], b[..|b| - 1]); }
  }

  lemma {:induction false} SlotsRelease(a: seq<Sub>, h: Handle, s: Sub)
    requires h < |a| && a[h].chan.cancel != Released && s.chan.cancel == Released
    ensures Slots(a[h := s]) == Slots(a) - 1
  {
    var k := |a| - 1;
    if h < k {
      SlotsRelease(a[..k], h, s);
      assert a[h := s][..k] == a[..k][h := s];
    } else {
      assert a[h := s][..k] == a[..k];
    }
  }

  lemma {:induction false} AttachedHoldSlots(subs: seq<Sub>, log: seq<Event>)
    requires forall h :: 0 <= h < |subs| ==> Served(subs[h], log)
    ensures AttachedCount(subs) <= Slots(subs)
  {
    if subs != [] { AttachedHoldSlots(subs[..|subs| - 1], log); }
  }

  lemma Slices(log: seq<Event>, e: Event, from: nat, to: nat)
    requires from <= to <= |log|
    ensures (log + [e])[from..to] == log[from..to]
    ensures (log + [e])[from..|log| + 1] == log[from..|log|] + [e]
  {
  }

  lemma LongerLog(s: Sub, log: seq<Event>, e: Event)
    requires Served(s, log)
    requires e.suppressExport || !s.attached
    ensures Served(s, log + [e])
  {
    var from, to := s.trail.joined, Until(s, |log|);
    Slices(log, e, from, to);
    if s.attached {
      ExportableConcat(log[from..to], [e]);
    }
  }

  lemma OfferServes(s: Sub, log: seq<Event>, e: Event)
    requires Served(s, log) && !e.suppressExport
    ensures Served(Offer(s, e, |log|), log + [e])
  {
    var from := s.trail.joined;
    if s.attached {
      Slices(log, e, from, |log|);
      if !Full(s.chan) {
        ExportableConcat(log[from..|log|], [e]);
      }
    } else {
      LongerLog(s, log, e);
    }
  }

  lemma AcceptKeepsInv(s: State, e: Event, now: int)
    requires Inv(s)
    ensures Inv(Step(s, Accept(e, now)))
  {
    if !s.reject && !s.closed {
      var t := Step(s, Accept(e, now));
      var stamped := Stamp(e, |s.log| + 1, now);
      forall h | 0 <= h < |t.subs|
        ensures Served(t.subs[h], t.log)
      {
        if stamped.suppressExport {
          LongerLog(s.subs[h], s.log, stamped);
        } else {
          OfferServes(s.subs[h], s.log, stamped);
        }
      }
      SlotsSame(s.subs, t.subs);
    }
  }

  lemma SubscribeKeepsInv(s: State, buffer: int)
    requires Inv(s)
    ensures Inv(Step(s, Subscribe(buffer)))
  {
    var t := Step(s, Subscribe(buffer));
    if !s.closed && s.admitted < MaxSubscribers {
      assert t.subs[..|t.subs| - 1] == s.subs;
      assert s.log[|s.log|..|s.log|] == [];
    }
  }

  lemma OneSubKeepsInv(s: State, h: Handle, sub: Sub)
    requires Inv(s) && h < |s.subs| && Served(sub, s.log)
    requires s.closed ==> !sub.attached
    requires sub.chan.cancel == Released <==> s.subs[h].chan.cancel == Released
    ensures Inv(s.(subs := s.subs[h := sub]))
  {
    SlotsSame(s.subs, s.subs[h := sub]);
  }

  lemma TakenStaysServed(s: Sub, log: seq<Event>)
    requires Served(s, log)
    ensures Served(Taken(s), log)
  {
    assert Sent(Taken(s)) == Sent(s);
  }

  lemma ReleaseKeepsInv(s: State, h: Handle)
    requires Inv(s)
    ensures Inv(Step(s, CancelRelease(h)))
  {
    if h < |s.subs| && s.subs[h].chan.cancel == Detached {
      var sub := s.subs[h].(chan := s.subs[h].chan.(cancel := Released));
      SlotsRelease(s.subs, h, sub);
      assert Sent(sub) == Sent(s.subs[h]);
    }
  }

  lemma CloseKeepsInv(s: State)
    requires Inv(s)
    ensures Inv(Step(s, Close))
  {
    if !s.closed {
      var t := Step(s, Close);
      forall h | 0 <= h < |t.subs|
        ensures Served(t.subs[h], t.log)
      {
        assert Served(s.subs[h], s.log);
        assert Sent(t.subs[h]) == Sent(s.subs[h]);
      }
      SlotsSame(s.subs, t.subs);
    }
  }

  lemma StepKeepsInv(s: State, op: Op)
    requires Inv(s)
    ensures Inv(Step(s, op))
    ensures s.log <= Step(s, op).log && Step(s, op).cap == s.cap
  {
    match op
    case Accept(e, now) => AcceptKeepsInv(s, e, now);
    case Subscribe(buffer) => SubscribeKeepsInv(s, buffer);
    case Receive(h) =>
      if h < |s.subs| {
        TakenStaysServed(s.subs[h], s.log);
        OneSubKeepsInv(s, h, Taken(s.subs[h]));
      }
    case CancelDetach(h) =>
      if h < |s.subs| {
        assert Sent(Detach(s.subs[h], |s.log|)) == Sent(s.subs[h]);
        OneSubKeepsInv(s, h, Detach(s.subs[h], |s.log|));
      }
    case CancelRelease(h) => ReleaseKeepsInv(s, h);
    case Close => CloseKeepsInv(s);
    case SetReject(on) =>
  }

  /** The state after any interleaving of operations. */
  ghost function Run(s: State, ops: seq<Op>): (t: State)
    requires Inv(s)
    ensures Inv(t) && s.log <= t.log && t.cap == s.cap
    decreases |ops|
  {
    if ops == [] then s
    else
      StepKeepsInv(s, ops[0]);
      Run(Step(s, ops[0]), ops[1..])
  }

  // ---------------------------------------------------------------------------
  // Fan-out over every run
  // ---------------------------------------------------------------------------

  /** What the rest of a run can do to a subscription that already exists. */
  ghost predicate Continues(a: Sub, b: Sub, at: nat)
  {
    && b.trail.joined == a.trail.joined
    && (a.trail.until.Some? ==> b.trail.until == a.trail.until)
    && (a.trail.until.None? && b.trail.until.Some? ==> at <= b.trail.until.value)
  }

  lemma StepContinues(s: State, op: Op, h: Handle)
    requires Inv(s) && h < |s.subs|
    ensures var t := Step(s, op); h < |t.subs| && Continues(s.subs[h], t.subs[h], |s.log|)
  {
    assert Served(s.subs[h], s.log);
  }

  lemma {:induction false} RunContinues(s: State, ops: seq<Op>, h: Handle)
    requires Inv(s) && h < |s.subs|
    ensures var t := Run(s, ops); h < |t.subs| && Continues(s.subs[h], t.subs[h], |s.log|)
    decreases |ops|
  {
    if ops != [] {
      StepContinues(s, ops[0], h);
      StepKeepsInv(s, ops[0]);
      RunContinues(Step(s, ops[0]), ops[1..], h);
    }
  }

  /** Delivery to subscription `h`, which joined when the log had `from` events:
      what it was sent is the exportable part of an unbroken stretch of the log,
      and the stretch reaches the present until a drop, a cancel or Close. */
  ghost predicate GapFree(t: State, h: Handle, from: nat)
  {
    h < |t.subs| &&
    var sub, k := t.subs[h], Until(t.subs[h], |t.log|);
    && from <= k <= |t.log|
    && Sent(sub) == Exportable(t.log[from..k])
    && Sent(sub) <= Exportable(t.log[from..])
    && (sub.attached ==> k == |t.log|)
    && (!sub.attached ==> sub.chan.dropped || sub.chan.cancel != Idle)
  }

  lemma ServedIsGapFree(t: State, h: Handle)
    requires Inv(t) && h < |t.subs|
    ensures GapFree(t, h, t.subs[h].trail.joined)
  {
    assert Served(t.subs[h], t.log);
    var from, k := t.subs[h].trail.joined, Until(t.subs[h], |t.log|);
    ExportableConcat(t.log[from..k], t.log[k..]);
    assert t.log[from..] == t.log[from..k] + t.log[k..];
  }

  /** Whatever happens before and after it is admitted, a subscriber is served
      without gaps from the moment it joined, and the admission bound holds. */
  lemma SubscriberGetsEverything(s: State, buffer: int, after: seq<Op>)
    requires Inv(s) && !s.closed && s.admitted < MaxSubscribers
    ensures Inv(Step(s, Subscribe(buffer)))
    ensures var t := Run(Step(s, Subscribe(buffer)), after);
            GapFree(t, |s.subs|, |s.log|) && AttachedCount(t.subs) <= t.admitted <= MaxSubscribers
  {
    var u := Step(s, Subscribe(buffer));
    StepKeepsInv(s, Subscribe(buffer));
    assert u.subs[|s.subs|].trail.joined == |s.log|;
    AfterJoining(u, after, |s.subs|);
  }

  lemma AfterJoining(u: State, after: seq<Op>, h: Handle)
    requires Inv(u) && h < |u.subs|
    ensures var t := Run(u, after);
            GapFree(t, h, u.subs[h].trail.joined) && AttachedCount(t.subs) <= t.admitted <= MaxSubscribers
  {
    var t := Run(u, after);
    RunContinues(u, after, h);
    ServedIsGapFree(t, h);
    AttachedHoldSlots(t.subs, t.log);
  }

  ghost predicate AscendingIds(s: seq<Event>)
  {
    forall i, j :: 0 <= i < j < |s| ==> s[i].id < s[j].id
  }

  /** What a subscriber was sent carries strictly increasing IDs. */
  lemma {:induction false} SentInOrder(log: seq<Event>, from: nat, to: nat)
    requires Numbered(log) && from <= to <= |log|
    ensures AscendingIds(Exportable(log[from..to]))
    ensures forall e :: e in Exportable(log[from..to]) ==> e.id <= to
  {
    if from < to {
      var e := log[to - 1];
      SentInOrder(log, from, to - 1);
      assert log[from..to] == log[from..to - 1] + [e];
      ExportableAppend(log[from..to - 1], e);
      assert e.id == to;
    }
  }

  lemma {:induction false} PickExportable(q: Query, s: seq<Event>)
    ensures Pick(q, Exportable(s)) == Pick(q, s)
  {
    if s != [] {
      var init, e := s[..|s| - 1], s[|s| - 1];
      assert s == init + [e];
      PickExportable(q, init);
      ExportableAppend(init, e);
      PickAppend(q, init, e);
      PickAppend(q, Exportable(init), e);
    }
  }

  lemma SplitPick(q: Query, log: seq<Event>, a: nat, b: nat, c: nat)
    requires a <= b <= c <= |log|
    ensures Pick(q, log[a..c]) == Pick(q, log[a..b]) + Pick(q, log[b..c])
  {
    assert log[a..c] == log[a..b] + log[b..c];
    PickConcat(q, log[a..b], log[b..c]);
  }

  /** The live events a stream consumer keeps after replaying up to `mark`. */
  function Live(q: Query, mark: nat, sent: seq<Event>): (r: seq<Event>)
  {
    Pick(q.(afterId := if q.afterId > mark then q.afterId else mark), sent)
  }

  /** Subscribe first, replay later: the replayed page followed by the live
      events above its high-water mark is every matching event from the oldest
      retained one on, each exactly once and in order, up to where the subscriber
      was served. One that was detached before the replay adds nothing, and the
      page alone reaches the present. */
  lemma ReplayBridgesIntoLive(u: State, after: seq<Op>, h: Handle, q: Query)
    requires Inv(u) && h < |u.subs|
    ensures var t := Run(u, after);
            h < |t.subs| &&
            var page := PageOf(u.log, u.cap, q, u.cap);
            var k := Max(Until(t.subs[h], |t.log|), |u.log|);
            && k <= |t.log|
            && page.items + Live(q, page.newestId, Sent(t.subs[h])) == Pick(q, t.log[Lost(u.log, u.cap)..k])
            && (u.subs[h].attached ==> k == Until(t.subs[h], |t.log|))
            && (!u.subs[h].attached ==> k == |u.log| && Live(q, page.newestId, Sent(t.subs[h])) == [])
  {
    RunContinues(u, after, h);
    assert Served(u.subs[h], u.log);
    var t := Run(u, after);
    assert Served(t.subs[h], t.log);
    FullPage(q, u.log, u.cap);
    var m, lost := |u.log|, Lost(u.log, u.cap);
    var j, x := t.subs[h].trail.joined, Until(t.subs[h], |t.log|);
    assert t.log[lost..m] == u.log[lost..];
    if u.subs[h].attached {
      LiveAfterMark(q, t.log, m, j, x);
      SplitPick(q, t.log, lost, m, x);
    } else {
      NothingLive(q, t.log, m, j, x);
    }
  }

  /** A page of the ring's capacity holds all that is retained and wanted. */
  lemma FullPage(q: Query, log: seq<Event>, cap: nat)
    requires cap >= 1
    ensures var page := PageOf(log, cap, q, cap);
            page.items == Pick(q, log[Lost(log, cap)..]) && page.newestId == |log|
  {
  }

  /** The live part of a subscriber that was served up to `x`, past the mark. */
  lemma LiveAfterMark(q: Query, log: seq<Event>, m: nat, j: nat, x: nat)
    requires Numbered(log) && j <= m <= x <= |log|
    ensures Live(q, m, Exportable(log[j..x])) == Pick(q, log[m..x])
  {
    var live := q.(afterId := if q.afterId > m then q.afterId else m);
    SliceIds(log, j, m);
    SliceIds(log, m, x);
    PickExportable(live, log[j..x]);
    SplitPick(live, log, j, m, x);
    PickNothing(live, log[j..m]);
    PickCursor(q, live.afterId, log[m..x]);
  }

  lemma SliceIds(log: seq<Event>, a: nat, b: nat)
    requires Numbered(log) && a <= b <= |log|
    ensures forall e :: e in log[a..b] ==> a < e.id <= b
  {
  }

  /** And of one that was served no further than the mark. */
  lemma NothingLive(q: Query, log: seq<Event>, m: nat, j: nat, x: nat)
    requires Numbered(log) && j <= x <= m <= |log|
    ensures Live(q, m, Exportable(log[j..x])) == []
  {
    var live := q.(afterId := if q.afterId > m then q.afterId else m);
    PickExportable(live, log[j..x]);
    PickNothing(live, log[j..x]);
  }

  // ---------------------------------------------------------------------------
  // Cursor chains
  // ---------------------------------------------------------------------------

  function Max(a: nat, b: nat): (r: nat) { if a > b then a else b }

  function Min(a: nat, b: nat): (r: nat) { if a < b then a else b }

  function From(q: Query, cursor: nat): (r: Query) { q.(afterId := cursor) }

  /** An evicted cursor reads like a cursor just before the oldest retained event. */
  lemma RetainedWindow(q: Query, log: seq<Event>, lost: nat)
    requires Numbered(log) && lost <= |log|
    ensures Pick(q, log[lost..]) == Pick(From(q, Max(q.afterId, lost)), log)
  {
    var qe := From(q, Max(q.afterId, lost));
    assert log == log[..lost] + log[lost..];
    PickConcat(qe, log[..lost], log[lost..]);
    PickNothing(qe, log[..lost]);
    PickCursor(q, qe.afterId, log[lost..]);
  }

  /** The last event does not matter when enough came before it. */
  lemma TakeWithoutLast(q: Query, log: seq<Event>, k: nat)
    requires log != [] && k >= 1
    requires !Wanted(q, log[|log| - 1]) || |Pick(q, log[..|log| - 1])| >= k
    ensures Take(Pick(q, log), k) == Take(Pick(q, log[..|log| - 1]), k)
    ensures Pick(q, log) != [] ==> Pick(q, log[..|log| - 1]) != []
  {
  }

  /** Taking the first few picked events is picking from a shorter log. */
  lemma {:induction false} TakeIsAWindow(q: Query, log: seq<Event>, k: nat)
    requires Numbered(log) && k >= 1 && Pick(q, log) != []
    ensures var items := Take(Pick(q, log), k);
            items != [] &&
            var last := items[|items| - 1].id;
            q.afterId < last <= |log| && items == Pick(q, log[..last])
  {
    var n := |log| - 1;
    if Wanted(q, log[n]) && |Pick(q, log[..n])| < k {
      assert log[..log[n].id] == log;
    } else {
      TakeWithoutLast(q, log, k);
      TakeIsAWindow(q, log[..n], k);
      var items := Take(Pick(q, log), k);
      var last := items[|items| - 1].id;
      assert log[..n][..last] == log[..last];
    }
  }

  lemma NothingUpTo(q: Query, log: seq<Event>, c: nat)
    requires Numbered(log) && c <= |log| && c <= q.afterId
    ensures Pick(q, log[..c]) == []
  {
    PickNothing(q, log[..c]);
  }

  lemma AnyEarlierCursor(q: Query, log: seq<Event>, c: nat, n: nat)
    requires Numbered(log) && q.afterId <= c <= n <= |log|
    ensures Pick(q, log[c..n]) == Pick(From(q, c), log[c..n])
  {
    PickCursor(q, c, log[c..n]);
  }

  lemma PickSplit(q: Query, log: seq<Event>, c: nat, n: nat)
    requires Numbered(log) && q.afterId <= c <= n <= |log|
    ensures Pick(q, log[..n]) == Pick(q, log[..c]) + Pick(From(q, c), log[..n])
  {
    var a, b := log[..c], log[c..n];
    assert log[..n] == a + b;
    PickConcat(q, a, b);
    PickConcat(From(q, c), a, b);
    NothingUpTo(From(q, c), log, c);
    AnyEarlierCursor(q, log, c, n);
  }

  /** One page, in terms of the whole log. */
  lemma OnePage(q: Query, log: seq<Event>, cap: nat, limit: nat)
    requires Numbered(log) && log != [] && limit >= 1
    ensures var page, from := PageOf(log, cap, q, limit), Max(q.afterId, Lost(log, cap));
            if page.items == [] then
              page.nextAfterId == q.afterId && Pick(From(q, from), log) == [] && !page.hasMore
            else
              && from < page.nextAfterId <= |log|
              && page.items == Pick(From(q, from), log[..page.nextAfterId])
              && (!page.hasMore ==> page.items == Pick(From(q, from), log))
  {
    var from := Max(q.afterId, Lost(log, cap));
    RetainedWindow(q, log, Lost(log, cap));
    if Pick(From(q, from), log) != [] {
      TakeIsAWindow(From(q, from), log, limit);
    }
  }

  /** Adding one page to everything already collected after cursor `q.afterId`. */
  lemma AddPage(q: Query, log: seq<Event>, cap: nat, c: nat, limit: nat)
    requires Numbered(log) && log != [] && limit >= 1
    requires q.afterId <= Max(c, Lost(log, cap))
    ensures var lost := Lost(log, cap);
            var page := PageOf(log, cap, From(q, c), limit);
            var from, to := Max(c, lost), Max(page.nextAfterId, lost);
            && from <= to
            && Pick(q, log[..Min(from, |log|)]) + page.items == Pick(q, log[..Min(to, |log|)])
            && (!page.hasMore ==> Pick(q, log[..Min(to, |log|)]) == Pick(q, log))
  {
    var page := PageOf(log, cap, From(q, c), limit);
    var from := Max(c, Lost(log, cap));
    OnePage(From(q, c), log, cap, limit);
    assert From(From(q, c), from) == From(q, from);
    if page.items == [] {
      NothingAfter(q, log, from);
    } else {
      PickUpTo(q, log, from, page.nextAfterId);
      PickUpTo(q, log, from, |log|);
    }
  }

  /** When nothing after a cursor is picked, all that is picked lies before it. */
  lemma NothingAfter(q: Query, log: seq<Event>, from: nat)
    requires Numbered(log) && q.afterId <= from && Pick(From(q, from), log) == []
    ensures Pick(q, log[..Min(from, |log|)]) == Pick(q, log)
  {
    assert log[..|log|] == log;
    if from <= |log| {
      PickSplit(q, log, from, |log|);
    }
  }

  lemma PickUpTo(q: Query, log: seq<Event>, from: nat, to: nat)
    requires Numbered(log) && q.afterId <= from <= to <= |log|
    ensures Pick(q, log[..Min(from, |log|)]) + Pick(From(q, from), log[..to]) == Pick(q, log[..to])
    ensures to == |log| ==> log[..to] == log
  {
    PickSplit(q, log, from, to);
  }

  /** One read in a chain: the log it saw and the limit it used. */
  datatype PageRead = PageRead(log: seq<Event>, limit: nat)

  function PageAt(q: Query, cap: nat, cursor: nat, read: PageRead): (r: Page)
    requires read.limit >= 1
  {
    PageOf(read.log, cap, q.(afterId := cursor), read.limit)
  }

  ghost predicate ReadsOk(chain: seq<PageRead>)
  {
    && (forall i :: 0 <= i < |chain| ==> chain[i].limit >= 1 && Numbered(chain[i].log))
    && (forall i, j :: 0 <= i < j < |chain| ==> chain[i].log <= chain[j].log)
  }

  /** The cursor a client holds after following `nextAfterId` through the reads. */
  ghost function Cursor(q: Query, cap: nat, chain: seq<PageRead>): (r: nat)
    requires ReadsOk(chain)
  {
    if chain == [] then q.afterId
    else
      var k := |chain| - 1;
      PageAt(q, cap, Cursor(q, cap, chain[..k]), chain[k]).nextAfterId
  }

  ghost function LastPage(q: Query, cap: nat, chain: seq<PageRead>): (r: Page)
    requires ReadsOk(chain) && chain != []
  {
    PageAt(q, cap, Cursor(q, cap, chain[..|chain| - 1]), chain[|chain| - 1])
  }

  ghost function Collected(q: Query, cap: nat, chain: seq<PageRead>): (r: seq<Event>)
    requires ReadsOk(chain)
  {
    if chain == [] then []
    else Collected(q, cap, chain[..|chain| - 1]) + LastPage(q, cap, chain).items
  }

  ghost predicate NoReset(q: Query, cap: nat, chain: seq<PageRead>)
    requires ReadsOk(chain)
  {
    chain == [] || (NoReset(q, cap, chain[..|chain| - 1]) && !LastPage(q, cap, chain).reset)
  }

  /** A page sets Reset exactly when an event after the cursor has been overwritten. */
  lemma ResetMeansLoss(q: Query, log: seq<Event>, cap: nat, limit: nat)
    requires Numbered(log) && limit >= 1 && q.afterId > 0
    ensures PageOf(log, cap, q, limit).reset
       <==> exists i :: 0 <= i < Lost(log, cap) && log[i].id > q.afterId
  {
    var lost := Lost(log, cap);
    if 0 < q.afterId < lost {
      assert log[lost - 1].id > q.afterId;
    }
  }

  /** `got` is every matching event after the starting cursor up to cursor `c`. */
  ghost predicate CaughtUp(q: Query, log: seq<Event>, c: nat, got: seq<Event>)
  {
    q.afterId <= c && (c <= |log| || c == q.afterId) && got == Pick(q, log[..Min(c, |log|)])
  }

  lemma ReadsPrefix(chain: seq<PageRead>, k: nat)
    requires ReadsOk(chain) && k < |chain|
    ensures ReadsOk(chain[..k])
    ensures k > 0 ==> chain[..k][k - 1].log <= chain[k].log && chain[..k][0] == chain[0]
    ensures chain[0].log != [] ==> chain[k].log != []
  {
    if k > 0 { assert chain[0].log <= chain[k].log; }
  }

  /** The last link of a chain. */
  lemma LastLink(q: Query, cap: nat, chain: seq<PageRead>, before: seq<Event>)
    requires ReadsOk(chain) && chain != [] && q.afterId > 0 && NoReset(q, cap, chain)
    requires before <= chain[|chain| - 1].log != []
    requires var init := chain[..|chain| - 1]; CaughtUp(q, before, Cursor(q, cap, init), Collected(q, cap, init))
    ensures CaughtUp(q, chain[|chain| - 1].log, Cursor(q, cap, chain), Collected(q, cap, chain))
    ensures !LastPage(q, cap, chain).hasMore ==> Collected(q, cap, chain) == Pick(q, chain[|chain| - 1].log)
  {
    var k := |chain| - 1;
    var c := Cursor(q, cap, chain[..k]);
    GrowAndRead(q, before, chain[k].log, cap, c, Collected(q, cap, chain[..k]), chain[k].limit);
  }

  /** A chain of reads interleaved with any Accepts, begun when the ring held
      something: if no page was reset, the pages together hold every matching event
      after the starting cursor up to the cursor reached, each exactly once and in
      order. `PagingWorksIffBegunNonempty` shows what the beginning has to do with it. */
  lemma {:induction false} ChainMissesNothing(q: Query, cap: nat, chain: seq<PageRead>)
    requires ReadsOk(chain) && chain != [] && chain[0].log != []
    requires q.afterId > 0 && NoReset(q, cap, chain)
    ensures CaughtUp(q, chain[|chain| - 1].log, Cursor(q, cap, chain), Collected(q, cap, chain))
    ensures !LastPage(q, cap, chain).hasMore ==> Collected(q, cap, chain) == Pick(q, chain[|chain| - 1].log)
  {
    var k := |chain| - 1;
    ReadsPrefix(chain, k);
    if k == 0 {
      LastLink(q, cap, chain, []);
    } else {
      ChainMissesNothing(q, cap, chain[..k]);
      LastLink(q, cap, chain, chain[..k][k - 1].log);
    }
  }

  /** One link of a chain: the log grows, then a page is read at the cursor. */
  lemma GrowAndRead(q: Query, before: seq<Event>, log: seq<Event>, cap: nat, c: nat, got: seq<Event>, limit: nat)
    requires Numbered(log) && log != [] && limit >= 1 && before <= log
    requires q.afterId > 0 && CaughtUp(q, before, c, got)
    requires !PageOf(log, cap, From(q, c), limit).reset
    ensures var page := PageOf(log, cap, From(q, c), limit);
            && CaughtUp(q, log, page.nextAfterId, got + page.items)
            && (!page.hasMore ==> got + page.items == Pick(q, log))
  {
    LogGrowth(q, before, log, c);
    NextPage(q, log, cap, c, limit);
  }

  lemma NextPage(q: Query, log: seq<Event>, cap: nat, c: nat, limit: nat)
    requires Numbered(log) && log != [] && limit >= 1
    requires 0 < q.afterId <= c && (c <= |log| || c == q.afterId)
    requires !PageOf(log, cap, From(q, c), limit).reset
    ensures var page := PageOf(log, cap, From(q, c), limit);
            var next := page.nextAfterId;
            && c <= next && (next <= |log| || next == q.afterId)
            && Pick(q, log[..Min(c, |log|)]) + page.items == Pick(q, log[..Min(next, |log|)])
            && (!page.hasMore ==> Pick(q, log[..Min(next, |log|)]) == Pick(q, log))
  {
    AddPage(q, log, cap, c, limit);
    OnePage(From(q, c), log, cap, limit);
  }

  /** Growth of the log does not change what lies at or before the cursor, once
      everything up to a cursor beyond the end has been found empty. */
  lemma LogGrowth(q: Query, before: seq<Event>, log: seq<Event>, c: nat)
    requires Numbered(log) && before <= log && q.afterId <= c
    requires c <= |before| || c == q.afterId
    ensures Pick(q, before[..Min(c, |before|)]) == Pick(q, log[..Min(c, |log|)])
  {
    if c <= |before| {
      assert before[..c] == log[..c];
    } else {
      PickNothing(q, before[..|before|]);
      PickNothing(q, log[..Min(c, |log|)]);
    }
  }

  /** Without Accepts in between, paging to the end returns what Replay returns,
      from any cursor, evicted or not. */
  lemma {:induction false} ChainEqualsReplay(q: Query, cap: nat, chain: seq<PageRead>, log: seq<Event>)
    requires ReadsOk(chain) && chain != [] && cap >= 1
    requires forall i :: 0 <= i < |chain| ==> chain[i].log == log
    ensures !LastPage(q, cap, chain).hasMore ==>
              Collected(q, cap, chain) == PageOf(log, cap, q, cap).items
  {
    assert chain[0].log == log;
    if log == [] {
      NothingToCollect(q, cap, chain);
    } else {
      CollectedSoFar(q, cap, chain, log);
      RetainedWindow(q, log, Lost(log, cap));
    }
  }

  lemma {:induction false} NothingToCollect(q: Query, cap: nat, chain: seq<PageRead>)
    requires ReadsOk(chain) && forall i :: 0 <= i < |chain| ==> chain[i].log == []
    ensures Collected(q, cap, chain) == []
  {
    if chain != [] {
      NothingToCollect(q, cap, chain[..|chain| - 1]);
      assert chain[|chain| - 1].log == [];
    }
  }

  /** One more page of an unchanged log. */
  lemma CollectPage(q: Query, qe: Query, log: seq<Event>, cap: nat, c: nat, got: seq<Event>, limit: nat)
    requires Numbered(log) && log != [] && limit >= 1
    requires var lost := Lost(log, cap);
             qe == From(q, Max(q.afterId, lost)) && qe.afterId <= Max(c, lost) && got == Pick(qe, log[..Min(Max(c, lost), |log|)])
    ensures var page, lost := PageOf(log, cap, From(q, c), limit), Lost(log, cap);
            && qe.afterId <= Max(page.nextAfterId, lost)
            && got + page.items == Pick(qe, log[..Min(Max(page.nextAfterId, lost), |log|)])
            && (!page.hasMore ==> got + page.items == Pick(qe, log))
  {
    assert From(qe, c) == From(q, c);
    AddPage(qe, log, cap, c, limit);
  }

  lemma {:induction false} CollectedSoFar(q: Query, cap: nat, chain: seq<PageRead>, log: seq<Event>)
    requires ReadsOk(chain) && Numbered(log) && log != []
    requires forall i :: 0 <= i < |chain| ==> chain[i].log == log
    ensures var lost, c := Lost(log, cap), Cursor(q, cap, chain);
            var qe := From(q, Max(q.afterId, lost));
            && qe.afterId <= Max(c, lost)
            && Collected(q, cap, chain) == Pick(qe, log[..Min(Max(c, lost), |log|)])
            && (chain != [] && !LastPage(q, cap, chain).hasMore ==> Collected(q, cap, chain) == Pick(qe, log))
  {
    var lost := Lost(log, cap);
    var qe := From(q, Max(q.afterId, lost));
    if chain == [] {
      PickNothing(qe, log[..Min(Max(q.afterId, lost), |log|)]);
    } else {
      var k := |chain| - 1;
      var c := Cursor(q, cap, chain[..k]);
      CollectedSoFar(q, cap, chain[..k], log);
      assert chain[k].log == log;
      CollectPage(q, qe, log, cap, c, Collected(q, cap, chain[..k]), chain[k].limit);
    }
  }

  // ---------------------------------------------------------------------------
  // Chains begun on an empty ring
  // ---------------------------------------------------------------------------

  /** A chain whose first read finds the ring empty forgets its cursor: it goes on
      as if it had been begun at cursor 0. */
  lemma {:induction false} EmptyRingForgetsCursor(q: Query, cap: nat, chain: seq<PageRead>)
    requires ReadsOk(chain) && chain != [] && chain[0].log == []
    ensures Cursor(q, cap, chain) == Cursor(From(q, 0), cap, chain)
    ensures Collected(q, cap, chain) == Collected(From(q, 0), cap, chain)
  {
    var k := |chain| - 1;
    if k > 0 {
      ReadsPrefix(chain, k);
      EmptyRingForgetsCursor(q, cap, chain[..k]);
    }
  }

  /** Some page held an event at or before the cursor that was asked for. */
  ghost predicate ReturnsEarlier(q: Query, cap: nat, chain: seq<PageRead>)
    requires ReadsOk(chain)
  {
    exists e :: e in Collected(q, cap, chain) && e.id <= q.afterId
  }

  /** No page was reset, and yet a matching event that was passed over is missing. */
  ghost predicate HidesLoss(q: Query, cap: nat, chain: seq<PageRead>)
    requires ReadsOk(chain) && chain != []
  {
    && NoReset(q, cap, chain)
    && exists e :: e in chain[|chain| - 1].log && Wanted(q, e) && e.id <= Cursor(q, cap, chain)
                && e !in Collected(q, cap, chain)
  }

  /** For a nonzero cursor: no way of going on returns an earlier event, and none
      hides a loss, exactly when the ring held something at the first read. A caller
      sees it in that page: its newest ID is not 0. */
  lemma PagingWorksIffBegunNonempty(q: Query, cap: nat, first: PageRead)
    requires q.afterId > 0 && cap >= 1 && first.limit >= 1 && Numbered(first.log)
    ensures first.log != [] <==> PageOf(first.log, cap, q, first.limit).newestId != 0
    ensures first.log != [] <==> forall rest :: ReadsOk([first] + rest) ==> !ReturnsEarlier(q, cap, [first] + rest)
    ensures first.log != [] <==> forall rest :: ReadsOk([first] + rest) ==> !HidesLoss(q, cap, [first] + rest)
  {
    if first.log == [] {
      var rest := EarlierWitness(q, cap, first);
      assert ReadsOk([first] + rest) && ReturnsEarlier(q, cap, [first] + rest);
      rest := LossWitness(q, cap, first);
      assert ReadsOk([first] + rest) && HidesLoss(q, cap, [first] + rest);
    } else {
      forall rest | ReadsOk([first] + rest)
        ensures !ReturnsEarlier(q, cap, [first] + rest) && !HidesLoss(q, cap, [first] + rest)
      {
        CollectedAreLater(q, cap, [first] + rest);
        NothingHidden(q, cap, [first] + rest);
      }
    }
  }

  lemma PageIsLater(q: Query, log: seq<Event>, cap: nat, limit: nat)
    requires Numbered(log) && log != [] && limit >= 1
    ensures var page := PageOf(log, cap, q, limit);
            page.nextAfterId >= q.afterId && forall e :: e in page.items ==> e.id > q.afterId
  {
    var picked := Pick(q, log[Lost(log, cap)..]);
    forall e | e in picked ensures e.id > q.afterId { PickMembers(q, log[Lost(log, cap)..], e); }
  }

  /** The cursor of a chain begun nonempty never falls behind its start. */
  lemma {:induction false} CollectedAreLater(q: Query, cap: nat, chain: seq<PageRead>)
    requires ReadsOk(chain) && (chain != [] ==> chain[0].log != [])
    ensures Cursor(q, cap, chain) >= q.afterId
    ensures forall e :: e in Collected(q, cap, chain) ==> e.id > q.afterId
  {
    if chain != [] {
      var k := |chain| - 1;
      ReadsPrefix(chain, k);
      CollectedAreLater(q, cap, chain[..k]);
      PageIsLater(From(q, Cursor(q, cap, chain[..k])), chain[k].log, cap, chain[k].limit);
    }
  }

  lemma NothingHidden(q: Query, cap: nat, chain: seq<PageRead>)
    requires ReadsOk(chain) && chain != [] && chain[0].log != [] && q.afterId > 0
    ensures !HidesLoss(q, cap, chain)
  {
    if NoReset(q, cap, chain) {
      ChainMissesNothing(q, cap, chain);
      var log, c := chain[|chain| - 1].log, Cursor(q, cap, chain);
      forall e | e in log && Wanted(q, e) && e.id <= c
        ensures e in Collected(q, cap, chain)
      {
        var i :| 0 <= i < |log| && log[i] == e;
        assert e in log[..Min(c, |log|)] by { assert log[..Min(c, |log|)][i] == e; }
        PickMembers(q, log[..Min(c, |log|)], e);
      }
    }
  }

  /** An event with this ID that passes the filters of the query. */
  lemma MatchingEvent(q: Query, id: nat) returns (e: Event)
    ensures e.id == id && !e.suppressExport && Matches(q, e)
  {
    var category := "";
    if c :| c in q.categories && c != "" { category := c; }
    e := Event(id, 1, 1, category, q.protocol, q.listenerRole, q.packetCode, q.outcome, false, "");
  }

  /** The page after an empty one, at cursor 0. */
  lemma SecondPage(q: Query, cap: nat, first: PageRead, second: PageRead)
    requires first.limit >= 1 && first.log == [] && second.limit >= 1 && Numbered(second.log)
    ensures ReadsOk([first] + [second])
    ensures var chain, page := [first] + [second], PageOf(second.log, cap, From(q, 0), second.limit);
            && Collected(q, cap, chain) == page.items && Cursor(q, cap, chain) == page.nextAfterId
            && NoReset(q, cap, chain)
  {
    var chain := [first] + [second];
    var page := PageOf(second.log, cap, From(q, 0), second.limit);
    assert chain[..1] == [first] && [first][..0] == [];
    assert Collected(q, cap, [first]) == [] && [] + page.items == page.items;
  }

  lemma EarlierWitness(q: Query, cap: nat, first: PageRead) returns (rest: seq<PageRead>)
    requires q.afterId > 0 && cap >= 1 && first.limit >= 1 && first.log == []
    ensures ReadsOk([first] + rest) && ReturnsEarlier(q, cap, [first] + rest)
  {
    var e := MatchingEvent(q, 1);
    rest := [PageRead([e], 1)];
    SecondPage(q, cap, first, rest[0]);
    assert [e][0..] == [e] && [e][..0] == [];
    assert Pick(From(q, 0), [e]) == [e];
    assert e in Collected(q, cap, [first] + rest);
  }

  lemma LossWitness(q: Query, cap: nat, first: PageRead) returns (rest: seq<PageRead>)
    requires q.afterId > 0 && cap >= 1 && first.limit >= 1 && first.log == []
    ensures ReadsOk([first] + rest) && HidesLoss(q, cap, [first] + rest)
  {
    var e := MatchingEvent(q, 1);
    var n := q.afterId + 1 + cap;
    var log := seq(n, i requires 0 <= i < n => e.(id := i + 1));
    rest := [PageRead(log, 1)];
    SecondPage(q, cap, first, rest[0]);
    LatePage(From(q, 0), log, cap);
    var passed := log[q.afterId];
    assert passed in log && Wanted(q, passed) && passed !in Collected(q, cap, [first] + rest);
  }

  /** A page of one reaches past everything that was overwritten, and shows none of it. */
  lemma LatePage(q: Query, log: seq<Event>, cap: nat)
    requires Numbered(log) && cap >= 1 && Lost(log, cap) < |log| && Wanted(q, log[Lost(log, cap)])
    ensures var page := PageOf(log, cap, q, 1);
            page.nextAfterId > Lost(log, cap) && forall x :: x in page.items ==> x.id > Lost(log, cap)
  {
    var kept := log[Lost(log, cap)..];
    PickMembers(q, kept, kept[0]);
    forall x | x in Pick(q, kept) ensures x.id > Lost(log, cap) { PickMembers(q, kept, x); }
  }
}
