/** The circular buffer and fan-out of internal/events/ring.go, proved to refine
    the growing log of `EventRing`. Each locked method is one atomic step. */
module EventRingBuffer {
  import opened Basics
  import opened EventRing

  lemma Wrap(x: nat, cap: nat)
    requires 0 < cap && x < 2 * cap
    ensures x % cap == if x < cap then x else x - cap
  {
    if x >= cap {
      assert x == cap + (x - cap);
      assert (x - cap) % cap == x - cap;
    }
  }

  /** The slot of the i-th retained event. */
  function Slot(start: nat, i: nat, cap: nat): (r: nat)
    requires start < cap && i <= cap
    ensures r < cap
  {
    if start + i < cap then start + i else start + i - cap
  }

  /** The n slots from `start` on hold the log from position `first`. */
  ghost predicate Holds(b: seq<Event>, start: nat, n: nat, log: seq<Event>, first: nat)
    requires start < |b| && n <= |b|
  {
    first + n == |log| && forall i :: 0 <= i < n ==> b[Slot(start, i, |b|)] == log[first + i]
  }

  lemma OverwriteOldest(b: seq<Event>, start: nat, log: seq<Event>, first: nat, e: Event)
    requires start < |b| && Holds(b, start, |b|, log, first)
    ensures Holds(b[start := e], Slot(start, 1, |b|), |b|, log + [e], first + 1)
  {
    var c, next := b[start := e], Slot(start, 1, |b|);
    forall i | 0 <= i < |b|
      ensures c[Slot(next, i, |b|)] == (log + [e])[first + 1 + i]
    {
      if i + 1 < |b| {
        assert Slot(next, i, |b|) == Slot(start, i + 1, |b|) != start;
      } else {
        assert Slot(next, i, |b|) == start;
      }
    }
  }

  lemma FillNext(b: seq<Event>, start: nat, n: nat, log: seq<Event>, first: nat, e: Event)
    requires start < |b| && n < |b| && Holds(b, start, n, log, first)
    ensures Holds(b[Slot(start, n, |b|) := e], start, n + 1, log + [e], first)
  {
  }

  function Join(subs: seq<Handle>, chans: seq<Channel>, trails: seq<Trail>): (r: seq<Sub>)
    requires |chans| == |trails|
    ensures |r| == |chans|
    ensures forall h :: 0 <= h < |r| ==> r[h] == Sub(h in subs, chans[h], trails[h])
  {
    seq(|chans|, h requires 0 <= h < |chans| => Sub(h in subs, chans[h], trails[h]))
  }

  /** Scanning again from the page's end finds an event exactly when the page was cut short. */
  lemma MoreAfterPage(q: Query, log: seq<Event>, cap: nat, limit: nat)
    requires Numbered(log) && log != [] && limit >= 1
    ensures var page, lost := PageOf(log, cap, q, limit), Lost(log, cap);
            page.hasMore <==> Pick(From(q, page.nextAfterId), log[lost..]) != []
  {
    var page, lost := PageOf(log, cap, q, limit), Lost(log, cap);
    var from, next := Max(q.afterId, lost), page.nextAfterId;
    RetainedWindow(q, log, lost);
    OnePage(q, log, cap, limit);
    if page.items != [] {
      RetainedWindow(From(q, next), log, lost);
      PickSplit(From(q, from), log, next, |log|);
      assert log[..|log|] == log;
    }
  }

  /** A page of a nonempty log, from what the loops collect. */
  lemma PageFromParts(q: Query, log: seq<Event>, cap: nat, limit: nat, out: seq<Event>, last: nat, more: bool)
    requires Numbered(log) && log != [] && limit >= 1
    requires out == Take(Pick(q, log[Lost(log, cap)..]), limit)
    requires last == if |out| > 0 then out[|out| - 1].id else q.afterId
    requires more <==> Pick(From(q, last), log[Lost(log, cap)..]) != []
    ensures var lost := Lost(log, cap);
            PageOf(log, cap, q, limit) == Page(out, last, more, 0 < q.afterId < lost, lost, lost + 1, |log|)
  {
    MoreAfterPage(q, log, cap, limit);
  }

  lemma TakeStopsEarly(q: Query, kept: seq<Event>, i: nat, limit: nat)
    requires i <= |kept| && |Pick(q, kept[..i])| <= limit
    requires i == |kept| || |Pick(q, kept[..i])| == limit
    ensures Take(Pick(q, kept), limit) == Pick(q, kept[..i])
  {
    assert kept == kept[..i] + kept[i..];
    PickConcat(q, kept[..i], kept[i..]);
  }

  /** The fan-out loop: a nonblocking send to each attached subscriber in turn. */
  method Send(subs: seq<Handle>, chans: seq<Channel>, ghost trails: seq<Trail>, e: Event, ghost at: nat)
    returns (kept: seq<Handle>, cs: seq<Channel>, ghost ts: seq<Trail>)
    requires |chans| == |trails| && Distinct(subs)
    requires forall i :: 0 <= i < |subs| ==> subs[i] < |chans|
    ensures |cs| == |ts| == |chans| && Distinct(kept)
    ensures forall i :: 0 <= i < |kept| ==> kept[i] < |cs|
    ensures Join(kept, cs, ts) == OfferAll(Join(subs, chans, trails), e, at)
  {
    kept, cs, ts := [], chans, trails;
    for i := 0 to |subs|
      invariant |cs| == |ts| == |chans|
      invariant Distinct(kept) && forall k :: 0 <= k < |kept| ==> kept[k] in subs[..i]
      invariant forall k :: 0 <= k < i ==>
                              Sub(subs[k] in kept, cs[subs[k]], ts[subs[k]])
                              == Offer(Sub(true, chans[subs[k]], trails[subs[k]]), e, at)
      invariant forall h :: 0 <= h < |chans| && h !in subs[..i] ==> cs[h] == chans[h] && ts[h] == trails[h]
    {
      var h := subs[i];
      assert h !in subs[..i];
      if |cs[h].queue| < cs[h].buffer {
        cs := cs[h := cs[h].(queue := cs[h].queue + [e])];
        kept := kept + [h];
      } else {
        cs := cs[h := cs[h].(dropped := true)];
        ts := ts[h := ts[h].(until := Some(at))];
      }
    }
    assert subs[..|subs|] == subs;
    forall h | 0 <= h < |chans|
      ensures Sub(h in kept, cs[h], ts[h]) == Offer(Sub(h in subs, chans[h], trails[h]), e, at)
    {
      if h in subs {
        var k :| 0 <= k < |subs| && subs[k] == h;
      }
    }
  }

  class Ring {
    const cap: nat
    const buf: array<Event>
    var seqNo: nat
    var start: nat
    var n: nat
    var overwritten: nat
    var reject: bool
    var closed: bool
    /** Handles of the attached subscribers, and every channel ever handed out. */
    var subs: seq<Handle>
    var chans: seq<Channel>
    var admitted: int
    ghost var log: seq<Event>
    ghost var trails: seq<Trail>

    /** The index fields agree with a log of this length. */
    ghost predicate Indices(length: nat)
      reads this
    {
      && 0 < cap == buf.Length && start < cap && n <= cap
      && overwritten + n == length
      && (n < cap ==> overwritten == 0)
    }

    ghost predicate Valid()
      reads this, buf
    {
      && Indices(|log|) && seqNo == |log|
      && Numbered(log)
      && Holds(buf[..], start, n, log, overwritten)
      && |chans| == |trails|
      && Distinct(subs)
      && (forall i :: 0 <= i < |subs| ==> subs[i] < |chans|)
    }

    /** The abstract state this ring stands for. */
    ghost function Model(): (r: State)
      requires |chans| == |trails|
      reads this
    {
      State(cap, log, Join(subs, chans, trails), admitted, closed, reject)
    }

    constructor (capacity: int)
      ensures Valid() && fresh(buf)
      ensures Model() == Init(if capacity <= 0 then DefaultCapacity else capacity)
    {
      var size := if capacity <= 0 then DefaultCapacity else capacity;
      cap := size;
      buf := new Event[size](_ => ZeroEvent);
      seqNo, start, n, overwritten, admitted := 0, 0, 0, 0, 0;
      reject, closed := false, false;
      subs, chans := [], [];
      log, trails := [], [];
    }

    /** Writes the event over the oldest entry of a full buffer. */
    method Overwrite(e: Event)
      requires Valid() && n == cap
      modifies this`start, this`overwritten, buf
      ensures Indices(|log| + 1) && Holds(buf[..], start, n, log + [e], overwritten)
    {
      OverwriteOldest(buf[..], start, log, overwritten, e);
      ghost var b := buf[..];
      buf[start] := e;
      assert buf[..] == b[start := e];
      Wrap(start + 1, cap);
      start := (start + 1) % cap;
      overwritten := overwritten + 1;
    }

    /** Writes the event into the first free slot. */
    method Append(e: Event)
      requires Valid() && n < cap
      modifies this`n, buf
      ensures Indices(|log| + 1) && Holds(buf[..], start, n, log + [e], overwritten)
    {
      FillNext(buf[..], start, n, log, overwritten, e);
      ghost var b := buf[..];
      Wrap(start + n, cap);
      buf[(start + n) % cap] := e;
      assert buf[..] == b[Slot(start, n, cap) := e];
      n := n + 1;
    }

    method Store(e: Event)
      requires Valid() && e.id == seqNo + 1
      modifies this`seqNo, this`start, this`n, this`overwritten, this`log, buf
      ensures Valid()
      ensures log == old(log) + [e]
    {
      if n == cap {
        Overwrite(e);
      } else {
        Append(e);
      }
      seqNo := seqNo + 1;
      log := log + [e];
    }

    /** The i-th retained event, oldest first. */
    function At(i: nat): (e: Event)
      requires Valid() && i < n
      reads this, buf
      ensures e == log[overwritten + i]
    {
      Wrap(start + i, cap);
      assert buf[..][Slot(start, i, cap)] == log[overwritten + i];
      buf[(start + i) % cap]
    }

    /** Sends e to every attached subscriber that has room and detaches the others. */
    method FanOut(e: Event)
      requires Valid() && e.id == seqNo && log != [] && log[|log| - 1] == e
      modifies this`subs, this`chans, this`trails
      ensures Valid()
      ensures !e.suppressExport ==>
                Join(subs, chans, trails) == OfferAll(old(Join(subs, chans, trails)), e, |log| - 1)
      ensures e.suppressExport ==> subs == old(subs) && chans == old(chans) && trails == old(trails)
    {
      if e.suppressExport {
        return;
      }
      subs, chans, trails := Send(subs, chans, trails, e, |log| - 1);
    }

    method Accept(e: Event, now: int) returns (r: Event)
      requires Valid()
      modifies this, buf
      ensures Valid()
      ensures Model() == Step(old(Model()), Op.Accept(e, now))
      ensures r == if old(reject || closed) then ZeroEvent else Stamp(e, old(seqNo) + 1, now)
    {
      if reject || closed {
        return ZeroEvent;
      }
      r := Stamp(e, seqNo + 1, now);
      Store(r);
      FanOut(r);
    }

    method TrySubscribe(buffer: int) returns (r: Option<Handle>)
      requires Valid()
      modifies this`subs, this`chans, this`trails, this`admitted
      ensures Valid()
      ensures Model() == Step(old(Model()), Op.Subscribe(buffer))
      ensures r == if old(closed || admitted >= MaxSubscribers) then None else Some(old(|chans|))
    {
      var size := if buffer <= 0 then DefaultSubBuffer else buffer;
      if size > cap { size := cap; }
      if closed || admitted >= MaxSubscribers {
        return None;
      }
      r := Some(|chans|);
      subs := subs + [|chans|];
      chans := chans + [Channel([], size, false, Idle)];
      trails := trails + [Trail(|log|, [], None)];
      admitted := admitted + 1;
    }

    /** The consumer's side of the channel. */
    method Receive(h: Handle) returns (r: Option<Event>)
      requires Valid() && h < |chans|
      modifies this`chans, this`trails
      ensures Valid()
      ensures Model() == Step(old(Model()), Op.Receive(h))
      ensures r == if old(chans)[h].queue == [] then None else Some(old(chans)[h].queue[0])
    {
      if chans[h].queue == [] {
        return None;
      }
      var e := chans[h].queue[0];
      chans := chans[h := chans[h].(queue := chans[h].queue[1..])];
      trails := trails[h := trails[h].(received := trails[h].received + [e])];
      return Some(e);
    }

    /** First half of the cancel function: leave the fan-out list. */
    method CancelDetach(h: Handle)
      requires Valid() && h < |chans|
      modifies this`subs, this`chans, this`trails
      ensures Valid()
      ensures Model() == Step(old(Model()), Op.CancelDetach(h))
    {
      if chans[h].cancel != Idle {
        return;
      }
      chans := chans[h := chans[h].(cancel := Detached)];
      for i := 0 to |subs|
        invariant h !in subs[..i]
        invariant subs == old(subs)
      {
        if subs[i] == h {
          trails := trails[h := trails[h].(until := Some(|log|))];
          assert h !in subs[i + 1..];
          assert subs == subs[..i] + [h] + subs[i + 1..];
          subs := subs[..i] + subs[i + 1..];
          return;
        }
      }
      assert subs[..|subs|] == subs;
    }

    /** Second half of the cancel function: give the admission slot back. */
    method CancelRelease(h: Handle)
      requires Valid() && h < |chans|
      modifies this`chans, this`admitted
      ensures Valid()
      ensures Model() == Step(old(Model()), Op.CancelRelease(h))
    {
      if chans[h].cancel == Detached {
        chans := chans[h := chans[h].(cancel := Released)];
        admitted := admitted - 1;
      }
    }

    method Close()
      requires Valid()
      modifies this`subs, this`chans, this`trails, this`closed
      ensures Valid()
      ensures Model() == Step(old(Model()), Op.Close)
    {
      if closed {
        return;
      }
      closed := true;
      var all := subs;
      ghost var before := Join(subs, chans, trails);
      subs := [];
      for i := 0 to |all|
        invariant |chans| == |trails| == |before|
        invariant forall k :: 0 <= k < |all| ==> all[k] < |before|
        invariant closed && subs == []
        invariant forall h :: h in all[..i] ==>
                                Sub(false, chans[h], trails[h]) == Drop(before[h], |log|)
        invariant forall h :: 0 <= h < |before| && h !in all[..i] ==>
                                chans[h] == before[h].chan && trails[h] == before[h].trail
      {
        var h := all[i];
        assert h !in all[..i];
        assert all[..i + 1] == all[..i] + [h];
        chans := chans[h := chans[h].(dropped := true)];
        trails := trails[h := trails[h].(until := Some(|log|))];
      }
      assert all[..|all|] == all;
      assert Join([], chans, trails) == DropAll(before, |log|);
    }

    /** The first loop of a read: up to `limit` wanted events, oldest first. */
    method Collect(q: Query, limit: nat) returns (out: seq<Event>)
      requires Valid() && limit >= 1
      ensures out == Take(Pick(q, log[overwritten..]), limit)
    {
      ghost var kept := log[overwritten..];
      out := [];
      var i := 0;
      while i < n && |out| < limit
        invariant 0 <= i <= n
        invariant out == Pick(q, kept[..i]) && |out| <= limit
      {
        var e := At(i);
        PickAppend(q, kept[..i], e);
        assert kept[..i + 1] == kept[..i] + [e];
        if !(e.id <= q.afterId || e.suppressExport) && Matches(q, e) {
          out := out + [e];
        }
        i := i + 1;
      }
      TakeStopsEarly(q, kept, i, limit);
    }

    /** The loops over the circular buffer answer what the log says. */
    method ReadLocked(q: Query, limit: nat) returns (page: Page)
      requires Valid() && limit >= 1
      ensures page == PageOf(log, cap, q, limit)
    {
      if n == 0 {
        return Page([], 0, false, false, overwritten, 0, 0);
      }
      var oldest := At(0).id;
      var newest := At(n - 1).id;
      var reset := q.afterId > 0 && oldest > 1 && q.afterId < oldest - 1;
      var out := Collect(q, limit);
      var last := if |out| > 0 then out[|out| - 1].id else q.afterId;
      var more := HasMore(q, last);
      PageFromParts(q, log, cap, limit, out, last, more);
      page := Page(out, last, more, reset, overwritten, oldest, newest);
    }

    /** Whether a retained event after `last` matches. */
    method HasMore(q: Query, last: nat) returns (more: bool)
      requires Valid()
      ensures more <==> Pick(From(q, last), log[overwritten..]) != []
    {
      ghost var kept := log[overwritten..];
      var ql := From(q, last);
      for i := 0 to n
        invariant Pick(ql, kept[..i]) == []
      {
        var e := At(i);
        PickAppend(ql, kept[..i], e);
        assert kept[..i + 1] == kept[..i] + [e];
        assert e in kept;
        if !(e.id <= last || e.suppressExport) && Matches(q, e) {
          PickMembers(ql, kept, e);
          return true;
        }
      }
      assert kept[..n] == kept;
      return false;
    }

    method Read(q: Query) returns (page: Page)
      requires Valid()
      ensures page == PageOf(log, cap, q, ReadLimit(q))
    {
      var limit := q.limit;
      if limit <= 0 { limit := DefaultLimit; }
      if limit > MaxLimit { limit := MaxLimit; }
      page := ReadLocked(q, limit);
    }

    method Replay(q: Query) returns (page: Page)
      requires Valid()
      ensures page == PageOf(log, cap, q, cap)
    {
      page := ReadLocked(q, cap);
    }
  }
}
