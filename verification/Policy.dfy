/** The authorization engine of internal/policy: two evaluators over one compiled rule base,
    first match in the user's rules, then the effective groups, then the fallback.
    Regular-expression matching is an open predicate of (pattern, text). */
module Policy {
  import opened Basics
  import opened Ranking

  // ---------------------------------------------------------------------------
  // Rules and requests
  // ---------------------------------------------------------------------------

  datatype Action = PermitAdd | PermitReplace | Deny | Unrecognised(text: string)

  datatype Status = PassAdd | PassReplace | Fail | Error

  datatype Kind = ServiceKind | CommandKind

  /** Strings here are byte strings, so lengths are byte lengths. */
  datatype AVPair = AVPair(name: string, separator: char, value: string)

  datatype Match = Match(exact: string, pattern: string)

  datatype Service = Service(service: string, protocol: Option<string>, action: Action, reply: seq<AVPair>)

  datatype Command = Command(id: string, priority: int, action: Action, command: Match, args: Match, reason: string)

  datatype RuleSet = RuleSet(services: seq<Service>, commands: seq<Command>)

  datatype Group = Group(id: string, enabled: bool, priority: int, rules: RuleSet)

  datatype User = User(id: string, enabled: bool, groupIds: seq<string>, rules: RuleSet, clientIds: seq<string>,
                       validAfter: Option<int>, validBefore: Option<int>)

  datatype Client = Client(id: string, enabled: bool, defaultGroupIds: seq<string>)

  datatype Limits = Limits(maxArgs: int, maxArgBytes: int, maxTraceSteps: int)

  type Regex = (string, string) -> bool

  /** `now` is None when the clock reads the zero time, which switches validity windows off. */
  datatype Engine = Engine(users: map<string, User>, groups: map<string, Group>, clients: map<string, Client>,
                           fallback: RuleSet, limits: Limits, now: Option<int>)

  /** `cmdArgs` is None for a nil slice. */
  datatype Request = Request(user: string, client: string, service: string, protocol: string, cmd: string,
                             cmdArgs: Option<seq<string>>, arguments: seq<AVPair>)

  datatype RuleId = Nth(index: nat) | Named(id: string)

  datatype Source = FromUser | FromGroup(id: string) | FromFallback

  datatype TraceStep = TraceStep(source: Source, rule: RuleId, kind: Kind, matched: bool, reason: string)

  datatype Winner = Winner(source: Source, rule: RuleId, action: Action)

  datatype Trace = Trace(evaluator: Kind, groups: seq<string>, steps: seq<TraceStep>, winner: Option<Winner>,
                         defaultDeny: string, error: string)

  datatype Answer = Answer(decision: Option<Action>, status: Status, arguments: seq<AVPair>, trace: Trace)

  function CommandKey(c: Command): (r: Key) { Key(c.priority, c.id) }

  function GroupKey(g: Group): (r: Key) { Key(g.priority, g.id) }

  // ---------------------------------------------------------------------------
  // Matching one rule
  // ---------------------------------------------------------------------------

  function Join(args: seq<string>): (r: string)
  {
    if args == [] then "" else if |args| == 1 then args[0] else args[0] + " " + Join(args[1..])
  }

  function Args(req: Request): (r: seq<string>) { if req.cmdArgs.Some? then req.cmdArgs.value else [] }

  predicate Matches(re: Regex, m: Match, text: string)
  {
    if m.pattern != "" then re(m.pattern, text) else m.exact == text
  }

  /** A rule as the walk sees it for one request. */
  datatype Candidate = Candidate(step: TraceStep, action: Action, reply: seq<AVPair>)

  predicate Hit(c: Candidate) { c.step.matched }

  function ServiceCandidate(source: Source, i: nat, r: Service, req: Request): (res: Candidate)
  {
    var reason :=
      if r.service != req.service then "service mismatch"
      else if r.protocol.Some? && r.protocol.value != "" && r.protocol.value != req.protocol then "protocol mismatch"
      else "matched";
    Candidate(TraceStep(source, Nth(i), ServiceKind, reason == "matched", reason), r.action, r.reply)
  }

  predicate CommandMatches(re: Regex, r: Command, req: Request)
  {
    Matches(re, r.command, req.cmd) && Matches(re, r.args, Join(Args(req)))
  }

  function CommandCandidate(re: Regex, source: Source, r: Command, req: Request): (res: Candidate)
  {
    var matched := CommandMatches(re, r, req);
    var reason := if !Matches(re, r.command, req.cmd) then "command mismatch"
                  else if !matched then "arguments mismatch"
                  else if r.reason != "" then r.reason else "matched";
    Candidate(TraceStep(source, Named(r.id), CommandKind, matched, reason), r.action, [])
  }

  // ---------------------------------------------------------------------------
  // The walk as one list
  // ---------------------------------------------------------------------------

  function Size(rs: RuleSet, kind: Kind): (r: nat) { if kind == ServiceKind then |rs.services| else |rs.commands| }

  function RuleAt(re: Regex, source: Source, rs: RuleSet, req: Request, kind: Kind, i: nat): (r: Candidate)
    requires i < Size(rs, kind)
  {
    if kind == ServiceKind then ServiceCandidate(source, i, rs.services[i], req)
    else CommandCandidate(re, source, rs.commands[i], req)
  }

  function OfRules(re: Regex, source: Source, rs: RuleSet, req: Request, kind: Kind): (c: seq<Candidate>)
    ensures |c| == Size(rs, kind)
  {
    seq(Size(rs, kind), i requires 0 <= i < Size(rs, kind) => RuleAt(re, source, rs, req, kind, i))
  }

  function OfGroups(re: Regex, groups: seq<Group>, req: Request, kind: Kind): (r: seq<Candidate>)
  {
    if groups == [] then []
    else OfGroups(re, groups[..|groups| - 1], req, kind)
         + OfRules(re, FromGroup(groups[|groups| - 1].id), groups[|groups| - 1].rules, req, kind)
  }

  /** Every rule of the evaluator, in the order it is consulted. */
  function Chain(re: Regex, e: Engine, u: User, groups: seq<Group>, req: Request, kind: Kind): (r: seq<Candidate>)
  {
    OfRules(re, FromUser, u.rules, req, kind) + OfGroups(re, groups, req, kind)
    + OfRules(re, FromFallback, e.fallback, req, kind)
  }

  /** The place of the first match, or the length of the list. */
  function FirstHit(c: seq<Candidate>): (k: nat)
    ensures k <= |c| && (k < |c| ==> Hit(c[k]))
    ensures forall j :: 0 <= j < k ==> !Hit(c[j])
  {
    if c == [] || Hit(c[0]) then 0 else FirstHit(c[1..]) + 1
  }

  predicate Missed(c: seq<Candidate>) { forall j :: 0 <= j < |c| ==> !Hit(c[j]) }

  lemma FirstHitIs(c: seq<Candidate>, k: nat)
    requires k <= |c| && (k < |c| ==> Hit(c[k])) && Missed(c[..k])
    ensures FirstHit(c) == k
  {
    forall j | 0 <= j < k ensures !Hit(c[j]) { assert c[..k][j] == c[j]; }
  }

  // ---------------------------------------------------------------------------
  // Effective groups
  // ---------------------------------------------------------------------------

  /** The ids a request brings in: the user's, and those of an enabled client. */
  predicate Wants(e: Engine, u: User, client: string, id: string)
  {
    && id != ""
    && (id in u.groupIds || (client in e.clients && e.clients[client].enabled && id in e.clients[client].defaultGroupIds))
  }

  /** The enabled groups among them. */
  ghost function EffectiveSet(e: Engine, u: User, client: string): (r: set<Group>)
  {
    set id | id in e.groups && Wants(e, u, client, id) && e.groups[id].enabled :: e.groups[id]
  }

  ghost predicate EngineOk(e: Engine)
  {
    forall id :: id in e.groups ==> e.groups[id].id == id
  }

  /** The effective groups in walking order. */
  ghost predicate IsEffective(e: Engine, u: User, client: string, groups: seq<Group>)
  {
    && Ranked(groups, GroupKey) && DistinctKeys(groups, GroupKey)
    && Elements(groups) == EffectiveSet(e, u, client)
  }

  // ---------------------------------------------------------------------------
  // Replies
  // ---------------------------------------------------------------------------

  function EncodedLen(p: AVPair): (r: nat) { |p.name| + 1 + |p.value| }

  predicate PairOk(p: AVPair)
  {
    && p.name != "" && '=' !in p.name && '*' !in p.name && p.separator in {'=', '*'}
    && 2 <= EncodedLen(p) <= 255
  }

  predicate PairFits(p: AVPair, lim: Limits) { PairOk(p) && (lim.maxArgBytes > 0 ==> EncodedLen(p) <= lim.maxArgBytes) }

  /** The reply of a rule can be sent whole. */
  predicate ReplyFits(action: Action, reply: seq<AVPair>, lim: Limits)
  {
    action == Deny ||
    (&& (lim.maxArgs > 0 ==> |reply| <= lim.maxArgs)
     && forall i :: 0 <= i < |reply| ==> PairFits(reply[i], lim))
  }

  function StatusOf(a: Action): (r: Status)
  {
    match a
    case PermitAdd => PassAdd
    case PermitReplace => PassReplace
    case Deny => Fail
    case Unrecognised(_) => Error
  }

  predicate Permits(s: Status) { s == PassAdd || s == PassReplace }

  /** Copies the reply, or refuses it as a whole. */
  method BuildReply(action: Action, reply: seq<AVPair>, lim: Limits) returns (r: Option<seq<AVPair>>)
    ensures r.Some? <==> ReplyFits(action, reply, lim)
    ensures r.Some? ==> r.value == if action == Deny then [] else reply
  {
    if action == Deny || |reply| == 0 { return Some([]); }
    if lim.maxArgs > 0 && |reply| > lim.maxArgs { return None; }
    var copied := [];
    for i := 0 to |reply|
      invariant copied == reply[..i] && forall j :: 0 <= j < i ==> PairFits(reply[j], lim)
    {
      if !PairOk(reply[i]) { return None; }
      if lim.maxArgBytes > 0 && EncodedLen(reply[i]) > lim.maxArgBytes { return None; }
      copied := copied + [reply[i]];
    }
    return Some(copied);
  }

  // ---------------------------------------------------------------------------
  // Gates and verdict
  // ---------------------------------------------------------------------------

  predicate InWindow(u: User, now: Option<int>)
  {
    now.None? || ((u.validAfter.Some? ==> now.value >= u.validAfter.value) && (u.validBefore.Some? ==> now.value < u.validBefore.value))
  }

  predicate ClientAllowed(u: User, client: string)
  {
    u.clientIds == [] || (client != "" && client in u.clientIds)
  }

  /** Why the request is denied before any rule is consulted. */
  function Gate(e: Engine, req: Request): (r: Option<string>)
  {
    if req.user !in e.users then Some("user not found")
    else if !e.users[req.user].enabled then Some("user disabled")
    else if !InWindow(e.users[req.user], e.now) then Some("user not valid at evaluation time")
    else if !ClientAllowed(e.users[req.user], req.client) then Some("user not permitted on client")
    else None
  }

  function NoRule(kind: Kind): (r: string)
  {
    if kind == ServiceKind then "no matching service rule" else "no matching command rule"
  }

  function Denied(kind: Kind, ids: seq<string>, steps: seq<TraceStep>, reason: string): (r: Answer)
  {
    Answer(Some(Deny), Fail, [], Trace(kind, ids, steps, None, reason, ""))
  }

  /** finish, once the reply is known to fit or not. */
  function Settled(kind: Kind, ids: seq<string>, steps: seq<TraceStep>, c: Candidate, lim: Limits): (r: Answer)
  {
    if ReplyFits(c.action, c.reply, lim)
    then Answer(Some(c.action), StatusOf(c.action), if c.action == Deny then [] else c.reply,
                Trace(kind, ids, steps, Some(Winner(c.step.source, c.step.rule, c.action)), "", ""))
    else Answer(None, Error, [], Trace(kind, ids, steps, None, "", "invalid reply"))
  }

  function Steps(c: seq<Candidate>): (r: seq<TraceStep>)
  {
    seq(|c|, i requires 0 <= i < |c| => c[i].step)
  }

  function GroupIds(groups: seq<Group>): (r: seq<string>)
  {
    seq(|groups|, i requires 0 <= i < |groups| => groups[i].id)
  }

  /** The groups consulted: none for a user who is absent or disabled. */
  ghost predicate GroupsFor(e: Engine, req: Request, groups: seq<Group>)
  {
    if req.user in e.users && e.users[req.user].enabled
    then IsEffective(e, e.users[req.user], req.client, groups)
    else groups == []
  }

  /** How many steps a trace may record; a cap below one records none. */
  function Room(cap: int): (n: nat) { if cap > 0 then cap else 0 }

  /** What one evaluator answers. */
  ghost predicate IsVerdict(re: Regex, e: Engine, req: Request, kind: Kind, groups: seq<Group>, res: Answer)
  {
    && GroupsFor(e, req, groups)
    && if Gate(e, req).Some? then res == Denied(kind, GroupIds(groups), [], Gate(e, req).value)
       else IsWalk(re, e, req, kind, groups, Chain(re, e, e.users[req.user], groups, req, kind), res)
  }

  ghost predicate IsWalk(re: Regex, e: Engine, req: Request, kind: Kind, groups: seq<Group>, chain: seq<Candidate>, res: Answer)
  {
    var steps := Take(Steps(Seen(chain)), Room(e.limits.maxTraceSteps));
    match HitOf(chain)
    case Some(c) => res == Settled(kind, GroupIds(groups), steps, c, e.limits)
    case None => res == Denied(kind, GroupIds(groups), steps, NoRule(kind))
  }

  // ---------------------------------------------------------------------------
  // The evaluator
  // ---------------------------------------------------------------------------

  /** The trace a walk appends to. */
  class TraceLog {
    const cap: int
    var steps: seq<TraceStep>
    /** Everything considered, recorded or not. */
    ghost var considered: seq<TraceStep>

    ghost predicate Valid() reads this { steps == Take(considered, Room(cap)) }

    constructor (cap: int)
      ensures this.cap == cap && steps == [] && considered == [] && Valid()
    {
      this.cap := cap;
      steps, considered := [], [];
    }

    method Record(step: TraceStep)
      requires Valid()
      modifies this
      ensures Valid() && considered == old(considered) + [step]
    {
      considered := considered + [step];
      if |steps| < cap { steps := steps + [step]; }
    }
  }

  lemma HitSplits(a: seq<Candidate>, b: seq<Candidate>)
    requires Missed(a)
    ensures FirstHit(a + b) == |a| + FirstHit(b)
  {
    var c, k := a + b, |a| + FirstHit(b);
    forall j | 0 <= j < k ensures !Hit(c[..k][j]) {
      if j < |a| { assert c[j] == a[j]; } else { assert c[j] == b[j - |a|]; }
    }
    FirstHitIs(c, k);
  }

  lemma StepsGrow(c: seq<Candidate>, i: nat)
    requires i < |c|
    ensures Steps(c[..i + 1]) == Steps(c[..i]) + [c[i].step]
  {
  }

  lemma StepsAppend(a: seq<Candidate>, b: seq<Candidate>)
    ensures Steps(a + b) == Steps(a) + Steps(b)
  {
  }

  lemma MissedGrows(c: seq<Candidate>, i: nat)
    requires i < |c| && Missed(c[..i]) && !Hit(c[i])
    ensures Missed(c[..i + 1])
  {
  }

  /** What a walk over `c` considers. */
  function Seen(c: seq<Candidate>): (r: seq<Candidate>)
  {
    if FirstHit(c) < |c| then c[..FirstHit(c) + 1] else c
  }

  function HitOf(c: seq<Candidate>): (r: Option<Candidate>)
  {
    if FirstHit(c) < |c| then Some(c[FirstHit(c)]) else None
  }

  lemma SeenHit(c: seq<Candidate>, i: nat)
    requires i < |c| && Missed(c[..i]) && Hit(c[i])
    ensures HitOf(c) == Some(c[i]) && Steps(Seen(c)) == Steps(c[..i]) + [c[i].step]
  {
    FirstHitIs(c, i);
    StepsGrow(c, i);
  }

  lemma SeenNone(c: seq<Candidate>)
    requires Missed(c)
    ensures HitOf(c) == None && Seen(c) == c
  {
    assert c[..|c|] == c;
    FirstHitIs(c, |c|);
  }

  /** walkRules: records every rule up to and including the first match. */
  method WalkRules(re: Regex, source: Source, rs: RuleSet, req: Request, kind: Kind, log: TraceLog) returns (hit: Option<Candidate>)
    requires log.Valid()
    modifies log
    ensures log.Valid()
    ensures hit == HitOf(OfRules(re, source, rs, req, kind))
    ensures log.considered == old(log.considered) + Steps(Seen(OfRules(re, source, rs, req, kind)))
  {
    ghost var all := OfRules(re, source, rs, req, kind);
    var n := Size(rs, kind);
    for i := 0 to n
      invariant log.Valid() && Missed(all[..i])
      invariant log.considered == old(log.considered) + Steps(all[..i])
    {
      var c := RuleAt(re, source, rs, req, kind, i);
      assert all[i] == c;
      log.Record(c.step);
      if c.step.matched {
        SeenHit(all, i);
        return Some(c);
      }
      StepsGrow(all, i);
      MissedGrows(all, i);
    }
    assert all[..n] == all;
    SeenNone(all);
    return None;
  }

  // ---------------------------------------------------------------------------
  // Collecting the groups
  // ---------------------------------------------------------------------------

  /** One of the two loops of effectiveGroups: adds the ids of a list that are new. */
  method CollectIds(list: seq<string>, ids0: seq<string>, seen0: set<string>) returns (ids: seq<string>, seen: set<string>)
    requires Distinct(ids0) && seen0 == Elements(ids0)
    ensures Distinct(ids) && seen == Elements(ids)
    ensures forall id :: id in seen <==> id in seen0 || (id != "" && id in list)
  {
    ids, seen := ids0, seen0;
    for i := 0 to |list|
      invariant Distinct(ids) && seen == Elements(ids)
      invariant forall id :: id in seen <==> id in seen0 || (id != "" && id in list[..i])
    {
      assert list[..i + 1] == list[..i] + [list[i]];
      if list[i] != "" && list[i] !in seen {
        ids := ids + [list[i]];
        seen := seen + {list[i]};
      }
    }
    assert list[..|list|] == list;
  }

  /** The enabled groups among `ids`. */
  function Present(e: Engine, ids: seq<string>): (r: seq<Group>)
  {
    if ids == [] then []
    else
      var id := ids[|ids| - 1];
      var rest := Present(e, ids[..|ids| - 1]);
      if id in e.groups && e.groups[id].enabled then rest + [e.groups[id]] else rest
  }

  lemma {:induction false} PresentMembers(e: Engine, ids: seq<string>, g: Group)
    requires EngineOk(e)
    ensures g in Present(e, ids) <==> g.id in ids && g.id in e.groups && e.groups[g.id] == g && g.enabled
  {
    if ids != [] {
      PresentMembers(e, ids[..|ids| - 1], g);
      assert ids == ids[..|ids| - 1] + [ids[|ids| - 1]];
    }
  }

  lemma {:induction false} PresentDistinct(e: Engine, ids: seq<string>)
    requires EngineOk(e) && Distinct(ids)
    ensures DistinctKeys(Present(e, ids), GroupKey)
  {
    if ids != [] {
      var front := ids[..|ids| - 1];
      PresentDistinct(e, front);
      var rest := Present(e, front);
      forall j | 0 <= j < |rest| ensures rest[j].id != ids[|ids| - 1] {
        PresentMembers(e, front, rest[j]);
      }
    }
  }

  lemma PresentIsEffective(e: Engine, u: User, client: string, ids: seq<string>)
    requires EngineOk(e) && Distinct(ids) && forall id :: id in ids <==> Wants(e, u, client, id)
    ensures IsEffective(e, u, client, StableSort(Present(e, ids), GroupKey))
  {
    var found := Present(e, ids);
    var sorted := StableSort(found, GroupKey);
    PresentDistinct(e, ids);
    SortKeepsDistinct(found, GroupKey);
    SortIsStable(found, GroupKey, Key(0, ""));
    forall g ensures g in sorted <==> g in EffectiveSet(e, u, client) {
      SortMembers(found, GroupKey, g);
      PresentMembers(e, ids, g);
    }
  }

  /** effectiveGroups. */
  method EffectiveGroups(e: Engine, u: User, client: string) returns (groups: seq<Group>)
    requires EngineOk(e)
    ensures IsEffective(e, u, client, groups)
  {
    var ids, seen := CollectIds(u.groupIds, [], {});
    if client in e.clients && e.clients[client].enabled {
      ids, seen := CollectIds(e.clients[client].defaultGroupIds, ids, seen);
    }
    forall id ensures id in ids <==> Wants(e, u, client, id) { assert id in ids <==> id in seen; }
    var found := [];
    for i := 0 to |ids|
      invariant found == Present(e, ids[..i])
    {
      assert ids[..i + 1][..i] == ids[..i];
      if ids[i] in e.groups && e.groups[ids[i]].enabled {
        found := found + [e.groups[ids[i]]];
      }
    }
    assert ids[..|ids|] == ids;
    PresentIsEffective(e, u, client, ids);
    groups := StableSort(found, GroupKey);
  }

  /** The groups of a walk are determined by the sets of ids, not by their order. */
  lemma GroupsAreUnique(e: Engine, u: User, client: string, a: seq<Group>, b: seq<Group>)
    requires IsEffective(e, u, client, a) && IsEffective(e, u, client, b)
    ensures a == b
  {
    forall x ensures x in a <==> x in b { assert x in Elements(a) <==> x in Elements(b); }
    RankedSetIsUnique(a, b, GroupKey);
  }

  // ---------------------------------------------------------------------------
  // Evaluating a request
  // ---------------------------------------------------------------------------

  /** finish: turns a match into a result. */
  method Finish(kind: Kind, ids: seq<string>, steps: seq<TraceStep>, c: Candidate, lim: Limits) returns (res: Answer)
    ensures res == Settled(kind, ids, steps, c, lim)
  {
    var reply := BuildReply(c.action, c.reply, lim);
    match reply
    case None =>
      res := Answer(None, Error, [], Trace(kind, ids, steps, None, "", "invalid reply"));
    case Some(args) =>
      res := Answer(Some(c.action), StatusOf(c.action), args,
                    Trace(kind, ids, steps, Some(Winner(c.step.source, c.step.rule, c.action)), "", ""));
  }

  lemma SeenExtends(a: seq<Candidate>, b: seq<Candidate>)
    requires Missed(a)
    ensures HitOf(a + b) == HitOf(b) && Steps(Seen(a + b)) == Steps(a) + Steps(Seen(b))
  {
    HitSplits(a, b);
    assert Seen(a + b) == a + Seen(b);
    StepsAppend(a, Seen(b));
  }

  lemma SeenStops(a: seq<Candidate>, b: seq<Candidate>)
    requires HitOf(a).Some?
    ensures HitOf(a + b) == HitOf(a) && Seen(a + b) == Seen(a)
  {
    var k := FirstHit(a);
    assert (a + b)[..k] == a[..k];
    FirstHitIs(a + b, k);
  }

  lemma NoneMeansMissed(c: seq<Candidate>)
    requires HitOf(c).None?
    ensures Missed(c)
  {
  }

  /** The rest of evaluate: user rules, groups in order, fallback, until one matches. */
  method WalkAll(re: Regex, e: Engine, u: User, groups: seq<Group>, req: Request, kind: Kind, log: TraceLog)
    returns (hit: Option<Candidate>)
    requires log.Valid() && log.considered == []
    modifies log
    ensures log.Valid()
    ensures hit == HitOf(Chain(re, e, u, groups, req, kind))
    ensures log.considered == Steps(Seen(Chain(re, e, u, groups, req, kind)))
  {
    ghost var own, last := OfRules(re, FromUser, u.rules, req, kind), OfRules(re, FromFallback, e.fallback, req, kind);
    ghost var shared := OfGroups(re, groups, req, kind);
    assert Chain(re, e, u, groups, req, kind) == own + shared + last;
    hit := WalkRules(re, FromUser, u.rules, req, kind, log);
    if hit.Some? {
      SeenStops(own, shared);
      SeenStops(own + shared, last);
      return;
    }
    hit := WalkGroups(re, groups, req, kind, own, log);
    if hit.Some? {
      SeenStops(own + shared, last);
      return;
    }
    NoneMeansMissed(own + shared);
    SeenExtends(own + shared, last);
    SeenNone(own + shared);
    hit := WalkRules(re, FromFallback, e.fallback, req, kind, log);
  }

  /** The loop over the groups, after the user's rules `own` have all missed. */
  method WalkGroups(re: Regex, groups: seq<Group>, req: Request, kind: Kind, ghost own: seq<Candidate>, log: TraceLog)
    returns (hit: Option<Candidate>)
    requires log.Valid() && HitOf(own).None? && log.considered == Steps(Seen(own))
    modifies log
    ensures log.Valid()
    ensures hit == HitOf(own + OfGroups(re, groups, req, kind))
    ensures log.considered == Steps(Seen(own + OfGroups(re, groups, req, kind)))
  {
    assert own + [] == own;
    for i := 0 to |groups|
      invariant log.Valid()
      invariant HitOf(own + OfGroups(re, groups[..i], req, kind)).None?
      invariant log.considered == Steps(Seen(own + OfGroups(re, groups[..i], req, kind)))
    {
      ghost var before := own + OfGroups(re, groups[..i], req, kind);
      ghost var here := OfRules(re, FromGroup(groups[i].id), groups[i].rules, req, kind);
      ghost var rest := OfGroups(re, groups, req, kind);
      NextGroup(re, groups, req, kind, own, i);
      NoneMeansMissed(before);
      SeenNone(before);
      SeenExtends(before, here);
      hit := WalkRules(re, FromGroup(groups[i].id), groups[i].rules, req, kind, log);
      if hit.Some? {
        StopsAt(re, groups, req, kind, own, i + 1);
        return;
      }
    }
    assert groups[..|groups|] == groups;
    return None;
  }

  lemma NextGroup(re: Regex, groups: seq<Group>, req: Request, kind: Kind, own: seq<Candidate>, i: nat)
    requires i < |groups|
    ensures own + OfGroups(re, groups[..i + 1], req, kind)
         == own + OfGroups(re, groups[..i], req, kind) + OfRules(re, FromGroup(groups[i].id), groups[i].rules, req, kind)
  {
    assert groups[..i + 1][..i] == groups[..i];
  }

  /** Once a group has matched, later groups change nothing. */
  lemma {:induction false} StopsAt(re: Regex, groups: seq<Group>, req: Request, kind: Kind, own: seq<Candidate>, i: nat)
    requires i <= |groups| && HitOf(own + OfGroups(re, groups[..i], req, kind)).Some?
    ensures HitOf(own + OfGroups(re, groups, req, kind)) == HitOf(own + OfGroups(re, groups[..i], req, kind))
    ensures Seen(own + OfGroups(re, groups, req, kind)) == Seen(own + OfGroups(re, groups[..i], req, kind))
    decreases |groups| - i
  {
    if i == |groups| {
      assert groups[..i] == groups;
    } else {
      NextGroup(re, groups, req, kind, own, i);
      SeenStops(own + OfGroups(re, groups[..i], req, kind), OfRules(re, FromGroup(groups[i].id), groups[i].rules, req, kind));
      StopsAt(re, groups, req, kind, own, i + 1);
    }
  }

  /** evaluate. */
  method Evaluate(re: Regex, e: Engine, req: Request, kind: Kind) returns (res: Answer, groups: seq<Group>)
    requires EngineOk(e)
    ensures IsVerdict(re, e, req, kind, groups, res)
  {
    groups := [];
    if req.user in e.users && e.users[req.user].enabled {
      groups := EffectiveGroups(e, e.users[req.user], req.client);
    }
    var gate := Gate(e, req);
    if gate.Some? {
      return Denied(kind, GroupIds(groups), [], gate.value), groups;
    }
    var log := new TraceLog(e.limits.maxTraceSteps);
    var hit := WalkAll(re, e, e.users[req.user], groups, req, kind, log);
    match hit
    case Some(c) => res := Finish(kind, GroupIds(groups), log.steps, c, e.limits);
    case None => res := Denied(kind, GroupIds(groups), log.steps, NoRule(kind));
  }
}
