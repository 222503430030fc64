/** What the authorization engine promises about every request. */
module PolicyLaws {
  import opened Basics
  import opened Ranking
  import opened Policy
  import opened PolicyCompile

  // ---------------------------------------------------------------------------
  // First match
  // ---------------------------------------------------------------------------

  /** A request is permitted exactly when it passes the gates and the first matching rule permits
      it with a reply that fits; then the whole reply is sent. A rule that would permit with a
      reply that does not fit ends in ERROR, a denial carries no arguments. */
  lemma PermitIffFirstMatchPermits(re: Regex, e: Engine, req: Request, kind: Kind, groups: seq<Group>, res: Answer)
    requires IsVerdict(re, e, req, kind, groups, res)
    ensures Permits(res.status) <==>
              && Gate(e, req).None?
              && var hit := HitOf(Chain(re, e, e.users[req.user], groups, req, kind));
                 hit.Some? && Permits(StatusOf(hit.value.action)) && ReplyFits(hit.value.action, hit.value.reply, e.limits)
    ensures res.status == Error <==>
              && Gate(e, req).None?
              && var hit := HitOf(Chain(re, e, e.users[req.user], groups, req, kind));
                 hit.Some? && (hit.value.action.Unrecognised? || !ReplyFits(hit.value.action, hit.value.reply, e.limits))
    ensures forall i :: 0 <= i < |res.arguments| ==> PairFits(res.arguments[i], e.limits)
    ensures e.limits.maxArgs > 0 ==> |res.arguments| <= e.limits.maxArgs
    ensures res.status == Fail ==> res.arguments == []
  {
    if Gate(e, req).None? {
      var chain := Chain(re, e, e.users[req.user], groups, req, kind);
      if HitOf(chain).None? { SeenNone(chain); }
    }
  }

  ghost predicate AnyMatch(re: Regex, rs: RuleSet, req: Request, kind: Kind)
  {
    exists i :: 0 <= i < Size(rs, kind) && Hit(RuleAt(re, FromFallback, rs, req, kind, i))
  }

  lemma AnyMatchHits(re: Regex, source: Source, rs: RuleSet, req: Request, kind: Kind)
    ensures AnyMatch(re, rs, req, kind) <==> HitOf(OfRules(re, source, rs, req, kind)).Some?
  {
    var c := OfRules(re, source, rs, req, kind);
    forall i | 0 <= i < Size(rs, kind) ensures Hit(RuleAt(re, FromFallback, rs, req, kind, i)) <==> Hit(c[i]) {
    }
    var k := FirstHit(c);
    if k < |c| { assert Hit(RuleAt(re, FromFallback, rs, req, kind, k)); }
  }

  /** Among `groups`, a matching one that no other matching one precedes. */
  ghost predicate LeastMatching(re: Regex, groups: set<Group>, req: Request, kind: Kind, g: Group)
  {
    && g in groups && AnyMatch(re, g.rules, req, kind)
    && forall h :: h in groups && AnyMatch(re, h.rules, req, kind) ==> !Before(GroupKey(h), GroupKey(g))
  }

  /** The first match among ranked groups lies in the least matching one. */
  lemma {:induction false} GroupHit(re: Regex, groups: seq<Group>, req: Request, kind: Kind)
    requires Ranked(groups, GroupKey)
    ensures HitOf(OfGroups(re, groups, req, kind)).None? <==> forall g :: g in groups ==> !AnyMatch(re, g.rules, req, kind)
    ensures HitOf(OfGroups(re, groups, req, kind)).Some? ==>
              exists g :: LeastMatching(re, Elements(groups), req, kind, g)
                       && HitOf(OfGroups(re, groups, req, kind)) == HitOf(OfRules(re, FromGroup(g.id), g.rules, req, kind))
  {
    if groups != [] {
      var n := |groups| - 1;
      var front, last := groups[..n], groups[n];
      var a, b := OfGroups(re, front, req, kind), OfRules(re, FromGroup(last.id), last.rules, req, kind);
      GroupHit(re, front, req, kind);
      AnyMatchHits(re, FromGroup(last.id), last.rules, req, kind);
      assert groups == front + [last];
      if HitOf(a).Some? {
        SeenStops(a, b);
        var g :| LeastMatching(re, Elements(front), req, kind, g) && HitOf(a) == HitOf(OfRules(re, FromGroup(g.id), g.rules, req, kind));
        EarlierIsLeast(re, groups, req, kind, g);
      } else {
        NoneMeansMissed(a);
        SeenExtends(a, b);
        if HitOf(b).Some? {
          BeforeIsTotal(GroupKey(last), GroupKey(last));
          assert LeastMatching(re, Elements(groups), req, kind, last);
        }
      }
    }
  }

  lemma EarlierIsLeast(re: Regex, groups: seq<Group>, req: Request, kind: Kind, g: Group)
    requires Ranked(groups, GroupKey) && groups != []
    requires LeastMatching(re, Elements(groups[..|groups| - 1]), req, kind, g)
    ensures LeastMatching(re, Elements(groups), req, kind, g)
  {
    var n := |groups| - 1;
    var i :| 0 <= i < n && groups[..n][i] == g;
    assert groups == groups[..n] + [groups[n]];
    assert !Before(GroupKey(groups[n]), GroupKey(groups[i]));
  }

  /** The rule that decides: one of the user's if any matches, else one of the least matching
      effective group by (priority, id), else one of the fallback. */
  lemma DecidingSource(re: Regex, e: Engine, u: User, client: string, groups: seq<Group>, req: Request, kind: Kind)
    requires IsEffective(e, u, client, groups)
    ensures
      var hit := HitOf(Chain(re, e, u, groups, req, kind));
      if AnyMatch(re, u.rules, req, kind) then hit == HitOf(OfRules(re, FromUser, u.rules, req, kind))
      else if exists g :: g in EffectiveSet(e, u, client) && AnyMatch(re, g.rules, req, kind)
      then exists g :: LeastMatching(re, EffectiveSet(e, u, client), req, kind, g)
                    && hit == HitOf(OfRules(re, FromGroup(g.id), g.rules, req, kind))
      else hit == HitOf(OfRules(re, FromFallback, e.fallback, req, kind))
  {
    var own, last := OfRules(re, FromUser, u.rules, req, kind), OfRules(re, FromFallback, e.fallback, req, kind);
    var shared := OfGroups(re, groups, req, kind);
    assert Chain(re, e, u, groups, req, kind) == own + shared + last;
    AnyMatchHits(re, FromUser, u.rules, req, kind);
    GroupHit(re, groups, req, kind);
    assert forall g :: g in groups <==> g in EffectiveSet(e, u, client) by { assert forall g :: g in groups <==> g in Elements(groups); }
    if HitOf(own).Some? {
      SeenStops(own, shared);
      SeenStops(own + shared, last);
    } else {
      NoneMeansMissed(own);
      SeenExtends(own, shared);
      if HitOf(shared).Some? {
        SeenStops(own + shared, last);
      } else {
        NoneMeansMissed(own + shared);
        SeenExtends(own + shared, last);
      }
    }
  }

  /** In a sorted rule set, the matching command rule that no other matching one precedes. */
  ghost predicate LeastCommand(re: Regex, rs: RuleSet, req: Request, c: Command)
  {
    && c in rs.commands && CommandMatches(re, c, req)
    && forall d :: d in rs.commands && CommandMatches(re, d, req) ==> !Before(CommandKey(d), CommandKey(c))
  }

  /** Within one rule set the command rule that decides is the least matching one. */
  lemma CommandHitIsLeast(re: Regex, source: Source, rs: RuleSet, req: Request)
    requires Sorted(rs) && AnyMatch(re, rs, req, CommandKind)
    ensures exists c :: LeastCommand(re, rs, req, c)
                     && HitOf(OfRules(re, source, rs, req, CommandKind)) == Some(CommandCandidate(re, source, c, req))
  {
    var all := OfRules(re, source, rs, req, CommandKind);
    AnyMatchHits(re, source, rs, req, CommandKind);
    var k := FirstHit(all);
    var c := rs.commands[k];
    assert all[k] == CommandCandidate(re, source, c, req);
    forall d | d in rs.commands && CommandMatches(re, d, req) ensures !Before(CommandKey(d), CommandKey(c)) {
      var j :| 0 <= j < |rs.commands| && rs.commands[j] == d;
      assert all[j] == CommandCandidate(re, source, d, req);
      assert Hit(all[j]) && k <= j;
      HeadOrEqual(rs, k, j);
    }
    assert LeastCommand(re, rs, req, c);
  }

  lemma HeadOrEqual(rs: RuleSet, k: nat, j: nat)
    requires Sorted(rs) && k <= j < |rs.commands|
    ensures !Before(CommandKey(rs.commands[j]), CommandKey(rs.commands[k]))
  {
    if k == j { BeforeIsTotal(CommandKey(rs.commands[j]), CommandKey(rs.commands[k])); }
  }

  // ---------------------------------------------------------------------------
  // The trace
  // ---------------------------------------------------------------------------

  /** An answer without its recorded steps. */
  function Bare(res: Answer): (r: Answer) { res.(trace := res.trace.(steps := [])) }

  /** The cap on recorded steps changes nothing but the steps, and the shorter record is a
      prefix of the longer one. */
  lemma TraceCapDecidesNothing(re: Regex, e: Engine, cap: int, req: Request, kind: Kind,
                               groups: seq<Group>, res: Answer, groups': seq<Group>, res': Answer)
    requires IsVerdict(re, e, req, kind, groups, res)
    requires IsVerdict(re, e.(limits := e.limits.(maxTraceSteps := cap)), req, kind, groups', res')
    ensures Bare(res) == Bare(res')
    ensures cap <= e.limits.maxTraceSteps ==> res'.trace.steps <= res.trace.steps
  {
    var e' := e.(limits := e.limits.(maxTraceSteps := cap));
    if req.user in e.users && e.users[req.user].enabled {
      var u := e.users[req.user];
      assert EffectiveSet(e, u, req.client) == EffectiveSet(e', u, req.client) by { assert forall id :: Wants(e, u, req.client, id) <==> Wants(e', u, req.client, id); }
      GroupsAreUnique(e, u, req.client, groups, groups');
    }
    if Gate(e, req).None? {
      assert Gate(e', req).None?;
      SameWalk(re, e, e', req, kind, groups, res, res');
    }
  }

  lemma SameWalk(re: Regex, e: Engine, e': Engine, req: Request, kind: Kind, groups: seq<Group>, res: Answer, res': Answer)
    requires req.user in e.users && e' == e.(limits := e.limits.(maxTraceSteps := e'.limits.maxTraceSteps))
    requires IsWalk(re, e, req, kind, groups, Chain(re, e, e.users[req.user], groups, req, kind), res)
    requires IsWalk(re, e', req, kind, groups, Chain(re, e', e'.users[req.user], groups, req, kind), res')
    ensures Bare(res) == Bare(res')
    ensures e'.limits.maxTraceSteps <= e.limits.maxTraceSteps ==> res'.trace.steps <= res.trace.steps
  {
    var chain := Chain(re, e, e.users[req.user], groups, req, kind);
    assert chain == Chain(re, e', e'.users[req.user], groups, req, kind);
    if HitOf(chain).Some? {
      var c := HitOf(chain).value;
      assert ReplyFits(c.action, c.reply, e.limits) <==> ReplyFits(c.action, c.reply, e'.limits);
    }
  }

  // ---------------------------------------------------------------------------
  // Order of the configuration
  // ---------------------------------------------------------------------------

  /** Command rules may move as long as rules with equal (priority, id) keep their order. */
  ghost predicate SameRules(a: RuleSet, b: RuleSet)
  {
    a.services == b.services && SameRuns(a.commands, b.commands, CommandKey)
  }

  ghost predicate SameGroup(a: Group, b: Group)
  {
    a.id == b.id && a.enabled == b.enabled && a.priority == b.priority && SameRules(a.rules, b.rules)
  }

  ghost predicate SameUser(a: User, b: User)
  {
    && a == b.(groupIds := a.groupIds, clientIds := a.clientIds, rules := a.rules)
    && Elements(a.groupIds) == Elements(b.groupIds) && Elements(a.clientIds) == Elements(b.clientIds)
    && SameRules(a.rules, b.rules)
  }

  ghost predicate SameClient(a: Client, b: Client)
  {
    a.id == b.id && a.enabled == b.enabled && Elements(a.defaultGroupIds) == Elements(b.defaultGroupIds)
  }

  ghost predicate HasGroup(x: Group, s: seq<Group>) { exists y :: y in s && SameGroup(x, y) }

  ghost predicate SameGroups(a: seq<Group>, b: seq<Group>)
  {
    && DistinctIds(a, GroupId) && DistinctIds(b, GroupId)
    && (forall x :: x in a ==> HasGroup(x, b)) && (forall y :: y in b ==> HasGroup(y, a))
  }

  ghost predicate HasUser(x: User, s: seq<User>) { exists y :: y in s && SameUser(x, y) }

  ghost predicate SameUsers(a: seq<User>, b: seq<User>)
  {
    && DistinctIds(a, UserId) && DistinctIds(b, UserId)
    && (forall x :: x in a ==> HasUser(x, b)) && (forall y :: y in b ==> HasUser(y, a))
  }

  ghost predicate HasClient(x: Client, s: seq<Client>) { exists y :: y in s && SameClient(x, y) }

  ghost predicate SameClients(a: seq<Client>, b: seq<Client>)
  {
    && DistinctIds(a, ClientId) && DistinctIds(b, ClientId)
    && (forall x :: x in a ==> HasClient(x, b)) && (forall y :: y in b ==> HasClient(y, a))
  }

  /** Two documents that differ in order only. */
  ghost predicate SameInput(a: Input, b: Input)
  {
    && SameGroups(a.groups, b.groups) && SameUsers(a.users, b.users) && SameClients(a.clients, b.clients)
    && SameRules(a.fallback, b.fallback) && a.limits == b.limits && a.now == b.now
  }

  lemma SameRulesSortAlike(a: RuleSet, b: RuleSet)
    ensures SameRules(a, b) <==> SortRules(a) == SortRules(b)
  {
    SortDependsOnRuns(a.commands, b.commands, CommandKey);
  }

  lemma IndexAt<T>(s: seq<T>, id: T -> string, f: T -> T, x: T)
    requires DistinctIds(s, id) && x in s
    ensures id(x) in Index(s, id, f) && Index(s, id, f)[id(x)] == f(x)
  {
    var k :| 0 <= k < |s| && s[k] == x;
    IndexHolds(s, id, f, id(x));
    var i :| 0 <= i < |s| && id(s[i]) == id(x) && Index(s, id, f)[id(x)] == f(s[i]);
    assert i == k;
  }

  lemma FromIndex<T>(s: seq<T>, id: T -> string, f: T -> T, k: string) returns (x: T)
    requires DistinctIds(s, id) && k in Index(s, id, f)
    ensures x in s && id(x) == k && Index(s, id, f)[k] == f(x)
  {
    IndexHolds(s, id, f, k);
    var i :| 0 <= i < |s| && id(s[i]) == k && Index(s, id, f)[k] == f(s[i]);
    x := s[i];
  }

  lemma GroupAt(a: seq<Group>, b: seq<Group>, k: string)
    requires SameGroups(a, b) && k in Index(a, GroupId, SortGroup)
    ensures k in Index(b, GroupId, SortGroup) && Index(a, GroupId, SortGroup)[k] == Index(b, GroupId, SortGroup)[k]
  {
    var x := FromIndex(a, GroupId, SortGroup, k);
    assert HasGroup(x, b);
    var y :| y in b && SameGroup(x, y);
    IndexAt(b, GroupId, SortGroup, y);
    SameRulesSortAlike(x.rules, y.rules);
  }

  lemma GroupAlike(a: Input, b: Input, k: string)
    requires SameInput(a, b) && k in Compiled(a).groups
    ensures k in Compiled(b).groups && Compiled(a).groups[k] == Compiled(b).groups[k]
  {
    GroupAt(a.groups, b.groups, k);
  }

  lemma GroupsAlike(a: Input, b: Input)
    requires SameInput(a, b)
    ensures Compiled(a).groups == Compiled(b).groups
  {
    assert SameInput(b, a);
    forall k ensures k in Compiled(a).groups <==> k in Compiled(b).groups {
      if k in Compiled(a).groups { GroupAlike(a, b, k); }
      if k in Compiled(b).groups { GroupAlike(b, a, k); }
    }
    forall k | k in Compiled(a).groups ensures Compiled(a).groups[k] == Compiled(b).groups[k] { GroupAlike(a, b, k); }
  }

  lemma SortedUsersAlike(x: User, y: User)
    requires SameUser(x, y)
    ensures SameUser(SortUser(x), SortUser(y)) && SortUser(x).rules == SortUser(y).rules
  {
    SameRulesSortAlike(x.rules, y.rules);
    SameRulesSortAlike(SortRules(x.rules), SortRules(x.rules));
  }

  lemma UserAt(a: seq<User>, b: seq<User>, k: string)
    requires SameUsers(a, b) && k in Index(a, UserId, SortUser)
    ensures k in Index(b, UserId, SortUser) && SameUser(Index(a, UserId, SortUser)[k], Index(b, UserId, SortUser)[k])
    ensures Index(a, UserId, SortUser)[k].rules == Index(b, UserId, SortUser)[k].rules
  {
    var x := FromIndex(a, UserId, SortUser, k);
    assert HasUser(x, b);
    var y :| y in b && SameUser(x, y);
    IndexAt(b, UserId, SortUser, y);
    SortedUsersAlike(x, y);
  }

  lemma UserAlike(a: Input, b: Input, k: string)
    requires SameInput(a, b) && k in Compiled(a).users
    ensures k in Compiled(b).users && SameUser(Compiled(a).users[k], Compiled(b).users[k])
    ensures Compiled(a).users[k].rules == Compiled(b).users[k].rules
  {
    UserAt(a.users, b.users, k);
  }

  lemma ClientAt(a: seq<Client>, b: seq<Client>, k: string)
    requires SameClients(a, b) && k in Index(a, ClientId, Same)
    ensures k in Index(b, ClientId, Same) && SameClient(Index(a, ClientId, Same)[k], Index(b, ClientId, Same)[k])
  {
    var x := FromIndex(a, ClientId, Same, k);
    assert HasClient(x, b);
    var y :| y in b && SameClient(x, y);
    IndexAt(b, ClientId, Same, y);
  }

  lemma ClientAlike(a: Input, b: Input, k: string)
    requires SameInput(a, b) && k in Compiled(a).clients
    ensures k in Compiled(b).clients && SameClient(Compiled(a).clients[k], Compiled(b).clients[k])
  {
    ClientAt(a.clients, b.clients, k);
  }

  /** The same groups are wanted. */
  lemma WantsAlike(a: Input, b: Input, user: string, client: string, id: string)
    requires SameInput(a, b) && user in Compiled(a).users
    ensures user in Compiled(b).users
    ensures Wants(Compiled(a), Compiled(a).users[user], client, id) <==> Wants(Compiled(b), Compiled(b).users[user], client, id)
  {
    UserAlike(a, b, user);
    var u, v := Compiled(a).users[user], Compiled(b).users[user];
    assert id in u.groupIds <==> id in Elements(u.groupIds);
    assert id in v.groupIds <==> id in Elements(v.groupIds);
    assert SameInput(b, a);
    if client in Compiled(a).clients {
      ClientAlike(a, b, client);
      var c, d := Compiled(a).clients[client], Compiled(b).clients[client];
      assert id in c.defaultGroupIds <==> id in Elements(c.defaultGroupIds);
      assert id in d.defaultGroupIds <==> id in Elements(d.defaultGroupIds);
    } else if client in Compiled(b).clients {
      ClientAlike(b, a, client);
    }
  }

  lemma GateAlike(a: Input, b: Input, req: Request)
    requires SameInput(a, b)
    ensures Gate(Compiled(a), req) == Gate(Compiled(b), req)
  {
    assert SameInput(b, a);
    if req.user in Compiled(a).users {
      UserAlike(a, b, req.user);
      var u, v := Compiled(a).users[req.user], Compiled(b).users[req.user];
      assert forall id :: id in u.clientIds <==> id in Elements(u.clientIds);
      assert forall id :: id in v.clientIds <==> id in Elements(v.clientIds);
      assert u.clientIds == [] <==> v.clientIds == [] by {
        if u.clientIds != [] { assert u.clientIds[0] in Elements(v.clientIds); }
        if v.clientIds != [] { assert v.clientIds[0] in Elements(u.clientIds); }
      }
    } else if req.user in Compiled(b).users {
      UserAlike(b, a, req.user);
    }
  }

  lemma GroupsForAlike(a: Input, b: Input, req: Request, groups: seq<Group>, groups': seq<Group>)
    requires SameInput(a, b)
    requires GroupsFor(Compiled(a), req, groups) && GroupsFor(Compiled(b), req, groups')
    ensures groups == groups'
  {
    var e, e' := Compiled(a), Compiled(b);
    if req.user in e.users && e.users[req.user].enabled {
      UserAlike(a, b, req.user);
      var u, v := e.users[req.user], e'.users[req.user];
      GroupsAlike(a, b);
      forall id ensures Wants(e, u, req.client, id) <==> Wants(e', v, req.client, id) { WantsAlike(a, b, req.user, req.client, id); }
      assert EffectiveSet(e, u, req.client) == EffectiveSet(e', v, req.client);
      GroupsAreUnique(e, u, req.client, groups, groups');
    } else if req.user in e'.users {
      assert SameInput(b, a);
      UserAlike(b, a, req.user);
    }
  }

  /** Reordering users, groups, clients, their id lists or command rules with different
      (priority, id) changes no answer, not even its trace. */
  lemma OrderChangesNothing(re: Regex, a: Input, b: Input, req: Request, kind: Kind,
                            groups: seq<Group>, res: Answer, groups': seq<Group>, res': Answer)
    requires SameInput(a, b)
    requires IsVerdict(re, Compiled(a), req, kind, groups, res)
    requires IsVerdict(re, Compiled(b), req, kind, groups', res')
    ensures res == res'
  {
    GroupsForAlike(a, b, req, groups, groups');
    GateAlike(a, b, req);
    if Gate(Compiled(a), req).None? {
      UserAlike(a, b, req.user);
      SameRulesSortAlike(a.fallback, b.fallback);
      assert Chain(re, Compiled(a), Compiled(a).users[req.user], groups, req, kind)
          == Chain(re, Compiled(b), Compiled(b).users[req.user], groups, req, kind);
    }
  }
}
