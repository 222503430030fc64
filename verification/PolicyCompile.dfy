/** Compiling the policy of a document (internal/policy/compile.go): rule sets are checked and
    sorted, users, groups and clients are indexed by id. */
module PolicyCompile {
  import opened Basics
  import opened Ranking
  import opened Policy

  datatype Input = Input(users: seq<User>, groups: seq<Group>, clients: seq<Client>, fallback: RuleSet,
                         limits: Limits, now: Option<int>)

  /** What the compiler asks of libraries: RE2 syntax, and the value rules of known attributes. */
  datatype Checks = Checks(patternOk: string -> bool, valueOk: AVPair -> bool)

  predicate ServiceOk(k: Checks, s: Service)
  {
    forall i :: 0 <= i < |s.reply| ==> PairOk(s.reply[i]) && k.valueOk(s.reply[i])
  }

  predicate MatchOk(k: Checks, m: Match) { m.pattern == "" || k.patternOk(m.pattern) }

  predicate CommandOk(k: Checks, c: Command) { MatchOk(k, c.command) && MatchOk(k, c.args) }

  predicate RulesOk(k: Checks, rs: RuleSet)
  {
    && (forall i :: 0 <= i < |rs.services| ==> ServiceOk(k, rs.services[i]))
    && (forall i :: 0 <= i < |rs.commands| ==> CommandOk(k, rs.commands[i]))
  }

  function SortRules(rs: RuleSet): (r: RuleSet) { rs.(commands := StableSort(rs.commands, CommandKey)) }

  function SortGroup(g: Group): (r: Group) { g.(rules := SortRules(g.rules)) }

  function SortUser(u: User): (r: User) { u.(rules := SortRules(u.rules)) }

  /** compileReply's loop. */
  method CheckReply(k: Checks, s: Service) returns (ok: bool)
    ensures ok <==> ServiceOk(k, s)
  {
    for i := 0 to |s.reply|
      invariant forall j :: 0 <= j < i ==> PairOk(s.reply[j]) && k.valueOk(s.reply[j])
    {
      if !PairOk(s.reply[i]) || !k.valueOk(s.reply[i]) { return false; }
    }
    return true;
  }

  /** compileRuleSet: services keep their order, commands are ranked and ties keep theirs. */
  method CompileRuleSet(k: Checks, rs: RuleSet) returns (r: Option<RuleSet>)
    ensures r.Some? <==> RulesOk(k, rs)
    ensures r.Some? ==> r.value == SortRules(rs)
    ensures r.Some? ==> Ranked(r.value.commands, CommandKey) && SameRuns(r.value.commands, rs.commands, CommandKey)
  {
    for i := 0 to |rs.services|
      invariant forall j :: 0 <= j < i ==> ServiceOk(k, rs.services[j])
    {
      var ok := CheckReply(k, rs.services[i]);
      if !ok { return None; }
    }
    for i := 0 to |rs.commands|
      invariant forall j :: 0 <= j < i ==> CommandOk(k, rs.commands[j])
    {
      if !CommandOk(k, rs.commands[i]) { return None; }
    }
    forall key ensures Run(StableSort(rs.commands, CommandKey), CommandKey, key) == Run(rs.commands, CommandKey, key) {
      SortIsStable(rs.commands, CommandKey, key);
    }
    SortIsStable(rs.commands, CommandKey, Key(0, ""));
    return Some(SortRules(rs));
  }

  // ---------------------------------------------------------------------------
  // Indexes by id; a later entry replaces an earlier one
  // ---------------------------------------------------------------------------

  function Index<T>(s: seq<T>, id: T -> string, f: T -> T): (r: map<string, T>)
  {
    if s == [] then map[] else Index(s[..|s| - 1], id, f)[id(s[|s| - 1]) := f(s[|s| - 1])]
  }

  function GroupId(g: Group): (r: string) { g.id }
  function UserId(u: User): (r: string) { u.id }
  function ClientId(c: Client): (r: string) { c.id }
  function Same(c: Client): (r: Client) { c }

  function DefaultTo(v: int, d: int): (r: int) { if v <= 0 then d else v }

  function CompileLimits(l: Limits): (r: Limits)
  {
    Limits(DefaultTo(l.maxArgs, 256), DefaultTo(l.maxArgBytes, 65535), DefaultTo(l.maxTraceSteps, 1000))
  }

  function Compiled(input: Input): (r: Engine)
  {
    Engine(Index(input.users, UserId, SortUser), Index(input.groups, GroupId, SortGroup), Index(input.clients, ClientId, Same),
           SortRules(input.fallback), CompileLimits(input.limits), input.now)
  }

  predicate InputOk(k: Checks, input: Input)
  {
    && (forall i :: 0 <= i < |input.groups| ==> RulesOk(k, input.groups[i].rules))
    && (forall i :: 0 <= i < |input.users| ==> RulesOk(k, input.users[i].rules))
    && RulesOk(k, input.fallback)
  }

  method CompileGroups(k: Checks, groups: seq<Group>) returns (r: Option<map<string, Group>>)
    ensures r.Some? <==> forall i :: 0 <= i < |groups| ==> RulesOk(k, groups[i].rules)
    ensures r.Some? ==> r.value == Index(groups, GroupId, SortGroup)
  {
    var m := map[];
    for i := 0 to |groups|
      invariant forall j :: 0 <= j < i ==> RulesOk(k, groups[j].rules)
      invariant m == Index(groups[..i], GroupId, SortGroup)
    {
      var rules := CompileRuleSet(k, groups[i].rules);
      if rules.None? { return None; }
      assert groups[..i + 1][..i] == groups[..i];
      m := m[groups[i].id := groups[i].(rules := rules.value)];
    }
    assert groups[..|groups|] == groups;
    return Some(m);
  }

  method CompileUsers(k: Checks, users: seq<User>) returns (r: Option<map<string, User>>)
    ensures r.Some? <==> forall i :: 0 <= i < |users| ==> RulesOk(k, users[i].rules)
    ensures r.Some? ==> r.value == Index(users, UserId, SortUser)
  {
    var m := map[];
    for i := 0 to |users|
      invariant forall j :: 0 <= j < i ==> RulesOk(k, users[j].rules)
      invariant m == Index(users[..i], UserId, SortUser)
    {
      var rules := CompileRuleSet(k, users[i].rules);
      if rules.None? { return None; }
      assert users[..i + 1][..i] == users[..i];
      m := m[users[i].id := users[i].(rules := rules.value)];
    }
    assert users[..|users|] == users;
    return Some(m);
  }

  /** Compile: succeeds exactly on well-formed rules. */
  method Compile(k: Checks, input: Input) returns (r: Option<Engine>)
    ensures r.Some? <==> InputOk(k, input)
    ensures r.Some? ==> r.value == Compiled(input) && EngineOk(r.value) && RanksOk(r.value)
  {
    var groups := CompileGroups(k, input.groups);
    if groups.None? { return None; }
    var users := CompileUsers(k, input.users);
    if users.None? { return None; }
    var clients := map[];
    for i := 0 to |input.clients|
      invariant clients == Index(input.clients[..i], ClientId, Same)
    {
      assert input.clients[..i + 1][..i] == input.clients[..i];
      clients := clients[input.clients[i].id := input.clients[i]];
    }
    assert input.clients[..|input.clients|] == input.clients;
    var fallback := CompileRuleSet(k, input.fallback);
    if fallback.None? { return None; }
    CompiledOk(input);
    return Some(Engine(users.value, groups.value, clients, fallback.value, CompileLimits(input.limits), input.now));
  }

  predicate Sorted(rs: RuleSet) { Ranked(rs.commands, CommandKey) }

  /** Every rule set the walk can meet is ranked. */
  ghost predicate RanksOk(e: Engine)
  {
    && Sorted(e.fallback)
    && (forall id :: id in e.users ==> Sorted(e.users[id].rules))
    && (forall id :: id in e.groups ==> Sorted(e.groups[id].rules))
  }

  lemma {:induction false} IndexHolds<T>(s: seq<T>, id: T -> string, f: T -> T, k: string)
    ensures k in Index(s, id, f) <==> exists i :: 0 <= i < |s| && id(s[i]) == k
    ensures k in Index(s, id, f) ==> exists i :: 0 <= i < |s| && id(s[i]) == k && Index(s, id, f)[k] == f(s[i])
  {
    if s != [] {
      var front := s[..|s| - 1];
      IndexHolds(front, id, f, k);
      if id(s[|s| - 1]) != k && k in Index(front, id, f) {
        var i :| 0 <= i < |front| && id(front[i]) == k && Index(front, id, f)[k] == f(front[i]);
        assert s[i] == front[i];
      }
    }
  }

  lemma SortedRules(rs: RuleSet)
    ensures Sorted(SortRules(rs))
  {
    SortIsStable(rs.commands, CommandKey, Key(0, ""));
  }

  lemma CompiledOk(input: Input)
    ensures EngineOk(Compiled(input)) && RanksOk(Compiled(input))
  {
    var e := Compiled(input);
    SortedRules(input.fallback);
    forall id | id in e.groups ensures e.groups[id].id == id && Sorted(e.groups[id].rules) {
      IndexHolds(input.groups, GroupId, SortGroup, id);
      var i :| 0 <= i < |input.groups| && input.groups[i].id == id && e.groups[id] == SortGroup(input.groups[i]);
      SortedRules(input.groups[i].rules);
    }
    forall id | id in e.users ensures Sorted(e.users[id].rules) {
      IndexHolds(input.users, UserId, SortUser, id);
      var i :| 0 <= i < |input.users| && input.users[i].id == id && e.users[id] == SortUser(input.users[i]);
      SortedRules(input.users[i].rules);
    }
  }
}
