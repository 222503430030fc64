/** The overlay and snapshot manager of internal/state: copy, edit, prune, compile,
    publish, under a compare-on-revision rule. */
module StateManager {
  import opened Basics
  import opened StateModel
  import opened StateMerge
  import opened StateTokens
  import opened StateEdits

  /** SHA-256 and the baseline fingerprint, left open. */
  datatype Hashes = Hashes(sha: Bytes -> Digest, baseline: Document -> string)

  /** One mutation's surroundings: the clock, the secret reader, and the first objection of the
      configuration validators and index compilers, if they have one. */
  datatype Env = Env(now: int, lookup: SecretLookup, objection: (Document, Overlay) -> Option<Code>)

  datatype State = State(baseline: Document, overlay: Overlay, stamps: Stamps, revision: nat, current: Snapshot)

  // ---------------------------------------------------------------------------
  // Compilation
  // ---------------------------------------------------------------------------

  function VaultOf(h: Hashes, base: Document, ov: Overlay, env: Env): (r: Vault)
  {
    Vault(h.sha, env.lookup, base.tokens, ov.tokens)
  }

  function LiveTokens(base: Document, ov: Overlay): (r: set<string>)
  {
    set id | id in IdsOf(base.tokens) + ov.tokens.Keys && Lookup(base.tokens, ov.tokens, id).Some?
  }

  ghost predicate TooManyTokens(base: Document, ov: Overlay)
  {
    base.maxTokens > 0 && |LiveTokens(base, ov)| > base.maxTokens
  }

  /** The code of the first thing that is wrong, in the compiler's order: the number of tokens, the
      validators and index compilers, the token digests. */
  ghost predicate Complains(h: Hashes, base: Document, ov: Overlay, env: Env, c: Code)
  {
    if TooManyTokens(base, ov) then c == LimitExceeded
    else if env.objection(base, ov).Some? then c == env.objection(base, ov).value
    else Unindexable(VaultOf(h, base, ov, env), c)
  }

  ghost predicate Compilable(h: Hashes, base: Document, ov: Overlay, env: Env)
  {
    && !TooManyTokens(base, ov) && env.objection(base, ov).None?
    && VaultOf(h, base, ov, env).Resolvable() && VaultOf(h, base, ov, env).Unshared()
  }

  /** What the compiler is given besides the two layers. */
  datatype Job = Job(stamps: Stamps, prev: Option<Snapshot>, revision: nat, touch: bool)

  ghost predicate GenerationsFrom(prev: Option<Snapshot>, s: Snapshot)
  {
    match prev
    case None => s.generations.Keys == s.tokens.Keys && forall id :: id in s.generations ==> s.generations[id] == s.revision
    case Some(p) => Succeeds(p, s)
  }

  /** The merged kinds, before tokens are indexed. */
  datatype Merged = Merged(
    users: map<string, Eff<User>>, groups: map<string, Eff<Group>>, clients: map<string, Eff<Client>>,
    tokens: map<string, Eff<Token>>, tombs: Tombs, stamps: Stamps)

  ghost predicate AllMerged(m: Merged, j: Job, base: Document, ov: Overlay, now: int)
  {
    && KindCompiled(m.users, m.tombs.users, m.stamps.users, j.stamps.users, base.users, ov.users, j.revision, now, j.touch)
    && KindCompiled(m.groups, m.tombs.groups, m.stamps.groups, j.stamps.groups, base.groups, ov.groups, j.revision, now, j.touch)
    && KindCompiled(m.clients, m.tombs.clients, m.stamps.clients, j.stamps.clients, base.clients, ov.clients, j.revision, now, j.touch)
    && KindCompiled(m.tokens, m.tombs.tokens, m.stamps.tokens, j.stamps.tokens, base.tokens, ov.tokens, j.revision, now, j.touch)
  }

  function MergedOf(s: Snapshot, next: Stamps): (r: Merged)
  {
    Merged(s.users, s.groups, s.clients, s.tokens, s.tombstones, next)
  }

  ghost predicate Compiles(h: Hashes, j: Job, base: Document, ov: Overlay, env: Env, s: Snapshot, next: Stamps)
  {
    && s.revision == j.revision
    && s.baselineHash == (if j.touch || j.prev.None? then h.baseline(base) else j.prev.value.baselineHash)
    && AllMerged(MergedOf(s, next), j, base, ov, env.now)
    && Inverse(s.digests, s.index) && VaultOf(h, base, ov, env).Binds(s.digests)
    && GenerationsFrom(j.prev, s)
  }

  method MergeAll(j: Job, base: Document, ov: Overlay, now: int) returns (m: Merged)
    requires DocumentOk(base) && OverlayOk(ov, j.revision)
    ensures AllMerged(m, j, base, ov, now)
  {
    var rev := j.revision;
    var users, userTombs, userStamps := CompileKind(base.users, ov.users, j.stamps.users, rev, now, j.touch);
    var groups, groupTombs, groupStamps := CompileKind(base.groups, ov.groups, j.stamps.groups, rev, now, j.touch);
    var clients, clientTombs, clientStamps := CompileKind(base.clients, ov.clients, j.stamps.clients, rev, now, j.touch);
    var tokens, tokenTombs, tokenStamps := CompileKind(base.tokens, ov.tokens, j.stamps.tokens, rev, now, j.touch);
    m := Merged(users, groups, clients, tokens, Tombs(userTombs, groupTombs, clientTombs, tokenTombs),
                Stamps(userStamps, groupStamps, clientStamps, tokenStamps));
  }

  lemma LiveTokensOf(base: Document, ov: Overlay, eff: map<string, Eff<Token>>, st: map<string, Stamp>, rev: nat)
    requires IsMerged(eff, base.tokens, ov.tokens, st, rev)
    ensures eff.Keys == LiveTokens(base, ov)
  {
  }

  /** The generation loop: a token keeps its generation or gets the new revision. */
  method Generations(prev: Option<Snapshot>, tokens: map<string, Eff<Token>>, digests: map<string, Digest>, rev: nat)
    returns (g: map<string, nat>)
    requires prev.Some? ==> rev == prev.value.revision + 1
    ensures g.Keys == tokens.Keys
    ensures forall id :: id in g ==>
                           g[id] == if prev.None? then rev else NextGeneration(prev.value, digests, rev, id, tokens[id])
  {
    g := map[];
    var rest := tokens.Keys;
    while rest != {}
      invariant rest <= tokens.Keys && g.Keys == tokens.Keys - rest
      invariant forall id :: id in g ==>
                               g[id] == if prev.None? then rev else NextGeneration(prev.value, digests, rev, id, tokens[id])
    {
      var id :| id in rest;
      var gen := rev;
      if prev.Some? && id in prev.value.tokens && id in prev.value.generations {
        if SameCredential(prev.value, digests, id) && SameToken(prev.value.tokens[id], tokens[id]) {
          gen := prev.value.generations[id];
        }
      }
      g := g[id := gen];
      rest := rest - {id};
    }
  }

  method Compile(h: Hashes, j: Job, base: Document, ov: Overlay, env: Env) returns (r: Result<(Snapshot, Stamps), Code>)
    requires DocumentOk(base) && OverlayOk(ov, j.revision)
    requires j.prev.Some? ==> j.revision == j.prev.value.revision + 1
    ensures r.Ok? <==> Compilable(h, base, ov, env)
    ensures r.Ok? ==> Compiles(h, j, base, ov, env, r.value.0, r.value.1)
    ensures r.Err? ==> Complains(h, base, ov, env, r.error)
  {
    var m := MergeAll(j, base, ov, env.now);
    LiveTokensOf(base, ov, m.tokens, m.stamps.tokens, j.revision);
    if base.maxTokens > 0 && |m.tokens.Keys| > base.maxTokens {
      return Err(LimitExceeded);
    }
    var objection := env.objection(base, ov);
    if objection.Some? {
      return Err(objection.value);
    }
    var hash := if j.prev.Some? && !j.touch then j.prev.value.baselineHash else h.baseline(base);
    var index := IndexDigests(VaultOf(h, base, ov, env));
    if index.Err? {
      return Err(index.error);
    }
    var gens := Generations(j.prev, m.tokens, index.value.0, j.revision);
    var s := Snapshot(j.revision, hash, m.users, m.groups, m.clients, m.tokens, gens, index.value.0, index.value.1, m.tombs);
    return Ok((s, m.stamps));
  }

  // ---------------------------------------------------------------------------
  // The invariant of every published state
  // ---------------------------------------------------------------------------

  ghost predicate StampsOk(st: map<string, Stamp>, rev: nat)
  {
    forall id :: id in st ==> 1 <= st[id].created <= st[id].updated <= rev
  }

  ghost predicate KindOk<T>(
    eff: map<string, Eff<T>>, tombs: seq<Tombstone>, base: seq<Obj<T>>, ov: Layer<T>, st: map<string, Stamp>, rev: nat)
  {
    && UniqueIds(base) && LayerOk(ov, rev) && StampsOk(st, rev)
    && IsMerged(eff, base, ov, st, rev) && TombsExactly(tombs, ov)
  }

  ghost predicate Inv(h: Hashes, s: State)
  {
    var snap, rev := s.current, s.revision;
    && rev >= 1 && snap.revision == rev
    && snap.baselineHash == h.baseline(s.baseline)
    && KindOk(snap.users, snap.tombstones.users, s.baseline.users, s.overlay.users, s.stamps.users, rev)
    && KindOk(snap.groups, snap.tombstones.groups, s.baseline.groups, s.overlay.groups, s.stamps.groups, rev)
    && KindOk(snap.clients, snap.tombstones.clients, s.baseline.clients, s.overlay.clients, s.stamps.clients, rev)
    && KindOk(snap.tokens, snap.tombstones.tokens, s.baseline.tokens, s.overlay.tokens, s.stamps.tokens, rev)
    && Inverse(snap.digests, snap.index) && snap.digests.Keys <= snap.tokens.Keys
    && Generated(snap)
  }

  lemma KindKept<T>(
    eff: map<string, Eff<T>>, tombs: seq<Tombstone>, next: map<string, Stamp>, born: map<string, Stamp>,
    base: seq<Obj<T>>, ov: Layer<T>, rev: nat, now: int, touch: bool)
    requires KindCompiled(eff, tombs, next, born, base, ov, rev, now, touch)
    requires UniqueIds(base) && LayerOk(ov, rev) && rev >= 1
    requires born == map[] || StampsOk(born, rev - 1)
    ensures KindOk(eff, tombs, base, ov, next, rev)
  {
  }

  lemma LaterLayer<T>(ov: Layer<T>, rev: nat)
    requires LayerOk(ov, rev)
    ensures LayerOk(ov, rev + 1)
  {
  }

  lemma BoundAreLive(v: Vault, eff: map<string, Eff<Token>>, st: map<string, Stamp>, rev: nat, digests: map<string, Digest>)
    requires IsMerged(eff, v.base, v.ov, st, rev) && v.Binds(digests)
    ensures digests.Keys <= eff.Keys
  {
    forall id | id in digests
      ensures id in eff
    {
      assert v.Binding(id).Bound?;
    }
  }

  lemma NextGenerated(prev: Snapshot, s: Snapshot)
    requires Generated(prev) && Succeeds(prev, s)
    ensures Generated(s)
  {
  }

  // ---------------------------------------------------------------------------
  // One mutation
  // ---------------------------------------------------------------------------

  /** Verifiers are checked before the revision is. */
  predicate Malformed(e: Edit)
  {
    (e.OverrideLogin? || e.OverrideEnable?) && e.verifier.None?
  }

  datatype Input = Input(expected: Option<nat>, edit: Edit, env: Env)

  function BaseAfter(s: State, e: Edited): (r: Document)
  {
    match e.base case None => s.baseline case Some(d) => d
  }

  ghost predicate Publishes(h: Hashes, s: State, e: Edited, env: Env, t: State)
  {
    && t.baseline == BaseAfter(s, e) && t.overlay == e.overlay && t.revision == s.revision + 1
    && Compiles(h, Job(s.stamps, Some(s.current), s.revision + 1, e.base.Some?), t.baseline, e.overlay, env, t.current, t.stamps)
  }

  /** All or nothing: an input that is refused leaves the state as it was, for a
      reason that is named exactly; any other input publishes the next revision.
      `a` is what the operation's edit made of the current layers. */
  ghost predicate Outcome(h: Hashes, s: State, i: Input, a: Result<Edited, Code>, r: Option<Code>, t: State)
  {
    if Malformed(i.edit) then r == Some(InvalidArgument) && t == s
    else if i.expected.Some? && i.expected.value != s.revision then r == Some(RevisionMismatch) && t == s
    else
      match a
      case Err(c) => r == Some(c) && t == s
      case Ok(e) =>
        && (r.None? <==> Compilable(h, BaseAfter(s, e), e.overlay, i.env))
        && (r.Some? ==> t == s && Complains(h, BaseAfter(s, e), e.overlay, i.env, r.value))
        && (r.None? ==> Publishes(h, s, e, i.env, t))
  }

  /** Compiles the state an edit leads to, without touching the manager. */
  method Build(h: Hashes, s: State, e: Edited, env: Env) returns (r: Result<State, Code>)
    requires DocumentOk(s.baseline) && s.current.revision == s.revision && EditedOk(Ok(e), s.revision + 1)
    ensures r.Ok? <==> Compilable(h, BaseAfter(s, e), e.overlay, env)
    ensures r.Ok? ==> Publishes(h, s, e, env, r.value)
    ensures r.Err? ==> Complains(h, BaseAfter(s, e), e.overlay, env, r.error)
  {
    var base := BaseAfter(s, e);
    var c := Compile(h, Job(s.stamps, Some(s.current), s.revision + 1, e.base.Some?), base, e.overlay, env);
    if c.Err? {
      return Err(c.error);
    }
    return Ok(State(base, e.overlay, c.value.1, s.revision + 1, c.value.0));
  }

  /** The first snapshot: revision 1 over an empty overlay. */
  ghost predicate Initial(h: Hashes, d: Document, env: Env, s: State)
  {
    && s.baseline == d && s.overlay == EmptyOverlay && s.revision == 1
    && Compiles(h, Job(NoStamps, None, 1, true), d, EmptyOverlay, env, s.current, s.stamps)
  }

  ghost predicate StampsAllOk(st: Stamps, rev: nat)
  {
    StampsOk(st.users, rev) && StampsOk(st.groups, rev) && StampsOk(st.clients, rev) && StampsOk(st.tokens, rev)
  }

  lemma CompiledIsInv(h: Hashes, j: Job, env: Env, s: State)
    requires Compiles(h, j, s.baseline, s.overlay, env, s.current, s.stamps)
    requires j.revision == s.revision >= 1 && DocumentOk(s.baseline) && OverlayOk(s.overlay, s.revision)
    requires j.stamps == NoStamps || StampsAllOk(j.stamps, j.revision - 1)
    requires j.prev.Some? ==> Generated(j.prev.value) && (!j.touch ==> j.prev.value.baselineHash == h.baseline(s.baseline))
    ensures Inv(h, s)
  {
    var m, rev, now := MergedOf(s.current, s.stamps), s.revision, env.now;
    KindKept(m.users, m.tombs.users, m.stamps.users, j.stamps.users, s.baseline.users, s.overlay.users, rev, now, j.touch);
    KindKept(m.groups, m.tombs.groups, m.stamps.groups, j.stamps.groups, s.baseline.groups, s.overlay.groups, rev, now, j.touch);
    KindKept(m.clients, m.tombs.clients, m.stamps.clients, j.stamps.clients, s.baseline.clients, s.overlay.clients, rev, now, j.touch);
    KindKept(m.tokens, m.tombs.tokens, m.stamps.tokens, j.stamps.tokens, s.baseline.tokens, s.overlay.tokens, rev, now, j.touch);
    BoundAreLive(VaultOf(h, s.baseline, s.overlay, env), m.tokens, m.stamps.tokens, rev, s.current.digests);
    if j.prev.Some? {
      NextGenerated(j.prev.value, s.current);
    }
  }

  lemma InvParts(h: Hashes, s: State)
    requires Inv(h, s)
    ensures DocumentOk(s.baseline) && OverlayOk(s.overlay, s.revision) && OverlayOk(s.overlay, s.revision + 1)
    ensures StampsAllOk(s.stamps, s.revision) && Generated(s.current)
  {
    LaterLayer(s.overlay.users, s.revision);
    LaterLayer(s.overlay.groups, s.revision);
    LaterLayer(s.overlay.clients, s.revision);
    LaterLayer(s.overlay.tokens, s.revision);
  }

  lemma PublishKeepsInv(h: Hashes, s: State, e: Edited, env: Env, t: State)
    requires Inv(h, s) && Publishes(h, s, e, env, t)
    requires EditedOk(Ok(e), s.revision + 1)
    ensures Inv(h, t) && t.revision == s.revision + 1 && Succeeds(s.current, t.current)
  {
    InvParts(h, s);
    CompiledIsInv(h, Job(s.stamps, Some(s.current), s.revision + 1, e.base.Some?), env, t);
  }

  /** Every mutation keeps the invariant; success raises the revision by exactly
      one, failure changes nothing. */
  lemma MutationKeepsInv(h: Hashes, s: State, i: Input, a: Result<Edited, Code>, r: Option<Code>, t: State)
    requires Inv(h, s) && EditedOk(a, s.revision + 1) && Outcome(h, s, i, a, r, t)
    ensures Inv(h, t)
    ensures r.None? ==> t.revision == s.revision + 1 && Succeeds(s.current, t.current)
    ensures r.Some? ==> t == s
  {
    if r.None? {
      PublishKeepsInv(h, s, a.value, i.env, t);
    }
  }

  lemma InitialIsInv(h: Hashes, d: Document, env: Env, s: State)
    requires DocumentOk(d) && Initial(h, d, env, s)
    ensures Inv(h, s)
  {
    CompiledIsInv(h, Job(NoStamps, None, 1, true), env, s);
  }

  // ---------------------------------------------------------------------------
  // Runs
  // ---------------------------------------------------------------------------

  /** A run: every input with what its edit produced, its result and the state after it. */
  datatype Run = Run(
    states: seq<State>, inputs: seq<Input>, edits: seq<Result<Edited, Code>>, results: seq<Option<Code>>)

  ghost predicate Shaped(run: Run)
  {
    |run.states| == |run.inputs| + 1 && |run.inputs| == |run.edits| == |run.results|
  }

  /** What the edit closure of input `i` makes of state `s`. */
  ghost predicate IsEdit(s: State, i: Input, a: Result<Edited, Code>)
  {
    EditOk(i.edit) && a == Apply(s.baseline, s.overlay, i.edit, s.revision + 1, i.env.now)
  }

  ghost predicate EditedAt(run: Run, k: nat)
    requires Shaped(run) && k < |run.inputs|
  {
    IsEdit(run.states[k], run.inputs[k], run.edits[k])
  }

  ghost predicate SteppedAt(h: Hashes, run: Run, k: nat)
    requires Shaped(run) && k < |run.inputs|
  {
    Outcome(h, run.states[k], run.inputs[k], run.edits[k], run.results[k], run.states[k + 1])
  }

  ghost predicate StartedAt(h: Hashes, d: Document, env: Env, run: Run, k: nat)
    requires Shaped(run)
  {
    k == 0 ==> DocumentOk(d) && Initial(h, d, env, run.states[0])
  }

  /** A run of a new manager over document `d`. */
  ghost predicate IsRun(h: Hashes, d: Document, env: Env, run: Run)
  {
    && Shaped(run)
    && (forall k {:trigger StartedAt(h, d, env, run, k)} :: 0 <= k < |run.states| ==> StartedAt(h, d, env, run, k))
    && (forall k {:trigger EditedAt(run, k)} :: 0 <= k < |run.inputs| ==> EditedAt(run, k))
    && (forall k {:trigger SteppedAt(h, run, k)} :: 0 <= k < |run.inputs| ==> SteppedAt(h, run, k))
  }

  lemma {:induction false} RunKeepsLayers(h: Hashes, d: Document, env: Env, run: Run, k: nat)
    requires IsRun(h, d, env, run) && k < |run.states|
    ensures OverlayOk(run.states[k].overlay, run.states[k].revision) && run.states[k].revision >= 1
  {
    if k == 0 {
      assert StartedAt(h, d, env, run, 0);
      StartLayers(h, d, env, run.states[0]);
    } else {
      RunKeepsLayers(h, d, env, run, k - 1);
      EditAtOk(h, d, env, run, k - 1);
      assert SteppedAt(h, run, k - 1);
      LayersStep(h, run.states[k - 1], run.inputs[k - 1], run.edits[k - 1], run.results[k - 1], run.states[k]);
    }
  }

  lemma StartLayers(h: Hashes, d: Document, env: Env, s: State)
    requires Initial(h, d, env, s)
    ensures OverlayOk(s.overlay, s.revision) && s.revision >= 1
  {
  }

  lemma EditAtOk(h: Hashes, d: Document, env: Env, run: Run, k: nat)
    requires IsRun(h, d, env, run) && k < |run.inputs|
    requires OverlayOk(run.states[k].overlay, run.states[k].revision)
    ensures EditedOk(run.edits[k], run.states[k].revision + 1)
  {
    assert EditedAt(run, k);
    EditIsOk(run.states[k], run.inputs[k], run.edits[k]);
  }

  lemma EditIsOk(s: State, i: Input, a: Result<Edited, Code>)
    requires IsEdit(s, i, a) && OverlayOk(s.overlay, s.revision)
    ensures EditedOk(a, s.revision + 1)
  {
    EditKeepsOverlay(s, i);
  }

  lemma EditKeepsOverlay(s: State, i: Input)
    requires OverlayOk(s.overlay, s.revision) && EditOk(i.edit)
    ensures EditedOk(Apply(s.baseline, s.overlay, i.edit, s.revision + 1, i.env.now), s.revision + 1)
  {
    LaterOverlay(s.overlay, s.revision);
    ApplyKeepsOverlay(s.baseline, s.overlay, i.edit, s.revision + 1, i.env.now);
  }

  lemma LayersStep(h: Hashes, s: State, i: Input, a: Result<Edited, Code>, r: Option<Code>, t: State)
    requires OverlayOk(s.overlay, s.revision) && s.revision >= 1
    requires EditedOk(a, s.revision + 1) && Outcome(h, s, i, a, r, t)
    ensures OverlayOk(t.overlay, t.revision) && t.revision >= 1
  {
  }

  lemma LaterOverlay(ov: Overlay, rev: nat)
    requires OverlayOk(ov, rev)
    ensures OverlayOk(ov, rev + 1)
  {
    LaterLayer(ov.users, rev);
    LaterLayer(ov.groups, rev);
    LaterLayer(ov.clients, rev);
    LaterLayer(ov.tokens, rev);
  }

  /** Every state of every run satisfies the invariant. */
  lemma {:induction false} RunKeepsInv(h: Hashes, d: Document, env: Env, run: Run, k: nat)
    requires IsRun(h, d, env, run) && k < |run.states|
    ensures Inv(h, run.states[k])
  {
    if k == 0 {
      assert StartedAt(h, d, env, run, 0);
      InitialIsInv(h, d, env, run.states[0]);
    } else {
      RunKeepsInv(h, d, env, run, k - 1);
      RunStep(h, d, env, run, k - 1);
    }
  }

  lemma RunStep(h: Hashes, d: Document, env: Env, run: Run, k: nat)
    requires IsRun(h, d, env, run) && k < |run.inputs| && Inv(h, run.states[k])
    ensures Inv(h, run.states[k + 1])
    ensures run.results[k].None? ==> && run.states[k + 1].revision == run.states[k].revision + 1
                                     && Succeeds(run.states[k].current, run.states[k + 1].current)
    ensures run.results[k].Some? ==> run.states[k + 1] == run.states[k]
  {
    EditAtOk(h, d, env, run, k);
    assert SteppedAt(h, run, k);
    MutationKeepsInv(h, run.states[k], run.inputs[k], run.edits[k], run.results[k], run.states[k + 1]);
  }

  /** The state a run has reached. */
  ghost function Last(run: Run): (r: State)
    requires Shaped(run)
  {
    run.states[|run.inputs|]
  }

  ghost function Extend(run: Run, i: Input, a: Result<Edited, Code>, r: Option<Code>, t: State): (res: Run)
  {
    Run(run.states + [t], run.inputs + [i], run.edits + [a], run.results + [r])
  }

  lemma ExtendIsRun(h: Hashes, d: Document, env: Env, run: Run, i: Input, a: Result<Edited, Code>, r: Option<Code>, t: State)
    requires IsRun(h, d, env, run)
    requires EditedAt(Extend(run, i, a, r, t), |run.inputs|)
    requires SteppedAt(h, Extend(run, i, a, r, t), |run.inputs|)
    ensures IsRun(h, d, env, Extend(run, i, a, r, t))
  {
    var x := Extend(run, i, a, r, t);
    forall k | 0 <= k < |x.states|
      ensures StartedAt(h, d, env, x, k)
    {
      assert StartedAt(h, d, env, run, 0);
    }
    forall k | 0 <= k < |x.inputs|
      ensures EditedAt(x, k)
    {
      if k < |run.inputs| { SameStepInBoth(h, d, env, run, i, a, r, t, k); }
    }
    forall k | 0 <= k < |x.inputs|
      ensures SteppedAt(h, x, k)
    {
      if k < |run.inputs| { SameStepInBoth(h, d, env, run, i, a, r, t, k); }
    }
  }

  lemma SameStepInBoth(
    h: Hashes, d: Document, env: Env, run: Run, i: Input, a: Result<Edited, Code>, r: Option<Code>, t: State, k: nat)
    requires IsRun(h, d, env, run) && k < |run.inputs|
    ensures EditedAt(Extend(run, i, a, r, t), k) && SteppedAt(h, Extend(run, i, a, r, t), k)
  {
    assert EditedAt(run, k) && SteppedAt(h, run, k);
  }

  ghost predicate ReadyState(s: State)
  {
    DocumentOk(s.baseline) && OverlayOk(s.overlay, s.revision) && s.revision >= 1 && s.current.revision == s.revision
  }

  lemma ReadyAfter(h: Hashes, s: State, e: Edited, env: Env, t: State)
    requires ReadyState(s) && EditedOk(Ok(e), s.revision + 1) && Publishes(h, s, e, env, t)
    ensures ReadyState(t)
  {
  }

  /** checkRevision, after the checks that precede the lock. */
  function Refusal(s: State, i: Input): (c: Option<Code>)
  {
    if Malformed(i.edit) then Some(InvalidArgument)
    else if i.expected.Some? && i.expected.value != s.revision then Some(RevisionMismatch)
    else None
  }

  /** The mutation succeeds: the revision is the expected one, the edit applies and the result compiles. */
  ghost predicate Accepts(h: Hashes, s: State, i: Input)
  {
    && Refusal(s, i).None?
    && var a := Apply(s.baseline, s.overlay, i.edit, s.revision + 1, i.env.now);
       a.Ok? && Compilable(h, BaseAfter(s, a.value), a.value.overlay, i.env)
  }

  lemma SucceedsIffAccepted(h: Hashes, s: State, i: Input, a: Result<Edited, Code>, r: Option<Code>, t: State)
    requires IsEdit(s, i, a) && Outcome(h, s, i, a, r, t)
    ensures r.None? <==> Accepts(h, s, i)
  {
  }

  /** mutate, from the edited overlay to the compiled state: what becomes of one input in
      state `s`, whose edit came to `a`. */
  method Decide(h: Hashes, s: State, i: Input, a: Result<Edited, Code>) returns (r: Option<Code>, t: State)
    requires ReadyState(s) && IsEdit(s, i, a)
    ensures Outcome(h, s, i, a, r, t)
    ensures ReadyState(t) && (r.None? ==> a.Ok? && Refusal(s, i).None?) && (r.Some? ==> t == s)
  {
    r, t := Refusal(s, i), s;
    if r.Some? {
      return;
    }
    if a.Err? {
      r := Some(a.error);
    } else {
      EditIsOk(s, i, a);
      var c := Build(h, s, a.value, i.env);
      if c.Err? {
        r := Some(c.error);
      } else {
        t := c.value;
        ReadyAfter(h, s, a.value, i.env, t);
      }
    }
  }

  // ---------------------------------------------------------------------------
  // What every published snapshot shows
  // ---------------------------------------------------------------------------

  function BodyOf<T>(eff: map<string, Eff<T>>, id: string): (r: Option<T>)
  {
    if id in eff then Some(eff[id].body) else None
  }

  /** The published map is the overlay rule, ID by ID, and revisions are ordered. */
  ghost predicate Faithful<T>(eff: map<string, Eff<T>>, base: seq<Obj<T>>, ov: Layer<T>, rev: nat)
  {
    && (forall id :: BodyOf(eff, id) == Lookup(base, ov, id))
    && (forall id :: id in eff ==> 1 <= eff[id].meta.created <= eff[id].meta.updated <= eff[id].meta.effective == rev)
  }

  lemma OkIsFaithful<T>(
    eff: map<string, Eff<T>>, tombs: seq<Tombstone>, base: seq<Obj<T>>, ov: Layer<T>, st: map<string, Stamp>, rev: nat)
    requires KindOk(eff, tombs, base, ov, st, rev)
    ensures Faithful(eff, base, ov, rev)
  {
    forall id
      ensures BodyOf(eff, id) == Lookup(base, ov, id)
    {
      if id in eff {
        assert eff[id] == EffOf(base, ov, st, rev, id);
      }
    }
  }

  ghost predicate SnapshotFaithful(h: Hashes, s: State)
  {
    var snap := s.current;
    && snap.revision == s.revision && snap.baselineHash == h.baseline(s.baseline)
    && Faithful(snap.users, s.baseline.users, s.overlay.users, s.revision)
    && Faithful(snap.groups, s.baseline.groups, s.overlay.groups, s.revision)
    && Faithful(snap.clients, s.baseline.clients, s.overlay.clients, s.revision)
    && Faithful(snap.tokens, s.baseline.tokens, s.overlay.tokens, s.revision)
    && TombsExactly(snap.tombstones.users, s.overlay.users) && TombsExactly(snap.tombstones.groups, s.overlay.groups)
    && TombsExactly(snap.tombstones.clients, s.overlay.clients) && TombsExactly(snap.tombstones.tokens, s.overlay.tokens)
  }

  /** In every state of every run the published snapshot is the pointwise lookup
      over baseline and overlay, its tombstones are the overlay's deletions, and
      its baseline hash is the hash of the current baseline. */
  lemma PublishedIsLookup(h: Hashes, d: Document, env: Env, run: Run, k: nat)
    requires IsRun(h, d, env, run) && k < |run.states|
    ensures SnapshotFaithful(h, run.states[k])
  {
    RunKeepsInv(h, d, env, run, k);
    InvIsFaithful(h, run.states[k]);
  }

  lemma InvIsFaithful(h: Hashes, s: State)
    requires Inv(h, s)
    ensures SnapshotFaithful(h, s)
  {
    var snap, t := s.current, s.current.tombstones;
    OkIsFaithful(snap.users, t.users, s.baseline.users, s.overlay.users, s.stamps.users, s.revision);
    OkIsFaithful(snap.groups, t.groups, s.baseline.groups, s.overlay.groups, s.stamps.groups, s.revision);
    OkIsFaithful(snap.clients, t.clients, s.baseline.clients, s.overlay.clients, s.stamps.clients, s.revision);
    OkIsFaithful(snap.tokens, t.tokens, s.baseline.tokens, s.overlay.tokens, s.stamps.tokens, s.revision);
  }

  lemma StepGrows(h: Hashes, d: Document, env: Env, run: Run, k: nat)
    requires IsRun(h, d, env, run) && k < |run.inputs|
    ensures run.states[k].revision <= run.states[k + 1].revision
  {
    RunKeepsInv(h, d, env, run, k);
    RunStep(h, d, env, run, k);
  }

  lemma {:induction false} RevisionsGrow(h: Hashes, d: Document, env: Env, run: Run, i: nat, j: nat)
    requires IsRun(h, d, env, run) && i <= j < |run.states|
    ensures run.states[i].revision <= run.states[j].revision
    decreases j
  {
    if i < j {
      RevisionsGrow(h, d, env, run, i, j - 1);
      StepGrows(h, d, env, run, j - 1);
    }
  }

  /** Optimistic concurrency: of the inputs that expect one revision, at most one succeeds. */
  lemma OneWinnerPerRevision(h: Hashes, d: Document, env: Env, run: Run, i: nat, j: nat)
    requires IsRun(h, d, env, run) && i < |run.inputs| && j < |run.inputs|
    requires run.inputs[i].expected.Some? && run.inputs[i].expected == run.inputs[j].expected
    requires run.results[i].None? && run.results[j].None?
    ensures i == j
  {
    if i < j {
      Expected(h, d, env, run, i);
      Expected(h, d, env, run, j);
      RevisionsGrow(h, d, env, run, i + 1, j);
    } else if j < i {
      OneWinnerPerRevision(h, d, env, run, j, i);
    }
  }

  lemma Expected(h: Hashes, d: Document, env: Env, run: Run, k: nat)
    requires IsRun(h, d, env, run) && k < |run.inputs|
    requires run.inputs[k].expected.Some? && run.results[k].None?
    ensures run.states[k].revision == run.inputs[k].expected.value
    ensures run.states[k + 1].revision == run.states[k].revision + 1
  {
    assert SteppedAt(h, run, k);
  }

  lemma ConsecutiveSnapshots(h: Hashes, d: Document, env: Env, run: Run, k: nat)
    requires IsRun(h, d, env, run) && k < |run.inputs|
    ensures var a, b := run.states[k].current, run.states[k + 1].current; a == b || Succeeds(a, b)
  {
    RunKeepsInv(h, d, env, run, k);
    RunStep(h, d, env, run, k);
  }

  lemma FirstGenerations(h: Hashes, d: Document, env: Env, run: Run)
    requires IsRun(h, d, env, run)
    ensures Generated(run.states[0].current) && run.states[0].current.revision >= 1
  {
    RunKeepsInv(h, d, env, run, 0);
  }

  /** The snapshots of a run, in publication order, form a token history. */
  lemma SnapshotsAreHistory(h: Hashes, d: Document, env: Env, run: Run) returns (snaps: seq<Snapshot>)
    requires IsRun(h, d, env, run)
    ensures |snaps| == |run.states| && forall k :: 0 <= k < |snaps| ==> snaps[k] == run.states[k].current
    ensures History(snaps) && snaps[0].revision >= 1
  {
    snaps := seq(|run.states|, k requires 0 <= k < |run.states| => run.states[k].current);
    FirstGenerations(h, d, env, run);
    forall k | 0 <= k < |snaps| - 1
      ensures snaps[k] == snaps[k + 1] || Succeeds(snaps[k], snaps[k + 1])
    {
      ConsecutiveSnapshots(h, d, env, run, k);
    }
  }

  /** ABA freedom over every run of the manager. */
  lemma RunIsABAFree(h: Hashes, d: Document, env: Env, run: Run, i: nat, j: nat, k: nat, id: string)
    requires IsRun(h, d, env, run) && i <= k <= j < |run.states|
    requires TokenGeneration(run.states[i].current, id) == TokenGeneration(run.states[j].current, id) != 0
    ensures SameIncarnation(run.states[i].current, run.states[k].current, id)
  {
    var snaps := SnapshotsAreHistory(h, d, env, run);
    GenerationIsABAFree(snaps, i, j, k, id);
  }

  // ---------------------------------------------------------------------------
  // Undo laws
  // ---------------------------------------------------------------------------

  /** The effective objects of a state, without metadata. */
  ghost predicate SameObjects(a: Snapshot, b: Snapshot)
  {
    && (forall id :: BodyOf(a.users, id) == BodyOf(b.users, id))
    && (forall id :: BodyOf(a.groups, id) == BodyOf(b.groups, id))
    && (forall id :: BodyOf(a.clients, id) == BodyOf(b.clients, id))
    && (forall id :: BodyOf(a.tokens, id) == BodyOf(b.tokens, id))
  }

  lemma SameLayersSameObjects(h: Hashes, s: State, t: State)
    requires SnapshotFaithful(h, s) && SnapshotFaithful(h, t)
    requires s.baseline == t.baseline && s.overlay == t.overlay
    ensures SameObjects(s.current, t.current)
  {
  }

  /** After any run, a successful Reset shows the objects a new manager on the
      current baseline would show. */
  lemma ResetEqualsFresh(h: Hashes, d: Document, env: Env, run: Run, k: nat, env2: Env, made: State)
    requires IsRun(h, d, env, run) && k < |run.inputs|
    requires run.inputs[k].edit == Reset && run.results[k].None?
    requires Initial(h, run.states[k + 1].baseline, env2, made)
    ensures run.states[k + 1].baseline == run.states[k].baseline
    ensures SameObjects(run.states[k + 1].current, made.current)
  {
    PublishedIsLookup(h, d, env, run, k + 1);
    RunKeepsInv(h, d, env, run, k + 1);
    InvParts(h, run.states[k + 1]);
    InitialIsInv(h, run.states[k + 1].baseline, env2, made);
    InvIsFaithful(h, made);
    ResetStep(h, run, k);
    SameLayersSameObjects(h, run.states[k + 1], made);
  }

  /** A successful input leaves exactly the layers its edit produced. */
  lemma Landed(h: Hashes, run: Run, k: nat)
    requires Shaped(run) && k < |run.inputs| && SteppedAt(h, run, k) && run.results[k].None?
    ensures run.edits[k].Ok?
    ensures run.states[k + 1].baseline == BaseAfter(run.states[k], run.edits[k].value)
    ensures run.states[k + 1].overlay == run.edits[k].value.overlay
  {
  }

  lemma ResetStep(h: Hashes, run: Run, k: nat)
    requires Shaped(run) && k < |run.inputs| && EditedAt(run, k) && SteppedAt(h, run, k)
    requires run.inputs[k].edit == Reset && run.results[k].None?
    ensures run.states[k + 1].baseline == run.states[k].baseline && run.states[k + 1].overlay == EmptyOverlay
  {
    Landed(h, run, k);
  }

  /** Input k creates a user without an overlay entry; the next deletes it, without a tombstone. */
  ghost predicate CreatesThenDeletes(run: Run, k: nat)
    requires Shaped(run) && k + 1 < |run.inputs|
  {
    var create, delete := run.inputs[k].edit, run.inputs[k + 1].edit;
    && create.CreateUser? && delete.DeleteUser? && create.id == delete.id && !delete.tombstone
    && create.id !in run.states[k].overlay.users
  }

  lemma CreateDeleteLayers(run: Run, k: nat)
    requires Shaped(run) && k + 1 < |run.inputs| && EditedAt(run, k) && EditedAt(run, k + 1)
    requires run.edits[k].Ok? && run.edits[k + 1].Ok?
    requires run.states[k + 1].baseline == BaseAfter(run.states[k], run.edits[k].value)
    requires run.states[k + 1].overlay == run.edits[k].value.overlay
    requires CreatesThenDeletes(run, k)
    ensures run.states[k + 1].baseline == run.states[k].baseline && run.edits[k + 1] == Ok(Only(run.states[k].overlay))
  {
    var s, t, a, b := run.states[k], run.states[k + 1], run.inputs[k], run.inputs[k + 1];
    CreateUserThenDelete(s.baseline, s.overlay, a.edit, b.edit, s.revision + 1, a.env.now, t.revision + 1, b.env.now);
  }

  /** Creating or overriding a user that had no overlay entry and deleting it again
      without a tombstone restores every effective object. */
  lemma CreateDeleteRestores(h: Hashes, d: Document, env: Env, run: Run, k: nat)
    requires IsRun(h, d, env, run) && k + 1 < |run.inputs|
    requires run.results[k].None? && run.results[k + 1].None?
    requires CreatesThenDeletes(run, k)
    ensures SameObjects(run.states[k].current, run.states[k + 2].current)
  {
    RestoredLayers(h, d, env, run, k);
    PublishedIsLookup(h, d, env, run, k);
    PublishedIsLookup(h, d, env, run, k + 2);
    SameLayersSameObjects(h, run.states[k], run.states[k + 2]);
  }

  lemma RestoredLayers(h: Hashes, d: Document, env: Env, run: Run, k: nat)
    requires IsRun(h, d, env, run) && k + 1 < |run.inputs|
    requires run.results[k].None? && run.results[k + 1].None?
    requires CreatesThenDeletes(run, k)
    ensures run.states[k + 2].baseline == run.states[k].baseline && run.states[k + 2].overlay == run.states[k].overlay
  {
    LandedAt(h, d, env, run, k);
    LandedAt(h, d, env, run, k + 1);
    EditsMatch(h, d, env, run, k);
  }

  lemma LandedAt(h: Hashes, d: Document, env: Env, run: Run, k: nat)
    requires IsRun(h, d, env, run) && k < |run.inputs| && run.results[k].None?
    ensures run.edits[k].Ok?
    ensures run.states[k + 1].baseline == BaseAfter(run.states[k], run.edits[k].value)
    ensures run.states[k + 1].overlay == run.edits[k].value.overlay
  {
    assert SteppedAt(h, run, k);
    Landed(h, run, k);
  }

  lemma EditsMatch(h: Hashes, d: Document, env: Env, run: Run, k: nat)
    requires IsRun(h, d, env, run) && k + 1 < |run.inputs| && run.edits[k].Ok? && run.edits[k + 1].Ok?
    requires run.states[k + 1].baseline == BaseAfter(run.states[k], run.edits[k].value)
    requires run.states[k + 1].overlay == run.edits[k].value.overlay
    requires CreatesThenDeletes(run, k)
    ensures run.states[k + 1].baseline == run.states[k].baseline && run.edits[k + 1] == Ok(Only(run.states[k].overlay))
  {
    assert EditedAt(run, k) && EditedAt(run, k + 1);
    CreateDeleteLayers(run, k);
  }
}
