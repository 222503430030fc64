/** API tokens over whole runs of the manager: what authenticates is the material
    the vault binds, what an override without material falls back to, and which
    generations survive a mutation. */
module TokenRuns {
  import opened Basics
  import opened StateModel
  import opened StateTokens
  import opened StateEdits
  import opened StateManager

  /** The surroundings of the mutation that published snapshot k. */
  ghost function EnvAt(env: Env, run: Run, k: nat): (e: Env)
    requires Shaped(run) && k <= |run.inputs|
  {
    if k == 0 then env else if run.results[k - 1].None? then run.inputs[k - 1].env else EnvAt(env, run, k - 1)
  }

  /** Where the digests of snapshot k came from. */
  ghost function VaultAt(h: Hashes, env: Env, run: Run, k: nat): (v: Vault)
    requires Shaped(run) && k <= |run.inputs|
  {
    VaultOf(h, run.states[k].baseline, run.states[k].overlay, EnvAt(env, run, k))
  }

  lemma FirstBinds(h: Hashes, d: Document, env: Env, run: Run)
    requires IsRun(h, d, env, run)
    ensures VaultAt(h, env, run, 0).Binds(run.states[0].current.digests)
  {
    assert StartedAt(h, d, env, run, 0);
  }

  lemma StepBinds(h: Hashes, s: State, i: Input, a: Result<Edited, Code>, t: State)
    requires Outcome(h, s, i, a, None, t)
    ensures VaultOf(h, t.baseline, t.overlay, i.env).Binds(t.current.digests)
  {
  }

  /** In every state of every run the digest map holds exactly the digests the vault binds. */
  lemma {:induction false} RunBinds(h: Hashes, d: Document, env: Env, run: Run, k: nat)
    requires IsRun(h, d, env, run) && k < |run.states|
    ensures VaultAt(h, env, run, k).Binds(run.states[k].current.digests)
  {
    if k == 0 {
      FirstBinds(h, d, env, run);
    } else {
      assert SteppedAt(h, run, k - 1);
      if run.results[k - 1].None? {
        StepBinds(h, run.states[k - 1], run.inputs[k - 1], run.edits[k - 1], run.states[k]);
      } else {
        RunBinds(h, d, env, run, k - 1);
        RefusedKeeps(h, run.states[k - 1], run.inputs[k - 1], run.edits[k - 1], run.results[k - 1], run.states[k]);
      }
    }
  }

  lemma RefusedKeeps(h: Hashes, s: State, i: Input, a: Result<Edited, Code>, r: Option<Code>, t: State)
    requires Outcome(h, s, i, a, r, t) && r.Some?
    ensures t == s
  {
  }

  // ---------------------------------------------------------------------------
  // Authentication
  // ---------------------------------------------------------------------------

  predicate Usable(t: Token, now: int) { t.enabled && Unexpired(t, now) }

  lemma BindingAuthenticates(v: Vault, s: Snapshot, raw: Bytes, now: int, id: string)
    requires Inverse(s.digests, s.index) && s.digests.Keys <= s.tokens.Keys && v.Binds(s.digests) && raw != []
    ensures Authenticate(v.sha, s, raw, now) == Some(id)
       <==> v.Binding(id) == Bound(v.sha(raw)) && id in s.tokens && Usable(s.tokens[id].body, now)
    ensures v.Unshared()
  {
    AuthenticateIsAScan(v.sha, s, raw, now, id);
    forall a, b | a != b && v.Binding(a).Bound? ensures v.Binding(a) != v.Binding(b) { assert a in s.digests; }
  }

  /** In every published snapshot a nonempty bearer authenticates as a token exactly when that
      token is live, enabled and unexpired and the vault binds it to the bearer's digest: its own
      digest, or that of its file as the last successful mutation read it. No two tokens share one. */
  lemma RunAuthenticates(h: Hashes, d: Document, env: Env, run: Run, k: nat, raw: Bytes, now: int, id: string)
    requires IsRun(h, d, env, run) && k < |run.states| && raw != []
    ensures var s, v := run.states[k].current, VaultAt(h, env, run, k);
            && (Authenticate(h.sha, s, raw, now) == Some(id) <==>
                  v.Binding(id) == Bound(h.sha(raw)) && id in s.tokens && Usable(s.tokens[id].body, now))
            && v.Unshared()
  {
    RunKeepsInv(h, d, env, run, k);
    RunBinds(h, d, env, run, k);
    BindingAuthenticates(VaultAt(h, env, run, k), run.states[k].current, raw, now, id);
  }

  /** The bearer that a live overlay token answers to: its own digest's, and without one the
      content of the baseline token's file. */
  predicate AnswersTo(v: Vault, t: Token, file: Option<Token>, raw: Bytes)
  {
    match t.digest
    case Some(own) => own == v.sha(raw)
    case None => && v.lookup.Some? && file.Some? && IsSet(file.value.file)
                 && v.lookup.value(file.value.file).Some? && v.sha(v.lookup.value(file.value.file).value) == v.sha(raw)
  }

  lemma OverlayBinding(v: Vault, id: string, raw: Bytes)
    requires id in v.ov && v.ov[id].Live?
    ensures v.Binding(id) == Bound(v.sha(raw)) <==> AnswersTo(v, v.ov[id].body, Find(v.base, id), raw)
  {
  }

  lemma OverlayShown(h: Hashes, s: State, id: string)
    requires Inv(h, s) && id in s.overlay.tokens && s.overlay.tokens[id].Live?
    ensures id in s.current.tokens && s.current.tokens[id].body == s.overlay.tokens[id].body
  {
    assert Lookup(s.baseline.tokens, s.overlay.tokens, id).Some?;
  }

  /** When a live overlay token authenticates a bearer, under its own grant: exactly if it is
      usable and answers to the bearer. */
  lemma OverlayTokenAnswersIff(h: Hashes, d: Document, env: Env, run: Run, k: nat, raw: Bytes, now: int, id: string)
    requires IsRun(h, d, env, run) && k < |run.states| && raw != []
    requires id in run.states[k].overlay.tokens && run.states[k].overlay.tokens[id].Live?
    ensures var s, t := run.states[k], run.states[k].overlay.tokens[id].body;
            && id in s.current.tokens && s.current.tokens[id].body == t
            && (Authenticate(h.sha, s.current, raw, now) == Some(id) <==>
                  Usable(t, now) && AnswersTo(VaultAt(h, env, run, k), t, Find(s.baseline.tokens, id), raw))
  {
    RunKeepsInv(h, d, env, run, k);
    OverlayShown(h, run.states[k], id);
    RunAuthenticates(h, d, env, run, k, raw, now, id);
    OverlayBinding(VaultAt(h, env, run, k), id, raw);
  }

  /** The baseline's bearer under an override: with a reader and a readable file it works for the
      override exactly when that has no digest of its own, or the very same one. */
  lemma BaselineBearerIff(h: Hashes, d: Document, env: Env, run: Run, k: nat, raw: Bytes, now: int, id: string)
    requires IsRun(h, d, env, run) && k < |run.states| && raw != []
    requires id in run.states[k].overlay.tokens && run.states[k].overlay.tokens[id].Live?
    requires var e, b := EnvAt(env, run, k), Find(run.states[k].baseline.tokens, id);
             e.lookup.Some? && b.Some? && IsSet(b.value.file) && e.lookup.value(b.value.file) == Some(raw)
    ensures var s, t := run.states[k], run.states[k].overlay.tokens[id].body;
            Authenticate(h.sha, s.current, raw, now) == Some(id) <==>
              Usable(t, now) && (t.digest.None? || t.digest == Some(h.sha(raw)))
  {
    OverlayTokenAnswersIff(h, d, env, run, k, raw, now, id);
  }

  // ---------------------------------------------------------------------------
  // Survival of generations
  // ---------------------------------------------------------------------------

  /** The edit neither replaces a layer nor names the token. */
  predicate Unrelated(e: Edit, id: string)
  {
    !e.Reload? && !e.Reset? && !((e.CreateToken? || e.DeleteToken?) && e.id == id)
  }

  predicate SameEntry<T(==)>(a: Layer<T>, b: Layer<T>, id: string)
  {
    (id in a <==> id in b) && (id in a ==> a[id] == b[id])
  }

  lemma CreateElsewhere<T>(
    base: seq<Obj<T>>, ov: Layer<T>, at: string, override: bool, shadowing: bool, rewrite: bool,
    build: Option<T> -> Result<T, Code>, rev: nat, now: int, id: string)
    requires at != id
    ensures var r := CreateIn(base, ov, at, override, shadowing, rewrite, build, rev, now); r.Ok? ==> SameEntry(ov, r.value, id)
  {
  }

  lemma DeleteElsewhere<T>(
    base: seq<Obj<T>>, ov: Layer<T>, at: string, tombstone: bool, kind: Kind, actor: string, rev: nat, now: int, id: string)
    requires at != id
    ensures var r := DeleteIn(base, ov, at, tombstone, kind, actor, rev, now); r.Ok? ==> SameEntry(ov, r.value, id)
  {
  }

  lemma UnrelatedLeavesToken(doc: Document, ov: Overlay, edit: Edit, rev: nat, now: int, id: string)
    requires Unrelated(edit, id) && Apply(doc, ov, edit, rev, now).Ok?
    ensures var e := Apply(doc, ov, edit, rev, now).value; e.base.None? && SameEntry(ov.tokens, e.overlay.tokens, id)
  {
    match edit
    case CreateToken(at, o, token, known) =>
      CreateElsewhere(doc.tokens, ov.tokens, at, o, doc.allowShadowing, true, _ => Ok(token), rev, now, id);
    case DeleteToken(at, t, actor) => DeleteElsewhere(doc.tokens, ov.tokens, at, t, TokenKind, actor, rev, now, id);
    case _ =>
  }

  /** Both readers give the same content for the token's baseline file. */
  predicate SameReading(v: Vault, w: Vault, id: string)
  {
    && (v.lookup.Some? <==> w.lookup.Some?)
    && (v.lookup.Some? && Find(v.base, id).Some? ==>
          v.lookup.value(Find(v.base, id).value.file) == w.lookup.value(Find(v.base, id).value.file))
  }

  lemma SameBinding(v: Vault, w: Vault, id: string)
    requires v.sha == w.sha && v.base == w.base && SameEntry(v.ov, w.ov, id) && SameReading(v, w, id)
    ensures v.Binding(id) == w.Binding(id)
  {
  }

  /** What is shown of an untouched token stays the same token. */
  lemma SameShown(h: Hashes, s: State, t: State, id: string)
    requires Inv(h, s) && Inv(h, t) && t.baseline == s.baseline && SameEntry(s.overlay.tokens, t.overlay.tokens, id)
    requires id in s.current.tokens
    ensures id in t.current.tokens && SameToken(s.current.tokens[id], t.current.tokens[id])
  {
    var b := s.baseline.tokens;
    assert Lookup(b, s.overlay.tokens, id) == Lookup(b, t.overlay.tokens, id);
    assert s.current.tokens[id] == EffOf(b, s.overlay.tokens, s.stamps.tokens, s.revision, id);
    assert t.current.tokens[id] == EffOf(b, t.overlay.tokens, t.stamps.tokens, t.revision, id);
  }

  lemma SameDigest(v: Vault, w: Vault, a: map<string, Digest>, b: map<string, Digest>, id: string)
    requires v.Binds(a) && w.Binds(b) && v.Binding(id) == w.Binding(id)
    ensures (id in a <==> v.Binding(id).Bound?) && (id in b <==> v.Binding(id).Bound?)
    ensures id in a ==> a[id] == b[id]
  {
  }

  lemma SuccessorKeepsIffBound(s: Snapshot, t: Snapshot, id: string)
    requires Generated(s) && Succeeds(s, t)
    requires id in s.tokens && id in t.tokens && SameToken(s.tokens[id], t.tokens[id])
    requires (id in s.digests <==> id in t.digests) && (id in s.digests ==> s.digests[id] == t.digests[id])
    ensures TokenGeneration(t, id) == if id in s.digests then TokenGeneration(s, id) else t.revision
  {
  }

  /** The run's step k leaves the token's overlay entry and the baseline alone. */
  lemma UnrelatedStep(h: Hashes, d: Document, env: Env, run: Run, k: nat, id: string)
    requires IsRun(h, d, env, run) && k < |run.inputs| && run.results[k].None? && Unrelated(run.inputs[k].edit, id)
    ensures run.states[k + 1].baseline == run.states[k].baseline
    ensures SameEntry(run.states[k].overlay.tokens, run.states[k + 1].overlay.tokens, id)
  {
    LandedAt(h, d, env, run, k);
    assert EditedAt(run, k);
    UnrelatedEdit(run.states[k], run.inputs[k], run.edits[k], id);
  }

  lemma UnrelatedEdit(s: State, i: Input, a: Result<Edited, Code>, id: string)
    requires IsEdit(s, i, a) && a.Ok? && Unrelated(i.edit, id)
    ensures a.value.base.None? && SameEntry(s.overlay.tokens, a.value.overlay.tokens, id)
  {
    UnrelatedLeavesToken(s.baseline, s.overlay, i.edit, s.revision + 1, i.env.now, id);
  }

  /** A successful mutation that does not name a live token, and reads its file as before, keeps
      the token's generation exactly when the token is bound to a digest; an unbound one gets the
      new revision every time. */
  lemma UnrelatedKeepsGenerationIffBound(h: Hashes, d: Document, env: Env, run: Run, k: nat, id: string)
    requires IsRun(h, d, env, run) && k < |run.inputs| && run.results[k].None? && Unrelated(run.inputs[k].edit, id)
    requires id in run.states[k].current.tokens
    requires SameReading(VaultAt(h, env, run, k), VaultAt(h, env, run, k + 1), id)
    ensures id in run.states[k + 1].current.tokens
    ensures TokenGeneration(run.states[k + 1].current, id) == TokenGeneration(run.states[k].current, id)
       <==> VaultAt(h, env, run, k).Binding(id).Bound?
    ensures !VaultAt(h, env, run, k).Binding(id).Bound? ==>
              TokenGeneration(run.states[k + 1].current, id) == run.states[k + 1].revision > TokenGeneration(run.states[k].current, id)
  {
    var s, t := run.states[k], run.states[k + 1];
    RunKeepsInv(h, d, env, run, k);
    RunStep(h, d, env, run, k);
    UnrelatedStep(h, d, env, run, k, id);
    SameShown(h, s, t, id);
    RunBinds(h, d, env, run, k);
    RunBinds(h, d, env, run, k + 1);
    SameBinding(VaultAt(h, env, run, k), VaultAt(h, env, run, k + 1), id);
    SameDigest(VaultAt(h, env, run, k), VaultAt(h, env, run, k + 1), s.current.digests, t.current.digests, id);
    SuccessorKeepsIffBound(s.current, t.current, id);
    GenerationsAreOld(h, s, id);
  }

  lemma GenerationsAreOld(h: Hashes, s: State, id: string)
    requires Inv(h, s) && id in s.current.tokens
    ensures 1 <= TokenGeneration(s.current, id) <= s.revision
  {
  }
}
