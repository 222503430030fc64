/** Managers on which two promises about tokens fail: a generation that moves without
    cause, and an override that answers to the bearer it overrides. */
module TokenWitness {
  import opened Basics
  import opened StateModel
  import opened StateTokens
  import opened StateEdits
  import opened StateManager
  import opened TokenRuns
  import opened SnapshotManager

  const NoRef := SecretRef("", "", "")

  function TokenWith(scope: string, file: SecretRef): (t: Token) { Token("t", [scope], true, None, file, None) }

  function BaseWith(tokens: seq<Obj<Token>>): (d: Document) { Document([], [], [], tokens, true, false, 0, "") }

  /** No overlay token has a digest of its own. */
  predicate NoDigests(ov: Overlay)
  {
    forall id :: id in ov.tokens && ov.tokens[id].Live? ==> ov.tokens[id].body.digest.None?
  }

  lemma UnboundCompiles(h: Hashes, base: Document, ov: Overlay, env: Env)
    requires base.maxTokens == 0 && env.objection(base, ov).None? && env.lookup.None? && NoDigests(ov)
    ensures Compilable(h, base, ov, env)
    ensures forall id :: VaultOf(h, base, ov, env).Binding(id) == Unbound
  {
    var v := VaultOf(h, base, ov, env);
    forall id ensures v.Binding(id) == Unbound { assert !v.Own(id); }
  }

  lemma OneFileCompiles(h: Hashes, base: Document, ov: Overlay, env: Env, id: string)
    requires base.maxTokens == 0 && env.objection(base, ov).None? && env.lookup.Some? && NoDigests(ov)
    requires |base.tokens| == 1 && base.tokens[0].id == id != ""
    requires IsSet(base.tokens[0].body.file) ==> env.lookup.value(base.tokens[0].body.file).Some?
    ensures Compilable(h, base, ov, env)
  {
    var v := VaultOf(h, base, ov, env);
    forall x | x != id ensures v.Binding(x) == Unbound {
      assert !v.Own(x) && x !in IdsOf(base.tokens);
    }
    FindAt(base.tokens, 0);
  }

  lemma FirstState(h: Hashes, d: Document, env: Env, run: Run)
    requires IsRun(h, d, env, run)
    ensures run.states[0].baseline == d && run.states[0].overlay == EmptyOverlay && run.states[0].revision == 1
  {
    assert StartedAt(h, d, env, run, 0);
  }

  /** The overlay after a token without material has been created or overridden. */
  ghost predicate HasBareToken(ov: Overlay, scope: string)
  {
    NoDigests(ov) && "t" in ov.tokens && ov.tokens["t"].Live? && ov.tokens["t"].body == TokenWith(scope, NoRef)
  }

  lemma BareTokenApplies(d: Document, o: bool, scope: string, rev: nat, now: int)
    requires d.tokens == [] || (o && d.allowShadowing)
    ensures var a := Apply(d, EmptyOverlay, CreateToken("t", o, TokenWith(scope, NoRef), true), rev, now);
            a.Ok? && a.value.base.None? && HasBareToken(a.value.overlay, scope)
  {
  }

  lemma GroupApplies(d: Document, ov: Overlay, build: Option<Group> -> Result<Group, Code>, rev: nat, now: int)
    requires d.groups == [] && ov.groups == map[] && build(None).Ok?
    ensures var a := Apply(d, ov, CreateGroup("g", false, build), rev, now);
            a.Ok? && a.value.base.None? && a.value.overlay.tokens == ov.tokens
  {
  }

  lemma LandedIn(h: Hashes, d: Document, env: Env, run: Run, k: nat)
    requires IsRun(h, d, env, run) && k < |run.inputs| && run.results[k].None?
    ensures var s, i := run.states[k], run.inputs[k];
            var a := Apply(s.baseline, s.overlay, i.edit, s.revision + 1, i.env.now);
            a.Ok? && run.states[k + 1].baseline == BaseAfter(s, a.value) && run.states[k + 1].overlay == a.value.overlay
  {
    LandedAt(h, d, env, run, k);
    assert EditedAt(run, k);
  }

  /** A manager over `d` on which token t has been created or overridden without material. */
  method WithBareToken(h: Hashes, d: Document, o: bool, scope: string, env: Env) returns (m: Manager)
    requires DocumentOk(d) && d.maxTokens == 0 && (d.tokens == [] || (o && d.allowShadowing))
    requires forall b, ov :: env.objection(b, ov).None?
    requires forall ov :: NoDigests(ov) ==> Compilable(h, d, ov, env)
    ensures fresh(m) && m.Valid() && m.h == h && m.first == d && m.start == env
    ensures |m.run.inputs| == 1 && m.run.results == [None] && m.run.inputs[0].env == env
    ensures m.run.states[1].baseline == d && HasBareToken(m.run.states[1].overlay, scope)
    ensures m.run.states[1].overlay.groups == map[]
  {
    var started := Start(h, d, env);
    m := started.value;
    FirstState(h, d, env, m.run);
    var i := Input(None, CreateToken("t", o, TokenWith(scope, NoRef), true), env);
    BareTokenApplies(d, o, scope, 2, env.now);
    var r := m.Mutate(i);
    AcceptedAt(h, d, env, m.run, 0);
    LandedIn(h, d, env, m.run, 0);
  }

  /** A token without material, and then a group: the generation moves although the token
      did not change. */
  method UnboundTokenMoves(h: Hashes) returns (before: Snapshot, after: Snapshot)
    ensures "t" in before.tokens && "t" in after.tokens && before.tokens["t"].body == after.tokens["t"].body
    ensures TokenGeneration(before, "t") != TokenGeneration(after, "t")
  {
    var env := Env(0, None, (b, o) => Option.None);
    var d := BaseWith([]);
    forall ov | NoDigests(ov) ensures Compilable(h, d, ov, env) { UnboundCompiles(h, d, ov, env); }
    var m := WithBareToken(h, d, false, "read", env);
    before := m.current;
    var i := Input(None, CreateGroup("g", false, b => Ok(Group(""))), env);
    GroupApplies(d, m.overlay, b => Ok(Group("")), 3, 0);
    var r := m.Mutate(i);
    AcceptedAt(h, d, env, m.run, 1);
    after := m.current;
    BareTokenMoves(h, d, env, m.run, "read");
  }

  lemma BareTokenMoves(h: Hashes, d: Document, env: Env, run: Run, scope: string)
    requires IsRun(h, d, env, run) && |run.inputs| == 2 && run.results[0].None? && run.results[1].None?
    requires run.inputs[0].env == env && env.lookup.None? && run.inputs[1].env == env && run.inputs[1].edit.CreateGroup?
    requires HasBareToken(run.states[1].overlay, scope)
    ensures var s, t := run.states[1].current, run.states[2].current;
            && "t" in s.tokens && "t" in t.tokens && s.tokens["t"].body == t.tokens["t"].body
            && TokenGeneration(s, "t") != TokenGeneration(t, "t")
  {
    RunKeepsInv(h, d, env, run, 1);
    RunKeepsInv(h, d, env, run, 2);
    UnrelatedStep(h, d, env, run, 1, "t");
    OverlayShown(h, run.states[1], "t");
    OverlayShown(h, run.states[2], "t");
    assert !VaultAt(h, env, run, 1).Own("t");
    UnrelatedKeepsGenerationIffBound(h, d, env, run, 1, "t");
  }

  /** The override narrows the grant to "admin", and the bearer of the baseline token still works
      for it. */
  method OverrideAnswersBaselineBearer(h: Hashes, raw: Bytes) returns (s: Snapshot)
    requires raw != []
    ensures Authenticate(h.sha, s, raw, 0) == Some("t")
    ensures "t" in s.tokens && s.tokens["t"].body.scopes == ["admin"]
  {
    var file := SecretRef("bearer", "", "");
    var d := BaseWith([Obj("t", TokenWith("read", file))]);
    var env := Env(0, Some(ref => Some(raw)), (b, o) => Option.None);
    forall ov | NoDigests(ov) ensures Compilable(h, d, ov, env) { OneFileCompiles(h, d, ov, env, "t"); }
    var m := WithBareToken(h, d, true, "admin", env);
    s := m.current;
    FindAt(d.tokens, 0);
    BaselineBearerIff(h, d, env, m.run, 1, raw, 0, "t");
    OverlayTokenAnswersIff(h, d, env, m.run, 1, raw, 0, "t");
  }
}
