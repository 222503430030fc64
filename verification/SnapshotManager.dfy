/** `Manager` of internal/state/manager.go with its runtime secrets on the heap.

    A mutation works on fresh copies of the secret arrays, wipes the ones no live
    user refers to, and publishes yet another copy. It modifies no array that
    existed before, so nothing a reader already holds can change. The ghost field
    `run` records the whole history, so every law about runs is a law about the
    object. */
module SnapshotManager {
  import opened Basics
  import opened StateModel
  import opened StateEdits
  import opened StateManager
  import opened SecretBag

  function Memory(r: SecretRef): (res: set<string>) { if r.memory == "" then {} else {r.memory} }

  function UserMemory(u: User): (r: set<string>) { Memory(u.login) + Memory(u.enable) + Memory(u.challenge) }

  /** The memory IDs that live overlay users refer to. */
  function LiveMemory(users: Layer<User>): (r: set<string>)
  {
    set id, m | id in users && users[id].Live? && m in UserMemory(users[id].body) :: m
  }

  type Material = Option<(string, Bytes)>

  function WithPut(m: SecretMap, put: Material): (r: SecretMap)
  {
    match put case None => m case Some(kv) => m[kv.0 := kv.1]
  }

  /** The bag after an edit: what was there or was put, if some live user refers to it. */
  function SecretsAfter(m: SecretMap, e: Edited): (r: SecretMap)
  {
    Restrict(WithPut(m, e.put), LiveMemory(e.overlay.users))
  }

  /** The secret bag along a run. */
  ghost function BagAt(run: Run, k: nat): (r: SecretMap)
    requires Shaped(run) && k <= |run.inputs|
  {
    if k == 0 then map[]
    else if run.results[k - 1].None? && run.edits[k - 1].Ok? then SecretsAfter(BagAt(run, k - 1), run.edits[k - 1].value)
    else BagAt(run, k - 1)
  }

  /** A published snapshot's secrets: the arrays, and the bytes they held. */
  datatype Archived = Archived(bag: Bag, bytes: SecretMap)

  class Manager {
    const h: Hashes
    var baseline: Document
    var overlay: Overlay
    var stamps: Stamps
    var revision: nat
    var current: Snapshot
    var secrets: Bag
    var published: Bag
    ghost const first: Document
    ghost const start: Env
    ghost var run: Run
    ghost var archive: seq<Archived>

    ghost function View(): (s: State)
      reads this`baseline, this`overlay, this`stamps, this`revision, this`current
    {
      State(baseline, overlay, stamps, revision, current)
    }

    ghost function ArchiveArrays(): (a: set<array<bv8>>)
      reads this`archive
    {
      set i, k | 0 <= i < |archive| && k in archive[i].bag :: archive[i].bag[k]
    }

    /** Every snapshot published so far still holds the bytes it was published with. */
    ghost predicate Intact()
      reads this`archive, ArchiveArrays()
    {
      forall i, k :: 0 <= i < |archive| && k in archive[i].bag ==>
                       k in archive[i].bytes && archive[i].bag[k][..] == archive[i].bytes[k]
    }

    /** The recorded run is a run of this manager and ends here. */
    ghost predicate Recorded()
      reads this`run, this`baseline, this`overlay, this`stamps, this`revision, this`current
    {
      IsRun(h, first, start, run) && Last(run) == View()
    }

    /** The secrets are those the run leads to. */
    ghost predicate Kept()
      requires Shaped(run)
      reads this`run, this`secrets, Arrays(secrets)
    {
      Contents(secrets) == BagAt(run, |run.inputs|)
    }

    /** And so are those of the snapshot published last, in arrays of their own. */
    ghost predicate Shown()
      requires Shaped(run)
      reads this`run, this`published, this`archive
    {
      && archive != [] && published.Keys == BagAt(run, |run.inputs|).Keys
      && archive[|archive| - 1] == Archived(published, BagAt(run, |run.inputs|))
    }

    ghost predicate Valid()
      reads this, Arrays(secrets), ArchiveArrays()
    {
      Recorded() && Kept() && Shown() && Intact()
    }

    /** The run has one more input, with this result, and ends in the state now. */
    twostate predicate Extends(i: Input, new r: Option<Code>)
      reads this`run, this`baseline, this`overlay, this`stamps, this`revision, this`current
    {
      && run.inputs == old(run.inputs) + [i] && run.results == old(run.results) + [r]
      && run.states == old(run.states) + [View()] && old(run.edits) <= run.edits
      && (r.Some? ==> View() == old(View()))
    }

    constructor (h: Hashes, document: Document, s: Snapshot, st: Stamps, ghost env: Env)
      requires DocumentOk(document)
      requires Compiles(h, Job(NoStamps, None, 1, true), document, EmptyOverlay, env, s, st)
      ensures Valid() && this.h == h && first == document && start == env
      ensures run.inputs == [] && archive == [Archived(published, map[])]
    {
      this.h := h;
      baseline, overlay, stamps, revision, current := document, EmptyOverlay, st, 1, s;
      secrets, published := map[], map[];
      first, start := document, env;
      run := Run([State(document, EmptyOverlay, st, 1, s)], [], [], []);
      archive := [Archived(map[], map[])];
    }

    /** One mutation, in the source's order: the secrets are copied, the edit's material is
        stored in the copy and the copy is pruned, which wipes arrays, before the result is
        compiled; a refusal at any point drops the copy. The run it records is legal, so
        `Outcome` and every law about runs describe it, a refused input changes nothing, and
        the `modifies` clause names no byte array. */
    method Mutate(i: Input) returns (r: Option<Code>)
      requires Valid() && EditOk(i.edit)
      modifies this
      ensures Valid() && Extends(i, r)
      ensures r.Some? ==> secrets == old(secrets) && published == old(published) && archive == old(archive)
      ensures r.None? ==> archive == old(archive) + [Archived(published, Contents(secrets))]
    {
      var a := Edit(i);
      var bag;
      ghost var bytes;
      bag, bytes := CopyAndPrune(i, a);
      r := MoveOn(i, a, bag, bytes);
      if r.Some? {
        return;
      }
      PublishSecrets(bag, bytes);
    }

    /** OverrideLoginVerifier and OverrideEnableVerifier; `v` is None for bytes that are not a
        PHC string. Success means that it was asked at the published revision and takes effect
        in the next one. */
    method OverrideVerifier(enable: bool, id: string, v: Option<Bytes>, expected: Option<nat>, env: Env) returns (r: Option<Code>)
      requires Valid()
      modifies this
      ensures Valid() && Extends(Input(expected, Override(enable, id, v), env), r)
      ensures r.None? <==> old(Accepts(h, View(), Input(expected, Override(enable, id, v), env)))
      ensures r.None? ==>
                && v.Some? && (expected.Some? ==> old(revision) == expected.value) && revision == old(revision) + 1
                && TakesEffect(old(current.users), current.users, Contents(secrets), enable, id, v.value)
    {
      ghost var k := |run.inputs|;
      ghost var before := View();
      var i := Input(expected, Override(enable, id, v), env);
      r := Mutate(i);
      AcceptedAt(h, first, start, run, k);
      if r.None? {
        OverrideTakesEffect(h, first, start, run, k, enable, id, v.value);
      }
    }

    /** Snapshot(): what a reader holds, as a value. The secrets are read from the arrays published
        with the snapshot. */
    method Read() returns (view: Snapshot, shown: SecretMap, settings: string)
      requires Valid()
      ensures view == current && shown == Contents(secrets) && settings == baseline.settings
    {
      view, settings := current, baseline.settings;
      shown := map k | k in published :: published[k][..];
      ghost var last := archive[|archive| - 1];
      assert forall k :: k in published ==> shown[k] == last.bytes[k];
    }

    /** What the operation's closure makes of the current layers. */
    method Edit(i: Input) returns (a: Result<Edited, Code>)
      requires EditOk(i.edit)
      ensures IsEdit(View(), i, a)
    {
      a := Apply(baseline, overlay, i.edit, revision + 1, i.env.now);
    }

    /** The copy of the secrets holds what the edit leaves of them, if the input gets that far. */
    ghost predicate Prepared(i: Input, a: Result<Edited, Code>, bag: Bag, bytes: SecretMap)
      reads this, Arrays(secrets), Arrays(bag)
    {
      Contents(bag) == bytes && (Refusal(View(), i).None? && a.Ok? ==> bytes == SecretsAfter(Contents(secrets), a.value))
    }

    /** copyOverlay, the edit's store and pruneOverlaySecrets, on new arrays. An input that
        checkRevision or its edit refuses does not get this far. */
    method CopyAndPrune(i: Input, a: Result<Edited, Code>) returns (bag: Bag, ghost bytes: SecretMap)
      requires Valid()
      ensures Valid() && Prepared(i, a, bag, bytes)
    {
      bag := map[];
      if Refusal(State(baseline, overlay, stamps, revision, current), i).None? && a.Ok? {
        bag := PrivateBag(secrets, a.value.put, LiveMemory(a.value.overlay.users));
      }
      bytes := Contents(bag);
      Untouched(this);
    }

    /** The part of a mutation after pruning that does not touch secrets: compile and store.
        The pruned copy keeps its bytes, and they are what the run now leads to. */
    method MoveOn(i: Input, a: Result<Edited, Code>, bag: Bag, ghost bytes: SecretMap) returns (r: Option<Code>)
      requires Recorded() && Kept() && Shown() && Intact() && IsEdit(View(), i, a) && Prepared(i, a, bag, bytes)
      modifies this`baseline, this`overlay, this`stamps, this`revision, this`current, this`run
      ensures Recorded() && Intact() && Extends(i, r) && Contents(bag) == bytes
      ensures if r.None? then BagAt(run, |run.inputs|) == bytes else Kept() && Shown()
    {
      r := CompileAndStore(i, a, bag);
    }

    method CompileAndStore(i: Input, a: Result<Edited, Code>, ghost bag: Bag) returns (r: Option<Code>)
      requires Recorded() && Intact() && IsEdit(View(), i, a)
      modifies this`baseline, this`overlay, this`stamps, this`revision, this`current, this`run
      ensures Recorded() && Intact() && Extends(i, r)
      ensures Contents(secrets) == old(Contents(secrets)) && Contents(bag) == old(Contents(bag))
      ensures r.None? ==> a.Ok? && Refusal(old(View()), i).None?
      ensures BagAt(run, |run.inputs|) ==
              var m := old(BagAt(run, |run.inputs|)); if r.None? then SecretsAfter(m, a.value) else m
    {
      var t;
      ghost var grown;
      r, t, grown := Advance(h, first, start, run, State(baseline, overlay, stamps, revision, current), i, a);
      StoreView(t, grown, bag);
    }

    /** The snapshot gets a copy of the pruned bag. */
    method PublishSecrets(bag: Bag, ghost bytes: SecretMap)
      requires Recorded() && Intact() && Contents(bag) == bytes == BagAt(run, |run.inputs|)
      modifies this`secrets, this`published, this`archive
      ensures Recorded() && Kept() && Shown() && Intact()
      ensures archive == old(archive) + [Archived(published, Contents(secrets))]
    {
      var shown := Clone(bag);
      ShowSecrets(bag, shown, bytes);
    }

    /** The stores of baseline, overlay, stamps, revision and snapshot. */
    method StoreView(t: State, ghost grown: Run, ghost bag: Bag)
      requires Intact()
      modifies this`baseline, this`overlay, this`stamps, this`revision, this`current, this`run
      ensures View() == t && run == grown && Intact()
      ensures Contents(secrets) == old(Contents(secrets)) && Contents(bag) == old(Contents(bag))
    {
      baseline, overlay, stamps, revision, current := t.baseline, t.overlay, t.stamps, t.revision, t.current;
      run := grown;
      assert forall k :: k in secrets ==> secrets[k][..] == old(secrets[k][..]);
      assert forall k :: k in bag ==> bag[k][..] == old(bag[k][..]);
    }

    /** The stores of the secret bag and of the copy readers get. */
    method ShowSecrets(bag: Bag, shown: Bag, ghost bytes: SecretMap)
      requires Intact() && Contents(shown) == bytes == Contents(bag)
      modifies this`secrets, this`published, this`archive
      ensures secrets == bag && published == shown && Intact() && Contents(bag) == bytes
      ensures archive == old(archive) + [Archived(shown, bytes)]
    {
      secrets, published := bag, shown;
      archive := archive + [Archived(shown, bytes)];
      assert forall k :: k in bag ==> bag[k][..] == old(bag[k][..]);
      assert forall k :: k in shown ==> shown[k][..] == old(shown[k][..]);
    }
  }

  /** A manager that nobody touched stays valid. */
  twostate lemma Untouched(m: Manager)
    requires old(m.Valid()) && unchanged(m) && unchanged(Arrays(m.secrets)) && unchanged(m.ArchiveArrays())
    ensures m.Valid() && m.View() == old(m.View())
  {
  }

  /** Decides an input and extends the recorded run with the decision. */
  method Advance(h: Hashes, ghost d: Document, ghost env: Env, ghost run: Run, s: State, i: Input, a: Result<Edited, Code>)
    returns (r: Option<Code>, t: State, ghost x: Run)
    requires IsRun(h, d, env, run) && Last(run) == s && IsEdit(s, i, a)
    ensures IsRun(h, d, env, x) && Last(x) == t && (r.Some? ==> t == s) && (r.None? ==> a.Ok? && Refusal(s, i).None?)
    ensures x.inputs == run.inputs + [i] && x.results == run.results + [r] && x.states == run.states + [t]
    ensures run.edits <= x.edits
    ensures BagAt(x, |x.inputs|) == if r.None? then SecretsAfter(BagAt(run, |run.inputs|), a.value)
                                    else BagAt(run, |run.inputs|)
  {
    ReadyToGo(h, d, env, run);
    r, t := Decide(h, s, i, a);
    x := Extend(run, i, a, r, t);
    Record(h, d, env, run, i, a, r, t);
  }

  /** An input of a run succeeds exactly when the state before it accepts it. */
  lemma AcceptedAt(h: Hashes, d: Document, env: Env, run: Run, k: nat)
    requires IsRun(h, d, env, run) && k < |run.inputs|
    ensures run.results[k].None? <==> Accepts(h, run.states[k], run.inputs[k])
    ensures run.results[k].None? ==> Refusal(run.states[k], run.inputs[k]).None?
  {
    assert EditedAt(run, k) && SteppedAt(h, run, k);
    SucceedsIffAccepted(h, run.states[k], run.inputs[k], run.edits[k], run.results[k], run.states[k + 1]);
  }

  /** `b` goes on where `a` ends. */
  ghost predicate Grows(a: Run, b: Run)
  {
    Shaped(a) && Shaped(b) && a.states <= b.states && a.inputs <= b.inputs && a.edits <= b.edits && a.results <= b.results
  }

  lemma {:induction false} SameRevisionLater(h: Hashes, d: Document, env: Env, run: Run, j: nat, k: nat)
    requires IsRun(h, d, env, run) && j <= k < |run.states| && run.states[j].revision == run.states[k].revision
    ensures run.states[j] == run.states[k] && BagAt(run, j) == BagAt(run, k)
    decreases k
  {
    if j < k {
      RevisionsGrow(h, d, env, run, j, k - 1);
      SameRevisionNext(h, d, env, run, k - 1);
      SameRevisionLater(h, d, env, run, j, k - 1);
    }
  }

  lemma SameRevisionNext(h: Hashes, d: Document, env: Env, run: Run, k: nat)
    requires IsRun(h, d, env, run) && k < |run.inputs|
    ensures run.states[k].revision <= run.states[k + 1].revision
    ensures run.states[k].revision == run.states[k + 1].revision ==>
              run.states[k] == run.states[k + 1] && BagAt(run, k) == BagAt(run, k + 1)
  {
    RunKeepsInv(h, d, env, run, k);
    RunStep(h, d, env, run, k);
  }

  /** A revision names one state of a run, and one bag of secrets. */
  lemma SameRevisionSameSnapshot(h: Hashes, d: Document, env: Env, run: Run, j: nat, k: nat)
    requires IsRun(h, d, env, run) && j < |run.states| && k < |run.states|
    requires run.states[j].revision == run.states[k].revision
    ensures run.states[j] == run.states[k] && BagAt(run, j) == BagAt(run, k)
  {
    if j <= k {
      SameRevisionLater(h, d, env, run, j, k);
    } else {
      SameRevisionLater(h, d, env, run, k, j);
    }
  }

  lemma ReadyToGo(h: Hashes, d: Document, env: Env, run: Run)
    requires IsRun(h, d, env, run)
    ensures ReadyState(Last(run))
  {
    RunKeepsInv(h, d, env, run, |run.inputs|);
    InvParts(h, Last(run));
  }

  lemma Record(h: Hashes, d: Document, env: Env, run: Run, i: Input, a: Result<Edited, Code>, r: Option<Code>, t: State)
    requires IsRun(h, d, env, run) && IsEdit(Last(run), i, a) && Outcome(h, Last(run), i, a, r, t)
    ensures IsRun(h, d, env, Extend(run, i, a, r, t)) && Last(Extend(run, i, a, r, t)) == t
    ensures var x := Extend(run, i, a, r, t);
            BagAt(x, |x.inputs|) == if r.None? && a.Ok? then SecretsAfter(BagAt(run, |run.inputs|), a.value)
                                    else BagAt(run, |run.inputs|)
  {
    assert EditedAt(Extend(run, i, a, r, t), |run.inputs|);
    ExtendIsRun(h, d, env, run, i, a, r, t);
    NextBag(run, i, a, r, t);
  }

  lemma NextBag(run: Run, i: Input, a: Result<Edited, Code>, r: Option<Code>, t: State)
    requires Shaped(run)
    ensures var x := Extend(run, i, a, r, t);
            Shaped(x) && BagAt(x, |x.inputs|) == if r.None? && a.Ok? then SecretsAfter(BagAt(run, |run.inputs|), a.value)
                                                 else BagAt(run, |run.inputs|)
  {
    SameBags(run, Extend(run, i, a, r, t), |run.inputs|);
  }

  lemma {:induction false} SameBags(run: Run, x: Run, k: nat)
    requires Shaped(run) && Shaped(x) && k <= |run.inputs| <= |x.inputs|
    requires run.edits <= x.edits && run.results <= x.results
    ensures BagAt(run, k) == BagAt(x, k)
  {
    if k > 0 { SameBags(run, x, k - 1); }
  }

  /** New: compiles and publishes revision 1, or reports why the document is refused. */
  method Start(h: Hashes, document: Document, env: Env) returns (r: Result<Manager, Code>)
    requires DocumentOk(document)
    ensures r.Ok? <==> Compilable(h, document, EmptyOverlay, env)
    ensures r.Err? ==> Complains(h, document, EmptyOverlay, env, r.error)
    ensures r.Ok? ==> fresh(r.value) && r.value.Valid() && r.value.h == h && r.value.first == document
    ensures r.Ok? ==> r.value.start == env && r.value.run.inputs == [] && r.value.archive == [Archived(r.value.published, map[])]
  {
    var c := Compile(h, Job(NoStamps, None, 1, true), document, EmptyOverlay, env);
    if c.Err? {
      return Err(c.error);
    }
    var m := new Manager(h, document, c.value.0, c.value.1, env);
    return Ok(m);
  }

  /** copyOverlay and pruneOverlaySecrets: the arrays of the result are all new. */
  method PrivateBag(secrets: Bag, put: Material, live: set<string>) returns (bag: Bag)
    ensures forall k :: k in bag ==> fresh(bag[k])
    ensures Contents(bag) == Restrict(WithPut(old(Contents(secrets)), put), live)
  {
    ghost var before := Contents(secrets);
    var copy := Clone(secrets);
    assert Contents(copy) == before;
    var full := PutSecret(copy, put);
    ghost var held := Contents(full);
    assert held == WithPut(before, put);
    bag := Prune(full, live);
    assert Contents(bag) == Restrict(held, live);
  }

  method PutSecret(copy: Bag, put: Material) returns (r: Bag)
    requires Unaliased(copy)
    ensures forall k :: k in r ==> fresh(r[k]) || (k in copy && r[k] == copy[k])
    ensures Unaliased(r) && Contents(r) == WithPut(old(Contents(copy)), put)
  {
    r := copy;
    if put.Some? {
      var material := FromBytes(put.value.1);
      r := copy[put.value.0 := material];
    }
  }

  // ---------------------------------------------------------------------------
  // What the bag holds
  // ---------------------------------------------------------------------------

  /** Every user the edit wrote refers only to memory IDs that are in the bag. */
  ghost predicate NamesKnown(before: Layer<User>, after: Layer<User>, known: set<string>)
  {
    forall id :: id in after && after[id].Live? && !(id in before && before[id] == after[id]) ==>
                   UserMemory(after[id].body) <= known
  }

  lemma BagStaysExact(m: SecretMap, before: Layer<User>, e: Edited)
    requires m.Keys == LiveMemory(before)
    requires NamesKnown(before, e.overlay.users, WithPut(m, e.put).Keys)
    ensures SecretsAfter(m, e).Keys == LiveMemory(e.overlay.users)
  {
    var users, known := e.overlay.users, WithPut(m, e.put).Keys;
    forall x | x in LiveMemory(users)
      ensures x in known
    {
      var id :| id in users && users[id].Live? && x in UserMemory(users[id].body);
      if id in before && before[id] == users[id] {
        assert x in LiveMemory(before);
      }
    }
  }

  ghost predicate RunNamesKnown(run: Run)
    requires Shaped(run)
  {
    forall k :: 0 <= k < |run.inputs| && run.results[k].None? && run.edits[k].Ok? ==>
                  NamesKnown(run.states[k].overlay.users, run.edits[k].value.overlay.users,
                             WithPut(BagAt(run, k), run.edits[k].value.put).Keys)
  }

  /** Along every run whose edits name no unknown memory ID, the bag holds exactly
      the memory IDs that live overlay users refer to. */
  lemma {:induction false} BagIsExactlyLive(h: Hashes, d: Document, env: Env, run: Run, k: nat)
    requires IsRun(h, d, env, run) && k < |run.states| && RunNamesKnown(run)
    ensures BagAt(run, k).Keys == LiveMemory(run.states[k].overlay.users)
  {
    if k == 0 {
      StartsEmpty(h, d, env, run);
    } else {
      BagIsExactlyLive(h, d, env, run, k - 1);
      if run.results[k - 1].None? {
        LandedAt(h, d, env, run, k - 1);
        BagStaysExact(BagAt(run, k - 1), run.states[k - 1].overlay.users, run.edits[k - 1].value);
      } else {
        Refused(h, d, env, run, k - 1);
      }
    }
  }

  lemma StartsEmpty(h: Hashes, d: Document, env: Env, run: Run)
    requires IsRun(h, d, env, run)
    ensures run.states[0].overlay == EmptyOverlay
  {
    assert StartedAt(h, d, env, run, 0);
  }

  lemma Refused(h: Hashes, d: Document, env: Env, run: Run, k: nat)
    requires IsRun(h, d, env, run) && k < |run.inputs| && run.results[k].Some?
    ensures run.states[k + 1] == run.states[k]
  {
    assert SteppedAt(h, run, k);
  }

  /** What a successful override of a verifier shows: the user refers to the new runtime
      material, need not change it any more and is the same otherwise, the bag holds exactly the
      given bytes, and no other user changed. */
  ghost predicate TakesEffect(
    before: map<string, Eff<User>>, after: map<string, Eff<User>>, bag: SecretMap, enable: bool, id: string, v: Bytes)
  {
    && id in before && id in after && after[id].body == Overridden(before[id].body, enable, id)
    && (forall x :: x != id ==> BodyOf(after, x) == BodyOf(before, x))
    && VerifierKey(enable, id) in bag && bag[VerifierKey(enable, id)] == v
  }

  /** A successful override at any point of a run takes effect in the next snapshot. */
  lemma OverrideTakesEffect(h: Hashes, d: Document, env: Env, run: Run, k: nat, enable: bool, id: string, v: Bytes)
    requires IsRun(h, d, env, run) && k < |run.inputs| && run.results[k].None?
    requires run.inputs[k].edit == Override(enable, id, Some(v))
    ensures TakesEffect(run.states[k].current.users, run.states[k + 1].current.users, BagAt(run, k + 1), enable, id, v)
    ensures run.states[k + 1].revision == run.states[k].revision + 1
  {
    LandedAt(h, d, env, run, k);
    OverrideAt(h, d, env, run, k, enable, id, v);
    var users := run.states[k + 1].overlay.users;
    assert VerifierKey(enable, id) in UserMemory(users[id].body);
    assert VerifierKey(enable, id) in LiveMemory(users);
    PublishedIsLookup(h, d, env, run, k);
    PublishedIsLookup(h, d, env, run, k + 1);
    ShownUsers(h, run.states[k], run.states[k + 1], id);
    RunKeepsInv(h, d, env, run, k);
    RunStep(h, d, env, run, k);
  }

  lemma OverrideAt(h: Hashes, d: Document, env: Env, run: Run, k: nat, enable: bool, id: string, v: Bytes)
    requires IsRun(h, d, env, run) && k < |run.inputs| && run.edits[k].Ok?
    requires run.inputs[k].edit == Override(enable, id, Some(v))
    ensures Overrides(run.states[k].baseline, run.states[k].overlay, run.edits[k].value, enable, id, v)
  {
    assert EditedAt(run, k);
    var s, i := run.states[k], run.inputs[k];
    OverrideOverrides(s.baseline, s.overlay, enable, id, v, s.revision + 1, i.env.now);
  }

  lemma ShownUsers(h: Hashes, s: State, t: State, id: string)
    requires SnapshotFaithful(h, s) && SnapshotFaithful(h, t) && t.baseline == s.baseline
    requires id in t.overlay.users && t.overlay.users[id].Live?
    requires t.overlay.users == s.overlay.users[id := t.overlay.users[id]]
    ensures BodyOf(t.current.users, id) == Some(t.overlay.users[id].body)
    ensures forall x :: x != id ==> BodyOf(t.current.users, x) == BodyOf(s.current.users, x)
  {
  }
}
