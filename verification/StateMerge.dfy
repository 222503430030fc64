/** The merge loops of internal/state/compile.go. */
module StateMerge {
  import opened Basics
  import opened StateModel

  /** touchBaselineStamps: a replaced baseline touches the identities it names. */
  method TouchStamps<T>(born: map<string, Stamp>, base: seq<Obj<T>>, rev: nat, now: int)
    returns (r: map<string, Stamp>)
    ensures r.Keys == born.Keys
    ensures forall id :: id in r ==> r[id] == if id in IdsOf(base) then Touched(born[id], rev, now) else born[id]
  {
    r := born;
    for i := 0 to |base|
      invariant r.Keys == born.Keys
      invariant forall id :: id in r ==>
                               r[id] == if id in IdsOf(base[..i]) then Touched(born[id], rev, now) else born[id]
    {
      var id := base[i].id;
      IdsOfStep(base, i);
      if id in r {
        r := r[id := Touched(r[id], rev, now)];
      }
    }
    assert base[..|base|] == base;
  }

  /** What a merge has produced so far. */
  datatype Acc<T> = Acc(eff: map<string, Eff<T>>, tombs: seq<Tombstone>, stamps: map<string, Stamp>)

  /** One round of the first merge loop: the overlay entry wins where there is one. */
  function MergeObject<T>(a: Acc<T>, o: Obj<T>, ov: Layer<T>, rev: nat, now: int): (r: Acc<T>)
  {
    if o.id in ov then MergeEntry(a, o.id, ov[o.id], rev)
    else
      var stamps := if o.id in a.stamps then a.stamps else a.stamps[o.id := Stamp(rev, now, rev, now)];
      a.(stamps := stamps, eff := a.eff[o.id := Eff(o.body, ConfigMeta(stamps[o.id], rev))])
  }

  /** One round of the second merge loop, over overlay identities. */
  function MergeEntry<T>(a: Acc<T>, id: string, e: Entry<T>, rev: nat): (r: Acc<T>)
  {
    match e
    case Deleted(t) => a.(tombs := a.tombs + [t])
    case Live(body, meta) => a.(eff := a.eff[id := Eff(body, meta.(effective := rev))])
  }

  function MergeObjects<T>(born: map<string, Stamp>, base: seq<Obj<T>>, ov: Layer<T>, rev: nat, now: int): (r: Acc<T>)
  {
    if base == [] then Acc(map[], [], born)
    else
      var k := |base| - 1;
      MergeObject(MergeObjects(born, base[..k], ov, rev, now), base[k], ov, rev, now)
  }

  function MergeEntries<T>(a: Acc<T>, ids: seq<string>, ov: Layer<T>, rev: nat): (r: Acc<T>)
    requires forall id :: id in ids ==> id in ov
  {
    if ids == [] then a
    else
      var k := |ids| - 1;
      MergeEntry(MergeEntries(a, ids[..k], ov, rev), ids[k], ov[ids[k]], rev)
  }

  // The first loop, property by property.

  ghost predicate StampedFor<T>(
    st: map<string, Stamp>, born: map<string, Stamp>, ids: set<string>, ov: Layer<T>, rev: nat, now: int)
  {
    && st.Keys == born.Keys + (ids - ov.Keys)
    && forall id :: id in st ==> st[id] == if id in born then born[id] else Stamp(rev, now, rev, now)
  }

  lemma StampsStep<T>(a: Acc<T>, o: Obj<T>, born: map<string, Stamp>, ids: set<string>, ov: Layer<T>, rev: nat, now: int)
    requires StampedFor(a.stamps, born, ids, ov, rev, now)
    ensures StampedFor(MergeObject(a, o, ov, rev, now).stamps, born, ids + {o.id}, ov, rev, now)
  {
    assert o.id in ov ==> ids + {o.id} - ov.Keys == ids - ov.Keys;
    assert o.id !in ov ==> ids + {o.id} - ov.Keys == (ids - ov.Keys) + {o.id};
  }

  lemma {:induction false} StampsOf<T>(born: map<string, Stamp>, base: seq<Obj<T>>, ov: Layer<T>, rev: nat, now: int)
    requires UniqueIds(base)
    ensures StampedFor(MergeObjects(born, base, ov, rev, now).stamps, born, IdsOf(base), ov, rev, now)
  {
    if base != [] {
      var k := |base| - 1;
      UniquePrefix(base, k);
      StampsOf(born, base[..k], ov, rev, now);
      StampsStep(MergeObjects(born, base[..k], ov, rev, now), base[k], born, IdsOf(base[..k]), ov, rev, now);
      assert base[..k + 1] == base;
    }
  }

  /** The effective objects of the baseline identities seen so far. */
  ghost predicate EffsFor<T>(a: Acc<T>, base: seq<Obj<T>>, ov: Layer<T>, rev: nat)
  {
    && (forall id :: id in a.eff <==> id in IdsOf(base) && (id in ov ==> ov[id].Live?))
    && forall i :: 0 <= i < |base| && base[i].id in a.eff ==> EffAt(a, base[i], ov, rev)
  }

  ghost predicate EffAt<T>(a: Acc<T>, o: Obj<T>, ov: Layer<T>, rev: nat)
  {
    && o.id in a.eff
    && if o.id in ov then ov[o.id].Live? && a.eff[o.id] == Eff(ov[o.id].body, ov[o.id].meta.(effective := rev))
       else o.id in a.stamps && a.eff[o.id] == Eff(o.body, ConfigMeta(a.stamps[o.id], rev))
  }

  lemma EffsStep<T>(a: Acc<T>, base: seq<Obj<T>>, o: Obj<T>, ov: Layer<T>, rev: nat, now: int)
    requires EffsFor(a, base, ov, rev) && o.id !in IdsOf(base)
    requires IdsOf(base + [o]) == IdsOf(base) + {o.id}
    ensures EffsFor(MergeObject(a, o, ov, rev, now), base + [o], ov, rev)
  {
    var all, b := base + [o], MergeObject(a, o, ov, rev, now);
    forall i | 0 <= i < |all| && all[i].id in b.eff
      ensures EffAt(b, all[i], ov, rev)
    {
      if i < |base| {
        assert all[i] == base[i] && base[i].id in IdsOf(base);
        assert EffAt(a, base[i], ov, rev);
      }
    }
  }

  lemma {:induction false} EffsOf<T>(born: map<string, Stamp>, base: seq<Obj<T>>, ov: Layer<T>, rev: nat, now: int)
    requires UniqueIds(base)
    ensures EffsFor(MergeObjects(born, base, ov, rev, now), base, ov, rev)
  {
    if base != [] {
      var k := |base| - 1;
      UniquePrefix(base, k);
      EffsOf(born, base[..k], ov, rev, now);
      assert base[..k + 1] == base == base[..k] + [base[k]];
      EffsStep(MergeObjects(born, base[..k], ov, rev, now), base[..k], base[k], ov, rev, now);
    }
  }

  /** The tombstones listed are the deletions among these identities, each once. */
  ghost predicate TombsFor<T>(tombs: seq<Tombstone>, ov: Layer<T>, ids: set<string>)
  {
    && Distinct(tombs)
    && (forall t :: t in tombs ==> t.id in ids && t.id in ov && ov[t.id] == Deleted(t))
    && (forall id :: id in ov && id in ids && ov[id].Deleted? ==> ov[id].tomb in tombs)
  }

  lemma AddTomb<T>(tombs: seq<Tombstone>, ov: Layer<T>, ids: set<string>, id: string)
    requires TombsFor(tombs, ov, ids) && TombsKeyed(ov) && id in ov && id !in ids
    ensures TombsFor(if ov[id].Deleted? then tombs + [ov[id].tomb] else tombs, ov, ids + {id})
  {
    assert forall k :: 0 <= k < |tombs| ==> tombs[k] in tombs;
  }

  lemma {:induction false} TombsOf<T>(born: map<string, Stamp>, base: seq<Obj<T>>, ov: Layer<T>, rev: nat, now: int)
    requires UniqueIds(base) && TombsKeyed(ov)
    ensures TombsFor(MergeObjects(born, base, ov, rev, now).tombs, ov, IdsOf(base))
  {
    if base != [] {
      var k := |base| - 1;
      UniquePrefix(base, k);
      TombsOf(born, base[..k], ov, rev, now);
      assert base[..k + 1] == base;
      if base[k].id in ov {
        AddTomb(MergeObjects(born, base[..k], ov, rev, now).tombs, ov, IdsOf(base[..k]), base[k].id);
      }
    }
  }

  // The second loop.

  lemma EntriesStep<T>(a: Acc<T>, b: Acc<T>, ids: seq<string>, id: string, ov: Layer<T>, rev: nat)
    requires (forall x :: x in ids ==> x in ov) && id in ov && id !in ids && EntriesAdded(a, b, ids, ov, rev)
    ensures EntriesAdded(a, MergeEntry(b, id, ov[id], rev), ids + [id], ov, rev)
  {
  }

  lemma {:induction false} EntriesOf<T>(a: Acc<T>, ids: seq<string>, ov: Layer<T>, rev: nat, before: set<string>)
    requires (forall id :: id in ids ==> id in ov) && Distinct(ids) && TombsKeyed(ov)
    requires forall id :: id in ids ==> id !in before
    requires TombsFor(a.tombs, ov, before)
    ensures var b := MergeEntries(a, ids, ov, rev);
            TombsFor(b.tombs, ov, before + Elements(ids)) && EntriesAdded(a, b, ids, ov, rev)
  {
    if ids == [] {
      assert before + Elements(ids) == before;
    } else {
      var k := |ids| - 1;
      var b := MergeEntries(a, ids[..k], ov, rev);
      assert ids == ids[..k] + [ids[k]] && ids[k] in ids && ids[k] !in ids[..k];
      EntriesOf(a, ids[..k], ov, rev, before);
      assert before + Elements(ids) == before + Elements(ids[..k]) + {ids[k]};
      AddTomb(b.tombs, ov, before + Elements(ids[..k]), ids[k]);
      EntriesStep(a, b, ids[..k], ids[k], ov, rev);
    }
  }

  /** The overlay identities the baseline does not have, in some order. */
  method OverlayOnly<T>(base: seq<Obj<T>>, ov: Layer<T>) returns (ids: seq<string>)
    ensures Distinct(ids) && forall id :: id in ids <==> id in ov && id !in IdsOf(base)
  {
    ids := [];
    var seen := IdsOf(base);
    var rest := ov.Keys - seen;
    while rest != {}
      invariant rest <= ov.Keys - seen && Distinct(ids)
      invariant forall id :: id in ids <==> id in ov.Keys - seen - rest
    {
      var id :| id in rest;
      assert forall k :: 0 <= k < |ids| ==> ids[k] in ids;
      ids := ids + [id];
      rest := rest - {id};
    }
  }

  /** Merges one kind: the result is the pointwise lookup over baseline and
      overlay, and the tombstone list is the overlay's deletions. */
  method Merge<T>(base: seq<Obj<T>>, ov: Layer<T>, born: map<string, Stamp>, rev: nat, now: int)
    returns (eff: map<string, Eff<T>>, tombs: seq<Tombstone>, stamps: map<string, Stamp>)
    requires UniqueIds(base) && TombsKeyed(ov)
    ensures IsMerged(eff, base, ov, stamps, rev)
    ensures TombsExactly(tombs, ov)
    ensures StampedFor(stamps, born, IdsOf(base), ov, rev, now)
  {
    var a: Acc<T> := Acc(map[], [], born);
    for i := 0 to |base|
      invariant a == MergeObjects(born, base[..i], ov, rev, now)
    {
      assert base[..i + 1][..i] == base[..i];
      a := MergeObject(a, base[i], ov, rev, now);
    }
    assert base[..|base|] == base;
    var ids := OverlayOnly(base, ov);
    var b := a;
    for i := 0 to |ids|
      invariant b == MergeEntries(a, ids[..i], ov, rev)
    {
      assert ids[..i + 1][..i] == ids[..i];
      assert ids[i] in ids;
      b := MergeEntry(b, ids[i], ov[ids[i]], rev);
    }
    assert ids[..|ids|] == ids;
    MergeIsPointwise(born, base, ov, ids, rev, now);
    return b.eff, b.tombs, b.stamps;
  }

  lemma TombsOfAll<T>(tombs: seq<Tombstone>, ov: Layer<T>, ids: set<string>)
    requires TombsFor(tombs, ov, ids) && ov.Keys <= ids
    ensures TombsExactly(tombs, ov)
  {
  }

  /** What the second loop adds to the first. */
  ghost predicate EntriesAdded<T>(a: Acc<T>, b: Acc<T>, ids: seq<string>, ov: Layer<T>, rev: nat)
    requires forall id :: id in ids ==> id in ov
  {
    && b.stamps == a.stamps
    && (forall id :: id in b.eff <==> id in a.eff || (id in ids && ov[id].Live?))
    && forall id :: id in b.eff ==>
                      b.eff[id] == if id in ids && ov[id].Live? then Eff(ov[id].body, ov[id].meta.(effective := rev))
                                   else a.eff[id]
  }

  lemma PointwiseAt<T>(a: Acc<T>, b: Acc<T>, base: seq<Obj<T>>, ov: Layer<T>, ids: seq<string>, rev: nat, id: string)
    requires UniqueIds(base) && EffsFor(a, base, ov, rev)
    requires forall x :: x in ids <==> x in ov && x !in IdsOf(base)
    requires EntriesAdded(a, b, ids, ov, rev)
    requires forall x :: x in IdsOf(base) && x !in ov ==> x in a.stamps
    ensures id in b.eff <==> Lookup(base, ov, id).Some?
    ensures id in b.eff ==> b.eff[id] == EffOf(base, ov, b.stamps, rev, id)
  {
    if id in IdsOf(base) {
      var i :| 0 <= i < |base| && base[i].id == id;
      FindAt(base, i);
      assert id in a.eff ==> EffAt(a, base[i], ov, rev);
    }
  }

  lemma MergeIsPointwise<T>(born: map<string, Stamp>, base: seq<Obj<T>>, ov: Layer<T>, ids: seq<string>, rev: nat, now: int)
    requires UniqueIds(base) && TombsKeyed(ov)
    requires Distinct(ids) && forall id :: id in ids <==> id in ov && id !in IdsOf(base)
    ensures var b := MergeEntries(MergeObjects(born, base, ov, rev, now), ids, ov, rev);
            && IsMerged(b.eff, base, ov, b.stamps, rev)
            && TombsExactly(b.tombs, ov)
            && StampedFor(b.stamps, born, IdsOf(base), ov, rev, now)
  {
    var a := MergeObjects(born, base, ov, rev, now);
    StampsOf(born, base, ov, rev, now);
    EffsOf(born, base, ov, rev, now);
    TombsOf(born, base, ov, rev, now);
    EntriesOf(a, ids, ov, rev, IdsOf(base));
    var b := MergeEntries(a, ids, ov, rev);
    TombsOfAll(b.tombs, ov, IdsOf(base) + Elements(ids));
    forall id
      ensures id in b.eff <==> Lookup(base, ov, id).Some?
      ensures id in b.eff ==> b.eff[id] == EffOf(base, ov, b.stamps, rev, id)
    {
      PointwiseAt(a, b, base, ov, ids, rev, id);
    }
  }

  /** The compiled form of one kind. */
  ghost predicate KindCompiled<T>(
    eff: map<string, Eff<T>>, tombs: seq<Tombstone>, next: map<string, Stamp>, born: map<string, Stamp>,
    base: seq<Obj<T>>, ov: Layer<T>, rev: nat, now: int, touch: bool)
  {
    IsMerged(eff, base, ov, next, rev) && TombsExactly(tombs, ov) && IsRestamped(next, born, base, ov, rev, now, touch)
  }

  ghost predicate TouchedFrom<T>(st: map<string, Stamp>, born: map<string, Stamp>, base: seq<Obj<T>>, rev: nat, now: int, touch: bool)
  {
    && st.Keys == born.Keys
    && forall id :: id in st ==> st[id] == if touch && id in IdsOf(base) then Touched(born[id], rev, now) else born[id]
  }

  /** The stamps that are still used. */
  function Used<T>(merged: map<string, Stamp>, base: seq<Obj<T>>, eff: map<string, Eff<T>>): (r: map<string, Stamp>)
  {
    map id | id in merged && (id in IdsOf(base) || id in eff) :: merged[id]
  }

  lemma UsedKeepsMerged<T>(eff: map<string, Eff<T>>, base: seq<Obj<T>>, ov: Layer<T>, merged: map<string, Stamp>, rev: nat)
    requires IsMerged(eff, base, ov, merged, rev)
    ensures IsMerged(eff, base, ov, Used(merged, base, eff), rev)
  {
    var next := Used(merged, base, eff);
    forall id | id in eff
      ensures eff[id] == EffOf(base, ov, next, rev, id)
    {
      assert eff[id] == EffOf(base, ov, merged, rev, id);
    }
  }

  lemma UsedIsRestamped<T>(
    eff: map<string, Eff<T>>, base: seq<Obj<T>>, ov: Layer<T>, born: map<string, Stamp>, st: map<string, Stamp>,
    merged: map<string, Stamp>, rev: nat, now: int, touch: bool)
    requires forall id :: id in eff <==> Lookup(base, ov, id).Some?
    requires TouchedFrom(st, born, base, rev, now, touch) && StampedFor(merged, st, IdsOf(base), ov, rev, now)
    ensures IsRestamped(Used(merged, base, eff), born, base, ov, rev, now, touch)
  {
    var next := Used(merged, base, eff);
    forall id | id in next
      ensures if id in born then next[id] == if touch && id in IdsOf(base) then Touched(born[id], rev, now) else born[id]
              else next[id] == Stamp(rev, now, rev, now)
    {
      assert id in st <==> id in born;
    }
  }

  /** Compiles one kind: touch the stamps of a replaced baseline, merge, and drop
      the stamps of identities that are gone. */
  method CompileKind<T>(base: seq<Obj<T>>, ov: Layer<T>, born: map<string, Stamp>, rev: nat, now: int, touch: bool)
    returns (eff: map<string, Eff<T>>, tombs: seq<Tombstone>, next: map<string, Stamp>)
    requires UniqueIds(base) && TombsKeyed(ov)
    ensures KindCompiled(eff, tombs, next, born, base, ov, rev, now, touch)
  {
    var stamps := born;
    if touch {
      stamps := TouchStamps(born, base, rev, now);
    }
    assert TouchedFrom(stamps, born, base, rev, now, touch);
    var merged: map<string, Stamp>;
    eff, tombs, merged := Merge(base, ov, stamps, rev, now);
    UsedKeepsMerged(eff, base, ov, merged, rev);
    UsedIsRestamped(eff, base, ov, born, stamps, merged, rev, now, touch);
    next := Used(merged, base, eff);
  }
}
