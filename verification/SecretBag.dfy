/** Runtime secret material: byte arrays that pruning wipes in place, and the
    copies that keep published snapshots out of its reach. */
module SecretBag {
  import opened Basics

  type Bag = map<string, array<bv8>>

  type SecretMap = map<string, Bytes>

  ghost function Arrays(bag: Bag): (a: set<array<bv8>>)
  {
    set k | k in bag :: bag[k]
  }

  /** The bytes behind a bag. */
  ghost function Contents(bag: Bag): (m: SecretMap)
    reads Arrays(bag)
    ensures m.Keys == bag.Keys && forall k :: k in bag ==> m[k] == bag[k][..]
  {
    map k | k in bag :: bag[k][..]
  }

  ghost predicate Unaliased(bag: Bag)
  {
    forall j, k :: j in bag && k in bag && j != k ==> bag[j] != bag[k]
  }

  function Restrict(m: SecretMap, live: set<string>): (r: SecretMap)
  {
    map k | k in m && k in live :: m[k]
  }

  method CopyBytes(b: array<bv8>) returns (r: array<bv8>)
    ensures fresh(r) && r[..] == b[..]
  {
    r := new bv8[b.Length];
    for i := 0 to b.Length
      invariant r[..i] == b[..i]
    {
      r[i] := b[i];
    }
  }

  method FromBytes(b: Bytes) returns (r: array<bv8>)
    ensures fresh(r) && r[..] == b
  {
    r := new bv8[|b|](i requires 0 <= i < |b| => b[i]);
  }

  /** cloneSecretBag: every array of the result is new. */
  method Clone(bag: Bag) returns (r: Bag)
    ensures r.Keys == bag.Keys && Unaliased(r)
    ensures forall k :: k in r ==> fresh(r[k])
    ensures Contents(r) == Contents(bag)
  {
    r := map[];
    var rest := bag.Keys;
    while rest != {}
      invariant rest <= bag.Keys && r.Keys == bag.Keys - rest && Unaliased(r)
      invariant forall k :: k in r ==> fresh(r[k]) && r[k][..] == bag[k][..]
    {
      var k :| k in rest;
      var a := CopyBytes(bag[k]);
      r := r[k := a];
      rest := rest - {k};
    }
  }

  method Wipe(b: array<bv8>)
    modifies b
    ensures forall i :: 0 <= i < b.Length ==> b[i] == 0
  {
    for i := 0 to b.Length
      invariant forall j :: 0 <= j < i ==> b[j] == 0
    {
      b[i] := 0;
    }
  }

  /** pruneOverlaySecrets: drops and wipes what no live user refers to. */
  method Prune(bag: Bag, live: set<string>) returns (r: Bag)
    requires Unaliased(bag)
    modifies Arrays(bag)
    ensures r.Keys == bag.Keys * live && forall k :: k in r ==> r[k] == bag[k]
    ensures Contents(r) == Restrict(old(Contents(bag)), live)
    ensures forall k :: k in bag && k !in live ==> forall i :: 0 <= i < bag[k].Length ==> bag[k][i] == 0
  {
    var rest := bag.Keys - live;
    ghost var dead := rest;
    while rest != {}
      invariant rest <= dead
      invariant forall k :: k in bag && k !in dead ==> bag[k][..] == old(bag[k][..])
      invariant forall k :: k in dead - rest ==> forall i :: 0 <= i < bag[k].Length ==> bag[k][i] == 0
    {
      var k :| k in rest;
      Wipe(bag[k]);
      rest := rest - {k};
    }
    r := map k | k in bag && k in live :: bag[k];
  }
}
