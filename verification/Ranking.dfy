/** The order "priority, then id" that the policy engine sorts by, and the stable sort
    it uses. The sort is determined by the runs of equal keys: lists that agree on
    each run sort alike, and only those do. */
module Ranking {
  import opened Basics

  datatype Key = Key(priority: int, id: string)

  predicate Before(a: Key, b: Key)
  {
    a.priority < b.priority || (a.priority == b.priority && Less(a.id, b.id))
  }

  lemma BeforeIsTotal(a: Key, b: Key)
    ensures Before(a, b) || Before(b, a) || a == b
    ensures !(Before(a, b) && Before(b, a)) && !Before(a, a)
  {
    LessTrichotomy(a.id, b.id);
  }

  lemma BeforeIsTransitive(a: Key, b: Key, c: Key)
    requires Before(a, b) && Before(b, c)
    ensures Before(a, c)
  {
    if a.priority == b.priority == c.priority { LessTransitive(a.id, b.id, c.id); }
  }

  /** No element comes after one that should follow it. */
  predicate Ranked<T>(s: seq<T>, key: T -> Key)
  {
    forall i, j :: 0 <= i < j < |s| ==> !Before(key(s[j]), key(s[i]))
  }

  /** The elements with key `k`, in order. */
  function Run<T>(s: seq<T>, key: T -> Key, k: Key): (r: seq<T>)
  {
    if s == [] then []
    else if key(s[0]) == k then [s[0]] + Run(s[1..], key, k)
    else Run(s[1..], key, k)
  }

  /** Puts `x` before the first element that does not precede it. */
  function Insert<T>(x: T, s: seq<T>, key: T -> Key): (r: seq<T>)
  {
    if s == [] || !Before(key(s[0]), key(x)) then [x] + s
    else [s[0]] + Insert(x, s[1..], key)
  }

  /** The result of Go's sort.SliceStable under this order. */
  function StableSort<T>(s: seq<T>, key: T -> Key): (r: seq<T>)
  {
    if s == [] then [] else Insert(s[0], StableSort(s[1..], key), key)
  }

  lemma {:induction false} InsertMembers<T>(x: T, s: seq<T>, key: T -> Key, y: T)
    ensures y in Insert(x, s, key) <==> y == x || y in s
  {
    if s != [] && Before(key(s[0]), key(x)) {
      InsertMembers(x, s[1..], key, y);
      assert s == [s[0]] + s[1..];
    }
  }

  lemma {:induction false} InsertRanks<T>(x: T, s: seq<T>, key: T -> Key)
    requires Ranked(s, key)
    ensures Ranked(Insert(x, s, key), key)
  {
    if s == [] {
    } else if !Before(key(s[0]), key(x)) {
      var r := [x] + s;
      forall i, j | 0 <= i < j < |r| ensures !Before(key(r[j]), key(r[i])) {
        if i == 0 { HeadLeads(s, key, j - 1); NotBefore(key(r[j]), key(s[0]), key(x)); }
      }
    } else {
      InsertRanks(x, s[1..], key);
      var rest := Insert(x, s[1..], key);
      assert s == [s[0]] + s[1..];
      var r := [s[0]] + rest;
      forall i, j | 0 <= i < j < |r| ensures !Before(key(r[j]), key(r[i])) {
        if i == 0 {
          assert r[j] == rest[j - 1] && rest[j - 1] in rest;
          BeforeIsTotal(key(s[0]), key(x));
          if r[j] != x {
            InsertMembers(x, s[1..], key, r[j]);
            var m :| 0 <= m < |s[1..]| && s[1..][m] == r[j];
            HeadLeads(s, key, m + 1);
          }
        }
      }
    }
  }

  lemma HeadLeads<T>(s: seq<T>, key: T -> Key, j: nat)
    requires Ranked(s, key) && j < |s|
    ensures !Before(key(s[j]), key(s[0]))
  {
    if j == 0 { BeforeIsTotal(key(s[0]), key(s[0])); }
  }

  /** "Not before" is transitive. */
  lemma NotBefore(a: Key, b: Key, c: Key)
    requires !Before(a, b) && !Before(b, c)
    ensures !Before(a, c)
  {
    BeforeIsTotal(a, b);
    BeforeIsTotal(b, c);
    if Before(a, c) {
      if b != a { BeforeIsTransitive(b, a, c); }
    }
  }

  lemma {:induction false} InsertRun<T>(x: T, s: seq<T>, key: T -> Key, k: Key)
    ensures Run(Insert(x, s, key), key, k) == Run([x] + s, key, k)
  {
    assert ([x] + s)[1..] == s;
    if s != [] && Before(key(s[0]), key(x)) {
      var rest := Insert(x, s[1..], key);
      InsertRun(x, s[1..], key, k);
      assert ([x] + s[1..])[1..] == s[1..];
      assert ([s[0]] + rest)[1..] == rest;
      BeforeIsTotal(key(s[0]), key(x));
    }
  }

  /** The sort ranks its input and keeps the elements with equal keys, in order. */
  lemma {:induction false} SortIsStable<T>(s: seq<T>, key: T -> Key, k: Key)
    ensures Ranked(StableSort(s, key), key)
    ensures Run(StableSort(s, key), key, k) == Run(s, key, k)
  {
    if s != [] {
      SortIsStable(s[1..], key, k);
      var rest := StableSort(s[1..], key);
      InsertRanks(s[0], rest, key);
      InsertRun(s[0], rest, key, k);
      assert ([s[0]] + rest)[1..] == rest;
    }
  }

  // ---------------------------------------------------------------------------
  // Uniqueness
  // ---------------------------------------------------------------------------

  ghost predicate SameRuns<T>(a: seq<T>, b: seq<T>, key: T -> Key)
  {
    forall k :: Run(a, key, k) == Run(b, key, k)
  }

  lemma {:induction false} RunMembers<T>(s: seq<T>, key: T -> Key, k: Key, x: T)
    ensures x in Run(s, key, k) <==> x in s && key(x) == k
  {
    if s != [] {
      RunMembers(s[1..], key, k, x);
      assert s == [s[0]] + s[1..];
    }
  }

  /** A ranked list leads with its least key. */
  lemma SameRunsSameHead<T>(a: seq<T>, b: seq<T>, key: T -> Key)
    requires Ranked(a, key) && Ranked(b, key) && a != []
    requires SameRuns(a, b, key)
    ensures b != [] && a[0] == b[0]
  {
    var k := key(a[0]);
    RunMembers(a, key, k, a[0]);
    RunMembers(b, key, k, a[0]);
    var i :| 0 <= i < |b| && b[i] == a[0];
    RunMembers(b, key, key(b[0]), b[0]);
    RunMembers(a, key, key(b[0]), b[0]);
    var j :| 0 <= j < |a| && a[j] == b[0];
    HeadLeads(b, key, i);
    HeadLeads(a, key, j);
    BeforeIsTotal(key(a[0]), key(b[0]));
    assert Run(a, key, k)[0] == a[0];
    assert Run(b, key, k)[0] == b[0];
  }

  lemma {:induction false} RankedIsUnique<T>(a: seq<T>, b: seq<T>, key: T -> Key)
    requires Ranked(a, key) && Ranked(b, key)
    requires SameRuns(a, b, key)
    ensures a == b
  {
    if a != [] {
      SameRunsSameHead(a, b, key);
      forall k ensures Run(a[1..], key, k) == Run(b[1..], key, k) {
        TailRun(a, b, key, k);
      }
      RankedIsUnique(a[1..], b[1..], key);
      assert a == [a[0]] + a[1..] && b == [b[0]] + b[1..];
    } else if b != [] {
      SameRunsSameHead(b, a, key);
    }
  }

  lemma TailRun<T>(a: seq<T>, b: seq<T>, key: T -> Key, k: Key)
    requires a != [] && b != [] && a[0] == b[0] && Run(a, key, k) == Run(b, key, k)
    ensures Run(a[1..], key, k) == Run(b[1..], key, k)
  {
    if key(a[0]) == k {
      assert Run(a[1..], key, k) == Run(a, key, k)[1..];
      assert Run(b[1..], key, k) == Run(b, key, k)[1..];
    }
  }

  /** The sorted list depends on the runs of equal keys and on nothing else. */
  lemma SortDependsOnRuns<T>(a: seq<T>, b: seq<T>, key: T -> Key)
    ensures StableSort(a, key) == StableSort(b, key) <==> SameRuns(a, b, key)
  {
    var p, q := StableSort(a, key), StableSort(b, key);
    SortIsStable(a, key, Key(0, ""));
    SortIsStable(b, key, Key(0, ""));
    if p == q {
      forall k ensures Run(a, key, k) == Run(b, key, k) {
        SortIsStable(a, key, k);
        SortIsStable(b, key, k);
      }
    } else if SameRuns(a, b, key) {
      forall k ensures Run(p, key, k) == Run(q, key, k) {
        SortIsStable(a, key, k);
        SortIsStable(b, key, k);
        assert Run(a, key, k) == Run(b, key, k);
      }
      RankedIsUnique(p, q, key);
    }
  }

  // ---------------------------------------------------------------------------
  // Distinct keys
  // ---------------------------------------------------------------------------

  predicate DistinctKeys<T>(s: seq<T>, key: T -> Key)
  {
    forall i, j :: 0 <= i < j < |s| ==> key(s[i]) != key(s[j])
  }

  lemma {:induction false} DistinctRun<T>(s: seq<T>, key: T -> Key, x: T)
    requires DistinctKeys(s, key) && x in s
    ensures Run(s, key, key(x)) == [x]
  {
    if s[0] == x {
      assert forall y :: y in s[1..] ==> key(y) != key(x);
      RunWithout(s[1..], key, key(x));
    } else {
      assert s == [s[0]] + s[1..];
      var j :| 0 <= j < |s| && s[j] == x;
      assert key(s[0]) != key(s[j]);
      DistinctRun(s[1..], key, x);
    }
  }

  lemma RunWithout<T>(s: seq<T>, key: T -> Key, k: Key)
    requires forall x :: x in s ==> key(x) != k
    ensures Run(s, key, k) == []
  {
    if Run(s, key, k) != [] { RunMembers(s, key, k, Run(s, key, k)[0]); }
  }

  /** Lists without equal keys sort alike whenever they have the same elements. */
  lemma OrderDoesNotMatter<T>(a: seq<T>, b: seq<T>, key: T -> Key)
    requires DistinctKeys(a, key) && DistinctKeys(b, key)
    requires forall x :: x in a <==> x in b
    ensures SameRuns(a, b, key) && StableSort(a, key) == StableSort(b, key)
  {
    forall k ensures Run(a, key, k) == Run(b, key, k) { DistinctRuns(a, b, key, k); }
    SortDependsOnRuns(a, b, key);
  }

  lemma DistinctRuns<T>(a: seq<T>, b: seq<T>, key: T -> Key, k: Key)
    requires DistinctKeys(a, key) && DistinctKeys(b, key)
    requires forall x :: x in a <==> x in b
    ensures Run(a, key, k) == Run(b, key, k)
  {
    if x :| x in a && key(x) == k {
      DistinctRun(a, key, x);
      DistinctRun(b, key, x);
    } else {
      RunWithout(a, key, k);
      RunWithout(b, key, k);
    }
  }

  lemma {:induction false} SortMembers<T>(s: seq<T>, key: T -> Key, y: T)
    ensures y in StableSort(s, key) <==> y in s
  {
    if s != [] {
      SortMembers(s[1..], key, y);
      InsertMembers(s[0], StableSort(s[1..], key), key, y);
      assert s == [s[0]] + s[1..];
    }
  }

  lemma {:induction false} InsertKeepsDistinct<T>(x: T, s: seq<T>, key: T -> Key)
    requires DistinctKeys(s, key) && forall y :: y in s ==> key(y) != key(x)
    ensures DistinctKeys(Insert(x, s, key), key)
  {
    if s != [] && Before(key(s[0]), key(x)) {
      var rest := Insert(x, s[1..], key);
      InsertKeepsDistinct(x, s[1..], key);
      forall j | 0 <= j < |rest| ensures key(s[0]) != key(rest[j]) {
        InsertMembers(x, s[1..], key, rest[j]);
      }
    }
  }

  lemma {:induction false} SortKeepsDistinct<T>(s: seq<T>, key: T -> Key)
    requires DistinctKeys(s, key)
    ensures DistinctKeys(StableSort(s, key), key)
  {
    if s != [] {
      var rest := StableSort(s[1..], key);
      SortKeepsDistinct(s[1..], key);
      forall y | y in rest ensures key(y) != key(s[0]) { SortMembers(s[1..], key, y); }
      InsertKeepsDistinct(s[0], rest, key);
    }
  }

  /** A ranked list without equal keys is the only one with its elements. */
  lemma RankedSetIsUnique<T>(a: seq<T>, b: seq<T>, key: T -> Key)
    requires Ranked(a, key) && Ranked(b, key) && DistinctKeys(a, key) && DistinctKeys(b, key)
    requires forall x :: x in a <==> x in b
    ensures a == b
  {
    forall k ensures Run(a, key, k) == Run(b, key, k) { DistinctRuns(a, b, key, k); }
    RankedIsUnique(a, b, key);
  }

  // ---------------------------------------------------------------------------
  // IDs
  // ---------------------------------------------------------------------------

  function IdKey(id: string): (k: Key) { Key(0, id) }

  /** The result of Go's sort.Strings. */
  function SortIds(ids: seq<string>): (r: seq<string>) { StableSort(ids, IdKey) }

  predicate Ascending(ids: seq<string>)
  {
    forall i, j :: 0 <= i < j < |ids| ==> Less(ids[i], ids[j])
  }

  /** Distinct IDs come out strictly ascending, and none is lost or added. */
  lemma SortIdsAscend(ids: seq<string>)
    requires Distinct(ids)
    ensures Ascending(SortIds(ids)) && forall id :: id in SortIds(ids) <==> id in ids
  {
    var r := SortIds(ids);
    SortIsStable(ids, IdKey, Key(0, ""));
    assert DistinctKeys(ids, IdKey);
    SortKeepsDistinct(ids, IdKey);
    forall i, j | 0 <= i < j < |r| ensures Less(r[i], r[j]) {
      assert IdKey(r[i]) != IdKey(r[j]) && !Before(IdKey(r[j]), IdKey(r[i]));
      LessTrichotomy(r[i], r[j]);
    }
    forall id ensures id in r <==> id in ids { SortMembers(ids, IdKey, id); }
  }

  /** The place of an ID decides how it compares. */
  lemma AscendingPlaces(ids: seq<string>, i: nat, j: nat)
    requires Ascending(ids) && i < |ids| && j < |ids| && Less(ids[i], ids[j])
    ensures i < j
  {
    LessTrichotomy(ids[i], ids[j]);
  }

  /** `a` and `b` come first among the elements of `w`. */
  ghost predicate LeastTwo(w: iset<string>, a: string, b: string)
  {
    Less(a, b) && a in w && b in w && forall id :: id in w ==> id == a || id == b || Less(b, id)
  }

  lemma FirstIsLeast(w: iset<string>, a: string, b: string, x: string)
    requires LeastTwo(w, a, b) && x in w
    ensures !Less(x, a) && (x != a ==> !Less(x, b))
  {
    LessTrichotomy(a, x);
    LessTrichotomy(b, x);
    LessTrichotomy(a, b);
    if Less(b, x) { LessTransitive(a, b, x); }
  }

  lemma LeastTwoAreUnique(w: iset<string>, a: string, b: string, c: string, d: string)
    requires LeastTwo(w, a, b) && LeastTwo(w, c, d)
    ensures a == c && b == d
  {
    FirstIsLeast(w, a, b, c);
    FirstIsLeast(w, c, d, a);
    LessTrichotomy(a, c);
    FirstIsLeast(w, a, b, d);
    FirstIsLeast(w, c, d, b);
    LessTrichotomy(b, d);
    LessTrichotomy(a, b);
    LessTrichotomy(c, d);
  }
}
