/** The two-row edit distance of internal/config/errors.go, on texts as runes: it computes
    the least number of single-rune insertions, deletions and substitutions. */
module EditDistance {

  /** min3. */
  function Min3(a: nat, b: nat, c: nat): (m: nat)
    ensures m <= a && m <= b && m <= c && (m == a || m == b || m == c)
  {
    if a < b then (if a < c then a else c) else if b < c then b else c
  }

  function Cost(c: char, d: char): (r: nat) { if c == d then 0 else 1 }

  /** The distance by the last runes. */
  function Dist(a: string, b: string): (r: nat)
    decreases |a| + |b|
  {
    if a == "" then |b|
    else if b == "" then |a|
    else
      var m, n := |a| - 1, |b| - 1;
      Min3(Dist(a[..m], b) + 1, Dist(a, b[..n]) + 1, Dist(a[..m], b[..n]) + Cost(a[m], b[n]))
  }

  /** A cell of the table: the distance of two beginnings. */
  function At(a: string, b: string, i: nat, j: nat): (r: nat)
    requires i <= |a| && j <= |b|
  {
    Dist(a[..i], b[..j])
  }

  lemma Cell(a: string, b: string, i: nat, j: nat)
    requires 0 < i <= |a| && 0 < j <= |b|
    ensures At(a, b, i, j) == Min3(At(a, b, i - 1, j) + 1, At(a, b, i, j - 1) + 1, At(a, b, i - 1, j - 1) + Cost(a[i - 1], b[j - 1]))
  {
    assert a[..i][..i - 1] == a[..i - 1] && b[..j][..j - 1] == b[..j - 1];
  }

  /** The texts are exhausted by their own length, and a beginning costs what it is long. */
  lemma Corners(a: string, b: string, k: nat)
    ensures At(a, b, |a|, |b|) == Dist(a, b)
    ensures k <= |a| ==> At(a, b, k, 0) == k
    ensures k <= |b| ==> At(a, b, 0, k) == k
  {
    assert a[..|a|] == a && b[..|b|] == b;
  }

  lemma {:induction false} DistToSelf(a: string)
    ensures Dist(a, a) == 0
  {
    if a != "" { DistToSelf(a[..|a| - 1]); }
  }

  /** Fills the row of `a[..i]` from the row above. */
  method NextRow(a: string, b: string, i: nat, prev: array<nat>, cur: array<nat>)
    requires 0 < i <= |a| && prev != cur && prev.Length == cur.Length == |b| + 1
    requires forall j :: 0 <= j <= |b| ==> prev[j] == At(a, b, i - 1, j)
    modifies cur
    ensures forall j :: 0 <= j <= |b| ==> cur[j] == At(a, b, i, j)
  {
    Corners(a, b, i);
    cur[0] := i;
    for j := 1 to |b| + 1
      invariant forall k :: 0 <= k < j ==> cur[k] == At(a, b, i, k)
      invariant forall k :: 0 <= k <= |b| ==> prev[k] == At(a, b, i - 1, k)
    {
      Cell(a, b, i, j);
      var cost := if a[i - 1] == b[j - 1] then 0 else 1;
      cur[j] := Min3(prev[j] + 1, cur[j - 1] + 1, prev[j - 1] + cost);
    }
  }

  /** levenshtein, with two rows that change places. */
  method Levenshtein(a: string, b: string) returns (d: nat)
    ensures d == Dist(a, b)
    ensures forall p :: IsScript(p, a, b) ==> |p| - 1 >= d
    ensures exists p :: IsScript(p, a, b) && |p| - 1 == d
  {
    DistIsLeast(a, b);
    if a == b {
      DistToSelf(a);
      return 0;
    }
    if |a| == 0 { return |b|; }
    if |b| == 0 { return |a|; }
    var prev, cur := new nat[|b| + 1], new nat[|b| + 1];
    for j := 0 to |b| + 1
      invariant forall k :: 0 <= k < j ==> prev[k] == At(a, b, 0, k)
    {
      Corners(a, b, j);
      prev[j] := j;
    }
    for i := 1 to |a| + 1
      invariant fresh(prev) && fresh(cur) && prev != cur && prev.Length == cur.Length == |b| + 1
      invariant forall j :: 0 <= j <= |b| ==> prev[j] == At(a, b, i - 1, j)
    {
      NextRow(a, b, i, prev, cur);
      prev, cur := cur, prev;
    }
    Corners(a, b, 0);
    return prev[|b|];
  }

  // ---------------------------------------------------------------------------
  // Edit scripts
  // ---------------------------------------------------------------------------

  /** `t` is `s` with a rune inserted at `i`, or the rune at `i` deleted or replaced. */
  predicate EditAt(s: string, t: string, i: nat, c: char)
  {
    i <= |s| && (t == s[..i] + [c] + s[i..] || (i < |s| && (t == s[..i] + s[i + 1..] || t == s[..i] + [c] + s[i + 1..])))
  }

  ghost predicate OneEdit(s: string, t: string)
  {
    exists i: nat, c: char :: EditAt(s, t, i, c)
  }

  /** A run of single edits from `a` to `b`. */
  ghost predicate IsScript(p: seq<string>, a: string, b: string)
  {
    |p| > 0 && p[0] == a && p[|p| - 1] == b && forall i :: 0 <= i < |p| - 1 ==> OneEdit(p[i], p[i + 1])
  }

  predicate Near(s: string, t: string, b: string)
  {
    Dist(s, b) <= Dist(t, b) + 1 && Dist(t, b) <= Dist(s, b) + 1
  }

  lemma {:induction false} ShorterIsNear(x: string, c: char, b: string)
    ensures Near(x + [c], x, b)
    decreases |b|
  {
    assert (x + [c])[..|x|] == x;
    if b != "" {
      ShorterIsNear(x, c, b[..|b| - 1]);
      Step(x, b);
    }
  }

  /** A rune more in the second text costs at most one edit. */
  lemma {:induction false} Step(x: string, b: string)
    requires b != ""
    ensures Dist(x, b) <= Dist(x, b[..|b| - 1]) + 1
  {
  }

  lemma {:induction false} ReplacedIsNear(x: string, c: char, d: char, b: string)
    ensures Near(x + [c], x + [d], b)
    decreases |b|
  {
    assert (x + [c])[..|x|] == x == (x + [d])[..|x|];
    if b != "" { ReplacedIsNear(x, c, d, b[..|b| - 1]); }
  }

  /** Nearness survives a common ending. */
  lemma {:induction false} NearExtends(s: string, t: string, y: string, b: string)
    requires forall b' :: Near(s, t, b')
    ensures Near(s + y, t + y, b)
    decreases |y| + |b|
  {
    if y == "" {
      assert s + y == s && t + y == t;
      assert Near(s, t, b);
    } else {
      var z := y[..|y| - 1];
      assert (s + y)[..|s + y| - 1] == s + z && (t + y)[..|t + y| - 1] == t + z;
      NearExtends(s, t, z, b);
      if b == "" {
        assert Near(s, t, "");
      } else {
        NearExtends(s, t, y, b[..|b| - 1]);
        NearExtends(s, t, z, b[..|b| - 1]);
      }
    }
  }

  /** One edit moves the distance to any text by at most one. */
  lemma OneEditIsNear(s: string, t: string, b: string)
    requires OneEdit(s, t)
    ensures Near(s, t, b)
  {
    var i: nat, c: char :| EditAt(s, t, i, c);
    if t == s[..i] + [c] + s[i..] {
      forall b' ensures Near(s[..i], s[..i] + [c], b') { ShorterIsNear(s[..i], c, b'); }
      NearExtends(s[..i], s[..i] + [c], s[i..], b);
      assert s == s[..i] + s[i..];
    } else if t == s[..i] + s[i + 1..] {
      forall b' ensures Near(s[..i] + [s[i]], s[..i], b') { ShorterIsNear(s[..i], s[i], b'); }
      NearExtends(s[..i] + [s[i]], s[..i], s[i + 1..], b);
      assert s == s[..i] + [s[i]] + s[i + 1..];
    } else {
      forall b' ensures Near(s[..i] + [s[i]], s[..i] + [c], b') { ReplacedIsNear(s[..i], s[i], c, b'); }
      NearExtends(s[..i] + [s[i]], s[..i] + [c], s[i + 1..], b);
      assert s == s[..i] + [s[i]] + s[i + 1..];
    }
  }

  /** No script is shorter than the distance. */
  lemma {:induction false} ScriptIsLong(p: seq<string>, a: string, b: string)
    requires IsScript(p, a, b)
    ensures |p| - 1 >= Dist(a, b)
    decreases |p|
  {
    if |p| == 1 {
      DistToSelf(a);
    } else {
      assert OneEdit(p[0], p[0 + 1]);
      OneEditIsNear(a, p[1], b);
      var q := p[1..];
      forall i | 0 <= i < |q| - 1 ensures OneEdit(q[i], q[i + 1]) { assert OneEdit(p[i + 1], p[i + 1 + 1]); }
      ScriptIsLong(q, p[1], b);
    }
  }

  lemma EditExtends(s: string, t: string, c: char)
    requires OneEdit(s, t)
    ensures OneEdit(s + [c], t + [c])
  {
    var i: nat, d: char :| EditAt(s, t, i, d);
    assert (s + [c])[..i] == s[..i] && (s + [c])[i..] == s[i..] + [c];
    if i < |s| { assert (s + [c])[i + 1..] == s[i + 1..] + [c]; }
    if t == s[..i] + [d] + s[i..] {
      assert t + [c] == (s + [c])[..i] + [d] + (s + [c])[i..];
    } else if t == s[..i] + s[i + 1..] {
      assert t + [c] == (s + [c])[..i] + (s + [c])[i + 1..];
    } else {
      assert t + [c] == (s + [c])[..i] + [d] + (s + [c])[i + 1..];
    }
    assert EditAt(s + [c], t + [c], i, d);
  }

  function Ended(p: seq<string>, c: char): (r: seq<string>) { seq(|p|, i requires 0 <= i < |p| => p[i] + [c]) }

  lemma ScriptExtends(p: seq<string>, a: string, b: string, c: char)
    requires IsScript(p, a, b)
    ensures IsScript(Ended(p, c), a + [c], b + [c])
  {
    var q := Ended(p, c);
    forall i | 0 <= i < |q| - 1 ensures OneEdit(q[i], q[i + 1]) { EditExtends(p[i], p[i + 1], c); }
  }

  lemma Prepend(p: seq<string>, s: string, a: string, b: string)
    requires IsScript(p, a, b) && OneEdit(s, a)
    ensures IsScript([s] + p, s, b)
  {
    var q := [s] + p;
    forall i | 0 <= i < |q| - 1 ensures OneEdit(q[i], q[i + 1]) {
      if i > 0 { assert OneEdit(p[i - 1], p[i - 1 + 1]); }
    }
  }

  lemma Append(p: seq<string>, a: string, b: string, t: string)
    requires IsScript(p, a, b) && OneEdit(b, t)
    ensures IsScript(p + [t], a, t)
  {
    var q := p + [t];
    forall i | 0 <= i < |q| - 1 ensures OneEdit(q[i], q[i + 1]) {
      if i < |p| - 1 { assert OneEdit(p[i], p[i + 1]); }
    }
  }

  lemma LastReplaced(a: string, c: char, d: char)
    ensures OneEdit(a + [c], a + [d])
  {
    assert EditAt(a + [c], a + [d], |a|, d);
  }

  lemma LastInsert(b: string)
    requires b != ""
    ensures OneEdit(b[..|b| - 1], b)
  {
    var front, n := b[..|b| - 1], |b| - 1;
    assert b == front[..n] + [b[n]] + front[n..];
    assert EditAt(front, b, n, b[n]);
  }

  lemma LastDelete(a: string)
    requires a != ""
    ensures OneEdit(a, a[..|a| - 1])
  {
    var front, n := a[..|a| - 1], |a| - 1;
    assert front == a[..n] + a[n + 1..];
    assert EditAt(a, front, n, a[n]);
  }

  lemma EndsWithDelete(p: seq<string>, a: string, b: string)
    requires a != "" && IsScript(p, a[..|a| - 1], b)
    ensures IsScript([a] + p, a, b)
  {
    LastDelete(a);
    Prepend(p, a, a[..|a| - 1], b);
  }

  lemma EndsWithInsert(p: seq<string>, a: string, b: string)
    requires b != "" && IsScript(p, a, b[..|b| - 1])
    ensures IsScript(p + [b], a, b)
  {
    LastInsert(b);
    Append(p, a, b[..|b| - 1], b);
  }

  lemma EndsWithChange(p: seq<string>, a: string, b: string) returns (q: seq<string>)
    requires a != "" && b != "" && IsScript(p, a[..|a| - 1], b[..|b| - 1])
    ensures IsScript(q, a, b) && |q| == |p| + Cost(a[|a| - 1], b[|b| - 1])
  {
    var a', c, d := a[..|a| - 1], a[|a| - 1], b[|b| - 1];
    assert a == a' + [c] && b == b[..|b| - 1] + [d];
    ScriptExtends(p, a', b[..|b| - 1], d);
    q := Ended(p, d);
    if c != d {
      LastReplaced(a', c, d);
      Prepend(q, a, a' + [d], b);
      q := [a] + q;
    }
  }

  /** A script as short as the distance. */
  lemma {:induction false} ShortScript(a: string, b: string) returns (p: seq<string>)
    ensures IsScript(p, a, b) && |p| - 1 == Dist(a, b)
    decreases |a| + |b|
  {
    if a == "" && b == "" {
      p := [""];
    } else if b == "" || (a != "" && Dist(a, b) == Dist(a[..|a| - 1], b) + 1) {
      p := ShortScript(a[..|a| - 1], b);
      EndsWithDelete(p, a, b);
      p := [a] + p;
    } else if a == "" || Dist(a, b) == Dist(a, b[..|b| - 1]) + 1 {
      p := ShortScript(a, b[..|b| - 1]);
      EndsWithInsert(p, a, b);
      p := p + [b];
    } else {
      p := ShortScript(a[..|a| - 1], b[..|b| - 1]);
      p := EndsWithChange(p, a, b);
    }
  }

  /** The distance is the length of a shortest edit script. */
  lemma DistIsLeast(a: string, b: string)
    ensures forall p :: IsScript(p, a, b) ==> |p| - 1 >= Dist(a, b)
    ensures exists p :: IsScript(p, a, b) && |p| - 1 == Dist(a, b)
  {
    forall p | IsScript(p, a, b) ensures |p| - 1 >= Dist(a, b) { ScriptIsLong(p, a, b); }
    var p := ShortScript(a, b);
  }
}
