/** suggestField of internal/config/errors.go: the known field nearest to a misspelt one.
    `d` is the distance of a known field, `most` the largest distance that is accepted. */
module Suggestion {
  import opened Basics
  import opened Ranking
  import opened EditDistance

  datatype Best = Best(distance: nat, field: string)

  /** One round of the loop. */
  function Next(best: Best, k: string, d: string -> nat, most: nat): (r: Best)
  {
    if (d(k) < best.distance || (d(k) == best.distance && best.field != "" && Less(k, best.field))
        || (d(k) == best.distance && best.field == "")) && d(k) <= most
    then Best(d(k), k) else best
  }

  function Scan(known: seq<string>, d: string -> nat, most: nat): (r: Best)
  {
    if known == [] then Best(3, "") else Next(Scan(known[..|known| - 1], d, most), known[|known| - 1], d, most)
  }

  // ---------------------------------------------------------------------------
  // What is wanted
  // ---------------------------------------------------------------------------

  function Rank(k: string, d: string -> nat): (r: Key) { Key(d(k), k) }

  predicate Near(k: string, d: string -> nat, most: nat) { k != "" && d(k) <= most }

  /** The nonempty field at minimum distance, the lexicographically least of them. */
  predicate IsLeast(known: seq<string>, d: string -> nat, most: nat, best: string)
  {
    best in known && Near(best, d, most)
    && forall k :: k in known && Near(k, d, most) ==> !Before(Rank(k, d), Rank(best, d))
  }

  predicate AnyNear(known: seq<string>, d: string -> nat, most: nat)
  {
    exists k :: k in known && Near(k, d, most)
  }

  /** The promise: the least near field, or nothing if none is near. */
  predicate Wanted(known: seq<string>, d: string -> nat, most: nat, r: string)
  {
    if AnyNear(known, d, most) then IsLeast(known, d, most, r) else r == ""
  }

  /** An empty known field is near, and no nonempty one is nearer. */
  predicate Shadowed(known: seq<string>, d: string -> nat, most: nat)
  {
    && "" in known && d("") <= most && AnyNear(known, d, most)
    && forall k :: k in known && k != "" ==> d(k) >= d("")
  }

  /** The fields after the last empty one. */
  function Tail(known: seq<string>): (r: seq<string>)
  {
    if known == [] || known[|known| - 1] == "" then [] else Tail(known[..|known| - 1]) + [known[|known| - 1]]
  }

  lemma {:induction false} TailMembers(known: seq<string>, k: string)
    ensures k in Tail(known) ==> k in known && k != ""
    ensures "" !in known ==> Tail(known) == known
  {
    if known != [] {
      TailMembers(known[..|known| - 1], k);
      assert known == known[..|known| - 1] + [known[|known| - 1]];
    }
  }

  // ---------------------------------------------------------------------------
  // What the scan finds
  // ---------------------------------------------------------------------------

  /** The empty field is in force: near, and not beaten by a nearer one. */
  predicate Blocked(known: seq<string>, d: string -> nat, most: nat)
  {
    "" in known && d("") <= most && forall k :: k in known && k != "" ==> d(k) >= d("")
  }

  predicate Found(known: seq<string>, d: string -> nat, most: nat, best: Best)
  {
    if Blocked(known, d, most) then
      best.distance == d("") &&
      if AnyNear(Tail(known), d, d("")) then IsLeast(Tail(known), d, d(""), best.field) else best.field == ""
    else if AnyNear(known, d, most) then IsLeast(known, d, most, best.field) && best.distance == d(best.field)
    else best == Best(3, "")
  }

  lemma KeepLeast(front: seq<string>, k: string, d: string -> nat, most: nat, best: string)
    requires IsLeast(front, d, most, best) && Near(k, d, most)
    ensures IsLeast(front + [k], d, most, if Before(Rank(k, d), Rank(best, d)) then k else best)
  {
    var s := front + [k];
    BeforeIsTotal(Rank(k, d), Rank(k, d));
    if Before(Rank(k, d), Rank(best, d)) {
      forall x | x in s && Near(x, d, most) ensures !Before(Rank(x, d), Rank(k, d)) {
        if x in front && Before(Rank(x, d), Rank(k, d)) { BeforeIsTransitive(Rank(x, d), Rank(k, d), Rank(best, d)); }
      }
    }
  }

  lemma FirstLeast(front: seq<string>, k: string, d: string -> nat, most: nat)
    requires !AnyNear(front, d, most) && Near(k, d, most)
    ensures IsLeast(front + [k], d, most, k)
  {
    BeforeIsTotal(Rank(k, d), Rank(k, d));
  }

  lemma NotNearKeeps(front: seq<string>, k: string, d: string -> nat, most: nat)
    requires !Near(k, d, most)
    ensures AnyNear(front + [k], d, most) <==> AnyNear(front, d, most)
    ensures forall b :: IsLeast(front + [k], d, most, b) <==> IsLeast(front, d, most, b)
  {
    var s := front + [k];
    assert forall x :: x in s <==> x in front || x == k;
    if AnyNear(s, d, most) { var x :| x in s && Near(x, d, most); assert x in front; }
    if AnyNear(front, d, most) { var x :| x in front && Near(x, d, most); assert x in s; }
  }

  /** One round, seen as the order of ranks. */
  lemma NextIsRank(best: Best, k: string, d: string -> nat, most: nat)
    requires Near(k, d, most) && best.field != "" && best.distance == d(best.field)
    ensures Next(best, k, d, most) == if Before(Rank(k, d), Rank(best.field, d)) then Best(d(k), k) else best
  {
  }

  lemma {:induction false} ScanFinds(known: seq<string>, d: string -> nat, most: nat)
    requires most == 2 || most == 3
    ensures Found(known, d, most, Scan(known, d, most))
  {
    if known != [] {
      var front, k := known[..|known| - 1], known[|known| - 1];
      assert known == front + [k];
      ScanFinds(front, d, most);
      var best := Scan(front, d, most);
      if k == "" {
        EmptyRound(front, d, most, best);
      } else if Blocked(front, d, most) {
        BlockedRound(front, k, d, most, best);
      } else {
        OpenRound(front, k, d, most, best);
      }
    }
  }

  lemma EmptyRound(front: seq<string>, d: string -> nat, most: nat, best: Best)
    requires (most == 2 || most == 3) && Found(front, d, most, best)
    ensures Found(front + [""], d, most, Next(best, "", d, most))
  {
    var s := front + [""];
    NotNearKeeps(front, "", d, most);
    assert Tail(s) == [];
    assert forall x :: x in s <==> x in front || x == "";
    if d("") > most {
      assert !Blocked(s, d, most) && !Blocked(front, d, most);
    } else if Blocked(front, d, most) {
      assert Blocked(s, d, most);
    } else if AnyNear(front, d, most) {
      LeastDecides(front, d, most, best.field);
      assert Blocked(s, d, most) <==> d(best.field) >= d("");
    } else {
      assert Blocked(s, d, most) by {
        forall x | x in front && x != "" ensures d(x) >= d("") { assert !Near(x, d, most); }
      }
    }
  }

  /** The least field is at minimum distance. */
  lemma LeastDecides(known: seq<string>, d: string -> nat, most: nat, best: string)
    requires IsLeast(known, d, most, best) && d("") <= most
    ensures (forall k :: k in known && k != "" ==> d(k) >= d("")) <==> d(best) >= d("")
  {
    if d(best) >= d("") {
      forall k | k in known && k != "" ensures d(k) >= d("") {
        if d(k) <= most { assert Near(k, d, most) && !Before(Rank(k, d), Rank(best, d)); }
      }
    }
  }

  lemma BlockedRound(front: seq<string>, k: string, d: string -> nat, most: nat, best: Best)
    requires (most == 2 || most == 3) && Found(front, d, most, best) && Blocked(front, d, most) && k != ""
    ensures Found(front + [k], d, most, Next(best, k, d, most))
  {
    var s := front + [k];
    assert s[..|s| - 1] == front && Tail(s) == Tail(front) + [k];
    if d(k) < d("") {
      Closer(front, k, d, most);
    } else {
      assert Blocked(s, d, most);
      if d(k) > d("") {
        NotNearKeeps(Tail(front), k, d, d(""));
      } else if AnyNear(Tail(front), d, d("")) {
        assert best.distance == d(best.field) by { TailMembers(front, best.field); }
        NextIsRank(best, k, d, d(""));
        KeepLeast(Tail(front), k, d, d(""), best.field);
      } else {
        FirstLeast(Tail(front), k, d, d(""));
      }
    }
  }

  /** A field nearer than the empty one beats everything before it. */
  lemma Closer(front: seq<string>, k: string, d: string -> nat, most: nat)
    requires Blocked(front, d, most) && k != "" && d(k) < d("")
    ensures !Blocked(front + [k], d, most) && IsLeast(front + [k], d, most, k)
  {
    var s := front + [k];
    assert k in s;
    BeforeIsTotal(Rank(k, d), Rank(k, d));
    forall x | x in s && Near(x, d, most) ensures !Before(Rank(x, d), Rank(k, d)) {
      if x in front { assert d(x) >= d(""); }
    }
  }

  lemma BlockedByFront(front: seq<string>, k: string, d: string -> nat, most: nat)
    requires k != ""
    ensures Blocked(front + [k], d, most) ==> Blocked(front, d, most)
  {
    assert forall x :: x in front + [k] <==> x in front || x == k;
  }

  lemma OpenRound(front: seq<string>, k: string, d: string -> nat, most: nat, best: Best)
    requires (most == 2 || most == 3) && Found(front, d, most, best) && !Blocked(front, d, most) && k != ""
    ensures Found(front + [k], d, most, Next(best, k, d, most))
  {
    var s := front + [k];
    assert forall x :: x in s <==> x in front || x == k;
    BlockedByFront(front, k, d, most);
    if !Near(k, d, most) {
      NotNearKeeps(front, k, d, most);
    } else if AnyNear(front, d, most) {
      NextIsRank(best, k, d, most);
      KeepLeast(front, k, d, most, best.field);
    } else {
      FirstLeast(front, k, d, most);
    }
  }

  // ---------------------------------------------------------------------------
  // When the promise is kept
  // ---------------------------------------------------------------------------

  lemma LeastIsUnique(known: seq<string>, d: string -> nat, most: nat, a: string, b: string)
    requires IsLeast(known, d, most, a) && IsLeast(known, d, most, b)
    ensures a == b
  {
    BeforeIsTotal(Rank(a, d), Rank(b, d));
  }

  /** The scan keeps the promise exactly when no empty field shadows the others, or when the
      wanted field is as near as the empty one and comes after the last of these. */
  lemma PromiseKept(known: seq<string>, d: string -> nat, most: nat)
    requires most == 2 || most == 3
    ensures Wanted(known, d, most, Scan(known, d, most).field) <==>
              !Shadowed(known, d, most) || exists k :: k in Tail(known) && d(k) == d("") && IsLeast(known, d, most, k)
  {
    ScanFinds(known, d, most);
    var r := Scan(known, d, most).field;
    if !Shadowed(known, d, most) {
      if Blocked(known, d, most) {
        forall k | k in Tail(known) ensures !Near(k, d, d("")) { TailMembers(known, k); }
      }
    } else if Wanted(known, d, most, r) {
      assert r in Tail(known);
    } else if k :| k in Tail(known) && d(k) == d("") && IsLeast(known, d, most, k) {
      LeastInTail(known, d, most, k);
      LeastIsUnique(Tail(known), d, d(""), k, r);
    }
  }

  lemma LeastInTail(known: seq<string>, d: string -> nat, most: nat, k: string)
    requires Blocked(known, d, most) && Found(known, d, most, Scan(known, d, most))
    requires k in Tail(known) && d(k) == d("") && IsLeast(known, d, most, k)
    ensures IsLeast(Tail(known), d, d(""), k) && IsLeast(Tail(known), d, d(""), Scan(known, d, most).field)
  {
    forall x | x in Tail(known) && Near(x, d, d("")) ensures !Before(Rank(x, d), Rank(k, d)) { TailMembers(known, x); }
    assert AnyNear(Tail(known), d, d(""));
  }

  /** The answer does not depend on the order of the known fields, and is the promised one in
      every order, exactly when no empty field shadows the others. */
  lemma PromiseKeptInEveryOrder(known: seq<string>, d: string -> nat, most: nat)
    requires most == 2 || most == 3
    ensures !Shadowed(known, d, most) <==>
              forall other :: Elements(other) == Elements(known) ==> Wanted(other, d, most, Scan(other, d, most).field)
  {
    if Shadowed(known, d, most) {
      var other := known + [""];
      assert Elements(other) == Elements(known);
      assert Tail(other) == [];
      PromiseKept(other, d, most);
    } else {
      forall other | Elements(other) == Elements(known) ensures Wanted(other, d, most, Scan(other, d, most).field) {
        assert forall k :: k in other <==> k in known by { assert forall k :: k in other <==> k in Elements(other); }
        PromiseKept(other, d, most);
      }
    }
  }

  // ---------------------------------------------------------------------------
  // suggestField
  // ---------------------------------------------------------------------------

  function RuneLen(c: char): (r: nat)
  {
    if c as int < 0x80 then 1 else if c as int < 0x800 then 2 else if c as int < 0x1_0000 then 3 else 4
  }

  /** The length of a text in UTF-8. */
  function ByteLen(s: string): (r: nat) { if s == "" then 0 else RuneLen(s[0]) + ByteLen(s[1..]) }

  function Distance(u: string, lower: string -> string): (r: string -> nat) { k => Dist(u, lower(k)) }

  function Most(u: string): (r: nat) { if ByteLen(u) > 4 then 3 else 2 }

  method SuggestField(lower: string -> string, unknown: string, known: seq<string>) returns (best: string)
    ensures unknown == "" ==> best == ""
    ensures unknown != "" ==> best == Scan(known, Distance(lower(unknown), lower), Most(lower(unknown))).field
    ensures unknown != "" && "" !in known ==> Wanted(known, Distance(lower(unknown), lower), Most(lower(unknown)), best)
  {
    if unknown == "" || |known| == 0 { return ""; }
    var u := lower(unknown);
    var bestD := 3;
    best := "";
    ghost var d, most := Distance(u, lower), Most(u);
    for i := 0 to |known|
      invariant Best(bestD, best) == Scan(known[..i], d, most)
    {
      var k := known[i];
      assert known[..i + 1][..i] == known[..i];
      var dk := Levenshtein(u, lower(k));
      if dk < bestD || (dk == bestD && best != "" && Less(k, best)) || (dk == bestD && best == "") {
        if dk <= 2 || (ByteLen(u) > 4 && dk <= 3) {
          bestD, best := dk, k;
        }
      }
    }
    assert known[..|known|] == known;
    PromiseKept(known, d, most);
  }

  // ---------------------------------------------------------------------------
  // The lists the configuration loader passes
  // ---------------------------------------------------------------------------

  /** A struct field with its YAML tag name, empty when it has none. */
  datatype Field = Field(tag: string, name: string)

  function YamlName(f: Field, lower: string -> string): (n: string)
  {
    if f.tag == "" then lower(f.name) else f.tag
  }

  /** What yamlFields lists of a struct type: the YAML names of its fields, in some order. */
  ghost predicate IsYamlList(fields: seq<Field>, lower: string -> string, known: seq<string>)
  {
    forall k :: k in known ==> exists f :: f in fields && k == YamlName(f, lower)
  }

  lemma SameSuggestion(known: seq<string>, other: seq<string>, d: string -> nat, most: nat)
    requires (most == 2 || most == 3) && !Shadowed(known, d, most) && Elements(other) == Elements(known)
    ensures Wanted(known, d, most, Scan(known, d, most).field)
    ensures Scan(other, d, most).field == Scan(known, d, most).field
  {
    forall k ensures k in other <==> k in known { assert k in Elements(other) <==> k in Elements(known); }
    PromiseKept(known, d, most);
    PromiseKept(other, d, most);
    if AnyNear(known, d, most) {
      LeastIsUnique(known, d, most, Scan(known, d, most).field, Scan(other, d, most).field);
    }
  }

  /** Go field names are nonempty and stay so in lower case, so a list from yamlFields has no
      empty entry: the suggestion is the least near field, whatever the order of the list. */
  lemma LoaderSuggestsTheLeast(fields: seq<Field>, lower: string -> string, unknown: string, known: seq<string>, other: seq<string>)
    requires (forall f :: f in fields ==> f.name != "") && (forall t :: t != "" ==> lower(t) != "")
    requires IsYamlList(fields, lower, known) && Elements(other) == Elements(known)
    ensures "" !in known
    ensures var d, most := Distance(lower(unknown), lower), Most(lower(unknown));
            && Wanted(known, d, most, Scan(known, d, most).field)
            && Scan(other, d, most).field == Scan(known, d, most).field
  {
    SameSuggestion(known, other, Distance(lower(unknown), lower), Most(lower(unknown)));
  }

  /** For a list with an empty entry, which the loader never passes, the answer of the function
      depends on the order. */
  lemma OrderMatters()
    ensures Scan(["b", ""], Distance("a", k => k), Most("a")).field == ""
    ensures Scan(["", "b"], Distance("a", k => k), Most("a")).field == "b"
  {
    var d := Distance("a", k => k);
    assert Dist("a", "") == 1 && Dist("", "b") == 1 && Dist("", "") == 0;
    assert "a"[..0] == "" && "b"[..0] == "";
    assert Dist("a", "b") == 1 by { assert |"a"| - 1 == 0 && |"b"| - 1 == 0; }
    assert d("b") == 1 && d("") == 1;
    assert ["b", ""][..1] == ["b"] && ["", "b"][..1] == [""] && ["b"][..0] == [] && [""][..0] == [];
    assert ByteLen("a") == 1;
    assert Scan([], d, 2) == Best(3, "");
    assert Scan(["b"], d, 2) == Best(1, "b") && Scan([""], d, 2) == Best(1, "");
  }
}
