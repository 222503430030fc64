/** API tokens: the digest index, bearer lookup, and the credential generation
    carried from one published snapshot to the next. */
module StateTokens {
  import opened Basics
  import opened StateModel

  /** Reads secret material; `None` is a failed read. */
  type SecretLookup = Option<SecretRef -> Option<Bytes>>

  datatype Binding = Unbound | Bound(digest: Digest) | Unresolved

  /** Where token digests come from: the hash, the secret reader, and both layers. */
  datatype Vault = Vault(sha: Bytes -> Digest, lookup: SecretLookup, base: seq<Obj<Token>>, ov: Layer<Token>) {

    predicate Own(id: string) { id in ov && ov[id].Live? && ov[id].body.digest.Some? }

    /** The digest a token answers to. An override that carries no digest of its
        own falls back to the baseline token's file. */
    function Binding(id: string): (r: Binding)
    {
      if Lookup(base, ov, id).None? then Unbound
      else if Own(id) then Bound(ov[id].body.digest.value)
      else if lookup.None? then Unbound
      else FileBinding(Find(base, id))
    }

    function FileBinding(t: Option<Token>): (r: Binding)
      requires lookup.Some?
    {
      if t.None? || !IsSet(t.value.file) then Unbound
      else match lookup.value(t.value.file) case None => Unresolved case Some(raw) => Bound(sha(raw))
    }

    ghost predicate Resolvable() { forall id :: Binding(id) != Unresolved }

    ghost predicate Unshared()
    {
      forall a, b :: a != b && Binding(a).Bound? ==> Binding(a) != Binding(b)
    }

    /** The digests of the tokens dealt with so far. */
    ghost predicate Progress(digests: map<string, Digest>, done: set<string>)
    {
      && (forall id :: id in digests <==> id in done && Binding(id).Bound?)
      && (forall id :: id in digests ==> Binding(id) == Bound(digests[id]))
      && (forall id :: id in done ==> Binding(id) != Unresolved)
    }

    /** The digest map of a compiled snapshot: exactly the bound tokens. */
    ghost predicate Binds(digests: map<string, Digest>)
    {
      forall id :: (id in digests <==> Binding(id).Bound?) && (id in digests ==> Binding(id) == Bound(digests[id]))
    }
  }

  /** The two maps of the digest index are inverse to each other. */
  ghost predicate Inverse(digests: map<string, Digest>, index: map<Digest, string>)
  {
    && (forall id :: id in digests ==> digests[id] in index && index[digests[id]] == id)
    && (forall d :: d in index ==> index[d] in digests && digests[index[d]] == d)
  }

  /** putTokenDigest: refuses a digest another token already has. */
  method Put(v: Vault, digests: map<string, Digest>, index: map<Digest, string>, id: string, d: Digest, ghost done: set<string>)
    returns (ok: bool, ds: map<string, Digest>, ix: map<Digest, string>)
    requires Inverse(digests, index) && v.Progress(digests, done) && id !in done && v.Binding(id) == Bound(d)
    ensures ok ==> Inverse(ds, ix) && v.Progress(ds, done + {id})
    ensures !ok ==> !v.Unshared()
  {
    if d in index {
      assert v.Binding(index[d]) == v.Binding(id) && index[d] != id;
      return false, digests, index;
    }
    return true, digests[id := d], index[d := id];
  }

  lemma AllBound(v: Vault, digests: map<string, Digest>, index: map<Digest, string>, done: set<string>)
    requires Inverse(digests, index) && v.Progress(digests, done)
    requires forall id :: v.Binding(id) != Unbound ==> id in done
    ensures v.Binds(digests) && v.Resolvable() && v.Unshared()
  {
    forall a, b | a != b && v.Binding(a).Bound?
      ensures v.Binding(a) != v.Binding(b)
    {
      assert a in digests;
    }
  }

  /** First loop: the overlay's own digests, in map order. */
  method IndexOverlay(v: Vault) returns (ok: bool, ds: map<string, Digest>, ix: map<Digest, string>, own: set<string>)
    ensures own == set id | id in v.ov && v.Own(id)
    ensures ok ==> Inverse(ds, ix) && v.Progress(ds, own)
    ensures !ok ==> !v.Unshared()
  {
    ds, ix, ok := map[], map[], true;
    own := set id | id in v.ov && v.Own(id);
    var rest := own;
    while rest != {}
      invariant rest <= own && Inverse(ds, ix) && v.Progress(ds, own - rest)
    {
      var id :| id in rest;
      ok, ds, ix := Put(v, ds, ix, id, v.ov[id].body.digest.value, own - rest);
      if !ok {
        return;
      }
      assert own - (rest - {id}) == own - rest + {id};
      rest := rest - {id};
    }
    assert own - rest == own;
  }

  /** A baseline token that still needs its file read. */
  predicate NeedsFile(v: Vault, own: set<string>, o: Obj<Token>)
  {
    o.id !in own && Lookup(v.base, v.ov, o.id).Some? && IsSet(o.body.file)
  }

  lemma FileBindingAt(v: Vault, own: set<string>, i: nat)
    requires UniqueIds(v.base) && i < |v.base| && v.lookup.Some?
    requires own == set id | id in v.ov && v.Own(id)
    ensures v.base[i].id !in own ==>
              v.Binding(v.base[i].id) ==
              if !NeedsFile(v, own, v.base[i]) then Unbound
              else match v.lookup.value(v.base[i].body.file) case None => Unresolved case Some(raw) => Bound(v.sha(raw))
  {
    FindAt(v.base, i);
  }

  lemma NothingLeft(v: Vault, own: set<string>, id: string)
    requires own == set id | id in v.ov && v.Own(id)
    ensures v.Binding(id) != Unbound ==> id in own || (v.lookup.Some? && id in IdsOf(v.base))
  {
  }

  /** What is wrong with a token set that cannot be indexed. */
  ghost predicate Unindexable(v: Vault, c: Code)
  {
    (c == LookupFailed && !v.Resolvable()) || (c == Conflict && !v.Unshared())
  }

  /** Indexes the live tokens' digests, overlay entries first and then the
      baseline. It fails exactly when some material cannot be read or two live
      tokens share a digest, and the code tells a failed read from a conflict. */
  method IndexDigests(v: Vault) returns (r: Result<(map<string, Digest>, map<Digest, string>), Code>)
    requires UniqueIds(v.base)
    ensures r.Ok? ==> Inverse(r.value.0, r.value.1) && v.Binds(r.value.0)
    ensures r.Ok? <==> v.Resolvable() && v.Unshared()
    ensures r.Err? ==> Unindexable(v, r.error)
  {
    var ok, ds, ix, own := IndexOverlay(v);
    if !ok {
      return Err(Conflict);
    }
    forall id ensures v.Binding(id) != Unbound ==> id in own || (v.lookup.Some? && id in IdsOf(v.base)) {
      NothingLeft(v, own, id);
    }
    if v.lookup.None? {
      AllBound(v, ds, ix, own);
      return Ok((ds, ix));
    }
    var code;
    code, ds, ix := IndexFiles(v, own, ds, ix);
    if code.Some? {
      return Err(code.value);
    }
    AllBound(v, ds, ix, own + IdsOf(v.base));
    return Ok((ds, ix));
  }

  /** Second loop: baseline tokens whose file holds the bearer. */
  method IndexFiles(v: Vault, own: set<string>, digests: map<string, Digest>, index: map<Digest, string>)
    returns (code: Option<Code>, ds: map<string, Digest>, ix: map<Digest, string>)
    requires UniqueIds(v.base) && v.lookup.Some? && own == set id | id in v.ov && v.Own(id)
    requires Inverse(digests, index) && v.Progress(digests, own)
    ensures code.None? ==> Inverse(ds, ix) && v.Progress(ds, own + IdsOf(v.base))
    ensures code.Some? ==> Unindexable(v, code.value)
  {
    ds, ix := digests, index;
    for i := 0 to |v.base|
      invariant Inverse(ds, ix) && v.Progress(ds, own + IdsOf(v.base[..i]))
    {
      NextFile(v.base, own, i);
      code, ds, ix := IndexFile(v, own, ds, ix, i, own + IdsOf(v.base[..i]));
      if code.Some? {
        return;
      }
    }
    assert v.base[..|v.base|] == v.base;
    return None, ds, ix;
  }

  lemma NextFile<T>(base: seq<Obj<T>>, own: set<string>, i: nat)
    requires UniqueIds(base) && i < |base|
    ensures own + IdsOf(base[..i + 1]) == own + IdsOf(base[..i]) + {base[i].id}
    ensures base[i].id in own + IdsOf(base[..i]) ==> base[i].id in own
  {
    UniquePrefix(base, i);
  }

  /** One round of it. */
  method IndexFile(v: Vault, own: set<string>, digests: map<string, Digest>, index: map<Digest, string>, i: nat, ghost done: set<string>)
    returns (code: Option<Code>, ds: map<string, Digest>, ix: map<Digest, string>)
    requires UniqueIds(v.base) && v.lookup.Some? && own == (set id | id in v.ov && v.Own(id)) && i < |v.base|
    requires Inverse(digests, index) && v.Progress(digests, done) && own <= done && (v.base[i].id in done ==> v.base[i].id in own)
    ensures code.None? ==> Inverse(ds, ix) && v.Progress(ds, done + {v.base[i].id})
    ensures code.Some? ==> Unindexable(v, code.value)
  {
    ds, ix := digests, index;
    FileBindingAt(v, own, i);
    var o := v.base[i];
    if !NeedsFile(v, own, o) {
      return None, ds, ix;
    }
    var raw := v.lookup.value(o.body.file);
    if raw.None? {
      return Some(LookupFailed), ds, ix;
    }
    var ok;
    ok, ds, ix := Put(v, ds, ix, o.id, v.sha(raw.value), done);
    return if ok then None else Some(Conflict), ds, ix;
  }

  // ---------------------------------------------------------------------------
  // Bearer authentication
  // ---------------------------------------------------------------------------

  predicate Unexpired(t: Token, now: int) { t.expiresAt.None? || now < t.expiresAt.value }

  /** AuthenticateToken: one probe of the digest index, then the descriptor checks. */
  function Authenticate(sha: Bytes -> Digest, s: Snapshot, raw: Bytes, now: int): (r: Option<string>)
  {
    if raw == [] || sha(raw) !in s.index then None
    else
      var id := s.index[sha(raw)];
      if id !in s.tokens || !s.tokens[id].body.enabled || !Unexpired(s.tokens[id].body, now) then None
      else Some(id)
  }

  /** The probe agrees with a scan over all live tokens, and at most one answers. */
  lemma AuthenticateIsAScan(sha: Bytes -> Digest, s: Snapshot, raw: Bytes, now: int, id: string)
    requires Inverse(s.digests, s.index) && s.digests.Keys <= s.tokens.Keys && raw != []
    ensures Authenticate(sha, s, raw, now) == Some(id) <==>
            && id in s.tokens && s.tokens[id].body.enabled && Unexpired(s.tokens[id].body, now)
            && id in s.digests && s.digests[id] == sha(raw)
    ensures forall a, b :: a in s.digests && b in s.digests && s.digests[a] == s.digests[b] ==> a == b
  {
    if id in s.digests && s.digests[id] == sha(raw) {
      assert s.index[sha(raw)] == id;
    }
  }

  // ---------------------------------------------------------------------------
  // Credential generations
  // ---------------------------------------------------------------------------

  /** What an unchanged token keeps: grant, origin, and overlay write. */
  predicate SameToken(a: Eff<Token>, b: Eff<Token>)
  {
    && a.body.enabled == b.body.enabled && a.body.scopes == b.body.scopes
    && a.body.expiresAt == b.body.expiresAt
    && a.meta.source == b.meta.source
    && (b.meta.source == FromConfig || a.meta.updated == b.meta.updated)
  }

  /** EqualDigest on the bound digests of an ID: false unless both are bound. */
  predicate SameCredential(a: Snapshot, digests: map<string, Digest>, id: string)
  {
    id in a.digests && id in digests && a.digests[id] == digests[id]
  }

  function NextGeneration(prev: Snapshot, digests: map<string, Digest>, rev: nat, id: string, tok: Eff<Token>): (r: nat)
  {
    if id in prev.tokens && id in prev.generations && SameCredential(prev, digests, id) && SameToken(prev.tokens[id], tok)
    then prev.generations[id] else rev
  }

  ghost predicate Generated(s: Snapshot)
  {
    s.generations.Keys == s.tokens.Keys && forall id :: id in s.generations ==> 1 <= s.generations[id] <= s.revision
  }

  /** `next` was published right after `prev`. */
  ghost predicate Succeeds(prev: Snapshot, next: Snapshot)
  {
    && next.revision == prev.revision + 1
    && next.generations.Keys == next.tokens.Keys
    && forall id :: id in next.tokens ==>
                      next.generations[id] == NextGeneration(prev, next.digests, next.revision, id, next.tokens[id])
  }

  /** TokenGeneration: 0 for an ID that has no token. */
  function TokenGeneration(s: Snapshot, id: string): (r: nat)
  {
    if id in s.generations then s.generations[id] else 0
  }

  /** Snapshots in the order readers can see them; a failed mutation repeats one. */
  ghost predicate History(h: seq<Snapshot>)
  {
    h != [] && Generated(h[0]) && forall i :: 0 <= i < |h| - 1 ==> h[i] == h[i + 1] || Succeeds(h[i], h[i + 1])
  }

  lemma {:induction false} HistoryGenerated(h: seq<Snapshot>, i: nat, j: nat)
    requires History(h) && i <= j < |h| && h[0].revision >= 1
    ensures Generated(h[j]) && h[i].revision <= h[j].revision
    decreases j
  {
    if i < j {
      HistoryGenerated(h, i, j - 1);
    } else if j > 0 {
      HistoryGenerated(h, j - 1, j - 1);
      assert h[j - 1] == h[j] || Succeeds(h[j - 1], h[j]);
    }
  }

  /** The same credential incarnation in two snapshots. */
  ghost predicate SameIncarnation(a: Snapshot, b: Snapshot, id: string)
  {
    && id in a.tokens && id in b.tokens
    && SameToken(a.tokens[id], b.tokens[id])
    && (id in a.digests <==> id in b.digests)
    && (id in a.digests ==> a.digests[id] == b.digests[id])
    && TokenGeneration(a, id) == TokenGeneration(b, id)
  }

  /** A generation older than the snapshot that shows it was carried over. */
  lemma CarriedOver(prev: Snapshot, next: Snapshot, id: string)
    requires Generated(prev) && (prev == next || Succeeds(prev, next))
    requires 0 < TokenGeneration(next, id) <= prev.revision
    ensures SameIncarnation(prev, next, id)
  {
  }

  /** ABA freedom: if a token has the same nonzero generation in two published
      snapshots, it was live, unwritten and bound to the same digest, with the
      same grant and origin, in every snapshot between them. */
  lemma {:induction false} GenerationIsABAFree(h: seq<Snapshot>, i: nat, j: nat, k: nat, id: string)
    requires History(h) && h[0].revision >= 1 && i <= k <= j < |h|
    requires TokenGeneration(h[i], id) == TokenGeneration(h[j], id) != 0
    ensures SameIncarnation(h[i], h[k], id)
    decreases j
  {
    HistoryGenerated(h, i, i);
    if i < j {
      HistoryGenerated(h, i, j - 1);
      assert h[j - 1] == h[j] || Succeeds(h[j - 1], h[j]);
      CarriedOver(h[j - 1], h[j], id);
      GenerationIsABAFree(h, i, j - 1, if k < j then k else j - 1, id);
    }
  }
}
