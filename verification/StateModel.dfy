/** Data of internal/state: a baseline document, a runtime overlay of creates,
    overrides and tombstones, and the snapshot compiled from both.

    Users, groups, clients and tokens follow one pattern, so the per-kind parts
    are generic in the body type. */
module StateModel {
  import opened Basics

  type Digest = d: Bytes | |d| == 32 witness seq(32, _ => 0)

  datatype Kind = UserKind | GroupKind | ClientKind | TokenKind

  datatype Source = FromConfig | FromRuntime | FromOverride

  datatype Meta = Meta(
    source: Source, shadows: bool, created: nat, updated: nat, effective: nat, createdAt: int, updatedAt: int)

  datatype Tombstone = Tombstone(kind: Kind, id: string, actor: string, atRevision: nat, at: int)

  /** A baseline object under its ID. */
  datatype Obj<T> = Obj(id: string, body: T)

  /** An overlay entry: a live object, or a deletion. */
  datatype Entry<T> = Live(body: T, meta: Meta) | Deleted(tomb: Tombstone)

  type Layer<T> = map<string, Entry<T>>

  /** When a baseline identity was first seen and last touched. */
  datatype Stamp = Stamp(created: nat, createdAt: int, updated: nat, updatedAt: int)

  /** An effective object as a snapshot holds it. */
  datatype Eff<T> = Eff(body: T, meta: Meta)

  /** A reference to secret material; `memory` names runtime material. */
  datatype SecretRef = SecretRef(file: string, environment: string, memory: string)

  predicate IsSet(r: SecretRef) { r.file != "" || r.environment != "" || r.memory != "" }

  datatype User = User(
    enabled: bool, login: SecretRef, enable: SecretRef, challenge: SecretRef,
    mustChangeLogin: bool, mustChangeEnable: bool, rest: string)

  datatype Group = Group(rest: string)

  datatype Client = Client(enabled: bool, methods: seq<string>, rest: string)

  /** `file` is the baseline's secret reference, `digest` the overlay's bound digest. */
  datatype Token = Token(
    name: string, scopes: seq<string>, enabled: bool, expiresAt: Option<int>,
    file: SecretRef, digest: Option<Digest>)

  datatype Document = Document(
    users: seq<Obj<User>>, groups: seq<Obj<Group>>, clients: seq<Obj<Client>>, tokens: seq<Obj<Token>>,
    allowShadowing: bool, resetOnReload: bool, maxTokens: int, settings: string)

  datatype Overlay = Overlay(
    users: Layer<User>, groups: Layer<Group>, clients: Layer<Client>, tokens: Layer<Token>)

  const EmptyOverlay := Overlay(map[], map[], map[], map[])

  datatype Stamps = Stamps(
    users: map<string, Stamp>, groups: map<string, Stamp>, clients: map<string, Stamp>, tokens: map<string, Stamp>)

  const NoStamps := Stamps(map[], map[], map[], map[])

  datatype Snapshot = Snapshot(
    revision: nat, baselineHash: string, users: map<string, Eff<User>>, groups: map<string, Eff<Group>>,
    clients: map<string, Eff<Client>>, tokens: map<string, Eff<Token>>, generations: map<string, nat>,
    digests: map<string, Digest>, index: map<Digest, string>, tombstones: Tombs)

  /** The tombstone list, kind by kind in the order the snapshot appends them. */
  datatype Tombs = Tombs(users: seq<Tombstone>, groups: seq<Tombstone>, clients: seq<Tombstone>, tokens: seq<Tombstone>)

  datatype Code =
    InvalidArgument | AlreadyExists | Conflict | NotFound | RevisionMismatch | LimitExceeded | LookupFailed | Other(name: string)

  // ---------------------------------------------------------------------------
  // Looking an ID up
  // ---------------------------------------------------------------------------

  function IdsOf<T>(base: seq<Obj<T>>): (r: set<string>)
  {
    set i | 0 <= i < |base| :: base[i].id
  }

  predicate UniqueIds<T>(base: seq<Obj<T>>)
  {
    && (forall i, j :: 0 <= i < j < |base| ==> base[i].id != base[j].id)
    && (forall i :: 0 <= i < |base| ==> base[i].id != "")
  }

  /** Loaded documents have nonempty, distinct IDs. */
  predicate DocumentOk(d: Document)
  {
    UniqueIds(d.users) && UniqueIds(d.groups) && UniqueIds(d.clients) && UniqueIds(d.tokens)
  }

  /** The baseline object with this ID; the first one, as the scan finds it. */
  function Find<T>(base: seq<Obj<T>>, id: string): (r: Option<T>)
    ensures r.Some? <==> id in IdsOf(base)
    ensures r.Some? ==> exists i :: 0 <= i < |base| && base[i] == Obj(id, r.value)
  {
    if base == [] then None
    else if base[0].id == id then Some(base[0].body)
    else
      assert forall i :: 1 <= i < |base| ==> base[i] == base[1..][i - 1];
      assert id in IdsOf(base) ==> id in IdsOf(base[1..]);
      Find(base[1..], id)
  }

  lemma FindAt<T>(base: seq<Obj<T>>, i: nat)
    requires UniqueIds(base) && i < |base|
    ensures Find(base, base[i].id) == Some(base[i].body)
  {
    assert base[i].id in IdsOf(base);
  }

  lemma IdsOfStep<T>(base: seq<Obj<T>>, i: nat)
    requires i < |base|
    ensures IdsOf(base[..i + 1]) == IdsOf(base[..i]) + {base[i].id}
  {
    var a, b := base[..i], base[..i + 1];
    assert b[i].id in IdsOf(b);
    forall k | 0 <= k < i
      ensures a[k].id in IdsOf(b)
    {
      assert b[k].id in IdsOf(b);
    }
  }

  lemma UniquePrefix<T>(base: seq<Obj<T>>, k: nat)
    requires UniqueIds(base) && k < |base|
    ensures UniqueIds(base[..k])
    ensures base[k].id in IdsOf(base) && base[k].id !in IdsOf(base[..k])
    ensures IdsOf(base) >= IdsOf(base[..k])
    ensures IdsOf(base[..k + 1]) == IdsOf(base[..k]) + {base[k].id}
  {
    IdsOfStep(base, k);
    forall i | 0 <= i < k
      ensures base[..k][i].id in IdsOf(base)
    {
      assert base[i].id in IdsOf(base);
    }
  }

  /** What the overlay rule promises for an ID: the overlay entry if it is live,
      nothing if it is a tombstone, else the baseline object. */
  function Lookup<T>(base: seq<Obj<T>>, ov: Layer<T>, id: string): (r: Option<T>)
  {
    if id in ov then (match ov[id] case Live(b, _) => Some(b) case Deleted(_) => None)
    else Find(base, id)
  }

  function ConfigMeta(st: Stamp, rev: nat): (r: Meta)
  {
    Meta(FromConfig, false, st.created, st.updated, rev, st.createdAt, st.updatedAt)
  }

  function EffOf<T>(base: seq<Obj<T>>, ov: Layer<T>, stamps: map<string, Stamp>, rev: nat, id: string): (r: Eff<T>)
    requires Lookup(base, ov, id).Some?
    requires id in IdsOf(base) && id !in ov ==> id in stamps
  {
    if id in ov then Eff(ov[id].body, ov[id].meta.(effective := rev))
    else Eff(Find(base, id).value, ConfigMeta(stamps[id], rev))
  }

  /** The compiled map of a kind is the pointwise lookup, with metadata. */
  ghost predicate IsMerged<T>(
    eff: map<string, Eff<T>>, base: seq<Obj<T>>, ov: Layer<T>, stamps: map<string, Stamp>, rev: nat)
  {
    && (forall id :: id in IdsOf(base) && id !in ov ==> id in stamps)
    && (forall id :: id in eff <==> Lookup(base, ov, id).Some?)
    && (forall id :: id in eff ==> eff[id] == EffOf(base, ov, stamps, rev, id))
  }

  /** The listed tombstones are exactly the overlay's deletions, each once. */
  ghost predicate TombsExactly<T>(tombs: seq<Tombstone>, ov: Layer<T>)
  {
    && Distinct(tombs)
    && (forall t :: t in tombs ==> t.id in ov && ov[t.id] == Deleted(t))
    && (forall id :: id in ov && ov[id].Deleted? ==> ov[id].tomb in tombs)
  }

  ghost predicate TombsKeyed<T>(ov: Layer<T>)
  {
    forall id :: id in ov && ov[id].Deleted? ==> ov[id].tomb.id == id
  }

  // ---------------------------------------------------------------------------
  // Stamps of baseline identities
  // ---------------------------------------------------------------------------

  function Touched(st: Stamp, rev: nat, now: int): (r: Stamp)
  {
    st.(updated := rev, updatedAt := now)
  }

  /** Stamps after compiling one kind: baseline identities are touched when the
      baseline was replaced, newly visible ones are born, unused ones dropped. */
  ghost predicate IsRestamped<T>(
    next: map<string, Stamp>, born: map<string, Stamp>, base: seq<Obj<T>>, ov: Layer<T>, rev: nat, now: int, touch: bool)
  {
    && (forall id :: id in next ==>
                       if id in born then
                         next[id] == if touch && id in IdsOf(base) then Touched(born[id], rev, now) else born[id]
                       else next[id] == Stamp(rev, now, rev, now))
    && (forall id :: id in next ==> id in IdsOf(base) || Lookup(base, ov, id).Some?)
    && (forall id :: id in born && (id in IdsOf(base) || Lookup(base, ov, id).Some?) ==> id in next)
    && (forall id :: id in IdsOf(base) && id !in ov ==> id in next)
  }
}
