/** The edits of internal/state/manager.go: what each operation does to a private
    copy of the overlay before anything is compiled or published.

    Field-by-field patch rules are left open: a create or update carries the
    function that builds the new body, or fails. */
module StateEdits {
  import opened Basics
  import opened StateModel

  /** newOverlayMeta: an overwrite keeps the creation revision of the live entry. */
  function NewMeta(inBase: bool, rev: nat, now: int, prev: Option<Meta>): (r: Meta)
  {
    var keep := prev.Some? && prev.value.created != 0;
    Meta(if inBase then FromOverride else FromRuntime, inBase,
         if keep then prev.value.created else rev, rev, rev,
         if keep then prev.value.createdAt else now, now)
  }

  function LiveMeta<T>(ov: Layer<T>, id: string): (r: Option<Meta>)
  {
    if id in ov && ov[id].Live? then Some(ov[id].meta) else None
  }

  /** Create or override. Only tokens may rewrite a live runtime entry. */
  function CreateIn<T>(
    base: seq<Obj<T>>, ov: Layer<T>, id: string, override: bool, shadowing: bool, rewrite: bool,
    build: Option<T> -> Result<T, Code>, rev: nat, now: int): (r: Result<Layer<T>, Code>)
  {
    var live, inBase := Lookup(base, ov, id).Some?, Find(base, id);
    if id == "" then Err(InvalidArgument)
    else if (live || inBase.Some?) && !override then Err(AlreadyExists)
    else if inBase.Some? && !shadowing then Err(Conflict)
    else if inBase.None? && live && !rewrite then Err(AlreadyExists)
    else match build(inBase)
         case Err(c) => Err(c)
         case Ok(body) => Ok(ov[id := Live(body, NewMeta(inBase.Some?, rev, now, LiveMeta(ov, id)))])
  }

  function UpdateIn<T>(
    base: seq<Obj<T>>, ov: Layer<T>, id: string, shadowing: bool, patch: T -> Result<T, Code>,
    rev: nat, now: int): (r: Result<Layer<T>, Code>)
  {
    var cur, inBase := Lookup(base, ov, id), Find(base, id).Some?;
    if id == "" then Err(InvalidArgument)
    else if cur.None? then Err(NotFound)
    else if inBase && !shadowing && LiveMeta(ov, id).None? then Err(Conflict)
    else match patch(cur.value)
         case Err(c) => Err(c)
         case Ok(body) => Ok(ov[id := Live(body, NewMeta(inBase, rev, now, LiveMeta(ov, id)))])
  }

  /** Delete: drop a runtime entry, reveal the baseline under an override, or
      leave a tombstone over a baseline identity. */
  function DeleteIn<T>(
    base: seq<Obj<T>>, ov: Layer<T>, id: string, tombstone: bool, kind: Kind, actor: string,
    rev: nat, now: int): (r: Result<Layer<T>, Code>)
  {
    var m := LiveMeta(ov, id);
    if id == "" then Err(InvalidArgument)
    else if Lookup(base, ov, id).None? then Err(NotFound)
    else if m.Some? && (m.value.source == FromRuntime || (m.value.source == FromOverride && !tombstone)) then Ok(ov - {id})
    else if Find(base, id).None? then Ok(ov - {id})
    else Ok(ov[id := Deleted(Tombstone(kind, id, actor, rev, now))])
  }

  datatype Edit =
    | Reload(document: Option<Document>)
    | Reset
    | CreateUser(id: string, override: bool, buildUser: Option<User> -> Result<User, Code>)
    | UpdateUser(id: string, patchUser: User -> Result<User, Code>)
    | DeleteUser(id: string, tombstone: bool, actor: string)
    | OverrideLogin(id: string, verifier: Option<Bytes>)
    | OverrideEnable(id: string, verifier: Option<Bytes>)
    | CreateGroup(id: string, override: bool, buildGroup: Option<Group> -> Result<Group, Code>)
    | UpdateGroup(id: string, patchGroup: Group -> Result<Group, Code>)
    | DeleteGroup(id: string, tombstone: bool, actor: string)
    | CreateClient(id: string, override: bool, buildClient: Option<Client> -> Result<Client, Code>)
    | UpdateClient(id: string, patchClient: Client -> Result<Client, Code>)
    | DeleteClient(id: string, tombstone: bool, actor: string)
    | CreateToken(id: string, override: bool, token: Token, scopesKnown: bool)
    | DeleteToken(id: string, tombstone: bool, actor: string)

  /** What an edit hands to the compiler: the new overlay, a replaced baseline, and
      secret material to store. */
  datatype Edited = Edited(overlay: Overlay, base: Option<Document>, put: Option<(string, Bytes)>)

  function Only(overlay: Overlay): (r: Edited) { Edited(overlay, None, None) }

  const LoginKey := "login:"
  const EnableKey := "enable:"

  /** The edit of one operation. Verifiers that are not PHC strings come as `None`. */
  function Apply(doc: Document, ov: Overlay, edit: Edit, rev: nat, now: int): (r: Result<Edited, Code>)
  {
    match edit
    case Reload(None) => Err(InvalidArgument)
    case Reload(Some(next)) => Ok(Edited(if next.resetOnReload then EmptyOverlay else ov, Some(next), None))
    case Reset => Ok(Only(EmptyOverlay))
    case CreateUser(id, o, build) =>
      OnUsers(ov, CreateIn(doc.users, ov.users, id, o, doc.allowShadowing, false, build, rev, now))
    case UpdateUser(id, patch) => OnUsers(ov, UpdateIn(doc.users, ov.users, id, doc.allowShadowing, patch, rev, now))
    case DeleteUser(id, t, actor) => OnUsers(ov, DeleteIn(doc.users, ov.users, id, t, UserKind, actor, rev, now))
    case OverrideLogin(id, v) =>
      if v.None? then Err(InvalidArgument)
      else Store(OnUsers(ov, UpdateIn(doc.users, ov.users, id, doc.allowShadowing, NewLogin(id), rev, now)),
                 LoginKey + id, v.value)
    case OverrideEnable(id, v) =>
      if v.None? then Err(InvalidArgument)
      else Store(OnUsers(ov, UpdateIn(doc.users, ov.users, id, doc.allowShadowing, NewEnable(id), rev, now)),
                 EnableKey + id, v.value)
    case CreateGroup(id, o, build) =>
      OnGroups(ov, CreateIn(doc.groups, ov.groups, id, o, doc.allowShadowing, false, build, rev, now))
    case UpdateGroup(id, patch) => OnGroups(ov, UpdateIn(doc.groups, ov.groups, id, doc.allowShadowing, patch, rev, now))
    case DeleteGroup(id, t, actor) => OnGroups(ov, DeleteIn(doc.groups, ov.groups, id, t, GroupKind, actor, rev, now))
    case CreateClient(id, o, build) =>
      OnClients(ov, CreateIn(doc.clients, ov.clients, id, o, doc.allowShadowing, false, build, rev, now))
    case UpdateClient(id, patch) =>
      OnClients(ov, UpdateIn(doc.clients, ov.clients, id, doc.allowShadowing, patch, rev, now))
    case DeleteClient(id, t, actor) => OnClients(ov, DeleteIn(doc.clients, ov.clients, id, t, ClientKind, actor, rev, now))
    case CreateToken(id, o, token, known) =>
      if id == "" || !known || token.scopes == [] then Err(InvalidArgument)
      else OnTokens(ov, CreateIn(doc.tokens, ov.tokens, id, o, doc.allowShadowing, true, _ => Ok(token), rev, now))
    case DeleteToken(id, t, actor) => OnTokens(ov, DeleteIn(doc.tokens, ov.tokens, id, t, TokenKind, actor, rev, now))
  }

  function NewLogin(id: string): (r: User -> Result<User, Code>)
  {
    (u: User) => Ok(u.(login := SecretRef("", "", LoginKey + id), mustChangeLogin := false))
  }

  function NewEnable(id: string): (r: User -> Result<User, Code>)
  {
    (u: User) => Ok(u.(enable := SecretRef("", "", EnableKey + id), mustChangeEnable := false))
  }

  function OnUsers(ov: Overlay, r: Result<Layer<User>, Code>): (res: Result<Edited, Code>)
  {
    match r case Err(c) => Err(c) case Ok(l) => Ok(Only(ov.(users := l)))
  }

  function OnGroups(ov: Overlay, r: Result<Layer<Group>, Code>): (res: Result<Edited, Code>)
  {
    match r case Err(c) => Err(c) case Ok(l) => Ok(Only(ov.(groups := l)))
  }

  function OnClients(ov: Overlay, r: Result<Layer<Client>, Code>): (res: Result<Edited, Code>)
  {
    match r case Err(c) => Err(c) case Ok(l) => Ok(Only(ov.(clients := l)))
  }

  function OnTokens(ov: Overlay, r: Result<Layer<Token>, Code>): (res: Result<Edited, Code>)
  {
    match r case Err(c) => Err(c) case Ok(l) => Ok(Only(ov.(tokens := l)))
  }

  function Store(r: Result<Edited, Code>, key: string, bytes: Bytes): (res: Result<Edited, Code>)
  {
    match r case Err(c) => Err(c) case Ok(e) => Ok(e.(put := Some((key, bytes))))
  }

  // ---------------------------------------------------------------------------
  // What every edit keeps
  // ---------------------------------------------------------------------------

  ghost predicate MetaOk(m: Meta, rev: nat)
  {
    1 <= m.created <= m.updated <= rev && m.source != FromConfig
  }

  /** Overlay entries carry their own ID, an overlay origin and ordered revisions. */
  ghost predicate LayerOk<T>(ov: Layer<T>, rev: nat)
  {
    TombsKeyed(ov) && "" !in ov && forall id :: id in ov && ov[id].Live? ==> MetaOk(ov[id].meta, rev)
  }

  ghost predicate OverlayOk(ov: Overlay, rev: nat)
  {
    LayerOk(ov.users, rev) && LayerOk(ov.groups, rev) && LayerOk(ov.clients, rev) && LayerOk(ov.tokens, rev)
  }

  lemma CreateKeepsLayer<T>(
    base: seq<Obj<T>>, ov: Layer<T>, id: string, override: bool, shadowing: bool, rewrite: bool,
    build: Option<T> -> Result<T, Code>, rev: nat, now: int)
    requires LayerOk(ov, rev) && rev >= 1
    ensures var r := CreateIn(base, ov, id, override, shadowing, rewrite, build, rev, now); r.Ok? ==> LayerOk(r.value, rev)
  {
  }

  lemma UpdateKeepsLayer<T>(
    base: seq<Obj<T>>, ov: Layer<T>, id: string, shadowing: bool, patch: T -> Result<T, Code>, rev: nat, now: int)
    requires LayerOk(ov, rev) && rev >= 1
    ensures var r := UpdateIn(base, ov, id, shadowing, patch, rev, now); r.Ok? ==> LayerOk(r.value, rev)
  {
  }

  lemma DeleteKeepsLayer<T>(
    base: seq<Obj<T>>, ov: Layer<T>, id: string, tombstone: bool, kind: Kind, actor: string, rev: nat, now: int)
    requires LayerOk(ov, rev)
    ensures var r := DeleteIn(base, ov, id, tombstone, kind, actor, rev, now); r.Ok? ==> LayerOk(r.value, rev)
  {
  }

  predicate EditOk(e: Edit) { e.Reload? && e.document.Some? ==> DocumentOk(e.document.value) }

  ghost predicate EditedOk(r: Result<Edited, Code>, rev: nat)
  {
    r.Ok? ==> OverlayOk(r.value.overlay, rev) && (r.value.base.Some? ==> DocumentOk(r.value.base.value))
  }

  lemma ApplyKeepsOverlay(doc: Document, ov: Overlay, edit: Edit, rev: nat, now: int)
    requires OverlayOk(ov, rev) && rev >= 1 && EditOk(edit)
    ensures EditedOk(Apply(doc, ov, edit, rev, now), rev)
  {
    match edit
    case CreateUser(id, o, build) => CreateKeepsLayer(doc.users, ov.users, id, o, doc.allowShadowing, false, build, rev, now);
    case UpdateUser(id, patch) => UpdateKeepsLayer(doc.users, ov.users, id, doc.allowShadowing, patch, rev, now);
    case DeleteUser(id, t, actor) => DeleteKeepsLayer(doc.users, ov.users, id, t, UserKind, actor, rev, now);
    case OverrideLogin(id, v) => UpdateKeepsLayer(doc.users, ov.users, id, doc.allowShadowing, NewLogin(id), rev, now);
    case OverrideEnable(id, v) => UpdateKeepsLayer(doc.users, ov.users, id, doc.allowShadowing, NewEnable(id), rev, now);
    case CreateGroup(id, o, build) => CreateKeepsLayer(doc.groups, ov.groups, id, o, doc.allowShadowing, false, build, rev, now);
    case UpdateGroup(id, patch) => UpdateKeepsLayer(doc.groups, ov.groups, id, doc.allowShadowing, patch, rev, now);
    case DeleteGroup(id, t, actor) => DeleteKeepsLayer(doc.groups, ov.groups, id, t, GroupKind, actor, rev, now);
    case CreateClient(id, o, build) => CreateKeepsLayer(doc.clients, ov.clients, id, o, doc.allowShadowing, false, build, rev, now);
    case UpdateClient(id, patch) => UpdateKeepsLayer(doc.clients, ov.clients, id, doc.allowShadowing, patch, rev, now);
    case DeleteClient(id, t, actor) => DeleteKeepsLayer(doc.clients, ov.clients, id, t, ClientKind, actor, rev, now);
    case CreateToken(id, o, token, known) =>
      CreateKeepsLayer(doc.tokens, ov.tokens, id, o, doc.allowShadowing, true, _ => Ok(token), rev, now);
    case DeleteToken(id, t, actor) => DeleteKeepsLayer(doc.tokens, ov.tokens, id, t, TokenKind, actor, rev, now);
    case _ =>
  }

  // ---------------------------------------------------------------------------
  // Undo
  // ---------------------------------------------------------------------------

  /** Creating an object that was not there, or overriding a baseline object that
      had no overlay entry, and then deleting it without a tombstone leaves the
      overlay as it was. */
  lemma CreateThenDeleteUndoes<T>(
    base: seq<Obj<T>>, ov: Layer<T>, id: string, override: bool, shadowing: bool, rewrite: bool,
    build: Option<T> -> Result<T, Code>, kind: Kind, actor: string, rev: nat, now: int, rev2: nat, now2: int)
    requires id !in ov
    requires CreateIn(base, ov, id, override, shadowing, rewrite, build, rev, now).Ok?
    ensures var mid := CreateIn(base, ov, id, override, shadowing, rewrite, build, rev, now).value;
            DeleteIn(base, mid, id, false, kind, actor, rev2, now2) == Ok(ov)
  {
    var mid := CreateIn(base, ov, id, override, shadowing, rewrite, build, rev, now).value;
    assert Lookup(base, mid, id).Some? && LiveMeta(mid, id).Some?;
    assert mid - {id} == ov;
  }

  /** The same for the two user operations as a caller issues them. */
  lemma CreateUserThenDelete(doc: Document, ov: Overlay, create: Edit, delete: Edit, rev: nat, now: int, rev2: nat, now2: int)
    requires create.CreateUser? && delete.DeleteUser? && create.id == delete.id && !delete.tombstone
    requires create.id !in ov.users && Apply(doc, ov, create, rev, now).Ok?
    ensures var e := Apply(doc, ov, create, rev, now).value;
            && e.base.None?
            && Apply(doc, e.overlay, delete, rev2, now2) == Ok(Only(ov))
  {
    CreateThenDeleteUndoes(doc.users, ov.users, create.id, create.override, doc.allowShadowing, false,
                           create.buildUser, UserKind, delete.actor, rev, now, rev2, now2);
  }

  /** The runtime ID of a user's login or enable verifier. */
  function VerifierKey(enable: bool, id: string): (k: string) { (if enable then EnableKey else LoginKey) + id }

  /** The edit that overrides a user's verifier. */
  function Override(enable: bool, id: string, v: Option<Bytes>): (e: Edit)
  {
    if enable then OverrideEnable(id, v) else OverrideLogin(id, v)
  }

  /** The user refers to the runtime verifier, need not change it any more, and is the same otherwise. */
  function Overridden(u: User, enable: bool, id: string): (r: User)
  {
    var ref := SecretRef("", "", VerifierKey(enable, id));
    if enable then u.(enable := ref, mustChangeEnable := false) else u.(login := ref, mustChangeLogin := false)
  }

  /** An overridden verifier: its material is stored, and only this user's entry is written. */
  predicate Overrides(doc: Document, ov: Overlay, e: Edited, enable: bool, id: string, v: Bytes)
  {
    var u := Lookup(doc.users, ov.users, id);
    && e.base.None? && e.put == Some((VerifierKey(enable, id), v))
    && u.Some? && id in e.overlay.users && e.overlay.users[id].Live?
    && e.overlay.users[id].body == Overridden(u.value, enable, id)
    && e.overlay == ov.(users := ov.users[id := e.overlay.users[id]])
  }

  lemma OverrideOverrides(doc: Document, ov: Overlay, enable: bool, id: string, v: Bytes, rev: nat, now: int)
    requires Apply(doc, ov, Override(enable, id, Some(v)), rev, now).Ok?
    ensures Overrides(doc, ov, Apply(doc, ov, Override(enable, id, Some(v)), rev, now).value, enable, id, v)
  {
  }
}
