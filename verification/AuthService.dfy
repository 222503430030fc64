/** The session table around the conversation: BeginAuthentication,
    ContinueAuthentication and AbortAuthentication of internal/aaa/auth.go, with
    get, put and drop of internal/aaa/service.go. Each call is one atomic step. A
    changed password is published through the snapshot manager. */
module AuthService {
  import opened Basics
  import opened Conversation
  import Model = StateModel
  import Edits = StateEdits
  import Runs = StateManager
  import Snapshots = SnapshotManager

  type Key = (nat, nat)

  datatype Action = Login | ChangePassword | SendAuth | SendPass | OtherAction
  datatype AuthenType = AsciiType | PapType | ChapType | MsChapType | MsChapV2Type | OtherType
  datatype ServiceField = NoService | EnableService | LoginService | InvalidService

  datatype StartRequest = StartRequest(
    user: Bytes, client: string, action: Action, authenType: AuthenType, service: ServiceField,
    privilege: nat, port: Bytes, remote: Bytes)

  datatype Class = Ends(reply: Reply) | Interactive(flow: Flow) | OneShot(shot: Method)

  /** classifyStart. */
  function Classify(r: StartRequest): (res: Class)
  {
    match r.action
    case ChangePassword =>
      if r.service == EnableService then Ends(Fail)
      else if r.authenType != AsciiType then Ends(Error)
      else if r.service == NoService || r.service == InvalidService then Ends(Fail)
      else Interactive(Chpass)
    case Login =>
      if r.service == EnableService then Interactive(Enable)
      else if r.service == NoService || r.service == InvalidService then Ends(Fail)
      else (match r.authenType
            case AsciiType => Interactive(Ascii)
            case PapType => OneShot(Pap)
            case ChapType => OneShot(Chap)
            case MsChapType => OneShot(MsChapV1)
            case MsChapV2Type => OneShot(MsChapV2)
            case OtherType => Ends(Error))
    case _ => Ends(Error)
  }

  function MethodFor(c: Class): (r: Method)
    requires !c.Ends?
  {
    match c
    case OneShot(m) => m
    case Interactive(Ascii) => AsciiLogin
    case Interactive(Enable) => EnableMethod
    case Interactive(Chpass) => AsciiChpass
  }

  /** What a START that passed the field checks comes to: a reply, or a conversation. */
  function Dispatch(r: StartRequest, canonical: string, snap: Option<Snap>, shot: Reply): (d: Class)
    requires Terminal(shot)
    ensures !d.OneShot? && (d.Interactive? ==> snap.Some?)
    ensures d == Ends(Pass) ==>
              snap.Some? && Classify(r).OneShot? && shot == Pass && !MustChangeIn(snap.value, false, canonical)
    ensures d.Ends? ==> Terminal(d.reply) || d.reply == Restart
  {
    var c := Classify(r);
    if snap.None? then Ends(Error)
    else if c.Ends? then c
    else if !MethodAllowed(snap.value, r.client, MethodFor(c)) then Ends(Restart)
    else if c.OneShot? then Ends(if shot == Pass && MustChangeIn(snap.value, false, canonical) then Fail else shot)
    else if c.flow == Enable && r.privilege > 15 then Ends(Fail)
    else c
  }

  /** The flow a START asks for, if it asks for one that goes on. */
  function FlowOf(r: StartRequest): (f: Flow)
  {
    if r.action == ChangePassword then Chpass else if r.service == EnableService then Enable else Ascii
  }

  /** Which STARTs open a conversation: a password change or login in ASCII for a valid service, or
      an enable login within the privilege range, by a client that may use the method. */
  predicate Opens(r: StartRequest, snap: Option<Snap>)
  {
    && snap.Some?
    && match r.action
       case ChangePassword => && r.authenType == AsciiType && r.service == LoginService
                              && MethodAllowed(snap.value, r.client, AsciiChpass)
       case Login =>
         if r.service == EnableService then r.privilege <= 15 && MethodAllowed(snap.value, r.client, EnableMethod)
         else r.authenType == AsciiType && r.service == LoginService && MethodAllowed(snap.value, r.client, AsciiLogin)
       case _ => false
  }

  lemma OpensIffInteractive(r: StartRequest, canonical: string, snap: Option<Snap>, shot: Reply)
    requires Terminal(shot)
    ensures Opens(r, snap) <==> Dispatch(r, canonical, snap, shot).Interactive?
    ensures Opens(r, snap) ==> Dispatch(r, canonical, snap, shot) == Interactive(FlowOf(r))
  {
  }

  function Limit(configured: int): (r: int) { if configured > 0 then configured else 253 }

  /** checkAuthenFields: a field is longer than the published limit. */
  predicate Oversize(snap: Option<Snap>, r: StartRequest)
  {
    var (u, p, m) := match snap case None => (253, 253, 253)
                                case Some(s) => (Limit(s.limits.maxUser), Limit(s.limits.maxPort), Limit(s.limits.maxRemote));
    |r.user| > u || |r.port| > p || |r.remote| > m
  }

  /** A reply that leaves a conversation open. */
  predicate Prompts(r: Reply) { !Terminal(r) && r != Restart }

  /** A conversation's transcript: the session START opened and the messages since. */
  datatype Talk = Talk(opening: Session, msgs: seq<Msg>)

  ghost predicate SameBut(a: map<Key, Session>, b: map<Key, Session>, key: Key)
  {
    forall k :: k != key ==> (k in b <==> k in a) && (k in b ==> b[k] == a[k])
  }

  predicate GoesOn(a: map<Key, Talk>, b: map<Key, Talk>, key: Key, msg: Msg)
  {
    key in a && key in b && b[key] == Talk(a[key].opening, a[key].msgs + [msg])
  }

  /** The session table with its transcripts. */
  datatype Table = Table(sessions: map<Key, Session>, talks: map<Key, Talk>)

  /** What becomes of the table when a message is answered without publishing. */
  ghost predicate SettledTo(c: Creds, a: Table, b: Table, key: Key, msg: Msg, reply: Reply)
  {
    && SameBut(a.sessions, b.sessions, key) && (key in b.sessions ==> GoesOn(a.talks, b.talks, key, msg))
    && (Terminal(reply) <==> key !in b.sessions)
    && (reply == Pass ==> key in a.talks && PassesPlainly(c, a.talks[key].opening, a.talks[key].msgs + [msg]))
  }

  /** There is no manager, or it is a valid one. */
  ghost predicate Sound(manager: Snapshots.Manager?)
    reads manager, if manager == null then {} else Snapshots.SecretBag.Arrays(manager.secrets) + manager.ArchiveArrays()
  {
    forall m: Snapshots.Manager {:trigger m.Valid()} :: m == manager ==> m.Valid()
  }

  class Service {
    const creds: Creds
    /** Whether derived bytes are a PHC string. */
    const isPhc: Bytes -> bool
    const manager: Snapshots.Manager?
    /** What a document's settings say about limits. */
    const limits: string -> Limits
    var sessions: map<Key, Session>
    ghost var talks: map<Key, Talk>

    /** Every session in the table is where its transcript leads. */
    ghost predicate Valid()
      reads this
    {
      && talks.Keys == sessions.Keys
      && forall k :: k in talks ==>
                       IsOpening(talks[k].opening) && After(creds, talks[k].opening, talks[k].msgs) == Some(sessions[k])
    }

    /** The snapshot that readers get now. */
    ghost function Now(): (s: Option<Snap>)
      reads manager, if manager == null then {} else Snapshots.SecretBag.Arrays(manager.secrets)
    {
      if manager == null then None
      else Some(Snap(manager.current, Snapshots.SecretBag.Contents(manager.secrets), limits(manager.baseline.settings)))
    }

    ghost predicate ManagerOk()
      reads manager, if manager == null then {} else Snapshots.SecretBag.Arrays(manager.secrets) + manager.ArchiveArrays()
    {
      Sound(manager)
    }

    /** Every session is bound to a snapshot that the manager published. */
    ghost predicate Bound()
      reads this`talks, manager
    {
      if manager == null then talks == map[] else AllFrom(manager.run, limits, talks)
    }

    constructor (creds: Creds, isPhc: Bytes -> bool, manager: Snapshots.Manager?, limits: string -> Limits)
      requires Sound(manager)
      ensures Valid() && ManagerOk() && Bound() && sessions == map[]
      ensures this.creds == creds && this.isPhc == isPhc && this.manager == manager && this.limits == limits
    {
      this.creds, this.isPhc, this.manager, this.limits := creds, isPhc, manager, limits;
      sessions, talks := map[], map[];
      new;
      StaysSound(manager);
    }

    method Drop(key: Key)
      requires Valid()
      modifies this`sessions, this`talks
      ensures Valid() && sessions == old(sessions) - {key} && talks == old(talks) - {key}
      ensures (old(Bound()) ==> Bound()) && Untouched(manager)
    {
      sessions := sessions - {key};
      talks := talks - {key};
    }

    /** putSession: the session where the messages so far lead. */
    method Put(key: Key, s: Session, ghost opening: Session, ghost msgs: seq<Msg>)
      requires Valid() && Bound() && IsOpening(opening) && After(creds, opening, msgs) == Some(s)
      requires manager != null && FromRun(manager.run, limits, opening.snap)
      modifies this`sessions, this`talks
      ensures Valid() && Bound() && sessions == old(sessions)[key := s] && talks == old(talks)[key := Talk(opening, msgs)]
      ensures Untouched(manager)
    {
      sessions := sessions[key := s];
      talks := talks[key := Talk(opening, msgs)];
    }

    /** snap(). */
    method Current() returns (s: Option<Snap>)
      requires ManagerOk()
      ensures s == old(Now()) && (s.Some? ==> manager != null && FromRun(manager.run, limits, s.value))
    {
      if manager == null {
        return None;
      }
      var view, secrets, settings := manager.Read();
      NowIsPublished(manager, limits);
      return Some(Snap(view, secrets, limits(settings)));
    }

    /** START, against the snapshot published now; `shot` is the outcome of a one-shot method. An
        oversize START is refused and leaves everything as it was, an old session under its key
        included. Any other START drops that session, and then a terminal reply leaves none. */
    method Begin(key: Key, r: StartRequest, shot: Reply) returns (reply: Reply)
      requires Valid() && ManagerOk() && Bound() && Terminal(shot)
      modifies this`sessions, this`talks
      ensures Valid() && ManagerOk() && Bound() && OthersKept(key) && Now() == old(Now())
      ensures Oversize(old(Now()), r) ==> reply == Error && sessions == old(sessions) && talks == old(talks)
      ensures !Oversize(old(Now()), r) ==> Started(key, r, old(Now()), shot, reply)
    {
      var snap := Current();
      if Oversize(snap, r) {
        ManagerStays(this);
        return Error;
      }
      reply := Admit(key, r, snap, shot);
      ManagerStays(this);
    }

    /** A START that passed the field checks, against the snapshot it is bound to. */
    method Admit(key: Key, r: StartRequest, snap: Option<Snap>, shot: Reply) returns (reply: Reply)
      requires Valid() && Bound() && Terminal(shot)
      requires snap.Some? ==> manager != null && FromRun(manager.run, limits, snap.value)
      modifies this`sessions, this`talks
      ensures Valid() && Bound() && OthersKept(key)
      ensures Started(key, r, snap, shot, reply)
    {
      Drop(key);
      var name := creds.Canon(r.user);
      var d := Dispatch(r, name, snap, shot);
      OpensIffInteractive(r, name, snap, shot);
      if d.Ends? {
        return d.reply;
      }
      var s := Open(d.flow, name, r.client, snap.value);
      assert IsOpening(s) && After(creds, s, []) == Some(s) && Prompts(FirstPrompt(s));
      Put(key, s, s, []);
      return FirstPrompt(s);
    }

    /** What a START comes to that passed the field checks. A conversation is open exactly for the
        STARTs that open one, and exactly if the reply is a prompt; PASS is the outcome of a one-shot
        method for a user who need not change the password. */
    ghost predicate Started(key: Key, r: StartRequest, snap: Option<Snap>, shot: Reply, reply: Reply)
      requires Terminal(shot)
      reads this
    {
      && (key in sessions <==> Opens(r, snap)) && (key in sessions <==> Prompts(reply))
      && (if key in sessions then Opened(key, r, snap, reply) else Ended(r, snap, shot, reply))
      && (reply == Pass ==>
            snap.Some? && Classify(r).OneShot? && shot == Pass && !MustChangeIn(snap.value, false, creds.Canon(r.user)))
    }

    /** The session under the key is a new one, bound to the snapshot, and the reply is its first prompt. */
    ghost predicate Opened(key: Key, r: StartRequest, snap: Option<Snap>, reply: Reply)
      requires key in sessions
      reads this
    {
      && snap.Some? && key in talks && talks[key].msgs == []
      && sessions[key] == Open(FlowOf(r), creds.Canon(r.user), r.client, snap.value) == talks[key].opening
      && reply == FirstPrompt(sessions[key])
    }

    /** The reply to a START that opens no conversation. */
    ghost predicate Ended(r: StartRequest, snap: Option<Snap>, shot: Reply, reply: Reply)
      requires Terminal(shot)
    {
      Dispatch(r, creds.Canon(r.user), snap, shot) == Ends(reply)
    }

    /** The override that publishes a new verifier at the revision bound at START. */
    function PublishInput(s: Session, enable: bool, phc: Bytes, env: Runs.Env): (i: Runs.Input)
    {
      Runs.Input(Some(s.rev), Edits.Override(enable, s.user, if isPhc(phc) then Some(phc) else None), env)
    }

    /** The manager moved from the START revision to the next, and its new snapshot shows the verifier. */
    twostate predicate Published(rev: nat, enable: bool, user: string, phc: Bytes)
      reads manager, if manager == null then {} else Snapshots.SecretBag.Arrays(manager.secrets)
    {
      && manager != null && old(manager.revision) == rev && manager.revision == rev + 1
      && Snapshots.TakesEffect(old(manager.current.users), manager.current.users,
                               Snapshots.SecretBag.Contents(manager.secrets), enable, user, phc)
    }

    /** Refusals that end a change as a failure rather than an error: the user is gone or shadowing is off. */
    predicate IsConflict(r: Option<Model.Code>) { r == Some(Model.Conflict) || r == Some(Model.NotFound) }

    /** publishLogin and publishEnable: the manager's own mutation, at the START revision. PASS means
        that it succeeded, and then the next snapshot shows the new verifier and nothing else changed
        for users; any other reply leaves the manager as it was. */
    method PublishVerifier(s: Session, enable: bool, phc: Bytes, env: Runs.Env) returns (reply: Reply)
      requires ManagerOk() && Bound()
      modifies manager
      ensures ManagerOk() && Bound()
      ensures reply == Pass <==> manager != null && old(Runs.Accepts(manager.h, manager.View(), PublishInput(s, enable, phc, env)))
      ensures Terminal(reply)
      ensures reply == Pass ==> Published(s.rev, enable, s.user, phc)
      ensures reply != Pass ==> ManagerUnchanged()
      ensures reply == Fail ==> manager != null && manager.run.results != [] && IsConflict(manager.run.results[|manager.run.results| - 1])
      ensures reply == Error && manager != null ==>
                manager.run.results != [] && !IsConflict(manager.run.results[|manager.run.results| - 1])
    {
      if manager == null {
        return Error;
      }
      ghost var before := manager.run;
      var r := manager.OverrideVerifier(enable, s.user, if isPhc(phc) then Some(phc) else None, Some(s.rev), env);
      AllStayPublished(before, manager.run, limits, talks);
      return match r
             case None => Pass
             case Some(c) => if IsConflict(Some(c)) then Fail else Error;
    }

    /** The sessions under other keys are the same. */
    twostate predicate OthersKept(key: Key)
      reads this`sessions
    {
      SameBut(old(sessions), sessions, key)
    }

    /** A session that stays open has its message added to the transcript. */
    twostate predicate TalkGoesOn(key: Key, msg: Msg)
      reads this`sessions, this`talks
    {
      key in sessions ==> GoesOn(old(talks), talks, key, msg)
    }

    twostate predicate ManagerUnchanged()
      reads manager
    {
      manager != null ==> manager.View() == old(manager.View())
    }

    /** CONTINUE. A terminal reply leaves no session under the key; PASS is justified by the
        transcript and, after a change, by a publication that replaces exactly the snapshot
        bound at START. */
    method Continue(key: Key, abort: bool, msg: Msg, env: Runs.Env) returns (reply: Reply)
      requires Valid() && ManagerOk() && Bound()
      modifies this, manager
      ensures Valid() && ManagerOk() && Bound() && OthersKept(key)
      ensures Terminal(reply) <==> key !in sessions
      ensures TalkGoesOn(key, msg)
      ensures reply == Pass ==> key in old(talks) && !abort && Justified(old(talks)[key], msg)
      ensures reply != Pass ==> ManagerUnchanged()
    {
      if key !in sessions || abort {
        reply := Dismiss(key);
      } else {
        reply := Answer(key, msg, env);
      }
    }

    /** A CONTINUE without a session is an error; one with the abort flag ends the session. */
    method Dismiss(key: Key) returns (reply: Reply)
      requires Valid() && ManagerOk() && Bound()
      modifies this`sessions, this`talks
      ensures Valid() && ManagerOk() && Bound() && OthersKept(key) && ManagerUnchanged()
      ensures key !in sessions && reply == if key in old(sessions) then Fail else Error
    {
      if key !in sessions {
        return Error;
      }
      Drop(key);
      ManagerStays(this);
      return Fail;
    }

    /** Acts on the reaction to a message. */
    method Answer(key: Key, msg: Msg, env: Runs.Env) returns (reply: Reply)
      requires Valid() && ManagerOk() && Bound() && key in sessions
      modifies this`sessions, this`talks, manager
      ensures Valid() && ManagerOk() && Bound() && OthersKept(key)
      ensures Terminal(reply) <==> key !in sessions
      ensures TalkGoesOn(key, msg)
      ensures reply == Pass ==> Justified(old(talks)[key], msg)
      ensures reply != Pass ==> ManagerUnchanged()
    {
      var x := React(creds, sessions[key], msg);
      StepMeans(creds, talks[key].opening, talks[key].msgs, sessions[key], msg);
      if x.Publish? {
        reply := EndWithChange(key, sessions[key], x.enable, x.phc, env, msg);
      } else {
        reply := Settle(key, msg, x);
        ManagerStays(this);
      }
    }

    /** What the reaction to the session's next message means for its transcript. */
    ghost predicate Reacts(key: Key, msg: Msg, x: Reaction)
      reads this`sessions, this`talks
    {
      key in sessions && key in talks && Means(creds, talks[key].opening, talks[key].msgs + [msg], sessions[key], x)
    }

    /** What becomes of the table when no verifier is published. */
    twostate predicate Settled(key: Key, msg: Msg, new reply: Reply)
      reads this`sessions, this`talks
    {
      SettledTo(creds, Table(old(sessions), old(talks)), Table(sessions, talks), key, msg, reply)
    }

    /** Puts the session back, or drops it. */
    method Settle(key: Key, ghost msg: Msg, x: Reaction) returns (reply: Reply)
      requires Valid() && Bound() && Reacts(key, msg, x) && !x.Publish?
      modifies this`sessions, this`talks
      ensures Valid() && Bound() && Untouched(manager) && Settled(key, msg, reply)
    {
      match x
      case Prompt(p, next) =>
        PutSettles(creds, Table(sessions, talks), key, msg, x);
        Put(key, next, talks[key].opening, talks[key].msgs + [msg]);
        return p;
      case Done(d) =>
        DropSettles(creds, Table(sessions, talks), key, msg, x);
        Drop(key);
        return d;
    }

    /** A confirmed change: drop the session and publish. */
    method EndWithChange(key: Key, s: Session, enable: bool, phc: Bytes, env: Runs.Env, ghost msg: Msg) returns (reply: Reply)
      requires Valid() && ManagerOk() && Bound() && Reacts(key, msg, Publish(enable, phc)) && sessions[key] == s
      modifies this`sessions, this`talks, manager
      ensures Valid() && ManagerOk() && Bound() && OthersKept(key) && key !in sessions
      ensures Terminal(reply)
      ensures reply == Pass ==> PassedByChange(old(talks)[key], msg)
      ensures reply != Pass ==> ManagerUnchanged()
    {
      BoundNow(key);
      Drop(key);
      ManagerStays(this);
      ghost var rest := sessions;
      assert SameBut(old(sessions), rest, key);
      reply := PublishVerifier(s, enable, phc, env);
      assert sessions == rest;
    }

    /** A session bound at the revision published now is bound to what is published now. */
    lemma BoundNow(key: Key)
      requires Bound() && ManagerOk() && key in talks && manager != null
      ensures talks[key].opening.snap.view.revision == manager.revision ==> Now() == Some(talks[key].opening.snap)
    {
      var s := talks[key].opening.snap;
      if s.view.revision == manager.revision { BoundToNow(manager, limits, s); }
    }

    /** A plain login or enable: the last message is the verified password. */
    twostate predicate PassedPlainly(t: Talk, msg: Msg)
      reads manager
    {
      PassesPlainly(creds, t.opening, t.msgs + [msg]) && ManagerUnchanged()
    }

    /** A change whose verifier is published at exactly the START revision: the snapshot it replaces
        is the one the old password was verified against. */
    twostate predicate PassedByChange(t: Talk, msg: Msg)
      reads manager, if manager == null then {} else Snapshots.SecretBag.Arrays(manager.secrets)
    {
      exists phc :: && ChangesTo(creds, t.opening, t.msgs + [msg], phc)
                    && Published(t.opening.snap.view.revision, t.opening.flow == Enable, UserOf(creds, t.opening, t.msgs + [msg]), phc)
                    && old(Now()) == Some(t.opening.snap)
    }

    /** What a PASS in reply to `msg` means for the conversation so far. */
    twostate predicate Justified(t: Talk, msg: Msg)
      reads manager, if manager == null then {} else Snapshots.SecretBag.Arrays(manager.secrets)
    {
      PassedPlainly(t, msg) || PassedByChange(t, msg)
    }

    method Abort(key: Key)
      requires Valid()
      modifies this`sessions, this`talks
      ensures Valid() && sessions == old(sessions) - {key}
    {
      if key in sessions {
        Drop(key);
      }
    }
  }

  /** A manager that nobody touched stays sound. */
  twostate lemma StaysSound(m: Snapshots.Manager?)
    requires old(Sound(m)) && Untouched(m)
    ensures Sound(m)
  {
    if m != null { Snapshots.Untouched(m); }
  }

  twostate predicate Untouched(m: Snapshots.Manager?)
    reads m, if m == null then {} else Snapshots.SecretBag.Arrays(m.secrets) + m.ArchiveArrays()
  {
    m != null ==> unchanged(m) && unchanged(Snapshots.SecretBag.Arrays(m.secrets)) && unchanged(m.ArchiveArrays())
  }

  twostate lemma ManagerStays(s: Service)
    requires old(s.ManagerOk()) && Untouched(s.manager)
    ensures s.ManagerOk() && s.ManagerUnchanged() && s.Now() == old(s.Now())
  {
    StaysSound(s.manager);
  }

  /** The snapshot a run shows after k inputs. */
  ghost function SnapAt(run: Runs.Run, k: nat, limits: string -> Limits): (s: Snap)
    requires Runs.Shaped(run) && k <= |run.inputs|
  {
    Snap(run.states[k].current, Snapshots.BagAt(run, k), limits(run.states[k].baseline.settings))
  }

  ghost predicate FromRun(run: Runs.Run, limits: string -> Limits, s: Snap)
  {
    Runs.Shaped(run) && exists k :: 0 <= k <= |run.inputs| && s == SnapAt(run, k, limits)
  }

  ghost predicate AllFrom(run: Runs.Run, limits: string -> Limits, talks: map<Key, Talk>)
  {
    forall k :: k in talks ==> FromRun(run, limits, talks[k].opening.snap)
  }

  lemma NowIsPublished(m: Snapshots.Manager, limits: string -> Limits)
    requires m.Valid()
    ensures FromRun(m.run, limits, Snap(m.current, Snapshots.SecretBag.Contents(m.secrets), limits(m.baseline.settings)))
  {
    assert SnapAt(m.run, |m.run.inputs|, limits)
        == Snap(m.current, Snapshots.SecretBag.Contents(m.secrets), limits(m.baseline.settings));
  }

  /** What a run has published stays published. */
  lemma StaysPublished(a: Runs.Run, b: Runs.Run, limits: string -> Limits, s: Snap)
    requires Snapshots.Grows(a, b) && FromRun(a, limits, s)
    ensures FromRun(b, limits, s)
  {
    var k :| 0 <= k <= |a.inputs| && s == SnapAt(a, k, limits);
    Snapshots.SameBags(a, b, k);
    assert s == SnapAt(b, k, limits);
  }

  lemma AllStayPublished(a: Runs.Run, b: Runs.Run, limits: string -> Limits, talks: map<Key, Talk>)
    requires Snapshots.Grows(a, b) && AllFrom(a, limits, talks)
    ensures AllFrom(b, limits, talks)
  {
    forall k | k in talks ensures FromRun(b, limits, talks[k].opening.snap) { StaysPublished(a, b, limits, talks[k].opening.snap); }
  }

  /** A session bound at the revision that is published now is bound to what is published now. */
  lemma BoundToNow(m: Snapshots.Manager, limits: string -> Limits, s: Snap)
    requires m.Valid() && FromRun(m.run, limits, s) && s.view.revision == m.revision
    ensures s == Snap(m.current, Snapshots.SecretBag.Contents(m.secrets), limits(m.baseline.settings))
  {
    var k :| 0 <= k <= |m.run.inputs| && s == SnapAt(m.run, k, limits);
    Runs.RunKeepsInv(m.h, m.first, m.start, m.run, k);
    Snapshots.SameRevisionSameSnapshot(m.h, m.first, m.start, m.run, k, |m.run.inputs|);
  }

  lemma PutSettles(c: Creds, a: Table, key: Key, msg: Msg, x: Reaction)
    requires key in a.sessions && key in a.talks && x.Prompt?
    requires Means(c, a.talks[key].opening, a.talks[key].msgs + [msg], a.sessions[key], x)
    ensures var b := Table(a.sessions[key := x.next], a.talks[key := Talk(a.talks[key].opening, a.talks[key].msgs + [msg])]);
            SettledTo(c, a, b, key, msg, x.reply)
  {
  }

  lemma DropSettles(c: Creds, a: Table, key: Key, msg: Msg, x: Reaction)
    requires key in a.sessions && key in a.talks && x.Done?
    requires Means(c, a.talks[key].opening, a.talks[key].msgs + [msg], a.sessions[key], x)
    ensures SettledTo(c, a, Table(a.sessions - {key}, a.talks - {key}), key, msg, x.reply)
  {
  }

  lemma PromptsAreNotTerminal(c: Creds, s: Session, msg: Msg)
    ensures React(c, s, msg).Prompt? ==> !Terminal(React(c, s, msg).reply)
    ensures React(c, s, msg).Done? ==> Terminal(React(c, s, msg).reply)
  {
  }

  /** Checking a password against what was derived from it succeeds. */
  ghost predicate ChecksWhatItDerives(c: Creds)
  {
    forall pw, enable, phc :: c.derive(pw, enable) == Phc(phc) ==> phc != [] && c.check(phc, pw) == Good
  }

  /** The snapshot after a published change checks passwords for the user against the new verifier,
      if the user may log in at all. */
  lemma NewVerifierDecides(c: Creds, before: Model.Snapshot, t: Snap, enable: bool, user: string, phc: Bytes, client: string, msg: Msg)
    requires Snapshots.TakesEffect(before.users, t.view.users, t.secrets, enable, user, phc) && phc != []
    requires c.canonical(user) == Some(user)
    ensures var u := before.users[user].body;
            c.Verify(t, client, user, msg, enable) == if u.enabled && c.admits(u.rest, client, msg.at) then c.check(phc, msg.text) else Bad
    ensures !MustChangeIn(t, enable, user)
  {
  }

  /** A changed password works: once a change has been published, a login (or enable) that starts on
      the snapshot it produced passes with the new password at once. Any other password passes
      at once exactly if it checks against the new verifier. */
  lemma ChangedPasswordPasses(c: Creds, before: Model.Snapshot, t: Snap, enable: bool, user: string, pw: Bytes, phc: Bytes,
                              client: string, msg: Msg)
    requires ChecksWhatItDerives(c) && c.derive(pw, enable) == Phc(phc) && user != "" && c.canonical(user) == Some(user)
    requires Snapshots.TakesEffect(before.users, t.view.users, t.secrets, enable, user, phc)
    requires before.users[user].body.enabled && c.admits(before.users[user].body.rest, client, msg.at)
    ensures var opening := Open(if enable then Enable else Ascii, user, client, t);
            && (Conversation.Answer(c, opening, [msg]) == Some(Done(Pass)) <==> c.check(phc, msg.text) == Good)
            && (msg.text == pw ==> Conversation.Answer(c, opening, [msg]) == Some(Done(Pass)))
  {
    var opening := Open(if enable then Enable else Ascii, user, client, t);
    NewVerifierDecides(c, before, t, enable, user, phc, client, msg);
    assert [msg][..0] == [];
    assert After(c, opening, []) == Some(opening);
  }

  const AsciiStart := StartRequest([], "", Login, AsciiType, LoginService, 1, [], [])

  lemma AsciiStartOpens(snap: Option<Snap>)
    requires snap.Some?
    ensures !Oversize(snap, AsciiStart) && Opens(AsciiStart, snap) && FlowOf(AsciiStart) == Ascii
  {
  }

  /** A new service on which an ASCII login without a user name has been started. */
  method WithOpenSession(creds: Creds, isPhc: Bytes -> bool, manager: Snapshots.Manager, key: Key)
    returns (s: Service, begun: Session)
    requires Sound(manager)
    ensures fresh(s) && s.Valid() && s.ManagerOk() && s.Bound()
    ensures s.limits == (settings => Limits(0, 0, 0, 0))
    ensures key in s.sessions && s.sessions[key] == begun && begun.flow == Ascii && begun.needUser
  {
    s := new Service(creds, isPhc, manager, settings => Limits(0, 0, 0, 0));
    AsciiStartOpens(s.Now());
    var prompt := s.Begin(key, AsciiStart, Fail);
    begun := s.sessions[key];
  }

  /** A START under its key with a user name that is too long: ERROR, and the conversation stands
      where it stood. */
  method OversizeStartKeepsTheSession(creds: Creds, isPhc: Bytes -> bool, manager: Snapshots.Manager, key: Key)
    returns (s: Service, begun: Session, reply: Reply)
    requires Sound(manager)
    ensures fresh(s) && s.Valid() && s.ManagerOk() && s.Bound()
    ensures reply == Error && key in s.sessions && s.sessions[key] == begun && begun.flow == Ascii && begun.needUser
  {
    s, begun := WithOpenSession(creds, isPhc, manager, key);
    reply := s.Begin(key, AsciiStart.(user := seq(254, i => 0x61)), Fail);
  }

  /** What each reaction to a message means for the transcript. */
  ghost predicate Means(c: Creds, opening: Session, msgs: seq<Msg>, s: Session, x: Reaction)
  {
    match x
    case Prompt(p, next) => !Terminal(p) && After(c, opening, msgs) == Some(next)
    case Done(d) => Terminal(d) && (d == Pass ==> PassesPlainly(c, opening, msgs))
    case Publish(enable, phc) => && enable == (opening.flow == Enable) && ChangesTo(c, opening, msgs, phc)
                                 && s.user == UserOf(c, opening, msgs) && s.rev == opening.snap.view.revision
  }

  lemma StepMeans(c: Creds, opening: Session, msgs: seq<Msg>, s: Session, msg: Msg)
    requires IsOpening(opening) && After(c, opening, msgs) == Some(s)
    ensures Means(c, opening, msgs + [msg], s, React(c, s, msg))
  {
    assert (msgs + [msg])[..|msgs|] == msgs;
    PromptsAreNotTerminal(c, s, msg);
    PassIsJustified(c, opening, msgs + [msg]);
    TranscriptShape(c, opening, msgs);
  }
}
