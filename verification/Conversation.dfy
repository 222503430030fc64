/** The interactive authentication conversation of internal/aaa/auth.go: ASCII LOGIN,
    ENABLE and CHPASS (section 5.4.2 of RFC 8907) with the forced password change.

    Password verification and verifier derivation are left open. A change ends here in
    a verifier to publish; `AuthService` publishes it. */
module Conversation {
  import opened Basics
  import Model = StateModel

  datatype Flow = Ascii | Enable | Chpass

  datatype Verdict = Good | Bad | Proto

  datatype Derived = Phc(bytes: Bytes) | NotDerived | ProtoDerived

  /** Protocol limits of a document; one that is not positive stands for its default. */
  datatype Limits = Limits(maxRounds: int, maxUser: int, maxPort: int, maxRemote: int)

  /** The snapshot bound at START: its objects, the runtime secrets published with it, and the
      limits of its document. */
  datatype Snap = Snap(view: Model.Snapshot, secrets: map<string, Bytes>, limits: Limits)

  datatype Method = AsciiLogin | Pap | Chap | MsChapV1 | MsChapV2 | EnableMethod | AsciiChpass

  function MethodName(m: Method): (name: string)
  {
    match m
    case AsciiLogin => "ascii"
    case Pap => "pap"
    case Chap => "chap"
    case MsChapV1 => "mschapv1"
    case MsChapV2 => "mschapv2"
    case EnableMethod => "enable"
    case AsciiChpass => "ascii_chpass"
  }

  /** methodAllowed: the client is live, enabled and does not list methods without this one. A
      request that names no client is not held back. */
  predicate MethodAllowed(s: Snap, client: string, m: Method)
  {
    client == "" ||
    (client in s.view.clients &&
     var c := s.view.clients[client].body; c.enabled && (c.methods == [] || MethodName(m) in c.methods))
  }

  /** userMustChangeLogin and userMustChangeEnable. */
  predicate MustChangeIn(s: Snap, enable: bool, user: string)
  {
    user != "" && user in s.view.users &&
    var u := s.view.users[user].body; if enable then u.mustChangeEnable else u.mustChangeLogin
  }

  /** A CONTINUE's text, and when it came. */
  datatype Msg = Msg(text: Bytes, at: int)

  /** Credential services: canonical names, restrictions and validity of a user, secret files, the
      check of a password against a PHC string, and the derived verifier. */
  datatype Creds = Creds(
    canon: Bytes -> string, canonical: string -> Option<string>, admits: (string, string, int) -> bool,
    read: Model.SecretRef -> Option<Bytes>, check: (Bytes, Bytes) -> Verdict, derive: (Bytes, bool) -> Derived)
  {
    /** canonUser. */
    function Canon(name: Bytes): (r: string) { if name == [] then "" else canon(name) }

    /** resolveSecret: runtime material comes from the bound snapshot, anything else from its file. */
    function Material(s: Snap, ref: Model.SecretRef): (r: Option<Bytes>)
    {
      if ref.memory != "" then (if ref.memory in s.secrets then Some(s.secrets[ref.memory]) else None)
      else if Model.IsSet(ref) then read(ref) else None
    }

    /** VerifyASCIIOrPAP and VerifyEnable against the bound snapshot. */
    function Verify(s: Snap, client: string, user: string, msg: Msg, enable: bool): (v: Verdict)
    {
      match canonical(user)
      case None => Bad
      case Some(id) =>
        if id !in s.view.users then Bad
        else
          var u := s.view.users[id].body;
          if !u.enabled || !admits(u.rest, client, msg.at) then Bad
          else
            match Material(s, if enable then u.enable else u.login)
            case None => Bad
            case Some(phc) => if phc == [] then Bad else check(phc, msg.text)
    }
  }

  datatype Session = Session(
    flow: Flow, user: string, client: string, needUser: bool, needOld: bool, needNew: bool, needConfirm: bool,
    newPass: Bytes, fails: nat, snap: Snap, maxRounds: nat, rev: nat)

  datatype Reply = Pass | Fail | Error | Restart | GetUser | GetPass | GetData | GetNewPass | GetConfirm

  predicate Terminal(r: Reply) { r == Pass || r == Fail || r == Error }

  /** What a CONTINUE leads to: another prompt, the end, or a verifier to publish. */
  datatype Reaction = Prompt(reply: Reply, next: Session) | Done(reply: Reply) | Publish(enable: bool, phc: Bytes)

  function MaxRounds(s: Snap): (n: nat)
    ensures n >= 1
  {
    if s.limits.maxRounds <= 0 then 3 else s.limits.maxRounds
  }

  /** beginInteractive. */
  function Open(flow: Flow, user: string, client: string, snap: Snap): (r: Session)
  {
    Session(flow, user, client, user == "", flow == Chpass, flow == Chpass, false, [], 0, snap, MaxRounds(snap), snap.view.revision)
  }

  function FirstPrompt(s: Session): (r: Reply)
  {
    if s.needUser then GetUser else if s.flow == Chpass then GetData else GetPass
  }

  /** retryOrFail. */
  function Retry(s: Session, prompt: Reply): (r: Reaction)
  {
    var t := s.(fails := s.fails + 1);
    var limit := if s.maxRounds <= 0 then MaxRounds(s.snap) else s.maxRounds;
    if t.fails >= limit then Done(Fail) else Prompt(prompt, t)
  }

  predicate MustChange(s: Session) { MustChangeIn(s.snap, s.flow == Enable, s.user) }

  /** A forced login change needs a client that may use ascii_chpass. */
  predicate MayChange(s: Session) { s.flow == Enable || MethodAllowed(s.snap, s.client, AsciiChpass) }

  /** finishPassword. */
  function FinishPassword(c: Creds, s: Session, msg: Msg): (r: Reaction)
  {
    match c.Verify(s.snap, s.client, s.user, msg, s.flow == Enable)
    case Good =>
      if !MustChange(s) then Done(Pass)
      else if !MayChange(s) then Done(Fail)
      else Prompt(GetNewPass, s.(needNew := true, fails := 0))
    case Proto => Done(Error)
    case Bad => Retry(s, GetPass)
  }

  /** continueNewConfirm, and the same steps of continueCHPASS. */
  function NewConfirm(c: Creds, s: Session, msg: Msg): (r: Reaction)
  {
    if s.needNew then
      if msg.text == [] then Done(Fail)
      else Prompt(if s.flow == Chpass then GetPass else GetConfirm, s.(newPass := msg.text, needNew := false, needConfirm := true))
    else if !s.needConfirm then Done(Error)
    else if s.newPass != msg.text then Done(Fail)
    else match c.derive(s.newPass, s.flow == Enable)
         case Phc(b) => Publish(s.flow == Enable, b)
         case NotDerived => Done(Fail)
         case ProtoDerived => Done(Error)
  }

  function OldPassword(c: Creds, s: Session, msg: Msg): (r: Reaction)
  {
    match c.Verify(s.snap, s.client, s.user, msg, false)
    case Good => Prompt(GetPass, s.(needOld := false, fails := 0))
    case Proto => Done(Error)
    case Bad => Retry(s, GetData)
  }

  /** continueASCII, continueEnable and continueCHPASS. */
  function React(c: Creds, s: Session, msg: Msg): (r: Reaction)
  {
    if s.needUser then
      Prompt(if s.flow == Chpass then GetData else GetPass, s.(user := c.Canon(msg.text), needUser := false))
    else if s.flow == Chpass then
      if s.needOld then OldPassword(c, s, msg) else NewConfirm(c, s, msg)
    else if s.needNew || s.needConfirm then NewConfirm(c, s, msg)
    else FinishPassword(c, s, msg)
  }

  // ---------------------------------------------------------------------------
  // Transcripts
  // ---------------------------------------------------------------------------

  /** The session after the messages of an open conversation; nothing once it ended. */
  function After(c: Creds, s0: Session, msgs: seq<Msg>): (r: Option<Session>)
  {
    if msgs == [] then Some(s0)
    else
      match After(c, s0, msgs[..|msgs| - 1])
      case None => None
      case Some(s) =>
        match React(c, s, msgs[|msgs| - 1])
        case Prompt(_, t) => Some(t)
        case _ => None
  }

  predicate IsOpening(s0: Session)
  {
    s0 == Open(s0.flow, s0.user, s0.client, s0.snap)
  }

  /** The user the conversation is about and the messages after the user name. */
  function UserOf(c: Creds, s0: Session, msgs: seq<Msg>): (r: string)
  {
    if s0.user != "" || msgs == [] then s0.user else c.Canon(msgs[0].text)
  }

  function Rest(s0: Session, msgs: seq<Msg>): (r: seq<Msg>)
  {
    if s0.user != "" || msgs == [] then msgs else msgs[1..]
  }

  function VerdictOn(c: Creds, s0: Session, user: string, msg: Msg): (r: Verdict)
  {
    c.Verify(s0.snap, s0.client, user, msg, s0.flow == Enable)
  }

  predicate AllBad(c: Creds, s0: Session, user: string, msgs: seq<Msg>)
  {
    forall i :: 0 <= i < |msgs| ==> VerdictOn(c, s0, user, msgs[i]) == Bad
  }

  /** Fewer than the limit of refused passwords, then one that the START snapshot accepts. */
  predicate Verified(c: Creds, s0: Session, user: string, tries: seq<Msg>)
  {
    && tries != [] && |tries| <= s0.maxRounds
    && AllBad(c, s0, user, tries[..|tries| - 1])
    && VerdictOn(c, s0, user, tries[|tries| - 1]) == Good
  }

  predicate MustChangeAs(s0: Session, user: string) { MustChange(s0.(user := user)) }

  /** The flow asks for a new password after the verified one. */
  predicate Changes(s0: Session, user: string)
  {
    s0.flow == Chpass || (MustChangeAs(s0, user) && MayChange(s0))
  }

  /** Where an open conversation stands, told by its transcript alone. */
  ghost predicate Shape(c: Creds, s0: Session, msgs: seq<Msg>, s: Session)
  {
    var user, rest := UserOf(c, s0, msgs), Rest(s0, msgs);
    && s == s0.(user := user, needUser := s.needUser, needOld := s.needOld, needNew := s.needNew,
                needConfirm := s.needConfirm, newPass := s.newPass, fails := s.fails)
    && s.needUser == (s0.user == "" && msgs == [])
    && if s.needUser then s == s0
       else if (if s.flow == Chpass then s.needOld else !s.needNew && !s.needConfirm) then
         AllBad(c, s0, user, rest) && |rest| == s.fails < s0.maxRounds
         && s.needOld == s.needNew == (s.flow == Chpass) && !s.needConfirm
       else if s.needNew then
         Verified(c, s0, user, rest) && Changes(s0, user) && !s.needOld && !s.needConfirm
       else
         && |rest| >= 2 && Verified(c, s0, user, rest[..|rest| - 1]) && Changes(s0, user)
         && !s.needOld && s.needConfirm && s.newPass == rest[|rest| - 1].text != []
  }

  lemma OneMore(c: Creds, s0: Session, msgs: seq<Msg>, msg: Msg)
    requires Named(s0, msgs)
    ensures UserOf(c, s0, msgs + [msg]) == UserOf(c, s0, msgs)
    ensures Rest(s0, msgs + [msg]) == Rest(s0, msgs) + [msg]
    ensures (Rest(s0, msgs) + [msg])[..|Rest(s0, msgs)|] == Rest(s0, msgs)
  {
  }

  lemma ShapeStep(c: Creds, s0: Session, msgs: seq<Msg>, s: Session, msg: Msg)
    requires IsOpening(s0) && Shape(c, s0, msgs, s) && React(c, s, msg).Prompt?
    ensures Shape(c, s0, msgs + [msg], React(c, s, msg).next)
  {
    if s.needUser {
      assert Rest(s0, msgs + [msg]) == [];
    } else {
      OneMore(c, s0, msgs, msg);
      if s.flow != Chpass && !s.needNew && !s.needConfirm {
        AfterPassword(c, s0, msgs, s, msg);
      } else if s.flow == Chpass && s.needOld {
        AfterOldPassword(c, s0, msgs, s, msg);
      } else {
        AfterNewPassword(c, s0, msgs, s, msg);
      }
    }
  }

  lemma AfterPassword(c: Creds, s0: Session, msgs: seq<Msg>, s: Session, msg: Msg)
    requires IsOpening(s0) && Shape(c, s0, msgs, s) && !s.needUser && s.flow != Chpass && !s.needNew && !s.needConfirm
    requires FinishPassword(c, s, msg).Prompt?
    ensures Shape(c, s0, msgs + [msg], FinishPassword(c, s, msg).next)
  {
    OneMore(c, s0, msgs, msg);
  }

  lemma AfterOldPassword(c: Creds, s0: Session, msgs: seq<Msg>, s: Session, msg: Msg)
    requires IsOpening(s0) && Shape(c, s0, msgs, s) && !s.needUser && s.flow == Chpass && s.needOld
    requires OldPassword(c, s, msg).Prompt?
    ensures Shape(c, s0, msgs + [msg], OldPassword(c, s, msg).next)
  {
    OneMore(c, s0, msgs, msg);
  }

  lemma AfterNewPassword(c: Creds, s0: Session, msgs: seq<Msg>, s: Session, msg: Msg)
    requires IsOpening(s0) && Shape(c, s0, msgs, s) && !s.needUser && !s.needOld && (s.needNew || s.needConfirm)
    requires NewConfirm(c, s, msg).Prompt?
    ensures Shape(c, s0, msgs + [msg], NewConfirm(c, s, msg).next)
  {
    OneMore(c, s0, msgs, msg);
  }

  lemma {:induction false} TranscriptShape(c: Creds, s0: Session, msgs: seq<Msg>)
    requires IsOpening(s0) && After(c, s0, msgs).Some?
    ensures Shape(c, s0, msgs, After(c, s0, msgs).value)
  {
    if msgs != [] {
      var k := |msgs| - 1;
      assert msgs == msgs[..k] + [msgs[k]];
      TranscriptShape(c, s0, msgs[..k]);
      var s := After(c, s0, msgs[..k]).value;
      assert After(c, s0, msgs) == Some(React(c, s, msgs[k]).next);
      ShapeStep(c, s0, msgs[..k], s, msgs[k]);
    }
  }

  /** Every conversation ends within maxRounds + 3 CONTINUEs. */
  lemma EndsInTime(c: Creds, s0: Session, msgs: seq<Msg>)
    requires IsOpening(s0) && |msgs| >= s0.maxRounds + 3
    ensures After(c, s0, msgs).None?
  {
    if After(c, s0, msgs).Some? {
      TranscriptShape(c, s0, msgs);
    }
  }

  // ---------------------------------------------------------------------------
  // Which transcripts pass
  // ---------------------------------------------------------------------------

  /** How the last message of a transcript is answered. */
  function Answer(c: Creds, s0: Session, msgs: seq<Msg>): (r: Option<Reaction>)
    requires msgs != []
  {
    match After(c, s0, msgs[..|msgs| - 1])
    case None => None
    case Some(s) => Some(React(c, s, msgs[|msgs| - 1]))
  }

  predicate Named(s0: Session, msgs: seq<Msg>) { s0.user != "" || msgs != [] }

  /** A login or enable that passes outright: the last message is the verified password. */
  predicate PassesPlainly(c: Creds, s0: Session, msgs: seq<Msg>)
  {
    var user, rest := UserOf(c, s0, msgs), Rest(s0, msgs);
    Named(s0, msgs) && Verified(c, s0, user, rest) && s0.flow != Chpass && !MustChangeAs(s0, user)
  }

  /** A change that reaches publication: a verified password, then a nonempty new
      password and its exact repetition. */
  predicate ChangesTo(c: Creds, s0: Session, msgs: seq<Msg>, phc: Bytes)
  {
    var user, rest := UserOf(c, s0, msgs), Rest(s0, msgs);
    var n := |rest|;
    && Named(s0, msgs) && n >= 3 && Verified(c, s0, user, rest[..n - 2]) && Changes(s0, user)
    && rest[n - 1].text == rest[n - 2].text != [] && c.derive(rest[n - 1].text, s0.flow == Enable) == Phc(phc)
  }

  lemma DropLast(c: Creds, s0: Session, msgs: seq<Msg>)
    requires |Rest(s0, msgs)| > 0
    ensures var init := msgs[..|msgs| - 1];
            && UserOf(c, s0, init) == UserOf(c, s0, msgs) && Named(s0, init)
            && Rest(s0, init) == Rest(s0, msgs)[..|Rest(s0, msgs)| - 1]
            && Rest(s0, msgs)[|Rest(s0, msgs)| - 1] == msgs[|msgs| - 1]
  {
  }

  /** A conversation that passes at once has just had its password verified. */
  lemma PlainStep(c: Creds, s0: Session, msgs: seq<Msg>, s: Session, msg: Msg)
    requires IsOpening(s0) && Shape(c, s0, msgs, s) && React(c, s, msg) == Done(Pass)
    ensures PassesPlainly(c, s0, msgs + [msg])
  {
    OneMore(c, s0, msgs, msg);
  }

  /** A conversation that publishes has just had its new password confirmed. */
  lemma PublishStep(c: Creds, s0: Session, msgs: seq<Msg>, s: Session, msg: Msg)
    requires IsOpening(s0) && Shape(c, s0, msgs, s) && React(c, s, msg).Publish?
    ensures React(c, s, msg).enable == (s0.flow == Enable) && ChangesTo(c, s0, msgs + [msg], React(c, s, msg).phc)
  {
    OneMore(c, s0, msgs, msg);
    var rest := Rest(s0, msgs);
    assert (rest + [msg])[..|rest| - 1] == rest[..|rest| - 1];
  }

  /** Only such transcripts pass. */
  lemma PassIsJustified(c: Creds, s0: Session, msgs: seq<Msg>)
    requires IsOpening(s0) && msgs != [] && Answer(c, s0, msgs).Some?
    ensures Answer(c, s0, msgs).value == Done(Pass) ==> PassesPlainly(c, s0, msgs)
    ensures var x := Answer(c, s0, msgs).value; x.Publish? ==> x.enable == (s0.flow == Enable) && ChangesTo(c, s0, msgs, x.phc)
  {
    var k := |msgs| - 1;
    TranscriptShape(c, s0, msgs[..k]);
    assert msgs == msgs[..k] + [msgs[k]];
    var s := After(c, s0, msgs[..k]).value;
    if React(c, s, msgs[k]) == Done(Pass) {
      PlainStep(c, s0, msgs[..k], s, msgs[k]);
    } else if React(c, s, msgs[k]).Publish? {
      PublishStep(c, s0, msgs[..k], s, msgs[k]);
    }
  }

  /** Waiting for the first password that is accepted. */
  predicate Asking(s0: Session, s: Session)
  {
    !s.needUser && !s.needConfirm && s.needOld == s.needNew == (s0.flow == Chpass)
  }

  /** A refused password below the limit keeps the conversation asking. */
  lemma BadStep(c: Creds, s0: Session, msgs: seq<Msg>, s: Session, msg: Msg)
    requires IsOpening(s0) && Named(s0, msgs) && Shape(c, s0, msgs, s) && Asking(s0, s)
    requires VerdictOn(c, s0, UserOf(c, s0, msgs), msg) == Bad && |Rest(s0, msgs)| + 1 < s0.maxRounds
    ensures React(c, s, msg).Prompt? && Asking(s0, React(c, s, msg).next)
  {
  }

  lemma {:induction false} OpenWhileBad(c: Creds, s0: Session, msgs: seq<Msg>)
    requires IsOpening(s0) && Named(s0, msgs)
    requires AllBad(c, s0, UserOf(c, s0, msgs), Rest(s0, msgs)) && |Rest(s0, msgs)| < s0.maxRounds
    ensures After(c, s0, msgs).Some? && Asking(s0, After(c, s0, msgs).value)
  {
    var k := |msgs| - 1;
    if |Rest(s0, msgs)| > 0 {
      DropLast(c, s0, msgs);
      OpenWhileBad(c, s0, msgs[..k]);
      TranscriptShape(c, s0, msgs[..k]);
      BadStep(c, s0, msgs[..k], After(c, s0, msgs[..k]).value, msgs[k]);
    } else if msgs != [] {
      assert msgs[..k] == [];
    }
  }

  lemma OpenAfterVerified(c: Creds, s0: Session, msgs: seq<Msg>)
    requires IsOpening(s0) && Named(s0, msgs) && Verified(c, s0, UserOf(c, s0, msgs), Rest(s0, msgs))
    ensures Changes(s0, UserOf(c, s0, msgs)) ==>
              After(c, s0, msgs).Some? && var s := After(c, s0, msgs).value; !s.needUser && !s.needOld && s.needNew
    ensures PassesPlainly(c, s0, msgs) ==> Answer(c, s0, msgs) == Some(Done(Pass))
  {
    DropLast(c, s0, msgs);
    var k := |msgs| - 1;
    OpenWhileBad(c, s0, msgs[..k]);
    TranscriptShape(c, s0, msgs[..k]);
  }

  lemma OpenAfterNew(c: Creds, s0: Session, msgs: seq<Msg>)
    requires IsOpening(s0) && Named(s0, msgs)
    requires var rest := Rest(s0, msgs);
             && |rest| >= 2 && rest[|rest| - 1].text != []
             && Verified(c, s0, UserOf(c, s0, msgs), rest[..|rest| - 1]) && Changes(s0, UserOf(c, s0, msgs))
    ensures After(c, s0, msgs).Some?
    ensures var s := After(c, s0, msgs).value;
            !s.needUser && !s.needOld && !s.needNew && s.needConfirm && s.newPass == msgs[|msgs| - 1].text && s.flow == s0.flow
  {
    DropLast(c, s0, msgs);
    OpenAfterVerified(c, s0, msgs[..|msgs| - 1]);
    TranscriptShape(c, s0, msgs[..|msgs| - 1]);
  }

  /** And all of them do: a transcript is answered with PASS, or reaches publication,
      exactly when it has that form. */
  lemma PassIffJustified(c: Creds, s0: Session, msgs: seq<Msg>, phc: Bytes)
    requires IsOpening(s0) && msgs != []
    ensures Answer(c, s0, msgs) == Some(Done(Pass)) <==> PassesPlainly(c, s0, msgs)
    ensures Answer(c, s0, msgs) == Some(Publish(s0.flow == Enable, phc)) <==> ChangesTo(c, s0, msgs, phc)
  {
    if Answer(c, s0, msgs).Some? {
      PassIsJustified(c, s0, msgs);
    }
    if PassesPlainly(c, s0, msgs) {
      OpenAfterVerified(c, s0, msgs);
    }
    if ChangesTo(c, s0, msgs, phc) {
      ChangePublishes(c, s0, msgs, phc);
    }
  }

  /** A transcript of that form reaches publication. */
  lemma ChangePublishes(c: Creds, s0: Session, msgs: seq<Msg>, phc: Bytes)
    requires IsOpening(s0) && msgs != [] && ChangesTo(c, s0, msgs, phc)
    ensures Answer(c, s0, msgs) == Some(Publish(s0.flow == Enable, phc))
  {
    DropLast(c, s0, msgs);
    var rest := Rest(s0, msgs);
    assert rest[..|rest| - 1][..|rest| - 2] == rest[..|rest| - 2];
    OpenAfterNew(c, s0, msgs[..|msgs| - 1]);
  }

  /** The bound is tight: a user name, all but one of the allowed failures, the
      right password and a new one leave the conversation open after
      maxRounds + 2 CONTINUEs. */
  lemma BoundIsTight(c: Creds, s0: Session, msgs: seq<Msg>)
    requires IsOpening(s0) && s0.user == "" && |msgs| == s0.maxRounds + 2 && msgs[|msgs| - 1].text != []
    requires Verified(c, s0, c.Canon(msgs[0].text), msgs[1..|msgs| - 1]) && Changes(s0, c.Canon(msgs[0].text))
    ensures After(c, s0, msgs).Some?
  {
    assert msgs[1..][..|msgs| - 2] == msgs[1..|msgs| - 1];
    OpenAfterNew(c, s0, msgs);
  }
}
