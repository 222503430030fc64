/** How a request reaches the evaluators: internal/aaa/author.go lets the wire attribute list
    win over the typed fields, and internal/policy/evaluate.go fills the remaining gaps. */
module PolicyRequest {
  import opened Basics
  import opened Policy

  /** The value of the first pair called `name`. */
  function FirstAV(args: seq<AVPair>, name: string): (r: Option<string>)
  {
    if args == [] then None
    else if FirstAV(args[..|args| - 1], name).Some? then FirstAV(args[..|args| - 1], name)
    else if args[|args| - 1].name == name then Some(args[|args| - 1].value)
    else None
  }

  /** The values of all pairs called `name`, in order. */
  function AllAV(args: seq<AVPair>, name: string): (r: seq<string>)
  {
    if args == [] then []
    else if args[|args| - 1].name == name then AllAV(args[..|args| - 1], name) + [args[|args| - 1].value]
    else AllAV(args[..|args| - 1], name)
  }

  lemma {:induction false} FirstOfAll(args: seq<AVPair>, name: string)
    ensures FirstAV(args, name) == if AllAV(args, name) == [] then None else Some(AllAV(args, name)[0])
  {
    if args != [] { FirstOfAll(args[..|args| - 1], name); }
  }

  function Or(o: Option<string>, s: string): (r: string) { if o.Some? then o.value else s }

  /** A request whose typed fields the attribute list has overridden. */
  function Wired(req: Request): (r: Request)
  {
    req.(service := Or(FirstAV(req.arguments, "service"), req.service),
         protocol := Or(FirstAV(req.arguments, "protocol"), req.protocol),
         cmd := Or(FirstAV(req.arguments, "cmd"), req.cmd),
         cmdArgs := if AllAV(req.arguments, "cmd-arg") == [] then req.cmdArgs else Some(AllAV(req.arguments, "cmd-arg")))
  }

  /** applyWireAVs: one pass with first-seen flags. */
  method ApplyWireAVs(req: Request) returns (r: Request)
    ensures r == Wired(req)
  {
    if |req.arguments| == 0 { return req; }
    var service, protocol, cmd, cmdArgs := req.service, req.protocol, req.cmd, [];
    var sawService, sawProtocol, sawCmd, sawCmdArg := false, false, false, false;
    for i := 0 to |req.arguments|
      invariant sawService == FirstAV(req.arguments[..i], "service").Some?
      invariant sawProtocol == FirstAV(req.arguments[..i], "protocol").Some?
      invariant sawCmd == FirstAV(req.arguments[..i], "cmd").Some?
      invariant sawCmdArg == (cmdArgs != []) && cmdArgs == AllAV(req.arguments[..i], "cmd-arg")
      invariant service == Or(FirstAV(req.arguments[..i], "service"), req.service)
      invariant protocol == Or(FirstAV(req.arguments[..i], "protocol"), req.protocol)
      invariant cmd == Or(FirstAV(req.arguments[..i], "cmd"), req.cmd)
    {
      var p := req.arguments[i];
      assert req.arguments[..i + 1][..i] == req.arguments[..i];
      if p.name == "service" {
        if !sawService { service, sawService := p.value, true; }
      } else if p.name == "protocol" {
        if !sawProtocol { protocol, sawProtocol := p.value, true; }
      } else if p.name == "cmd" {
        if !sawCmd { cmd, sawCmd := p.value, true; }
      } else if p.name == "cmd-arg" {
        cmdArgs, sawCmdArg := cmdArgs + [p.value], true;
      }
    }
    assert req.arguments[..|req.arguments|] == req.arguments;
    r := req.(service := service, protocol := protocol, cmd := cmd, cmdArgs := if sawCmdArg then Some(cmdArgs) else req.cmdArgs);
  }

  /** normalize: the attribute list fills only what is empty. */
  function Normalize(req: Request): (r: Request)
  {
    var args := AllAV(req.arguments, "cmd-arg");
    req.(service := if req.service == "" then Or(FirstAV(req.arguments, "service"), "") else req.service,
         protocol := if req.protocol == "" then Or(FirstAV(req.arguments, "protocol"), "") else req.protocol,
         cmd := if req.cmd == "" then Or(FirstAV(req.arguments, "cmd"), "") else req.cmd,
         cmdArgs := if Args(req) == [] && args != [] then Some(args)
                    else if req.cmdArgs.None? then Some([]) else req.cmdArgs)
  }

  /** A nil argument slice becomes an empty one. */
  function NilToEmpty(req: Request): (r: Request) { req.(cmdArgs := Some(Args(req))) }

  /** After the wire list has been applied, normalizing changes nothing but nil to empty. */
  lemma NormalizeAfterWire(req: Request)
    ensures Normalize(Wired(req)) == NilToEmpty(Wired(req))
    ensures Wired(Wired(req)) == Wired(req) && Normalize(Normalize(req)) == Normalize(req)
  {
    FirstOfAll(req.arguments, "cmd-arg");
  }

  /** Typed fields decide nothing that the attribute list names: replaying a packet's list
      under other typed fields reaches the same evaluator with the same request. */
  lemma ReplayMatches(live: Request, replay: Request)
    requires live.user == replay.user && live.client == replay.client && live.arguments == replay.arguments
    requires FirstAV(live.arguments, "service").Some? || live.service == replay.service
    requires FirstAV(live.arguments, "protocol").Some? || live.protocol == replay.protocol
    requires FirstAV(live.arguments, "cmd").Some? || live.cmd == replay.cmd
    requires FirstAV(live.arguments, "cmd-arg").Some? || Args(live) == Args(replay)
    ensures Normalize(Wired(live)) == Normalize(Wired(replay))
  {
    FirstOfAll(live.arguments, "cmd-arg");
    NormalizeAfterWire(live);
    NormalizeAfterWire(replay);
  }

  function KindOf(req: Request): (r: Kind) { if req.cmd != "" then CommandKind else ServiceKind }

  /** Authorize: an empty command selects the service evaluator, any other the command evaluator. */
  method Authorize(re: Regex, e: Engine, req: Request) returns (res: Answer, groups: seq<Group>)
    requires EngineOk(e)
    ensures IsVerdict(re, e, Normalize(req), KindOf(Normalize(req)), groups, res)
    ensures res.trace.evaluator == KindOf(Normalize(req))
  {
    var q := Normalize(req);
    res, groups := Evaluate(re, e, q, KindOf(q));
  }

  /** EvaluateService and EvaluateCommand: an evaluator asked the other's question denies unseen. */
  method EvaluateOnly(re: Regex, e: Engine, req: Request, kind: Kind) returns (res: Answer)
    requires EngineOk(e)
    ensures KindOf(Normalize(req)) != kind ==> res.status == Fail && res.trace.steps == [] && res.trace.winner.None?
    ensures KindOf(Normalize(req)) == kind ==> exists groups :: IsVerdict(re, e, Normalize(req), kind, groups, res)
  {
    var q := Normalize(req);
    if KindOf(q) != kind {
      return Denied(kind, [], [], if kind == ServiceKind then "service evaluator does not authorize commands"
                                  else "command evaluator does not decide session requests");
    }
    var groups;
    res, groups := Evaluate(re, e, q, kind);
  }

  /** A request from the wire: toPolicyRequest and Evaluate of the service. */
  method AuthorizeWire(re: Regex, e: Engine, req: Request) returns (res: Answer, groups: seq<Group>)
    requires EngineOk(e)
    ensures IsVerdict(re, e, NilToEmpty(Wired(req)), KindOf(Wired(req)), groups, res)
  {
    var wired := ApplyWireAVs(req);
    NormalizeAfterWire(req);
    res, groups := Authorize(re, e, wired);
  }
}
