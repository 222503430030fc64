/** A client's TACACS settings live twice: as flat fields and as endpoints. This module models
    synthesis of endpoints from the flat fields (internal/config/endpoints.go), projection back,
    and the flat TACACS fields of a patch, which must keep both in step (internal/state/patch.go). */
module Endpoints {
  import opened Basics

  datatype Transport = Legacy | Tls | UnknownTransport(text: string)

  datatype SecretRef = SecretRef(purpose: string, file: string, environment: string, preserveNewline: bool, memoryId: string)
  {
    predicate Set() { file != "" || environment != "" || memoryId != "" }
  }

  const NoSecret := SecretRef("", "", "", false, "")

  datatype Lifecycle = Lifecycle(rotatedAt: Option<int>, interval: int)

  const NoLifecycle := Lifecycle(None, 0)

  datatype Accounting = Accounting(enabled: bool, start: bool, stop: bool, watchdog: bool)

  /** What flat fields and endpoints share; lists are None for a nil slice. */
  datatype Terms = Terms(methods: Option<seq<string>>, defaultService: nat, groups: Option<seq<string>>, accounting: Accounting)

  /** The zero value of AuthenService is the service "none". */
  const ServiceNone: nat := 0

  const NoTerms := Terms(None, ServiceNone, None, Accounting(false, false, false, false))

  datatype Tacacs = Tacacs(terms: Terms, secret: SecretRef, lifecycle: Lifecycle)

  datatype Protocol = TacacsProtocol | RadiusProtocol | UnknownProtocol(text: string)

  /** `rest` stands for the settings of a RADIUS endpoint that no flat field reaches. */
  datatype Radius = Radius(
    secret: SecretRef, lifecycle: Lifecycle, requireAuthenticator: bool, limitProxyState: bool,
    methods: Option<seq<string>>, policy: string, statuses: Option<seq<string>>, rest: string)

  datatype Endpoint = Endpoint(id: string, protocol: Protocol, transport: string, roles: seq<string>,
                               tacacs: Option<Tacacs>, radius: Option<Radius>)

  datatype Client = Client(transports: seq<Transport>, secret: SecretRef, lifecycle: Lifecycle, terms: Terms,
                           endpoints: seq<Endpoint>)

  // ---------------------------------------------------------------------------
  // Synthesis
  // ---------------------------------------------------------------------------

  const TacacsRoles := ["authentication", "authorization", "accounting"]

  function EndpointFor(c: Client, t: Transport): (r: Option<Endpoint>)
  {
    match t
    case Legacy => Some(Endpoint("tacacs-legacy", TacacsProtocol, "tcp", TacacsRoles, Some(Tacacs(c.terms, c.secret, c.lifecycle)), None))
    case Tls => Some(Endpoint("tacacs-tls", TacacsProtocol, "tls", TacacsRoles, Some(Tacacs(c.terms, NoSecret, NoLifecycle)), None))
    case UnknownTransport(_) => None
  }

  function Synthesized(c: Client, ts: seq<Transport>): (r: seq<Endpoint>)
  {
    if ts == [] then []
    else
      var front, ep := Synthesized(c, ts[..|ts| - 1]), EndpointFor(c, ts[|ts| - 1]);
      if ep.Some? then front + [ep.value] else front
  }

  /** synthesizeTACACSEndpoints. */
  method Synthesize(c: Client) returns (eps: seq<Endpoint>)
    ensures eps == Synthesized(c, c.transports)
  {
    eps := [];
    for i := 0 to |c.transports|
      invariant eps == Synthesized(c, c.transports[..i])
    {
      assert c.transports[..i + 1][..i] == c.transports[..i];
      var ep := EndpointFor(c, c.transports[i]);
      if ep.Some? { eps := eps + [ep.value]; }
    }
    assert c.transports[..|c.transports|] == c.transports;
  }

  // ---------------------------------------------------------------------------
  // Projection
  // ---------------------------------------------------------------------------

  datatype Projection = Projection(transports: seq<Transport>, secret: SecretRef, lifecycle: Lifecycle, terms: Terms, have: bool)

  const NoProjection := Projection([], NoSecret, NoLifecycle, NoTerms, false)

  function TransportOf(ep: Endpoint): (r: Option<Transport>)
  {
    if ep.protocol != TacacsProtocol || ep.tacacs.None? then None
    else if ep.transport == "tcp" then Some(Legacy)
    else if ep.transport == "tls" then Some(Tls)
    else None
  }

  function AddTo(p: Projection, ep: Endpoint): (r: Projection)
  {
    if TransportOf(ep).None? then p
    else
      var t, body := TransportOf(ep).value, ep.tacacs.value;
      Projection(if t in p.transports then p.transports else p.transports + [t],
                 if t == Legacy then body.secret else p.secret,
                 if t == Legacy then body.lifecycle else p.lifecycle,
                 if p.have then p.terms else body.terms, true)
  }

  function Projected(eps: seq<Endpoint>): (r: Projection)
  {
    if eps == [] then NoProjection else AddTo(Projected(eps[..|eps| - 1]), eps[|eps| - 1])
  }

  /** projectTACACS: the last legacy endpoint gives the secret, the first endpoint the terms. */
  method Project(eps: seq<Endpoint>) returns (p: Projection)
    ensures p == Projected(eps)
  {
    p := NoProjection;
    for i := 0 to |eps|
      invariant p == Projected(eps[..i])
    {
      assert eps[..i + 1][..i] == eps[..i];
      var t := TransportOf(eps[i]);
      if t.Some? {
        var body := eps[i].tacacs.value;
        if t.value !in p.transports { p := p.(transports := p.transports + [t.value]); }
        if t.value == Legacy { p := p.(secret := body.secret, lifecycle := body.lifecycle); }
        if !p.have { p := p.(terms := body.terms, have := true); }
      }
    }
    assert eps[..|eps|] == eps;
  }

  predicate SecretsAgree(a: SecretRef, b: SecretRef) { (!a.Set() && !b.Set()) || a == b }

  /** No list and no secret is configured. */
  predicate Bare(c: Client)
  {
    && !c.secret.Set() && c.terms.defaultService == ServiceNone
    && (c.terms.methods.None? || c.terms.methods.value == []) && (c.terms.groups.None? || c.terms.groups.value == [])
  }

  /** projectionMatchesClient. */
  predicate ProjectionMatches(c: Client, p: Projection)
  {
    && c.transports == p.transports
    && if !p.have then Bare(c)
       else SecretsAgree(c.secret, p.secret) && c.lifecycle == p.lifecycle && c.terms == p.terms
  }

  /** TACACSProjectionMatches. */
  predicate Matches(c: Client) { c.endpoints == [] || ProjectionMatches(c, Projected(c.endpoints)) }

  /** The client whose endpoints decide its flat fields; without TACACS endpoints only the
      transports go. */
  function Applied(c: Client): (r: Client)
  {
    var p := Projected(c.endpoints);
    if p.have then Client(p.transports, p.secret, p.lifecycle, p.terms, c.endpoints) else c.(transports := [])
  }

  /** applyTACACSProjection. */
  method ApplyProjection(c: Client) returns (r: Client)
    ensures r == Applied(c)
    ensures Matches(r) <==> c.endpoints == [] || !NoTacacs(c.endpoints) || Bare(c)
  {
    HaveMeansTacacs(c.endpoints);
    var p := Project(c.endpoints);
    r := c.(transports := p.transports);
    if p.have { r := r.(secret := p.secret, lifecycle := p.lifecycle, terms := p.terms); }
  }

  lemma {:induction false} HaveMeansTacacs(eps: seq<Endpoint>)
    ensures Projected(eps).have <==> Projected(eps).transports != []
    ensures Projected(eps).have <==> !NoTacacs(eps)
  {
    if eps != [] {
      HaveMeansTacacs(eps[..|eps| - 1]);
      assert eps == eps[..|eps| - 1] + [eps[|eps| - 1]];
    }
  }

  // ---------------------------------------------------------------------------
  // Synthesis and projection
  // ---------------------------------------------------------------------------

  /** The known transports, each once. */
  function Listed(ts: seq<Transport>): (r: seq<Transport>)
  {
    if ts == [] then []
    else
      var front, t := Listed(ts[..|ts| - 1]), ts[|ts| - 1];
      if t.UnknownTransport? || t in front then front else front + [t]
  }

  predicate AllKnown(ts: seq<Transport>) { forall i :: 0 <= i < |ts| ==> !ts[i].UnknownTransport? }

  lemma {:induction false} ListedMembers(ts: seq<Transport>, t: Transport)
    ensures t in Listed(ts) <==> t in ts && !t.UnknownTransport?
  {
    if ts != [] {
      ListedMembers(ts[..|ts| - 1], t);
      assert ts == ts[..|ts| - 1] + [ts[|ts| - 1]];
    }
  }

  lemma {:induction false} ListedLength(ts: seq<Transport>)
    ensures |Listed(ts)| <= |ts|
  {
    if ts != [] { ListedLength(ts[..|ts| - 1]); }
  }

  /** A transport list comes back whole when it has no repetition and no unknown entry. */
  lemma {:induction false} ListedWhole(ts: seq<Transport>)
    ensures Listed(ts) == ts <==> Distinct(ts) && AllKnown(ts)
  {
    if ts != [] {
      var front, t := ts[..|ts| - 1], ts[|ts| - 1];
      assert ts == front + [t];
      ListedWhole(front);
      ListedLength(front);
      ListedMembers(front, t);
      if Distinct(ts) && AllKnown(ts) {
        assert Distinct(front) && AllKnown(front);
      }
      if Listed(ts) == ts {
        assert |Listed(ts)| == |ts|;
        assert Listed(ts)[..|front|] == Listed(front) == front;
        assert Distinct(ts) && AllKnown(ts);
      }
    }
  }

  /** What projecting the endpoints of `ts` gives. */
  function Expected(c: Client, ts: seq<Transport>): (r: Projection)
  {
    Projection(Listed(ts), if Legacy in ts then c.secret else NoSecret, if Legacy in ts then c.lifecycle else NoLifecycle,
               if Listed(ts) == [] then NoTerms else c.terms, Listed(ts) != [])
  }

  lemma {:induction false} ProjectSynthesized(c: Client, ts: seq<Transport>)
    ensures Projected(Synthesized(c, ts)) == Expected(c, ts)
  {
    if ts != [] {
      var front, t := ts[..|ts| - 1], ts[|ts| - 1];
      assert ts == front + [t];
      ProjectSynthesized(c, front);
      var eps, ep := Synthesized(c, front), EndpointFor(c, t);
      ListedMembers(front, Legacy);
      if ep.Some? {
        assert (eps + [ep.value])[..|eps|] == eps;
        assert TransportOf(ep.value) == Some(t);
      }
    }
  }

  predicate NoTacacs(eps: seq<Endpoint>) { forall i :: 0 <= i < |eps| ==> TransportOf(eps[i]).None? }

  /** Endpoints of other protocols do not show in the projection. */
  lemma {:induction false} OthersDoNotShow(eps: seq<Endpoint>, others: seq<Endpoint>)
    requires NoTacacs(others)
    ensures Projected(eps + others) == Projected(eps)
  {
    if others == [] {
      assert eps + others == eps;
    } else {
      var front := others[..|others| - 1];
      assert (eps + others)[..|eps + others| - 1] == eps + front;
      OthersDoNotShow(eps, front);
    }
  }

  /** The flat fields a client's endpoints can carry. */
  predicate Coherent(c: Client)
  {
    && Distinct(c.transports) && AllKnown(c.transports)
    && if c.transports == [] then Bare(c)
       else Legacy !in c.transports ==> !c.secret.Set() && c.lifecycle == NoLifecycle
  }

  /** Projecting synthesized endpoints gives the flat fields back. */
  lemma RoundTrip(c: Client, others: seq<Endpoint>)
    requires Distinct(c.transports) && AllKnown(c.transports) && c.transports != [] && NoTacacs(others)
    requires Legacy !in c.transports ==> c.secret == NoSecret && c.lifecycle == NoLifecycle
    ensures Projected(Synthesized(c, c.transports) + others) == Projection(c.transports, c.secret, c.lifecycle, c.terms, true)
  {
    OthersDoNotShow(Synthesized(c, c.transports), others);
    ProjectSynthesized(c, c.transports);
    ListedWhole(c.transports);
  }

  function Flattened(p: Projection): (r: Client) { Client(p.transports, p.secret, p.lifecycle, p.terms, []) }

  /** No known transport is listed twice. */
  predicate KnownOnce(ts: seq<Transport>)
  {
    forall i, j :: 0 <= i < j < |ts| && !ts[i].UnknownTransport? ==> ts[i] != ts[j]
  }

  /** Synthesizing from the projection of synthesized endpoints changes nothing, exactly when
      no known transport is listed twice. */
  lemma SynthesizeAgain(c: Client)
    ensures var eps := Synthesized(c, c.transports);
            Synthesized(Flattened(Projected(eps)), Projected(eps).transports) == eps <==> KnownOnce(c.transports)
  {
    var eps := Synthesized(c, c.transports);
    var p := Projected(eps);
    ProjectSynthesized(c, c.transports);
    SynthesizedOnlyListed(c, c.transports);
    forall t ensures t in Listed(c.transports) ==> t in c.transports && !t.UnknownTransport? { ListedMembers(c.transports, t); }
    SameEndpoints(c, Flattened(p), Listed(c.transports));
    ListedTwice(c.transports);
    SynthesizedLength(c, Listed(c.transports));
    ListedCount(c, c.transports);
  }

  /** There are as many endpoints as listed transports when none is repeated. */
  lemma {:induction false} ListedCount(c: Client, ts: seq<Transport>)
    ensures |Listed(ts)| == |Synthesized(c, ts)| <==> KnownOnce(ts)
  {
    if ts != [] {
      var front, t := ts[..|ts| - 1], ts[|ts| - 1];
      assert ts == front + [t];
      ListedCount(c, front);
      SynthesizedOnlyListed(c, front);
      ListedMembers(front, t);
      OnceMore(front, t);
    }
  }

  lemma OnceMore(front: seq<Transport>, t: Transport)
    ensures KnownOnce(front + [t]) <==> KnownOnce(front) && (t.UnknownTransport? || t !in front)
  {
    var ts := front + [t];
    if KnownOnce(ts) {
      assert forall i, j :: 0 <= i < j < |front| ==> ts[i] == front[i] && ts[j] == front[j];
      forall i | 0 <= i < |front| ensures t.UnknownTransport? || front[i] != t {
        assert ts[i] == front[i] && ts[|front|] == t;
      }
    }
  }

  lemma {:induction false} SynthesizedLength(c: Client, ts: seq<Transport>)
    requires AllKnown(ts)
    ensures |Synthesized(c, ts)| == |ts|
  {
    if ts != [] { SynthesizedLength(c, ts[..|ts| - 1]); }
  }

  lemma {:induction false} ListedTwice(ts: seq<Transport>)
    ensures AllKnown(Listed(ts)) && Distinct(Listed(ts))
  {
    if ts != [] { ListedTwice(ts[..|ts| - 1]); }
  }

  /** Without repetitions the endpoints are those of the listed transports. */
  lemma {:induction false} SynthesizedOnlyListed(c: Client, ts: seq<Transport>)
    ensures |Listed(ts)| <= |Synthesized(c, ts)|
    ensures |Listed(ts)| == |Synthesized(c, ts)| ==> Synthesized(c, ts) == Synthesized(c, Listed(ts))
  {
    if ts != [] {
      var front, t := ts[..|ts| - 1], ts[|ts| - 1];
      SynthesizedOnlyListed(c, front);
      assert (Listed(front) + [t])[..|Listed(front)|] == Listed(front);
    }
  }

  /** Endpoints depend only on the fields they carry. */
  lemma {:induction false} SameEndpoints(c: Client, d: Client, ts: seq<Transport>)
    requires ts != [] ==> c.terms == d.terms
    requires Legacy in ts ==> c.secret == d.secret && c.lifecycle == d.lifecycle
    ensures Synthesized(c, ts) == Synthesized(d, ts)
  {
    if ts != [] {
      assert ts == ts[..|ts| - 1] + [ts[|ts| - 1]];
      SameEndpoints(c, d, ts[..|ts| - 1]);
    }
  }

  // ---------------------------------------------------------------------------
  // Rebuilding and patching
  // ---------------------------------------------------------------------------

  function RadiusOnly(eps: seq<Endpoint>): (r: seq<Endpoint>)
  {
    if eps == [] then []
    else if eps[|eps| - 1].protocol == RadiusProtocol then RadiusOnly(eps[..|eps| - 1]) + [eps[|eps| - 1]]
    else RadiusOnly(eps[..|eps| - 1])
  }

  lemma {:induction false} RadiusIsNoTacacs(eps: seq<Endpoint>)
    ensures NoTacacs(RadiusOnly(eps))
  {
    if eps != [] { RadiusIsNoTacacs(eps[..|eps| - 1]); }
  }

  function Rebuilt(c: Client): (r: Client)
  {
    c.(endpoints := Synthesized(c, c.transports) + RadiusOnly(c.endpoints))
  }

  /** Rebuilding leaves the client without any endpoint. */
  predicate EndsBare(c: Client)
  {
    (forall t :: t in c.transports ==> t.UnknownTransport?) && forall ep :: ep in c.endpoints ==> ep.protocol != RadiusProtocol
  }

  lemma {:induction false} SynthesizedEmpty(c: Client, ts: seq<Transport>)
    ensures Synthesized(c, ts) == [] <==> forall t :: t in ts ==> t.UnknownTransport?
  {
    if ts != [] {
      SynthesizedEmpty(c, ts[..|ts| - 1]);
      assert ts == ts[..|ts| - 1] + [ts[|ts| - 1]];
      assert ts[|ts| - 1] in ts;
    }
  }

  lemma EndsBareIff(c: Client)
    ensures Rebuilt(c).endpoints == [] <==> EndsBare(c)
  {
    SynthesizedEmpty(c, c.transports);
    forall ep ensures ep in RadiusOnly(c.endpoints) <==> ep in c.endpoints && ep.protocol == RadiusProtocol {
      RadiusMembers(c.endpoints, ep);
    }
    var radii := RadiusOnly(c.endpoints);
    if radii != [] { assert radii[0] in radii; }
  }

  /** rebuildTACACSEndpointsFromFlatten: RADIUS endpoints stay, TACACS endpoints are made anew. */
  method Rebuild(c: Client) returns (r: Client)
    ensures r == Rebuilt(c)
    ensures Matches(r) <==> EndsBare(c) || Coherent(c)
  {
    var radius := [];
    for i := 0 to |c.endpoints|
      invariant radius == RadiusOnly(c.endpoints[..i])
    {
      assert c.endpoints[..i + 1][..i] == c.endpoints[..i];
      if c.endpoints[i].protocol == RadiusProtocol { radius := radius + [c.endpoints[i]]; }
    }
    assert c.endpoints[..|c.endpoints|] == c.endpoints;
    RebuiltMatches(c);
    var eps := Synthesize(c);
    r := c.(endpoints := eps + radius);
  }

  /** A rebuilt client matches its endpoints exactly when its flat fields are coherent, or it lists
      no known transport and has no RADIUS endpoint. */
  lemma RebuiltMatches(c: Client)
    ensures Matches(Rebuilt(c)) <==> EndsBare(c) || Coherent(c)
  {
    EndsBareIff(c);
    RadiusIsNoTacacs(c.endpoints);
    OthersDoNotShow(Synthesized(c, c.transports), RadiusOnly(c.endpoints));
    ProjectSynthesized(c, c.transports);
    ListedWhole(c.transports);
    var p := Projected(Rebuilt(c).endpoints);
    assert p == Expected(c, c.transports);
    assert c.transports == p.transports <==> Distinct(c.transports) && AllKnown(c.transports);
  }

  datatype SecretPatch = SecretPatch(clear: bool, ref: SecretRef)

  /** The flat TACACS part of an update; None leaves a field alone. */
  datatype Patch = Patch(transports: Option<seq<Transport>>, lifecycle: Option<Lifecycle>,
                         authentication: Option<(seq<string>, nat)>, groups: Option<Option<seq<string>>>,
                         accounting: Option<Accounting>, secret: Option<SecretPatch>)

  /** applySecret; None when the credential may not be cleared. */
  function ApplySecret(cur: SecretRef, patch: Option<SecretPatch>, needed: bool): (r: Option<SecretRef>)
    ensures patch.None? ==> r == Some(cur)
    ensures r.None? <==> needed && patch.Some? && (patch.value.clear || !patch.value.ref.Set())
    ensures patch.Some? && r.Some? ==> (r.value.Set() <==> !patch.value.clear && patch.value.ref.Set())
  {
    if patch.None? then Some(cur)
    else if patch.value.clear || !patch.value.ref.Set() then
      if needed then None else Some(NoSecret.(purpose := cur.purpose))
    else
      var ref := patch.value.ref;
      Some(if ref.purpose == "" then ref.(purpose := cur.purpose) else ref)
  }

  function ListOrNil(s: seq<string>): (r: Option<seq<string>>) { if s == [] then None else Some(s) }

  /** A cloned method list: an empty one comes back as nil. */
  function ClonedMethods(l: Option<seq<string>>): (r: Option<seq<string>>) { if l.None? then None else ListOrNil(l.value) }

  /** cloneClientEndpoint. */
  function Cloned(ep: Endpoint): (r: Endpoint)
  {
    if ep.tacacs.None? then ep
    else
      var t := ep.tacacs.value;
      ep.(tacacs := Some(t.(terms := t.terms.(methods := ClonedMethods(t.terms.methods)))))
  }

  function ClonedAll(eps: seq<Endpoint>): (r: seq<Endpoint>)
    ensures |r| == |eps|
    ensures forall i :: 0 <= i < |eps| ==> r[i] == Cloned(eps[i])
  {
    seq(|eps|, i requires 0 <= i < |eps| => Cloned(eps[i]))
  }

  /** cloneClient. */
  function ClonedClient(c: Client): (r: Client)
  {
    c.(terms := c.terms.(methods := ClonedMethods(c.terms.methods)), endpoints := ClonedAll(c.endpoints))
  }

  function Or<T>(o: Option<T>, d: T): (r: T) { if o.Some? then o.value else d }

  /** A clone of the client with the flat TACACS fields after the patch. */
  function Patched(cur: Client, p: Patch): (r: Option<Client>)
  {
    var c := ClonedClient(cur);
    var ts := Or(p.transports, c.transports);
    var terms := c.terms.(methods := if p.authentication.Some? then ListOrNil(p.authentication.value.0) else c.terms.methods,
                          defaultService := if p.authentication.Some? then p.authentication.value.1 else c.terms.defaultService,
                          groups := Or(p.groups, c.terms.groups), accounting := Or(p.accounting, c.terms.accounting));
    var secret := ApplySecret(c.secret, p.secret, Legacy in ts);
    if secret.None? then None
    else Some(c.(transports := ts, terms := terms, lifecycle := Or(p.lifecycle, c.lifecycle), secret := secret.value))
  }

  /** The part of applyClientPatch that assigns the flat TACACS fields. */
  method PatchFlat(cur: Client, p: Patch) returns (r: Option<Client>)
    ensures r == Patched(cur, p)
  {
    var out := ClonedClient(cur);
    if p.transports.Some? { out := out.(transports := p.transports.value); }
    if p.lifecycle.Some? { out := out.(lifecycle := p.lifecycle.value); }
    if p.authentication.Some? {
      out := out.(terms := out.terms.(methods := ListOrNil(p.authentication.value.0), defaultService := p.authentication.value.1));
    }
    if p.groups.Some? { out := out.(terms := out.terms.(groups := p.groups.value)); }
    if p.accounting.Some? { out := out.(terms := out.terms.(accounting := p.accounting.value)); }
    var secret := ApplySecret(out.secret, p.secret, Legacy in out.transports);
    if secret.None? { return None; }
    return Some(out.(secret := secret.value));
  }

  lemma {:induction false} NoRadius(eps: seq<Endpoint>)
    requires forall i :: 0 <= i < |eps| ==> eps[i].protocol != RadiusProtocol
    ensures RadiusOnly(eps) == []
  {
    if eps != [] { NoRadius(eps[..|eps| - 1]); }
  }

  lemma {:induction false} SynthesizedIsTacacs(c: Client, ts: seq<Transport>)
    ensures forall ep :: ep in Synthesized(c, ts) ==> ep.protocol == TacacsProtocol
  {
    if ts != [] { SynthesizedIsTacacs(c, ts[..|ts| - 1]); }
  }

  lemma {:induction false} RadiusOnlyAppend(a: seq<Endpoint>, b: seq<Endpoint>)
    ensures RadiusOnly(a + b) == RadiusOnly(a) + RadiusOnly(b)
  {
    if b == [] {
      assert a + b == a && RadiusOnly(b) == [];
    } else {
      assert (a + b)[..|a + b| - 1] == a + b[..|b| - 1];
      RadiusOnlyAppend(a, b[..|b| - 1]);
    }
  }

  lemma {:induction false} RadiusOnlyAgain(eps: seq<Endpoint>)
    ensures RadiusOnly(RadiusOnly(eps)) == RadiusOnly(eps)
  {
    if eps != [] {
      RadiusOnlyAgain(eps[..|eps| - 1]);
      var front, last := RadiusOnly(eps[..|eps| - 1]), eps[|eps| - 1];
      assert (front + [last])[..|front|] == front;
    }
  }

  /** Rebuilding keeps the RADIUS endpoints and their order, and doing it twice changes nothing. */
  lemma RadiusStays(c: Client)
    ensures RadiusOnly(Rebuilt(c).endpoints) == RadiusOnly(c.endpoints)
    ensures Rebuilt(Rebuilt(c)) == Rebuilt(c)
  {
    SynthesizedIsTacacs(c, c.transports);
    NoRadius(Synthesized(c, c.transports));
    RadiusOnlyAgain(c.endpoints);
    RadiusOnlyAppend(Synthesized(c, c.transports), RadiusOnly(c.endpoints));
    SameEndpoints(c, Rebuilt(c), c.transports);
  }

  function ClonedProjection(p: Projection): (r: Projection) { p.(terms := p.terms.(methods := ClonedMethods(p.terms.methods))) }

  /** Cloning endpoints changes their projection in no more than an empty method list. */
  lemma {:induction false} ProjectCloned(eps: seq<Endpoint>)
    ensures Projected(ClonedAll(eps)) == ClonedProjection(Projected(eps))
  {
    if eps != [] {
      ProjectCloned(eps[..|eps| - 1]);
      assert ClonedAll(eps)[..|eps| - 1] == ClonedAll(eps[..|eps| - 1]);
    }
  }

  /** A client that matches its endpoints still does when it is cloned. */
  lemma CloneMatches(c: Client)
    requires Matches(c)
    ensures Matches(ClonedClient(c))
  {
    ProjectCloned(c.endpoints);
    if c.endpoints == [] { assert ClonedAll(c.endpoints) == []; }
  }

  /** hasRADIUSEndpoint. */
  predicate HasRadius(c: Client) { exists ep :: ep in c.endpoints && ep.protocol == RadiusProtocol && ep.radius.Some? }

  /** The projection check of the validator, which looks at clients with a RADIUS endpoint only. */
  predicate Validates(c: Client) { HasRadius(c) ==> Matches(c) }

  lemma {:induction false} RadiusMembers(eps: seq<Endpoint>, ep: Endpoint)
    ensures ep in RadiusOnly(eps) <==> ep in eps && ep.protocol == RadiusProtocol
  {
    if eps != [] {
      RadiusMembers(eps[..|eps| - 1], ep);
      assert eps == eps[..|eps| - 1] + [eps[|eps| - 1]];
    }
  }

  lemma RebuiltHasRadius(c: Client)
    ensures HasRadius(Rebuilt(c)) <==> HasRadius(c)
  {
    RadiusStays(c);
    forall ep: Endpoint ensures ep.protocol == RadiusProtocol ==> (ep in c.endpoints <==> ep in Rebuilt(c).endpoints) {
      RadiusMembers(c.endpoints, ep);
      RadiusMembers(Rebuilt(c).endpoints, ep);
    }
  }

  /** A flat patch that is accepted passes the validator exactly when the flat fields it leaves
      are coherent or the client has no RADIUS endpoint. */
  lemma PatchValidates(cur: Client, p: Patch)
    requires Patched(cur, p).Some?
    ensures var out := Patched(cur, p).value;
            Validates(Rebuilt(out)) <==> Coherent(out) || !HasRadius(cur)
  {
    var out := Patched(cur, p).value;
    RebuiltMatches(out);
    RebuiltHasRadius(out);
    ClonedHasRadius(cur.endpoints);
  }

  lemma ClonedHasRadius(eps: seq<Endpoint>)
    ensures (exists ep :: ep in ClonedAll(eps) && ep.protocol == RadiusProtocol && ep.radius.Some?)
       <==> exists ep :: ep in eps && ep.protocol == RadiusProtocol && ep.radius.Some?
  {
    if ep :| ep in eps && ep.protocol == RadiusProtocol && ep.radius.Some? {
      var i :| 0 <= i < |eps| && eps[i] == ep;
      assert ClonedAll(eps)[i] in ClonedAll(eps);
    }
    if ep :| ep in ClonedAll(eps) && ep.protocol == RadiusProtocol && ep.radius.Some? {
      var i :| 0 <= i < |eps| && ClonedAll(eps)[i] == ep;
      assert eps[i] in eps;
    }
  }

  /** Dropping the legacy transport while its secret stays: a coherent client, an accepted patch,
      and a result that does not match its endpoints. The validator refuses it exactly when the
      client has a RADIUS endpoint; else the mismatch stays. */
  lemma DroppingLegacyBreaksTheMatch(c: Client, p: Patch)
    requires c.transports == [Legacy, Tls] && c.secret.Set()
    requires p == Patch(Some([Tls]), None, None, None, None, None)
    ensures Coherent(c) && Patched(c, p).Some? && !Matches(Rebuilt(Patched(c, p).value))
    ensures Validates(Rebuilt(Patched(c, p).value)) <==> !HasRadius(c)
  {
    var out := Patched(c, p).value;
    RebuiltMatches(out);
    PatchValidates(c, p);
    assert out.transports[0] == Tls && Tls in out.transports;
  }
}
