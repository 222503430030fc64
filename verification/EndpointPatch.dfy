/** A whole client update (applyClientPatch of internal/state/patch.go). Without an endpoint list
    the flat fields decide: the TACACS endpoints are made anew and the flat RADIUS view is applied.
    With one, omitted secrets are retained, flat fields that disagree are refused, and the flat
    fields are projected anew. */
module EndpointPatch {
  import opened Basics
  import opened Endpoints
  import opened RadiusPatch

  // ---------------------------------------------------------------------------
  // Retaining omitted secrets
  // ---------------------------------------------------------------------------

  /** The last endpoint with this ID. */
  function ById(eps: seq<Endpoint>, id: string): (r: Option<Endpoint>)
  {
    if eps == [] then None
    else if eps[|eps| - 1].id == id then Some(eps[|eps| - 1])
    else ById(eps[..|eps| - 1], id)
  }

  predicate IsLegacy(ep: Endpoint) { ep.protocol == TacacsProtocol && ep.transport == "tcp" && ep.tacacs.Some? }

  predicate IsRadius(ep: Endpoint) { ep.protocol == RadiusProtocol && ep.radius.Some? }

  /** The secret of the last RADIUS endpoint. */
  function LastRadius(eps: seq<Endpoint>): (r: Option<SecretRef>)
  {
    if eps == [] then None
    else if IsRadius(eps[|eps| - 1]) then Some(eps[|eps| - 1].radius.value.secret)
    else LastRadius(eps[..|eps| - 1])
  }

  /** The secret of the last legacy endpoint. */
  function LastLegacy(eps: seq<Endpoint>): (r: Option<SecretRef>)
  {
    if eps == [] then None
    else if IsLegacy(eps[|eps| - 1]) then Some(eps[|eps| - 1].tacacs.value.secret)
    else LastLegacy(eps[..|eps| - 1])
  }

  function FillRadius(ep: Endpoint, secret: Option<SecretRef>): (r: Endpoint)
  {
    if ep.radius.Some? && !ep.radius.value.secret.Set() && secret.Some?
    then ep.(radius := Some(ep.radius.value.(secret := secret.value))) else ep
  }

  function FillTacacs(ep: Endpoint, secret: Option<SecretRef>): (r: Endpoint)
  {
    if ep.tacacs.Some? && !ep.tacacs.value.secret.Set() && secret.Some?
    then ep.(tacacs := Some(ep.tacacs.value.(secret := secret.value))) else ep
  }

  function RadiusSecret(ep: Endpoint): (r: Option<SecretRef>) { if ep.radius.Some? then Some(ep.radius.value.secret) else None }

  function TacacsSecret(ep: Endpoint): (r: Option<SecretRef>) { if ep.tacacs.Some? then Some(ep.tacacs.value.secret) else None }

  /** One endpoint of the new list: a clone with the old secret of its ID, or of its kind when the ID is new. */
  function RetainOne(prev: seq<Endpoint>, ep: Endpoint): (r: Endpoint)
  {
    match ById(prev, ep.id)
    case Some(was) => FillTacacs(FillRadius(ep, RadiusSecret(was)), TacacsSecret(was))
    case None =>
      if IsRadius(ep) then FillRadius(ep, LastRadius(prev))
      else if IsLegacy(ep) then FillTacacs(ep, LastLegacy(prev))
      else ep
  }

  function Retained(prev: seq<Endpoint>, next: seq<Endpoint>): (r: seq<Endpoint>)
    ensures |r| == |next|
  {
    seq(|next|, i requires 0 <= i < |next| => RetainOne(prev, Cloned(next[i])))
  }

  /** cloneEndpointSlice and retainOmittedEndpointSecrets: one pass over the old list, one over the
      clones of the new. */
  method Retain(prev: seq<Endpoint>, next: seq<Endpoint>) returns (r: seq<Endpoint>)
    ensures r == Retained(prev, next)
  {
    var byId: map<string, Endpoint> := map[];
    var radius, legacy: Option<SecretRef> := None, None;
    for i := 0 to |prev|
      invariant forall id :: (id in byId <==> ById(prev[..i], id).Some?) && (id in byId ==> ById(prev[..i], id) == Some(byId[id]))
      invariant radius == LastRadius(prev[..i]) && legacy == LastLegacy(prev[..i])
    {
      assert prev[..i + 1][..i] == prev[..i];
      var ep := prev[i];
      byId := byId[ep.id := ep];
      if IsRadius(ep) { radius := Some(ep.radius.value.secret); }
      if IsLegacy(ep) { legacy := Some(ep.tacacs.value.secret); }
    }
    assert prev[..|prev|] == prev;
    r := [];
    for i := 0 to |next|
      invariant |r| == i && forall j :: 0 <= j < i ==> r[j] == RetainOne(prev, Cloned(next[j]))
    {
      var ep := Cloned(next[i]);
      if ep.id in byId {
        var was := byId[ep.id];
        ep := FillTacacs(FillRadius(ep, RadiusSecret(was)), TacacsSecret(was));
      } else if IsRadius(ep) {
        ep := FillRadius(ep, radius);
      } else if IsLegacy(ep) {
        ep := FillTacacs(ep, legacy);
      }
      r := r + [ep];
    }
  }

  /** An endpoint as administrators see it, without its secrets. */
  function Redacted(ep: Endpoint): (r: Endpoint)
  {
    ep.(tacacs := if ep.tacacs.Some? then Some(ep.tacacs.value.(secret := NoSecret)) else None,
        radius := if ep.radius.Some? then Some(ep.radius.value.(secret := NoSecret)) else None)
  }

  function RedactedAll(eps: seq<Endpoint>): (r: seq<Endpoint>)
    ensures |r| == |eps|
  {
    seq(|eps|, i requires 0 <= i < |eps| => Redacted(eps[i]))
  }

  function EndpointId(ep: Endpoint): (id: string) { ep.id }

  lemma {:induction false} ByIdAt(eps: seq<Endpoint>, i: nat)
    requires DistinctIds(eps, EndpointId) && i < |eps|
    ensures ById(eps, eps[i].id) == Some(eps[i])
  {
    if i < |eps| - 1 { ByIdAt(eps[..|eps| - 1], i); }
  }

  /** Sending the redacted list back restores every secret: the endpoints are the old ones. */
  lemma RedactedListComesBack(eps: seq<Endpoint>)
    requires DistinctIds(eps, EndpointId)
    ensures Retained(eps, RedactedAll(eps)) == ClonedAll(eps)
  {
    forall i | 0 <= i < |eps| ensures RetainOne(eps, Cloned(Redacted(eps[i]))) == Cloned(eps[i]) {
      ByIdAt(eps, i);
      RestoresOne(eps[i]);
    }
  }

  lemma RestoresOne(ep: Endpoint)
    ensures FillTacacs(FillRadius(Cloned(Redacted(ep)), RadiusSecret(ep)), TacacsSecret(ep)) == Cloned(ep)
  {
  }

  /** A secret that is sent replaces the old one: only omitted secrets are retained, and nothing
      but secrets is. */
  lemma OnlyOmittedSecretsAreRetained(prev: seq<Endpoint>, ep: Endpoint)
    ensures Redacted(RetainOne(prev, ep)) == Redacted(ep)
    ensures ep.tacacs.Some? && ep.tacacs.value.secret.Set() ==> RetainOne(prev, ep).tacacs == ep.tacacs
    ensures ep.radius.Some? && ep.radius.value.secret.Set() ==> RetainOne(prev, ep).radius == ep.radius
  {
  }

  /** tacacsFlattenSpecified. */
  predicate FlatSpecified(p: Patch)
  {
    p.transports.Some? || p.secret.Some? || p.lifecycle.Some? || p.authentication.Some? || p.groups.Some? || p.accounting.Some?
  }

  /** A client update. */
  datatype Update = Update(flat: Patch, endpoints: Option<seq<Endpoint>>, radius: Option<RadiusFlat>, radiusSecret: Option<SecretPatch>)

  // ---------------------------------------------------------------------------
  // Updates without an endpoint list
  // ---------------------------------------------------------------------------

  /** What becomes of the client: the TACACS endpoints follow from its flat fields, the RADIUS
      endpoints from what they were and the update; neither half reads the other. */
  function FlatOutcome(norm: Norm, cur: Client, u: Update): (r: Result<Client, PatchError>)
  {
    match Patched(cur, u.flat)
    case None => Err(SecretNeeded)
    case Some(out) =>
      match RadiusHalf(norm, RadiusOnly(out.endpoints), u.radius, SecretSent(u.radius, u.radiusSecret))
      case Err(e) => Err(e)
      case Ok(radii) => Ok(out.(endpoints := Synthesized(out, out.transports) + radii))
  }

  lemma SynthesizedNoUdp(c: Client)
    ensures forall i :: 0 <= i < |Synthesized(c, c.transports)| ==> !IsUdp(Synthesized(c, c.transports)[i])
  {
    SynthesizedIsTacacs(c, c.transports);
    assert forall i :: 0 <= i < |Synthesized(c, c.transports)| ==> Synthesized(c, c.transports)[i] in Synthesized(c, c.transports);
  }

  lemma MadeAddNothing(made: seq<Endpoint>, eps: seq<Endpoint>)
    requires forall ep :: ep in made ==> ep.protocol == TacacsProtocol
    ensures RadiusOnly(made + eps) == RadiusOnly(eps)
  {
    NoRadius(made);
    RadiusOnlyAppend(made, eps);
  }

  /** The flat RADIUS view, applied to the client's whole endpoint list. */
  method FlattenRadius(norm: Norm, c: Client, flat: Option<RadiusFlat>) returns (r: Result<Client, PatchError>)
    ensures match (if flat.Some? then FlatOn(norm, RadiusOnly(c.endpoints), flat.value) else Ok(RadiusOnly(c.endpoints)))
            case Err(e) => r == Err(e)
            case Ok(s) => r.Ok? && r.value == c.(endpoints := r.value.endpoints) && RadiusOnly(r.value.endpoints) == s
  {
    if flat.None? { return Ok(c); }
    var made := Synthesize(c);
    SynthesizedIsTacacs(c, c.transports);
    FlatOnRadius(norm, c.endpoints, flat.value);
    var f := Flatten(norm, c.endpoints, made, flat.value);
    if f.Err? { return Err(f.error); }
    if c.endpoints == [] && !Disables(flat.value) {
      MadeAddNothing(made, FlatOn(norm, [], flat.value).value);
    }
    return Ok(c.(endpoints := f.value));
  }

  /** The update's steps on the whole endpoint list give that outcome. */
  method ApplyFlat(norm: Norm, cur: Client, u: Update) returns (r: Result<Client, PatchError>)
    ensures r == FlatOutcome(norm, cur, u)
  {
    var patched := PatchFlat(cur, u.flat);
    if patched.None? { return Err(SecretNeeded); }
    var out := patched.value;
    var flattened := FlattenRadius(norm, out, u.radius);
    if flattened.Err? { return flattened; }
    var rebuilt := Rebuild(flattened.value);
    SynthesizedNoUdp(out);
    SameEndpoints(out, flattened.value, out.transports);
    SecretBehind(Synthesized(out, out.transports), RadiusOnly(flattened.value.endpoints), SecretSent(u.radius, u.radiusSecret));
    var eps := PatchSecret(rebuilt.endpoints, SecretSent(u.radius, u.radiusSecret));
    if eps.Err? { return Err(eps.error); }
    return Ok(rebuilt.(endpoints := eps.value));
  }

  lemma RadiusOnlyIsRadius(eps: seq<Endpoint>)
    ensures AllRadius(RadiusOnly(eps))
  {
    forall ep | ep in RadiusOnly(eps) ensures ep.protocol == RadiusProtocol { RadiusMembers(eps, ep); }
  }

  lemma AllRadiusIsNoTacacs(eps: seq<Endpoint>)
    requires AllRadius(eps)
    ensures NoTacacs(eps)
  {
    assert forall i :: 0 <= i < |eps| ==> eps[i] in eps;
  }

  /** The update leaves the client without any endpoint. */
  predicate LeavesNone(out: Client, flat: Option<RadiusFlat>)
  {
    (forall t :: t in out.transports ==> t.UnknownTransport?) && EndsWithout(RadiusOnly(out.endpoints), flat)
  }

  /** Whatever the RADIUS half does, an accepted flat update yields a client that matches its
      endpoints exactly when the flat TACACS fields it leaves are coherent, or no endpoint is left. */
  lemma FlatMatches(norm: Norm, cur: Client, u: Update)
    requires FlatOutcome(norm, cur, u).Ok?
    ensures var out := Patched(cur, u.flat).value;
            Matches(FlatOutcome(norm, cur, u).value) <==> LeavesNone(out, u.radius) || Coherent(out)
  {
    var out, secret := Patched(cur, u.flat).value, SecretSent(u.radius, u.radiusSecret);
    var radii := RadiusOnly(out.endpoints);
    var half := RadiusHalf(norm, radii, u.radius, secret).value;
    RadiusOnlyIsRadius(out.endpoints);
    HalfStaysRadius(norm, radii, u.radius, secret);
    EndsWithoutIff(norm, radii, u.radius, secret);
    SynthesizedEmpty(out, out.transports);
    AllRadiusIsNoTacacs(half);
    MatchesWith(out, half);
  }

  /** A client with synthesized endpoints and others behind them. */
  lemma MatchesWith(c: Client, others: seq<Endpoint>)
    requires NoTacacs(others)
    ensures var r := c.(endpoints := Synthesized(c, c.transports) + others); Matches(r) <==> r.endpoints == [] || Coherent(c)
  {
    OthersDoNotShow(Synthesized(c, c.transports), others);
    ProjectSynthesized(c, c.transports);
    ListedWhole(c.transports);
    var p := Projected(Synthesized(c, c.transports) + others);
    assert p == Expected(c, c.transports);
    assert c.transports == p.transports <==> Distinct(c.transports) && AllKnown(c.transports);
  }

  /** And the result agrees with the flat RADIUS view that was sent exactly when that reads back. */
  lemma FlatAgreesIff(norm: Norm, cur: Client, u: Update)
    requires FlatOutcome(norm, cur, u).Ok? && u.radius.Some?
    ensures !Disagrees(FlatOutcome(norm, cur, u).value.endpoints, u.radius.value)
       <==> ReadsBack(norm, RadiusOnly(ClonedAll(cur.endpoints)), u.radius.value, u.radiusSecret)
  {
    var out := Patched(cur, u.flat).value;
    var radii := RadiusOnly(out.endpoints);
    var half := RadiusHalf(norm, radii, u.radius, SecretSent(u.radius, u.radiusSecret)).value;
    AgreesIffReadsBack(norm, radii, u.radius.value, u.radiusSecret);
    SynthesizedNoUdp(out);
    FirstUdpBehind(Synthesized(out, out.transports), half);
  }

  // ---------------------------------------------------------------------------
  // Updates with an endpoint list
  // ---------------------------------------------------------------------------

  /** The client with the update's flat fields and endpoints, before projection. */
  function Merged(cur: Client, p: Patch, next: seq<Endpoint>): (r: Option<Client>)
  {
    if Patched(cur, p).None? then None
    else Some(Patched(cur, p).value.(endpoints := Retained(cur.endpoints, next)))
  }

  /** The update is accepted: no needed secret is cleared, and what it says in flat fields is what its
      endpoints say. */
  predicate Admissible(cur: Client, u: Update, next: seq<Endpoint>)
  {
    && Merged(cur, u.flat, next).Some?
    && var c := Merged(cur, u.flat, next).value;
       && (FlatSpecified(u.flat) ==> Matches(c))
       && (u.radius.Some? ==> !Disagrees(c.endpoints, u.radius.value))
       && SecretOn(c.endpoints, SecretSent(u.radius, u.radiusSecret)).Ok?
  }

  lemma {:induction false} ProjectReplaced(eps: seq<Endpoint>, k: nat, ep: Endpoint)
    requires k < |eps| && TransportOf(eps[k]).None? && TransportOf(ep).None?
    ensures Projected(eps[k := ep]) == Projected(eps)
  {
    if k < |eps| - 1 {
      ProjectReplaced(eps[..|eps| - 1], k, ep);
      assert eps[k := ep][..|eps| - 1] == eps[..|eps| - 1][k := ep];
    } else {
      assert eps[k := ep][..|eps| - 1] == eps[..|eps| - 1];
    }
  }

  /** The RADIUS secret does not show in the flat TACACS fields. */
  lemma SecretKeepsMatch(c: Client, secret: Option<SecretPatch>)
    requires SecretOn(c.endpoints, secret).Ok?
    ensures Matches(c.(endpoints := SecretOn(c.endpoints, secret).value)) <==> Matches(c)
  {
    var k := FirstUdp(c.endpoints);
    if secret.Some? && k < |c.endpoints| {
      ProjectReplaced(c.endpoints, k, WithSecret(c.endpoints[k], secret.value.ref));
    }
  }

  /** The update's steps when it brings endpoints: the error names the first thing that is wrong,
      else the endpoints decide the flat fields and the RADIUS secret is set. */
  method ApplyEndpoints(cur: Client, u: Update, next: seq<Endpoint>) returns (r: Result<Client, PatchError>)
    ensures r.Ok? <==> Admissible(cur, u, next)
    ensures r.Ok? ==> var c := Merged(cur, u.flat, next).value;
                      r.value == Applied(c).(endpoints := SecretOn(c.endpoints, SecretSent(u.radius, u.radiusSecret)).value)
    ensures r.Ok? ==> var c := Merged(cur, u.flat, next).value;
                      && (Matches(r.value) <==> c.endpoints == [] || !NoTacacs(c.endpoints) || Bare(c))
                      && (FlatSpecified(u.flat) && c.endpoints != [] ==> SameSettings(r.value.(endpoints := c.endpoints), c))
    ensures r == Err(SecretNeeded) <==> Merged(cur, u.flat, next).None?
    ensures r == Err(TacacsDisagrees) <==> var c := Merged(cur, u.flat, next); c.Some? && FlatSpecified(u.flat) && !Matches(c.value)
    ensures r == Err(RadiusDisagrees) <==> var c := Merged(cur, u.flat, next);
                                           && c.Some? && (FlatSpecified(u.flat) ==> Matches(c.value))
                                           && u.radius.Some? && Disagrees(c.value.endpoints, u.radius.value)
  {
    var patched := PatchFlat(cur, u.flat);
    if patched.None? { return Err(SecretNeeded); }
    var replaced := Retain(cur.endpoints, next);
    var out := patched.value.(endpoints := replaced);
    if FlatSpecified(u.flat) && !Matches(out) { return Err(TacacsDisagrees); }
    if u.radius.Some? && Disagrees(out.endpoints, u.radius.value) { return Err(RadiusDisagrees); }
    HaveMeansTacacs(replaced);
    var projected := ApplyProjection(out);
    var eps := PatchSecret(projected.endpoints, SecretSent(u.radius, u.radiusSecret));
    if eps.Err? { return Err(eps.error); }
    SecretKeepsMatch(projected, SecretSent(u.radius, u.radiusSecret));
    return Ok(projected.(endpoints := eps.value));
  }

  /** Equal settings; two secrets that are both unset count as equal. */
  predicate SameSettings(a: Client, b: Client)
  {
    && a.transports == b.transports && a.endpoints == b.endpoints && SecretsAgree(a.secret, b.secret)
    && a.lifecycle == b.lifecycle && a.terms == b.terms
  }

  const NoPatch := Patch(None, None, None, None, None, None)

  /** An update that sends nothing but endpoints. */
  function EndpointsOnly(eps: seq<Endpoint>): (u: Update) { Update(NoPatch, Some(eps), None, None) }

  /** Reading a client's endpoints without secrets and sending them back is accepted and changes
      nothing but empty method lists, which cloning turns into nil: the round trip of a client whose
      flat fields match its TACACS endpoints. */
  lemma PutBackChangesNothing(cur: Client)
    requires DistinctIds(cur.endpoints, EndpointId) && Projected(cur.endpoints).have && Matches(cur)
    ensures var sent := RedactedAll(cur.endpoints);
            && Admissible(cur, EndpointsOnly(sent), sent)
            && SameSettings(Applied(Merged(cur, NoPatch, sent).value), ClonedClient(cur))
  {
    RedactedListComesBack(cur.endpoints);
    assert Patched(cur, NoPatch) == Some(ClonedClient(cur));
    CloneMatches(cur);
    ProjectCloned(cur.endpoints);
  }

  /** A flat update and then its own result sent back with the same flat RADIUS view: the view is
      refused as disagreeing exactly when it does not read back. */
  lemma ResendIsRefusedIff(norm: Norm, cur: Client, u: Update)
    requires u.endpoints.None? && FlatOutcome(norm, cur, u).Ok? && u.radius.Some?
    requires DistinctIds(FlatOutcome(norm, cur, u).value.endpoints, EndpointId)
    ensures var r := FlatOutcome(norm, cur, u).value;
            var sent := RedactedAll(r.endpoints);
            Disagrees(Merged(r, NoPatch, sent).value.endpoints, u.radius.value)
            <==> !ReadsBack(norm, RadiusOnly(ClonedAll(cur.endpoints)), u.radius.value, u.radiusSecret)
  {
    var r := FlatOutcome(norm, cur, u).value;
    RedactedListComesBack(r.endpoints);
    assert Patched(r, NoPatch) == Some(ClonedClient(r));
    FlatAgreesIff(norm, cur, u);
    CloneKeepsUdp(r.endpoints);
  }

  lemma {:induction false} CloneKeepsUdp(eps: seq<Endpoint>)
    ensures FirstUdp(ClonedAll(eps)) == FirstUdp(eps)
    ensures HasUdp(eps) ==> ClonedAll(eps)[FirstUdp(eps)].radius == eps[FirstUdp(eps)].radius
                            && ClonedAll(eps)[FirstUdp(eps)].roles == eps[FirstUdp(eps)].roles
  {
    if eps != [] {
      CloneKeepsUdp(eps[..|eps| - 1]);
      assert ClonedAll(eps)[..|eps| - 1] == ClonedAll(eps[..|eps| - 1]);
    }
  }

  /** applyClientPatch. */
  method ApplyUpdate(norm: Norm, cur: Client, u: Update) returns (r: Result<Client, PatchError>)
    ensures u.endpoints.None? ==> r == FlatOutcome(norm, cur, u)
    ensures u.endpoints.Some? ==> (r.Ok? <==> Admissible(cur, u, u.endpoints.value))
  {
    if u.endpoints.Some? {
      r := ApplyEndpoints(cur, u, u.endpoints.value);
    } else {
      r := ApplyFlat(norm, cur, u);
    }
  }
}
