/** The flat RADIUS view of a client update (internal/state/patch.go): it reaches the first UDP
    endpoint, or adds one, and leaves every other endpoint alone.

    `norm` is the trimming and lower-casing of method and status names; it is left open. */
module RadiusPatch {
  import opened Basics
  import opened Endpoints

  type Norm = string -> string

  datatype RadiusFlat = RadiusFlat(
    secret: Option<SecretPatch>, lifecycle: Option<Lifecycle>, enabled: Option<bool>, roles: seq<string>,
    requireAuthenticator: Option<bool>, limitProxyState: Option<bool>, methods: Option<seq<string>>,
    policy: Option<string>, statuses: Option<seq<string>>)

  datatype PatchError =
    | SecretNeeded | TacacsDisagrees | RadiusDisagrees
    | BadRole | BadMethod | BadStatus | NoRadiusEndpoint | RadiusSecretNeeded

  predicate IsUdp(ep: Endpoint) { ep.protocol == RadiusProtocol && ep.radius.Some? && ep.transport == "udp" }

  predicate IsRadiusTls(ep: Endpoint) { ep.protocol == RadiusProtocol && ep.radius.Some? && ep.transport == "tls" }

  predicate HasTls(eps: seq<Endpoint>) { exists ep :: ep in eps && IsRadiusTls(ep) }

  predicate AllRadius(eps: seq<Endpoint>) { forall ep :: ep in eps ==> ep.protocol == RadiusProtocol }

  /** The place of the first UDP endpoint, or the length of a list without one. */
  function FirstUdp(eps: seq<Endpoint>): (k: nat)
    ensures k <= |eps| && (k < |eps| ==> IsUdp(eps[k]))
    ensures forall i :: 0 <= i < k ==> !IsUdp(eps[i])
  {
    if eps == [] then 0
    else
      var j := FirstUdp(eps[..|eps| - 1]);
      if j < |eps| - 1 then j else if IsUdp(eps[|eps| - 1]) then |eps| - 1 else |eps|
  }

  /** radiusEndpointPtr. */
  method FindUdp(eps: seq<Endpoint>) returns (k: nat)
    ensures k == FirstUdp(eps)
  {
    for i := 0 to |eps|
      invariant forall j :: 0 <= j < i ==> !IsUdp(eps[j])
    {
      if IsUdp(eps[i]) { return i; }
    }
    return |eps|;
  }

  predicate HasUdp(eps: seq<Endpoint>) { FirstUdp(eps) < |eps| }

  // ---------------------------------------------------------------------------
  // Names of methods and statuses
  // ---------------------------------------------------------------------------

  const MethodNames := {"pap", "chap", "mschapv1", "mschapv2", "eap", "peap"}

  const StatusNames := {"start", "stop", "interim_update", "accounting_on", "accounting_off"}

  /** The names in normal form, each once; None when one of them is unknown. */
  function Named(norm: Norm, known: set<string>, raw: seq<string>): (r: Option<seq<string>>)
  {
    if raw == [] then Some([])
    else
      match Named(norm, known, raw[..|raw| - 1])
      case None => None
      case Some(front) =>
        var m := norm(raw[|raw| - 1]);
        if m !in known then None else if m in front then Some(front) else Some(front + [m])
  }

  /** normalizeRADIUSAuthMethods and normalizeRADIUSStatusTypes. */
  method ParseNames(norm: Norm, known: set<string>, raw: seq<string>) returns (r: Option<seq<string>>)
    ensures r == Named(norm, known, raw)
  {
    var out := [];
    for i := 0 to |raw|
      invariant Named(norm, known, raw[..i]) == Some(out)
    {
      assert raw[..i + 1][..i] == raw[..i];
      var m := norm(raw[i]);
      if m !in known {
        UnknownName(norm, known, raw, i + 1);
        return None;
      }
      if m !in out { out := out + [m]; }
    }
    assert raw[..|raw|] == raw;
    return Some(out);
  }

  lemma {:induction false} UnknownName(norm: Norm, known: set<string>, raw: seq<string>, k: nat)
    requires k <= |raw| && Named(norm, known, raw[..k]).None?
    ensures Named(norm, known, raw).None?
    decreases |raw|
  {
    if k == |raw| {
      assert raw[..k] == raw;
    } else {
      assert raw[..|raw| - 1][..k] == raw[..k];
      UnknownName(norm, known, raw[..|raw| - 1], k);
    }
  }

  /** The names are known, each in normal form and listed once. */
  predicate Plain(norm: Norm, known: set<string>, names: seq<string>)
  {
    Distinct(names) && forall n :: n in names ==> norm(n) == n && n in known
  }

  lemma {:induction false} NamedShape(norm: Norm, known: set<string>, raw: seq<string>)
    requires Named(norm, known, raw).Some?
    ensures var r := Named(norm, known, raw).value;
            && Distinct(r) && |r| <= |raw| && (r == [] <==> raw == [])
            && forall n :: n in r <==> exists i :: 0 <= i < |raw| && norm(raw[i]) == n
  {
    if raw != [] {
      NamedShape(norm, known, raw[..|raw| - 1]);
    }
  }

  /** Parsing gives a list back as it was sent exactly when it is plain. */
  lemma {:induction false} NamedWhole(norm: Norm, known: set<string>, raw: seq<string>)
    ensures Named(norm, known, raw) == Some(raw) <==> Plain(norm, known, raw)
  {
    if raw != [] {
      var front, last := raw[..|raw| - 1], raw[|raw| - 1];
      assert raw == front + [last];
      NamedWhole(norm, known, front);
      if Named(norm, known, front).Some? { NamedShape(norm, known, front); }
      if Plain(norm, known, raw) {
        assert Plain(norm, known, front);
      }
      if Named(norm, known, raw) == Some(raw) {
        var r := Named(norm, known, front).value;
        assert |r| <= |front|;
        assert raw == r + [norm(last)];
        assert raw[..|front|] == r == front;
      }
    }
  }

  // ---------------------------------------------------------------------------
  // The settings of the endpoint
  // ---------------------------------------------------------------------------

  const DefaultMethods := ["pap", "chap"]

  const DefaultStatuses := ["start", "stop", "interim_update", "accounting_on", "accounting_off"]

  /** FillRADIUSAccessMethods. */
  function Filled(methods: seq<string>, roles: seq<string>): (r: seq<string>)
  {
    if "access" in roles && methods == [] then DefaultMethods else methods
  }

  /** defaultRADIUSEndpoint. */
  function NewRadius(roles: seq<string>): (r: Radius)
  {
    Radius(NoSecret, NoLifecycle, true, true, if "access" in roles then Some(DefaultMethods) else None, "",
           if "accounting" in roles then Some(DefaultStatuses) else None, "")
  }

  /** applyRADIUSFields. */
  function WithFields(norm: Norm, rad: Radius, p: RadiusFlat, roles: seq<string>): (r: Result<Radius, PatchError>)
  {
    var methods := if p.methods.Some? then Named(norm, MethodNames, p.methods.value) else Some([]);
    var statuses := if p.statuses.Some? then Named(norm, StatusNames, p.statuses.value) else Some([]);
    if methods.None? then Err(BadMethod)
    else if statuses.None? then Err(BadStatus)
    else Ok(rad.(lifecycle := Or(p.lifecycle, rad.lifecycle),
                 requireAuthenticator := Or(p.requireAuthenticator, rad.requireAuthenticator),
                 limitProxyState := Or(p.limitProxyState, rad.limitProxyState),
                 methods := if p.methods.Some? then Some(Filled(methods.value, roles)) else rad.methods,
                 policy := Or(p.policy, rad.policy),
                 statuses := if p.statuses.Some? then statuses else rad.statuses))
  }

  method ApplyFields(norm: Norm, rad: Radius, p: RadiusFlat, roles: seq<string>) returns (r: Result<Radius, PatchError>)
    ensures r == WithFields(norm, rad, p, roles)
  {
    var out := rad;
    if p.lifecycle.Some? { out := out.(lifecycle := p.lifecycle.value); }
    if p.requireAuthenticator.Some? { out := out.(requireAuthenticator := p.requireAuthenticator.value); }
    if p.limitProxyState.Some? { out := out.(limitProxyState := p.limitProxyState.value); }
    if p.methods.Some? {
      var methods := ParseNames(norm, MethodNames, p.methods.value);
      if methods.None? { return Err(BadMethod); }
      out := out.(methods := Some(Filled(methods.value, roles)));
    }
    if p.policy.Some? { out := out.(policy := p.policy.value); }
    if p.statuses.Some? {
      var statuses := ParseNames(norm, StatusNames, p.statuses.value);
      if statuses.None? { return Err(BadStatus); }
      out := out.(statuses := statuses);
    }
    return Ok(out);
  }

  /** The roles an update leaves the UDP endpoint with. */
  function RolesFor(p: RadiusFlat, eps: seq<Endpoint>): (r: seq<string>)
  {
    var k := FirstUdp(eps);
    if p.roles != [] then p.roles
    else if k < |eps| && eps[k].roles != [] then eps[k].roles
    else ["access", "accounting"]
  }

  /** validateRADIUSRoles. */
  predicate RolesOk(roles: seq<string>) { roles != [] && forall r :: r in roles ==> r == "access" || r == "accounting" }

  predicate Disables(p: RadiusFlat) { p.enabled == Some(false) }

  // ---------------------------------------------------------------------------
  // The flat view
  // ---------------------------------------------------------------------------

  /** removeRADIUSUDPEndpoints. */
  function WithoutUdp(eps: seq<Endpoint>): (r: seq<Endpoint>)
  {
    if eps == [] then []
    else
      var front, last := WithoutUdp(eps[..|eps| - 1]), eps[|eps| - 1];
      if last.protocol == RadiusProtocol && last.transport == "udp" then front else front + [last]
  }

  method RemoveUdp(eps: seq<Endpoint>) returns (out: seq<Endpoint>)
    ensures out == WithoutUdp(eps)
  {
    out := [];
    for i := 0 to |eps|
      invariant out == WithoutUdp(eps[..i])
    {
      assert eps[..i + 1][..i] == eps[..i];
      if !(eps[i].protocol == RadiusProtocol && eps[i].transport == "udp") { out := out + [eps[i]]; }
    }
    assert eps[..|eps|] == eps;
  }

  function UdpEndpoint(roles: seq<string>, rad: Radius): (ep: Endpoint)
  {
    Endpoint("radius-udp", RadiusProtocol, "udp", roles, None, Some(rad))
  }

  /** What the flat view makes of a list of endpoints. */
  function FlatOn(norm: Norm, eps: seq<Endpoint>, p: RadiusFlat): (r: Result<seq<Endpoint>, PatchError>)
  {
    var k, roles := FirstUdp(eps), RolesFor(p, eps);
    if Disables(p) then Ok(WithoutUdp(eps))
    else if !RolesOk(roles) then Err(BadRole)
    else if k == |eps| && HasTls(eps) then Ok(eps)
    else
      match WithFields(norm, if k < |eps| then eps[k].radius.value else NewRadius(roles), p, roles)
      case Err(e) => Err(e)
      case Ok(rad) => if k < |eps| then Ok(eps[k := eps[k].(roles := roles, radius := Some(rad))]) else Ok(eps + [UdpEndpoint(roles, rad)])
  }

  /** applyRADIUSFlatten, on the client's endpoints; `made` are the TACACS endpoints it starts from
      when the client has none. */
  method Flatten(norm: Norm, eps: seq<Endpoint>, made: seq<Endpoint>, p: RadiusFlat) returns (r: Result<seq<Endpoint>, PatchError>)
    requires forall ep :: ep in made ==> ep.protocol == TacacsProtocol
    ensures eps != [] ==> r == FlatOn(norm, eps, p)
    ensures eps == [] ==> match FlatOn(norm, [], p) case Err(e) => r == Err(e) case Ok(s) => r == Ok(if Disables(p) then [] else made + s)
  {
    if Disables(p) {
      var left := RemoveUdp(eps);
      return Ok(left);
    }
    var k := FindUdp(eps);
    var roles := p.roles;
    if roles == [] {
      roles := if k < |eps| && eps[k].roles != [] then eps[k].roles else ["access", "accounting"];
    }
    if !RolesOk(roles) { return Err(BadRole); }
    if k == |eps| {
      if HasTls(eps) { return Ok(eps); }
      var rad := ApplyFields(norm, NewRadius(roles), p, roles);
      if rad.Err? { return Err(rad.error); }
      var added := UdpEndpoint(roles, rad.value);
      assert eps == [] ==> eps + [added] == [added];
      return Ok((if eps == [] then made else eps) + [added]);
    }
    var rad := ApplyFields(norm, eps[k].radius.value, p, roles);
    if rad.Err? { return Err(rad.error); }
    return Ok(eps[k := eps[k].(roles := roles, radius := Some(rad.value))]);
  }

  // ---------------------------------------------------------------------------
  // The halves do not meet
  // ---------------------------------------------------------------------------

  lemma {:induction false} RadiusFirstUdp(eps: seq<Endpoint>)
    ensures HasUdp(eps) <==> HasUdp(RadiusOnly(eps))
    ensures HasUdp(eps) ==> RadiusOnly(eps)[FirstUdp(RadiusOnly(eps))] == eps[FirstUdp(eps)]
  {
    if eps != [] {
      var front, last := eps[..|eps| - 1], eps[|eps| - 1];
      RadiusFirstUdp(front);
      FirstOfAppend(front, last);
      FirstOfAppend(RadiusOnly(front), last);
      assert eps == front + [last];
    }
  }

  lemma FirstOfAppend(front: seq<Endpoint>, last: Endpoint)
    ensures FirstUdp(front + [last]) ==
            if HasUdp(front) then FirstUdp(front) else if IsUdp(last) then |front| else |front| + 1
  {
    assert (front + [last])[..|front|] == front;
  }

  lemma {:induction false} RadiusHasTls(eps: seq<Endpoint>)
    ensures HasTls(RadiusOnly(eps)) <==> HasTls(eps)
  {
    forall ep ensures ep in RadiusOnly(eps) <==> ep in eps && ep.protocol == RadiusProtocol { RadiusMembers(eps, ep); }
  }

  lemma {:induction false} RadiusWithoutUdp(eps: seq<Endpoint>)
    ensures RadiusOnly(WithoutUdp(eps)) == WithoutUdp(RadiusOnly(eps))
  {
    if eps != [] {
      var front, last := eps[..|eps| - 1], eps[|eps| - 1];
      RadiusWithoutUdp(front);
      assert (WithoutUdp(front) + [last])[..|WithoutUdp(front)|] == WithoutUdp(front);
      assert (RadiusOnly(front) + [last])[..|RadiusOnly(front)|] == RadiusOnly(front);
    }
  }

  /** Writing the first UDP endpoint commutes with dropping what is not RADIUS. */
  lemma {:induction false} RadiusUpdate(eps: seq<Endpoint>, ep: Endpoint)
    requires HasUdp(eps) && ep.protocol == RadiusProtocol
    ensures HasUdp(RadiusOnly(eps))
    ensures RadiusOnly(eps[FirstUdp(eps) := ep]) == RadiusOnly(eps)[FirstUdp(RadiusOnly(eps)) := ep]
  {
    RadiusFirstUdp(eps);
    var front, last, k := eps[..|eps| - 1], eps[|eps| - 1], FirstUdp(eps);
    assert eps == front + [last];
    FirstOfAppend(front, last);
    RadiusFirstUdp(front);
    FirstOfAppend(RadiusOnly(front), last);
    if k < |front| {
      RadiusUpdate(front, ep);
      assert eps[k := ep][..|front|] == front[k := ep];
      var radii := RadiusOnly(front);
      assert (radii + [last])[FirstUdp(radii) := ep] == radii[FirstUdp(radii) := ep] + [last];
    } else {
      assert eps[k := ep][..|front|] == front;
      assert (RadiusOnly(front) + [last])[|RadiusOnly(front)| := ep] == RadiusOnly(front) + [ep];
    }
  }

  /** The flat view acts on the RADIUS endpoints alone: the same happens to them in any company. */
  lemma FlatOnRadius(norm: Norm, eps: seq<Endpoint>, p: RadiusFlat)
    ensures match FlatOn(norm, eps, p)
            case Err(e) => FlatOn(norm, RadiusOnly(eps), p) == Err(e)
            case Ok(s) => FlatOn(norm, RadiusOnly(eps), p) == Ok(RadiusOnly(s))
  {
    var radii := RadiusOnly(eps);
    RadiusFirstUdp(eps);
    RadiusHasTls(eps);
    RadiusWithoutUdp(eps);
    RadiusOnlyAgain(eps);
    if !Disables(p) && RolesOk(RolesFor(p, eps)) && !(!HasUdp(eps) && HasTls(eps)) {
      var k, roles := FirstUdp(eps), RolesFor(p, eps);
      var rad := WithFields(norm, if k < |eps| then eps[k].radius.value else NewRadius(roles), p, roles);
      if rad.Ok? {
        if k < |eps| {
          RadiusUpdate(eps, eps[k].(roles := roles, radius := Some(rad.value)));
        } else {
          assert (eps + [UdpEndpoint(roles, rad.value)])[..|eps|] == eps;
        }
      }
    }
  }

  // ---------------------------------------------------------------------------
  // The secret
  // ---------------------------------------------------------------------------

  /** The patch clears the secret or names none. */
  predicate Omits(s: SecretPatch) { s.clear || !s.ref.Set() }

  const RadiusPurpose := "radius_shared_secret"

  function Purposed(ref: SecretRef): (r: SecretRef) { if ref.purpose == "" then ref.(purpose := RadiusPurpose) else ref }

  function WithSecret(ep: Endpoint, ref: SecretRef): (r: Endpoint)
    requires ep.radius.Some?
  {
    ep.(radius := Some(ep.radius.value.(secret := Purposed(ref))))
  }

  /** applyRADIUSSecretPatch. */
  function SecretOn(eps: seq<Endpoint>, patch: Option<SecretPatch>): (r: Result<seq<Endpoint>, PatchError>)
  {
    var k := FirstUdp(eps);
    if patch.None? then Ok(eps)
    else if k == |eps| then if Omits(patch.value) then Ok(eps) else Err(NoRadiusEndpoint)
    else if Omits(patch.value) then Err(RadiusSecretNeeded)
    else Ok(eps[k := WithSecret(eps[k], patch.value.ref)])
  }

  method PatchSecret(eps: seq<Endpoint>, patch: Option<SecretPatch>) returns (r: Result<seq<Endpoint>, PatchError>)
    ensures r == SecretOn(eps, patch)
  {
    if patch.None? { return Ok(eps); }
    var k := FindUdp(eps);
    if k == |eps| {
      return if Omits(patch.value) then Ok(eps) else Err(NoRadiusEndpoint);
    }
    if Omits(patch.value) { return Err(RadiusSecretNeeded); }
    return Ok(eps[k := WithSecret(eps[k], patch.value.ref)]);
  }

  lemma {:induction false} FirstUdpBehind(front: seq<Endpoint>, eps: seq<Endpoint>)
    requires forall i :: 0 <= i < |front| ==> !IsUdp(front[i])
    ensures FirstUdp(front + eps) == |front| + FirstUdp(eps)
  {
    if eps == [] {
      assert front + eps == front;
    } else {
      assert (front + eps)[..|front + eps| - 1] == front + eps[..|eps| - 1];
      FirstUdpBehind(front, eps[..|eps| - 1]);
    }
  }

  /** The secret goes to the RADIUS endpoints whatever stands before them. */
  lemma SecretBehind(front: seq<Endpoint>, eps: seq<Endpoint>, patch: Option<SecretPatch>)
    requires forall i :: 0 <= i < |front| ==> !IsUdp(front[i])
    ensures match SecretOn(eps, patch)
            case Err(e) => SecretOn(front + eps, patch) == Err(e)
            case Ok(s) => SecretOn(front + eps, patch) == Ok(front + s)
  {
    FirstUdpBehind(front, eps);
    var k := FirstUdp(eps);
    if patch.Some? && k < |eps| && !Omits(patch.value) {
      var ep := WithSecret(eps[k], patch.value.ref);
      assert (front + eps)[|front| + k := ep] == front + eps[k := ep];
    }
  }

  // ---------------------------------------------------------------------------
  // Flat view and secret together
  // ---------------------------------------------------------------------------

  /** What an update does to the RADIUS endpoints. */
  function RadiusHalf(norm: Norm, radii: seq<Endpoint>, flat: Option<RadiusFlat>, secret: Option<SecretPatch>)
    : (r: Result<seq<Endpoint>, PatchError>)
  {
    match (if flat.Some? then FlatOn(norm, radii, flat.value) else Ok(radii))
    case Err(e) => Err(e)
    case Ok(s) => SecretOn(s, secret)
  }

  lemma {:induction false} WithoutUdpMembers(eps: seq<Endpoint>)
    ensures forall ep :: ep in WithoutUdp(eps) <==> ep in eps && !(ep.protocol == RadiusProtocol && ep.transport == "udp")
  {
    if eps != [] {
      WithoutUdpMembers(eps[..|eps| - 1]);
      assert eps == eps[..|eps| - 1] + [eps[|eps| - 1]];
    }
  }

  lemma FlatStaysRadius(norm: Norm, radii: seq<Endpoint>, p: RadiusFlat)
    requires AllRadius(radii) && FlatOn(norm, radii, p).Ok?
    ensures AllRadius(FlatOn(norm, radii, p).value)
  {
    WithoutUdpMembers(radii);
  }

  /** RADIUS endpoints stay RADIUS endpoints. */
  lemma HalfStaysRadius(norm: Norm, radii: seq<Endpoint>, flat: Option<RadiusFlat>, secret: Option<SecretPatch>)
    requires AllRadius(radii) && RadiusHalf(norm, radii, flat, secret).Ok?
    ensures AllRadius(RadiusHalf(norm, radii, flat, secret).value)
  {
    if flat.Some? { FlatStaysRadius(norm, radii, flat.value); }
  }

  /** The update leaves no RADIUS endpoint. */
  predicate EndsWithout(radii: seq<Endpoint>, flat: Option<RadiusFlat>)
  {
    if flat.Some? then Disables(flat.value) && forall ep :: ep in radii ==> ep.transport == "udp" else radii == []
  }

  lemma EndsWithoutIff(norm: Norm, radii: seq<Endpoint>, flat: Option<RadiusFlat>, secret: Option<SecretPatch>)
    requires AllRadius(radii) && RadiusHalf(norm, radii, flat, secret).Ok?
    ensures RadiusHalf(norm, radii, flat, secret).value == [] <==> EndsWithout(radii, flat)
  {
    WithoutUdpMembers(radii);
    var left := WithoutUdp(radii);
    if left != [] { assert left[0] in left; }
  }

  // ---------------------------------------------------------------------------
  // Whether the result agrees with the flat view
  // ---------------------------------------------------------------------------

  function ListOf(l: Option<seq<string>>): (r: seq<string>) { if l.Some? then l.value else [] }

  predicate SendsSecret(s: Option<SecretPatch>) { s.Some? && !Omits(s.value) }

  predicate SameSource(a: SecretRef, b: SecretRef) { a.file == b.file && a.environment == b.environment }

  /** radiusFlattenDisagrees. */
  predicate Disagrees(eps: seq<Endpoint>, p: RadiusFlat)
  {
    var k := FirstUdp(eps);
    if Disables(p) then k < |eps|
    else if k == |eps| then true
    else
      var r := eps[k].radius.value;
      || (p.roles != [] && eps[k].roles != p.roles)
      || (p.requireAuthenticator.Some? && r.requireAuthenticator != p.requireAuthenticator.value)
      || (p.limitProxyState.Some? && r.limitProxyState != p.limitProxyState.value)
      || (p.methods.Some? && ListOf(r.methods) != p.methods.value)
      || (p.policy.Some? && r.policy != p.policy.value)
      || (p.statuses.Some? && ListOf(r.statuses) != p.statuses.value)
      || (SendsSecret(p.secret) && !SameSource(r.secret, p.secret.value.ref))
  }

  /** The update can be read back from its result: it disables, or there is a UDP endpoint to reach,
      its lists are plain and none is filled in, and it does not send two different secrets. */
  predicate ReadsBack(norm: Norm, radii: seq<Endpoint>, p: RadiusFlat, secret: Option<SecretPatch>)
  {
    !Disables(p) ==>
      && (HasUdp(radii) || !HasTls(radii))
      && (p.methods.Some? ==>
            Plain(norm, MethodNames, p.methods.value) && (p.methods.value == [] ==> "access" !in RolesFor(p, radii)))
      && (p.statuses.Some? ==> Plain(norm, StatusNames, p.statuses.value))
      && (SendsSecret(p.secret) && secret.Some? ==> SameSource(secret.value.ref, p.secret.value.ref))
  }

  /** The secret an update sends: on its own, or within the flat view. */
  function SecretSent(flat: Option<RadiusFlat>, own: Option<SecretPatch>): (r: Option<SecretPatch>)
  {
    if own.Some? then own else if flat.Some? then flat.value.secret else None
  }

  lemma FilledWhole(norm: Norm, ms: seq<string>, roles: seq<string>)
    requires Named(norm, MethodNames, ms).Some?
    ensures Filled(Named(norm, MethodNames, ms).value, roles) == ms
       <==> Plain(norm, MethodNames, ms) && (ms == [] ==> "access" !in roles)
  {
    NamedWhole(norm, MethodNames, ms);
    NamedShape(norm, MethodNames, ms);
  }

  /** The endpoint an accepted flat view reaches. */
  function Reached(norm: Norm, radii: seq<Endpoint>, p: RadiusFlat): (ep: Endpoint)
    requires RolesOk(RolesFor(p, radii))
    requires WithFields(norm, if HasUdp(radii) then radii[FirstUdp(radii)].radius.value else NewRadius(RolesFor(p, radii)), p, RolesFor(p, radii)).Ok?
  {
    var k, roles := FirstUdp(radii), RolesFor(p, radii);
    var rad := WithFields(norm, if k < |radii| then radii[k].radius.value else NewRadius(roles), p, roles).value;
    if k < |radii| then radii[k].(roles := roles, radius := Some(rad)) else UdpEndpoint(roles, rad)
  }

  lemma FlatDisabled(norm: Norm, radii: seq<Endpoint>, p: RadiusFlat, secret: Option<SecretPatch>)
    requires Disables(p) && RadiusHalf(norm, radii, Some(p), secret).Ok?
    ensures !Disagrees(RadiusHalf(norm, radii, Some(p), secret).value, p)
  {
    WithoutUdpMembers(radii);
    var left := WithoutUdp(radii);
    assert forall i :: 0 <= i < |left| ==> left[i] in left;
  }

  lemma FlatReaches(norm: Norm, radii: seq<Endpoint>, p: RadiusFlat)
    requires !Disables(p) && FlatOn(norm, radii, p).Ok? && (HasUdp(radii) || !HasTls(radii))
    ensures var s := FlatOn(norm, radii, p).value; HasUdp(s) && s[FirstUdp(s)] == Reached(norm, radii, p)
  {
    var s, k := FlatOn(norm, radii, p).value, FirstUdp(radii);
    assert IsUdp(s[k]) && forall i :: 0 <= i < k ==> s[i] == radii[i];
    assert FirstUdp(s) == k;
  }

  /** An accepted flat view agrees with the endpoints it leaves exactly when it reads back. */
  lemma AgreesIffReadsBack(norm: Norm, radii: seq<Endpoint>, p: RadiusFlat, own: Option<SecretPatch>)
    requires RadiusHalf(norm, radii, Some(p), SecretSent(Some(p), own)).Ok?
    ensures !Disagrees(RadiusHalf(norm, radii, Some(p), SecretSent(Some(p), own)).value, p) <==> ReadsBack(norm, radii, p, own)
  {
    var secret := SecretSent(Some(p), own);
    if Disables(p) {
      FlatDisabled(norm, radii, p, secret);
    } else if HasUdp(radii) || !HasTls(radii) {
      FlatReaches(norm, radii, p);
      SecretReaches(FlatOn(norm, radii, p).value, secret);
      ReachedAgrees(norm, radii, p, own);
    }
  }

  /** The secret goes where the flat view went. */
  lemma SecretReaches(s: seq<Endpoint>, secret: Option<SecretPatch>)
    requires HasUdp(s) && SecretOn(s, secret).Ok?
    ensures var t, ep := SecretOn(s, secret).value, s[FirstUdp(s)];
            && HasUdp(t) && t[FirstUdp(t)] == (if secret.Some? then WithSecret(ep, secret.value.ref) else ep)
            && (secret.Some? ==> !Omits(secret.value))
  {
    var t, k := SecretOn(s, secret).value, FirstUdp(s);
    assert IsUdp(t[k]) && forall i :: 0 <= i < k ==> t[i] == s[i];
    assert FirstUdp(t) == k;
  }

  lemma ReachedAgrees(norm: Norm, radii: seq<Endpoint>, p: RadiusFlat, own: Option<SecretPatch>)
    requires !Disables(p) && FlatOn(norm, radii, p).Ok? && (HasUdp(radii) || !HasTls(radii))
    requires SecretSent(Some(p), own).Some? ==> !Omits(SecretSent(Some(p), own).value)
    ensures var secret, ep := SecretSent(Some(p), own), Reached(norm, radii, p);
            !Disagrees([if secret.Some? then WithSecret(ep, secret.value.ref) else ep], p) <==> ReadsBack(norm, radii, p, own)
  {
    var secret, ep := SecretSent(Some(p), own), Reached(norm, radii, p);
    var last := [if secret.Some? then WithSecret(ep, secret.value.ref) else ep];
    assert FirstUdp(last) == 0;
    if p.methods.Some? { FilledWhole(norm, p.methods.value, RolesFor(p, radii)); }
    if p.statuses.Some? { NamedWhole(norm, StatusNames, p.statuses.value); }
  }
}
