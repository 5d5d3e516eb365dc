/** Session tokens (JWTs). The two issuers in the source differ: the private
    GenerateJwtToken of Controllers/AccountsController.cs, which the account
    endpoints use, puts four claims in the token; the one in
    Services/AccountService.cs adds a fresh `jti` (section 4.1.7 of RFC 7519).
    Serialising and signing (HMAC-SHA256) are not modelled: a token is what
    the injected `sign` makes of a payload and the key, and whether the
    signing library takes a key (its minimum size for HMAC-SHA256) is the
    injected `keyAccepted`. */
module Session {
  import opened Common
  import opened Accounts

  datatype Claim = Claim(kind: string, value: string)

  const NameIdentifierClaim: string := "http://schemas.xmlsoap.org/ws/2005/05/identity/claims/nameidentifier"
  const EmailClaim: string := "http://schemas.xmlsoap.org/ws/2005/05/identity/claims/emailaddress"
  const TgIdClaim: string := "TgId"
  const RoleClaim: string := "Role"
  const JtiClaim: string := "jti"

  /** The `Jwt` section of the configuration. */
  datatype JwtConfig = JwtConfig(key: Option<string>, issuer: Option<string>, audience: Option<string>)

  datatype JwtPayload = JwtPayload(claims: seq<Claim>, expires: Time, issuer: Option<string>, audience: Option<string>)

  datatype JwtError = KeyUnusable

  /** `User.FindFirstValue(kind)`: the value of the first claim of that kind. */
  function FindFirstValue(claims: seq<Claim>, kind: string): (r: Option<string>)
    ensures r.Some? <==> exists i :: 0 <= i < |claims| && claims[i].kind == kind
    ensures r.Some? ==> exists i :: 0 <= i < |claims| && claims[i] == Claim(kind, r.value) &&
                                    forall j :: 0 <= j < i ==> claims[j].kind != kind
  {
    if claims == [] then None
    else if claims[0].kind == kind then Some(claims[0].value)
    else FindFirstValue(claims[1..], kind)
  }

  /** `long.Parse(User.FindFirstValue(kind))`, None where that throws. */
  function ParsedClaim(claims: seq<Claim>, kind: string): Option<int>
  {
    match FindFirstValue(claims, kind)
    case None => None
    case Some(v) => ParseInt(v)
  }

  /** The identity claims both issuers write. */
  function IdentityClaims(a: Account): seq<Claim>
  {
    [Claim(NameIdentifierClaim, IntText(a.accountId)),
     Claim(EmailClaim, a.email),
     Claim(TgIdClaim, IntText(a.tgId)),
     Claim(RoleClaim, IntText(a.role))]
  }

  /** The payload of the controller's GenerateJwtToken: the four identity
      claims, valid for one day from `now`. */
  function ControllerPayload(cfg: JwtConfig, a: Account, now: Time): JwtPayload
  {
    JwtPayload(IdentityClaims(a), now + Day, cfg.issuer, cfg.audience)
  }

  /** A key the token code can sign with. A missing key makes
      `Encoding.UTF8.GetBytes` (or the service's `?? throw`) throw, an empty
      one makes the `SymmetricSecurityKey` constructor throw, and one the
      signing library refuses makes writing the token throw. */
  predicate SigningKeyUsable(cfg: JwtConfig, keyAccepted: string -> bool)
  {
    cfg.key.Some? && cfg.key.value != "" && keyAccepted(cfg.key.value)
  }

  /** The controller's GenerateJwtToken; a throw is reported as a failure. */
  function ControllerToken(cfg: JwtConfig, keyAccepted: string -> bool,
                           sign: (JwtPayload, string) -> string, a: Account, now: Time)
    : (r: Result<string, JwtError>)
    ensures r.Failure? <==> cfg.key.None? || cfg.key.value == "" || !keyAccepted(cfg.key.value)
    ensures r.Success? ==> r.value == sign(ControllerPayload(cfg, a, now), cfg.key.value)
  {
    if !SigningKeyUsable(cfg, keyAccepted) then Failure(KeyUnusable)
    else Success(sign(ControllerPayload(cfg, a, now), cfg.key.value))
  }

  /** AccountService.GenerateJwtToken: the identity claims plus `jti`, a
      fresh identifier (Guid.NewGuid, passed in), valid for one day. */
  function ServicePayload(cfg: JwtConfig, a: Account, jti: string, now: Time): JwtPayload
  {
    JwtPayload(IdentityClaims(a) + [Claim(JtiClaim, jti)], now + Day, cfg.issuer, cfg.audience)
  }

  function ServiceToken(cfg: JwtConfig, keyAccepted: string -> bool,
                        sign: (JwtPayload, string) -> string, a: Account, jti: string, now: Time)
    : (r: Result<string, JwtError>)
    ensures r.Failure? <==> cfg.key.None? || cfg.key.value == "" || !keyAccepted(cfg.key.value)
    ensures r.Success? ==> r.value == sign(ServicePayload(cfg, a, jti, now), cfg.key.value)
  {
    if !SigningKeyUsable(cfg, keyAccepted) then Failure(KeyUnusable)
    else Success(sign(ServicePayload(cfg, a, jti, now), cfg.key.value))
  }

  lemma {:induction false} IdentityClaimsFirst(a: Account, rest: seq<Claim>)
    ensures var c := IdentityClaims(a) + rest;
            && FindFirstValue(c, NameIdentifierClaim) == Some(IntText(a.accountId))
            && FindFirstValue(c, EmailClaim) == Some(a.email)
            && FindFirstValue(c, TgIdClaim) == Some(IntText(a.tgId))
            && FindFirstValue(c, RoleClaim) == Some(IntText(a.role))
  {
    var c := IdentityClaims(a) + rest;
    assert |NameIdentifierClaim| == 68 && |EmailClaim| == 66;
    assert NameIdentifierClaim != EmailClaim && NameIdentifierClaim != TgIdClaim && NameIdentifierClaim != RoleClaim;
    assert EmailClaim != TgIdClaim && EmailClaim != RoleClaim;
    assert TgIdClaim[0] != RoleClaim[0];
    assert c[0] == Claim(NameIdentifierClaim, IntText(a.accountId));
    assert c[1..][0] == Claim(EmailClaim, a.email);
    assert c[1..][1..][0] == Claim(TgIdClaim, IntText(a.tgId));
    assert c[1..][1..][1..][0] == Claim(RoleClaim, IntText(a.role));
    assert FindFirstValue(c[1..], TgIdClaim) == FindFirstValue(c[1..][1..], TgIdClaim);
    assert FindFirstValue(c[1..], RoleClaim) == FindFirstValue(c[1..][1..], RoleClaim);
    assert FindFirstValue(c[1..][1..], RoleClaim) == FindFirstValue(c[1..][1..][1..], RoleClaim);
  }

  /** The claims the controllers read back give the account they were issued
      for: `int.Parse` of NameIdentifier is the AccountId, `long.Parse` of TgId
      is the TgId, and the Email claim is the email. This holds for both
      issuers, and it is why the model hands the caller's AccountId and TgId
      to the endpoints directly. */
  lemma ClaimsIdentifyAccount(a: Account, claims: seq<Claim>, jti: string, now: Time, cfg: JwtConfig)
    requires claims == ControllerPayload(cfg, a, now).claims || claims == ServicePayload(cfg, a, jti, now).claims
    ensures ParsedClaim(claims, NameIdentifierClaim) == Some(a.accountId)
    ensures ParsedClaim(claims, TgIdClaim) == Some(a.tgId)
    ensures ParsedClaim(claims, RoleClaim) == Some(a.role)
    ensures FindFirstValue(claims, EmailClaim) == Some(a.email)
  {
    if claims == ControllerPayload(cfg, a, now).claims {
      assert claims == IdentityClaims(a) + [];
      IdentityClaimsFirst(a, []);
    } else {
      IdentityClaimsFirst(a, [Claim(JtiClaim, jti)]);
    }
    IntTextRoundTrip(a.accountId);
    IntTextRoundTrip(a.tgId);
    IntTextRoundTrip(a.role);
  }

  /** Two service issuances that differ only in `jti` have different
      payloads; the controller's payload has no such marker, so two issuances
      for the same row at the same time coincide. */
  lemma JtiDistinguishesIssuances(cfg: JwtConfig, a: Account, jti1: string, jti2: string, now: Time)
    requires jti1 != jti2
    ensures ServicePayload(cfg, a, jti1, now) != ServicePayload(cfg, a, jti2, now)
    ensures FindFirstValue(ControllerPayload(cfg, a, now).claims, JtiClaim) == None
  {
    var c1 := ServicePayload(cfg, a, jti1, now).claims;
    assert c1[4] == Claim(JtiClaim, jti1);
  }
}
