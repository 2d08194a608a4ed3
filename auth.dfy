/** The authentication middleware: picks a bearer token from the request,
    verifies it with a caller-supplied verifier and attaches the tenant id
    (and, on success, the decoded claims) to the request.

    Signature checking itself is external: `verify` maps a token to its
    claims, or to `None` when the token is rejected (bad signature,
    expired, malformed). */
module Auth {
  import opened Common

  /** Name of the cookie that carries the token. */
  const CookieName := "access_token"
  /** Name of the cookie that names the tenant when there is no valid token. */
  const TenantCookie := "enterprise_id"
  const BearerPrefix := "Bearer "
  /** Tenant used when nothing in the request names one. */
  const DefaultTenant := "default"

  /** Claim names tried, in order, for the tenant id. */
  const ClaimEnterpriseId := "enterprise_id"
  const ClaimEnterpriseIdCamel := "enterpriseId"
  const ClaimEnterprise := "enterprise"

  /** Decoded token claims; only string-valued claims are modelled. */
  type Claims = map<string, string>

  /** The parts of an incoming request the middleware reads: the parsed
      cookies (absent when no cookie parser ran) and the Authorization
      header. */
  datatype Request = Request(cookies: Option<map<string, string>>, authorization: Option<string>)

  /** What the middleware attaches: `req.enterprise_id` and `req.user`. */
  datatype Decorated = Decorated(enterpriseId: Option<string>, user: Option<Claims>)

  /** `req.cookies?.[name]`. */
  function Cookie(req: Request, name: string): (r: Option<string>)
    ensures r.Some? <==> req.cookies.Some? && name in req.cookies.value
    ensures r.Some? ==> r.value == req.cookies.value[name]
  {
    if req.cookies.Some? && name in req.cookies.value then Some(req.cookies.value[name]) else None
  }

  predicate StartsWith(s: string, prefix: string)
  {
    |prefix| <= |s| && s[..|prefix|] == prefix
  }

  /** The token: a truthy token cookie wins; otherwise a truthy header in
      the form `Bearer <token>` gives the text after the prefix, which may
      be empty; anything else gives no token. */
  function SelectToken(req: Request): (t: Option<string>)
    ensures Truthy(Cookie(req, CookieName)) ==> t == Cookie(req, CookieName)
    ensures !Truthy(Cookie(req, CookieName)) && t.Some? ==> req.authorization == Some(BearerPrefix + t.value)
    ensures t.None? ==> && !Truthy(Cookie(req, CookieName))
                        && (req.authorization.None? || !StartsWith(req.authorization.value, BearerPrefix))
  {
    if Truthy(Cookie(req, CookieName)) then Cookie(req, CookieName)
    else if Truthy(req.authorization) then
      var h := req.authorization.value;
      if StartsWith(h, BearerPrefix) then
        assert h == BearerPrefix + h[|BearerPrefix|..];
        Some(h[|BearerPrefix|..])
      else None
    else None
  }

  /** The tenant when no valid token is present: the tenant cookie, or
      'default' when it is falsy. */
  function CookieTenant(req: Request): (id: string)
    ensures id != ""
    ensures Truthy(Cookie(req, TenantCookie)) ==> id == Cookie(req, TenantCookie).value
  {
    OrElse(Cookie(req, TenantCookie), DefaultTenant)
  }

  /** Claim lookup: `decoded[name]`. */
  function Claim(claims: Claims, name: string): Option<string>
  {
    if name in claims then Some(claims[name]) else None
  }

  /** `decoded.enterprise_id || decoded.enterpriseId || decoded.enterprise`:
      the first truthy of the first two names, else the third claim as it
      is, which may be absent or empty. No default is applied here. */
  function ClaimTenant(claims: Claims): (r: Option<string>)
    ensures Truthy(Claim(claims, ClaimEnterpriseId)) ==> r == Claim(claims, ClaimEnterpriseId)
    ensures !Truthy(Claim(claims, ClaimEnterpriseId)) && Truthy(Claim(claims, ClaimEnterpriseIdCamel)) ==>
              r == Claim(claims, ClaimEnterpriseIdCamel)
    ensures !Truthy(Claim(claims, ClaimEnterpriseId)) && !Truthy(Claim(claims, ClaimEnterpriseIdCamel)) ==>
              r == Claim(claims, ClaimEnterprise)
  {
    if Truthy(Claim(claims, ClaimEnterpriseId)) then Claim(claims, ClaimEnterpriseId)
    else if Truthy(Claim(claims, ClaimEnterpriseIdCamel)) then Claim(claims, ClaimEnterpriseIdCamel)
    else Claim(claims, ClaimEnterprise)
  }

  /** The middleware. A missing or falsy token and a rejected token both
      fall back to the cookie tenant without a user; an accepted token sets
      the user to its claims and the tenant to the claimed one. */
  function Authenticate(req: Request, verify: string -> Option<Claims>): (d: Decorated)
    ensures d.user.Some? ==> Truthy(SelectToken(req)) && d.user == verify(SelectToken(req).value)
                             && d.enterpriseId == ClaimTenant(d.user.value)
    ensures d.user.None? ==> d.enterpriseId == Some(CookieTenant(req))
    ensures Truthy(SelectToken(req)) && verify(SelectToken(req).value).Some? ==> d.user.Some?
  {
    var token := SelectToken(req);
    if !Truthy(token) then Decorated(Some(CookieTenant(req)), None)
    else
      match verify(token.value)
      case None => Decorated(Some(CookieTenant(req)), None)
      case Some(claims) => Decorated(ClaimTenant(claims), Some(claims))
  }

  /** A truthy token cookie makes the Authorization header irrelevant. */
  lemma CookieTakesPriority(req: Request, header: Option<string>, verify: string -> Option<Claims>)
    requires Truthy(Cookie(req, CookieName))
    ensures Authenticate(req.(authorization := header), verify) == Authenticate(req, verify)
    ensures Authenticate(req, verify).user.Some? ==> Authenticate(req, verify).user == verify(Cookie(req, CookieName).value)
  {
    assert Cookie(req.(authorization := header), CookieName) == Cookie(req, CookieName);
    assert Cookie(req.(authorization := header), TenantCookie) == Cookie(req, TenantCookie);
  }

  /** Without a token cookie, a header not in the `Bearer ` form counts as
      no header at all. */
  lemma BearerOnly(req: Request, verify: string -> Option<Claims>)
    requires !Truthy(Cookie(req, CookieName))
    requires req.authorization.Some? && !StartsWith(req.authorization.value, BearerPrefix)
    ensures Authenticate(req, verify) == Authenticate(req.(authorization := None), verify)
    ensures Authenticate(req, verify) == Decorated(Some(CookieTenant(req)), None)
  {
    assert Cookie(req.(authorization := None), CookieName) == Cookie(req, CookieName);
    assert Cookie(req.(authorization := None), TenantCookie) == Cookie(req, TenantCookie);
  }

  /** Without a token cookie, `Bearer <t>` hands exactly `t` to the verifier
      when `t` is not empty, and a bare `Bearer ` is no token. */
  lemma BearerTokenExtracted(req: Request, t: string, verify: string -> Option<Claims>)
    requires !Truthy(Cookie(req, CookieName))
    requires req.authorization == Some(BearerPrefix + t)
    ensures t != "" ==> SelectToken(req) == Some(t)
    ensures t != "" && verify(t).Some? ==> Authenticate(req, verify).user == verify(t)
    ensures t == "" ==> Authenticate(req, verify) == Decorated(Some(CookieTenant(req)), None)
  {
    var h := BearerPrefix + t;
    assert h[..|BearerPrefix|] == BearerPrefix;
    assert h[|BearerPrefix|..] == t;
  }

  /** No token, or a rejected one, never leaves the request without a
      tenant: it is the tenant cookie when truthy, else 'default'; and no
      user is attached. */
  lemma FallbackTenant(req: Request, verify: string -> Option<Claims>)
    requires !Truthy(SelectToken(req)) || verify(SelectToken(req).value).None?
    ensures var d := Authenticate(req, verify);
            && d.user.None?
            && Truthy(d.enterpriseId)
            && (Truthy(Cookie(req, TenantCookie)) ==> d.enterpriseId == Cookie(req, TenantCookie))
            && (!Truthy(Cookie(req, TenantCookie)) ==> d.enterpriseId == Some(DefaultTenant))
  {
  }

  /** An accepted token whose claims have neither a truthy `enterprise_id`
      nor a truthy `enterpriseId` gets the raw `enterprise` claim as its
      tenant: the middleware applies no default on this path, so without
      that claim the tenant is unset and with an empty one it is empty. */
  lemma AcceptedTokenWithoutTenant(req: Request, verify: string -> Option<Claims>, c: Claims)
    requires Truthy(SelectToken(req))
    requires verify(SelectToken(req).value) == Some(c)
    requires !Truthy(Claim(c, ClaimEnterpriseId)) && !Truthy(Claim(c, ClaimEnterpriseIdCamel))
    ensures Authenticate(req, verify).user == Some(c)
    ensures Authenticate(req, verify).enterpriseId == Claim(c, ClaimEnterprise)
    ensures ClaimEnterprise !in c ==> Authenticate(req, verify).enterpriseId == None
    ensures ClaimEnterprise in c && c[ClaimEnterprise] == "" ==> Authenticate(req, verify).enterpriseId == Some("")
  {
  }

  /** For instance, claims carrying only a subject leave the tenant unset. */
  lemma SubjectOnlyClaims(req: Request, verify: string -> Option<Claims>)
    requires Truthy(SelectToken(req))
    requires verify(SelectToken(req).value) == Some(map["sub" := "u1"])
    ensures Authenticate(req, verify).enterpriseId == None
  {
    var c: Claims := map["sub" := "u1"];
    assert ClaimEnterpriseId !in c && ClaimEnterpriseIdCamel !in c && ClaimEnterprise !in c;
    AcceptedTokenWithoutTenant(req, verify, c);
  }
}
