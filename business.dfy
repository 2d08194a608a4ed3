/** The tenant-facing endpoints: version matching, the homepage pipeline
    (resolve the version, read its `index.html`, inject the tenant's
    configuration) and the configuration query. */
module BusinessRoutes {
  import opened Common
  import Rules
  import Storage
  import Injector
  import Auth
  import opened Http

  /** The tenant the authentication step attached, or 'default'. */
  function TenantOrDefault(tenant: Option<string>): (id: string)
    ensures id != ""
    ensures Truthy(tenant) ==> id == tenant.value
    ensures !Truthy(tenant) ==> id == Rules.DefaultTenant
  {
    OrElse(tenant, Rules.DefaultTenant)
  }

  /** The JSON body of a version-match request. */
  datatype MatchRequest = MatchRequest(enterpriseId: Option<string>, path: Option<string>)

  /** POST `/api/bff/route/match`: a falsy tenant id is refused before any
      lookup; otherwise the resolved version is returned with the path, or
      `null` for a falsy path. */
  method HandleRouteMatch(engine: Rules.RuleEngine, req: MatchRequest, now: int, getFault: bool, setFault: bool)
    returns (resp: Response)
    requires engine.Valid()
    modifies engine.cache
    ensures !Truthy(req.enterpriseId) ==>
              resp == Response(400, EmptyEnterpriseId) && engine.cache.State() == old(engine.cache.State())
    ensures Truthy(req.enterpriseId) ==>
              var (tag, cs) := Rules.Resolve(engine.defaultRules, old(engine.cache.State()),
                                             req.enterpriseId.value, now, getFault, setFault);
              && engine.cache.State() == cs
              && resp == Response(200, VersionMatch(req.enterpriseId.value,
                                                    if Truthy(req.path) then req.path else None, tag))
  {
    if !Truthy(req.enterpriseId) {
      return Response(400, EmptyEnterpriseId);
    }
    var tag := engine.GetVersionTag(req.enterpriseId.value, now, getFault, setFault);
    var path := if Truthy(req.path) then req.path else None;
    resp := Response(200, VersionMatch(req.enterpriseId.value, path, tag));
  }

  /** The homepage response once the version is known: a failed read is a
      404 page naming the version and the tenant, with nothing injected;
      a document read is served with the tenant's configuration injected. */
  function HomepageResponse(read: Result<string, Storage.StorageError>, versionTag: string, enterpriseId: string,
                            stringify: Injector.Object -> string): (resp: Response)
    ensures read.Err? <==> resp.status == 404
    ensures read.Err? ==> resp.body == MissingVersionPage(versionTag, enterpriseId)
    ensures read.Ok? ==>
              resp == Response(200, Page(Injector.InjectConfig(read.value, enterpriseId,
                                                               Injector.GenerateDefaultConfig(enterpriseId), stringify)))
  {
    match read
    case Err(_) => Response(404, MissingVersionPage(versionTag, enterpriseId))
    case Ok(html) =>
      Response(200, Page(Injector.InjectConfig(html, enterpriseId, Injector.GenerateDefaultConfig(enterpriseId),
                                               stringify)))
  }

  /** GET `/`: the whole pipeline. */
  method HandleHomepage(engine: Rules.RuleEngine, storage: Storage.StorageService, stores: Storage.Stores,
                        tenant: Option<string>, now: int, getFault: bool, setFault: bool,
                        stringify: Injector.Object -> string)
    returns (resp: Response)
    requires engine.Valid()
    modifies engine.cache
    ensures var id := TenantOrDefault(tenant);
            var (tag, cs) := Rules.Resolve(engine.defaultRules, old(engine.cache.State()), id, now, getFault, setFault);
            && engine.cache.State() == cs
            && resp == HomepageResponse(storage.ReadIndexHtml(stores, tag), tag, id, stringify)
  {
    var id := OrElse(tenant, Rules.DefaultTenant);
    var tag := engine.GetVersionTag(id, now, getFault, setFault);
    var read := storage.ReadIndexHtml(stores, tag);
    if read.Err? {
      return Response(404, MissingVersionPage(tag, id));
    }
    var config := Injector.GenerateDefaultConfig(id);
    var html := Injector.InjectConfig(read.value, id, config, stringify);
    resp := Response(200, Page(html));
  }

  /** The homepage injects exactly one block that declares the tenant's own
      id and the table's settings for it, into the unchanged document. */
  lemma HomepageInjection(html: string, enterpriseId: string, stringify: Injector.Object -> string)
    requires '$' !in stringify(Injector.AppConfig(enterpriseId, Injector.GenerateDefaultConfig(enterpriseId)))
    ensures var cfg := Injector.GenerateDefaultConfig(enterpriseId);
            var m := Injector.AppConfig(enterpriseId, cfg);
            && Injector.Get(m, Injector.EnterpriseIdKey) == Some(Injector.JStr(enterpriseId))
            && Injector.Get(m, Injector.ThemeKey) == Injector.Get(cfg, Injector.ThemeKey)
            && Injector.Get(m, Injector.FeatureFlagsKey) == Injector.Get(cfg, Injector.FeatureFlagsKey)
            && Injector.Get(m, Injector.ApiBaseUrlKey) == Injector.Get(cfg, Injector.ApiBaseUrlKey)
            && var script := Injector.ConfigScript(stringify(m));
               exists i :: 0 <= i <= |html| &&
                 HomepageResponse(Ok(html), "", enterpriseId, stringify).body.html == html[..i] + script + html[i..]
  {
    var cfg := Injector.GenerateDefaultConfig(enterpriseId);
    var m := Injector.AppConfig(enterpriseId, cfg);
    Injector.AppConfigFields(enterpriseId, cfg);
    var out := Injector.InjectConfig(html, enterpriseId, cfg, stringify);
    assert HomepageResponse(Ok(html), "", enterpriseId, stringify).body.html == out;
    var script := Injector.ConfigScript(stringify(m));
    var i :| 0 <= i <= |html| && out == html[..i] + script + html[i..];
  }

  /** GET `/api/config`: `{ enterprise_id, ...generateDefaultConfig(id) }`.
      It always succeeds, with the tenant id and the table's settings. */
  function HandleConfig(tenant: Option<string>): (resp: Response)
    ensures resp.status == 200 && resp.body.Json?
    ensures forall k :: k in Injector.KeySeq(resp.body.data) <==>
              k == Injector.EnterpriseIdKey || k in [Injector.ThemeKey, Injector.FeatureFlagsKey, Injector.ApiBaseUrlKey]
  {
    var id := TenantOrDefault(tenant);
    Response(200, Json(Injector.Spread([(Injector.EnterpriseIdKey, Injector.JStr(id))],
                                       Injector.GenerateDefaultConfig(id))))
  }

  /** The configuration response carries the tenant id first, then exactly
      the table's settings for that tenant. */
  lemma ConfigResponseFields(tenant: Option<string>, key: string)
    ensures var id := TenantOrDefault(tenant);
            var cfg := Injector.GenerateDefaultConfig(id);
            var resp := HandleConfig(tenant);
            && resp.status == 200 && resp.body.Json?
            && [Injector.EnterpriseIdKey] <= Injector.KeySeq(resp.body.data)
            && Injector.Get(resp.body.data, Injector.EnterpriseIdKey) == Some(Injector.JStr(id))
            && (key != Injector.EnterpriseIdKey ==> Injector.Get(resp.body.data, key) == Injector.Get(cfg, key))
  {
    var id := TenantOrDefault(tenant);
    var cfg := Injector.GenerateDefaultConfig(id);
    var base := [(Injector.EnterpriseIdKey, Injector.JStr(id))];
    assert HandleConfig(tenant).body.data == Injector.Spread(base, cfg);
    Injector.SpreadPrefix(base, cfg);
    assert Injector.KeySeq(Injector.Spread(base, cfg))[..1] == [Injector.EnterpriseIdKey];
    Injector.SpreadGet(base, cfg, Injector.EnterpriseIdKey);
    Injector.SpreadGet(base, cfg, key);
  }

  /** The tenant the endpoints serve after authentication: the claimed
      tenant of an accepted token, falling back to 'default' when the
      claims name none; otherwise the tenant cookie or 'default'. */
  lemma ServedTenant(req: Auth.Request, verify: string -> Option<Auth.Claims>)
    ensures var d := Auth.Authenticate(req, verify);
            && TenantOrDefault(d.enterpriseId) != ""
            && (d.user.Some? ==> TenantOrDefault(d.enterpriseId) == OrElse(Auth.ClaimTenant(d.user.value), Rules.DefaultTenant))
            && (d.user.None? ==> TenantOrDefault(d.enterpriseId) == Auth.CookieTenant(req))
  {
  }
}
