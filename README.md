# Multi-tenant gateway core: a Dafny model

This project models the core of a multi-tenant front-end gateway. The gateway decides, for each tenant (`enterprise_id`), which build version (`version_tag`) of a single-page application the tenant gets. It then serves that version's `index.html` with a per-tenant configuration script injected into it.

The model covers these parts of the gateway:

- **Rule engine** (`Rules`). A tenant → version table, read cache-aside with a `'default'` fallback and written through to the cache. It has a single write, a bulk write and a snapshot read.
- **Cache service** (`Cache`). It runs on either Redis or a memory cache. The Redis error event degrades it to memory for good. Every error is turned into `null`/`false`.
- **Storage service** (`Storage`). It reads from either object storage or a local directory tree. If the object-storage client cannot be built, it degrades to local for good.
- **HTML injector** (`Injector`).
  - It merges the configuration object with JavaScript's spread semantics. Objects keep their properties in insertion order; the order JavaScript gives to array-index names such as `"0"` is not modelled.
  - It builds the script text.
  - It splices that script before the first `</head>`, else before the first `<body>`, else at the front.
  - `String.prototype.replace`'s `$` patterns are modelled exactly.
- **Admin routes** (`AdminRoutes`) and **business routes** (`BusinessRoutes`). Their decision logic is modelled with HTTP reduced to a status code and a body shape (`Http`).
- **Route registry** (`Routing`). It is keyed by `METHOD:path` with the method upper-cased.
- **Authentication middleware** (`Auth`). It picks the token from a cookie, then from a `Bearer ` header. If there is no token, or the token is rejected, it falls back to a tenant named by a cookie.

Where the source changes state in place, the model uses classes: `CacheService`, `RuleEngine`, `StorageService` and `RouterDiscovery`. The methods of `CacheService` and `RuleEngine` are tied to pure functions of the old state (`Read`/`Write`/`Erase`/`Degrade` and `Resolve`/`SetRule`/`WriteAll`), and the properties are proved about those functions. `StorageService.ReadFile` is itself such a function of the fields. `StorageService.InitOSS` and the `RouterDiscovery` methods state their new fields directly in their contracts.

Anything outside the program is an explicit parameter:

- The clock is `now`.
- A backend call that throws is a `fault` flag.
- Whether the object-storage client can be built is `ossBuilds`.
- The remote and local store contents are a `Stores` value.
- `JSON.stringify` is a function `stringify`.
- JWT verification is a partial function `verify`, which returns `None` when it rejects a token.

`src/routes/admin.js:85` calls `ruleEngine.deleteVersionRule`, which `src/services/ruleEngine.js` does not define. The model follows the code: DELETE on a mapped tenant calls a method that does not exist. That call raises an error, which the handler turns into a 500, and the table is unchanged (`AdminRoutes.DeleteResponse`). The model does not invent a delete.

## Model

| member | source | states |
|---|---|---|
| Common.OrElse | src/middleware/auth.js:27 | `s \|\| fallback` gives the string when it is truthy and the fallback otherwise |
| Cache.RetryDelay | src/services/cache.js:37-40 | the reconnection delay is `min(50·times, 2000)`: at most 2000 ms, at most 50 ms per attempt, and equal to one of the two |
| Cache.RetryDelayMonotone | src/services/cache.js:37-40 | more attempts never give a shorter delay |
| Cache.VersionKey | src/services/cache.js:134-136 | the tenant key is `enterprise:` + id + `:version_tag`, stated slice by slice |
| Cache.VersionKeyInjective | src/services/cache.js:135-147 | distinct tenants never share a cache key |
| Cache.Active | src/services/cache.js:62-70 | every call goes to Redis exactly when `useRedis` holds and a client exists, else to the memory cache when one exists, else to no backend |
| Cache.Initial | src/services/cache.js:10-20 | after construction, the `useRedis` setting alone picks Redis or memory, both stores are empty, and the service is valid |
| Cache.Degrade | src/services/cache.js:47-54 | after the Redis error handler a memory cache exists; from a valid state `useRedis` is false and memory is the active backend; when a memory cache already exists nothing changes; otherwise the memory cache starts empty |
| Cache.DegradeIdempotent | src/services/cache.js:50-53 | a second error changes nothing |
| Cache.Read | src/services/cache.js:62-75 | `get` returns a value only without an error and with a backend; on Redis it is the live stored value; on memory it is the live stored value and is never falsy (a falsy value reads as `null`) |
| Cache.Expiry | src/services/cache.js:87-98 | a truthy ttl expires after ttl seconds; a falsy ttl means no expiry on Redis and the standard 3600 s on memory |
| Cache.Write | src/services/cache.js:84-106 | `set` answers true exactly when no error occurs and a backend exists; on false nothing changes; on true only the active store gets the entry; the backend never changes |
| Cache.Erase | src/services/cache.js:113-127 | `delete` answers true exactly when no error occurs and a backend exists; on true only the key is removed from the active store |
| Cache.ValidHasBackend | src/services/cache.js:84-127 | a valid service always has a backend, so `set` and `delete` fail only on an error |
| Cache.NeverPromoted | src/services/cache.js:13-54 | `set`, `delete` and the error handler keep the service valid; once `useRedis` is false nothing makes it true again; memory is never dropped |
| Cache.WriteThenRead | src/services/cache.js:62-98 | set then get before expiry returns the value, except that the memory cache reads a falsy value back as `null` |
| Cache.EraseThenRead | src/services/cache.js:62-120 | after a handled delete the key reads as `null` |
| Cache.OtherKeysUnchanged | src/services/cache.js:84-127 | `set` and `delete` on one key leave every other key's reads unchanged, with or without errors |
| Cache.CacheService.constructor | src/services/cache.js:10-20 | the fields after construction equal `Initial(useRedis)` |
| Cache.CacheService.OnRedisError | src/services/cache.js:47-54 | the handler updates the fields exactly as `Degrade` says |
| Cache.CacheService.Get | src/services/cache.js:62-75 | the method returns `Read` of the current fields and changes nothing |
| Cache.CacheService.Set | src/services/cache.js:84-106 | the new fields and the answer are `Write` of the old fields |
| Cache.CacheService.Delete | src/services/cache.js:113-127 | the new fields and the answer are `Erase` of the old fields |
| Cache.CacheService.GetVersionTag | src/services/cache.js:134-137 | reads the tenant key |
| Cache.CacheService.SetVersionTag | src/services/cache.js:146-149 | writes the tenant key with the given ttl |
| Rules.TableLookup | src/services/ruleEngine.js:28 | `rules[id] \|\| rules.default` is a value of the table: the tenant's rule when it is truthy, else the default rule, and never empty while the default rule is truthy |
| Rules.Resolve | src/services/ruleEngine.js:22-35 | `getVersionTag` never changes the cache backend; a truthy cached tag is returned with the cache untouched; on a miss the answer is the table lookup, a value of the table, and the new cache is exactly the write of that answer under the tenant key with ttl 3600 |
| Rules.RuleWriteTtl | src/services/ruleEngine.js:44 | an absent ttl becomes the default 3600; a given one is passed on unchanged |
| Rules.SetRule | src/services/ruleEngine.js:44-50 | `setVersionRule` sets the table entry, leaves every other entry unchanged and adds no other key; it writes the cache with ttl 3600 when none is given; its answer is only the cache write's, and the table is updated even when that write fails |
| Rules.ResolveOnHit | src/services/ruleEngine.js:24-34 | on a truthy cached tag `getVersionTag` returns that tag, leaves the cache alone and gives the same answer whatever the table holds |
| Rules.ResolveOnMiss | src/services/ruleEngine.js:27-32 | on a miss the result is the tenant's truthy rule, else the default rule; after a successful write it reads back from the cache for the next 3600 s and no longer from then on; no other key changes |
| Rules.SeededResolution | src/services/ruleEngine.js:10-28 | with the seeded table and a cold cache, an unseeded tenant gets `1.8.0-stable` and `enterprise-a` gets `2.0.0-beta` |
| Rules.SetRuleThenResolve | src/services/ruleEngine.js:24-49 | after `setVersionRule(id, v)` with a truthy `v`, the next lookup returns `v` when the cache write succeeded, at any later time and even if the lookup's own cache calls fail; when the write failed it returns `v` provided no live truthy entry for `id` is left in the cache |
| Rules.StaleAfterFailedWrite | src/services/ruleEngine.js:24-49 | a concrete Redis-backed state with a live stale entry, where a `set` that throws updates the table but the next lookup still returns the old tag |
| Rules.EntriesToMap | src/services/ruleEngine.js:58 | `Object.entries` read back as a map has every entry's key, and the last entry's key holds its value |
| Rules.EntriesToMapAt | src/services/ruleEngine.js:58 | the entries of an object become a map holding exactly those keys and values |
| Rules.WriteAll | src/services/ruleEngine.js:57-62 | the cache writes of the bulk update never change which backend the cache uses |
| Rules.WriteAllThenRead | src/services/ruleEngine.js:57-62 | after the bulk update, each entry whose cache write succeeded reads back its value for the next hour |
| Rules.WriteAllExpires | src/services/ruleEngine.js:57-62 | each entry whose cache write succeeded is written with the one-hour ttl: from `now` plus 3600 seconds on, its key reads back nothing |
| Rules.SetRulesTable | src/services/ruleEngine.js:57-62 | after the bulk update every entry key maps to its value and keys not among the entries keep their rule |
| Rules.RuleEngine.constructor | src/services/ruleEngine.js:8-15 | the table starts as the three-entry seed, which includes `default` |
| Rules.RuleEngine.GetVersionTag | src/services/ruleEngine.js:22-35 | the answer and the new cache state are `Resolve` of the old state; the table is never modified |
| Rules.RuleEngine.SetVersionRule | src/services/ruleEngine.js:44-50 | the new table, the new cache state and the answer are `SetRule` of the old ones; `default` stays mapped |
| Rules.RuleEngine.SetRules | src/services/ruleEngine.js:57-62 | the loop leaves the table equal to the old table overridden by the entries, and the cache equal to the writes applied in order |
| Rules.RuleEngine.GetDefaultRules | src/services/ruleEngine.js:68-70 | the snapshot equals the table; it is a value, so changing it cannot change the table |
| Storage.ObjectKey | src/services/storage.js:49 | the object key is the version tag, a `/`, then the file path, stated slice by slice |
| Storage.ObjectKeyInjective | src/services/storage.js:49 | for version tags without `/`, distinct artifacts never share an object key |
| Storage.LocalPath | src/services/storage.js:54 | the local path is the base path, a `/`, then the object key |
| Storage.Fetch | src/services/storage.js:50-56 | a store read succeeds exactly when the path is present, returns its stored content, and otherwise fails naming the path |
| Storage.StorageService.constructor | src/services/storage.js:11-21 | object storage stays on only if it was requested and its client is built |
| Storage.StorageService.InitOSS | src/services/storage.js:23-37 | a failed client build turns `useOSS` off; nothing turns it on |
| Storage.StorageService.UsesOss | src/services/storage.js:47 | reads go to the bucket exactly when `useOSS` holds and the client was built, so never once object storage is off |
| Storage.StorageService.ReadFile | src/services/storage.js:45-62 | on the branch `useOSS && ossClient` the bucket, else the local tree, is asked for the composed key or path; the read succeeds exactly when it is present, returns exactly its stored content, and otherwise re-throws naming it |
| Storage.StorageService.FileExists | src/services/storage.js:70-84 | `fileExists` never fails and, in the model, is true exactly when the `readFile` lookup of the same key or path succeeds; it uses the object key `versionTag/filePath` when object storage is in use and the local path otherwise |
| Storage.StorageService.ReadIndexHtml | src/services/storage.js:91-93 | `readIndexHtml(v)` is `readFile("index.html", v)` |
| Storage.DegradedReadsLocal | src/services/storage.js:47-56 | once object storage is off, a read returns the local file's content, or fails naming the local path, with nothing substituted |
| Injector.KeySeq | src/services/htmlInjector.js:15-21 | the property names of an object, in order |
| Injector.Get | src/services/htmlInjector.js:17-19 | a property read is defined exactly for the object's own names |
| Injector.GetAt | src/services/htmlInjector.js:17-19 | in an object with distinct names each name reads back its own value |
| Injector.Put | src/services/htmlInjector.js:20 | assigning a property sets it, leaves the others alone and keeps an existing name in place |
| Injector.PutFront | src/services/htmlInjector.js:20 | assigning the first property of an object replaces its value and keeps every name and every other property |
| Injector.PutBehindGet | src/services/htmlInjector.js:20 | assigning a property other than the first leaves the first in place, so access behaves as after assigning it in the rest of the object |
| Injector.PutBehindKeys | src/services/htmlInjector.js:20 | assigning a property other than the first keeps the first name first, and adds the new name last only when the object lacked it |
| Injector.PutDistinct | src/services/htmlInjector.js:20 | assignment keeps names distinct |
| Injector.TailDistinct | src/services/htmlInjector.js:20 | the rest of an object with distinct names has distinct names |
| Injector.Spread | src/services/htmlInjector.js:20 | the names of `{...base, ...over}` are exactly the names of `base` and of `over` |
| Injector.SpreadGet | src/services/htmlInjector.js:20 | after `{...base, ...over}` a property reads as in `over` when `over` has it, else as in `base` |
| Injector.SpreadPrefix | src/services/htmlInjector.js:15-21 | spreading keeps `base`'s names first, in order |
| Injector.SpreadDistinct | src/services/htmlInjector.js:20 | spreading keeps names distinct |
| Injector.PropOr | src/services/htmlInjector.js:17-19 | `o.key \|\| d` is either `d` or the property's own value, and then that value is truthy |
| Injector.Defaults | src/services/htmlInjector.js:15-19 | the literal part of the merged config has exactly the names `enterprise_id`, `theme`, `feature_flags`, `api_base_url`, in source order |
| Injector.DefaultsShape | src/services/htmlInjector.js:15-19 | the literal's four names are distinct, and looking them up gives the tenant id and the three `config.x \|\| default` values (`'default'`, `[]`, `'/api'`); `AppConfigFields` builds on these lookups |
| Injector.AppConfig | src/services/htmlInjector.js:15-21 | the merged config has exactly the four names and the names of `config` |
| Injector.AppConfigKeys | src/services/htmlInjector.js:15-21 | the merged config starts with `enterprise_id`, `theme`, `feature_flags`, `api_base_url` and has distinct names |
| Injector.AppConfigFields | src/services/htmlInjector.js:15-21 | each of the four takes `config`'s value whenever `config` has it, `enterprise_id` included, and otherwise takes the argument, `'default'`, `[]` or `'/api'`; every other property is `config`'s |
| Injector.PropOrWhenPresent | src/services/htmlInjector.js:17-19 | `config.x \|\| d` is the property when it is truthy and `d` otherwise |
| Injector.ConfigScript | src/services/htmlInjector.js:24-28 | the script block is exactly the opening `\n    <script>\n      window.__APP_CONFIG__ = `, then the JSON text verbatim, then the closing `;\n    </script>\n    `; it contains a `$` only when the JSON does |
| Injector.ScriptAssigns | src/services/htmlInjector.js:24-28 | the script block contains the statement `window.__APP_CONFIG__ = <json>;` as one contiguous piece |
| Injector.IndexFrom | src/services/htmlInjector.js:31-36 | the search finds the first occurrence of the pattern at or after a position, or reports that there is none |
| Injector.IndexOf | src/services/htmlInjector.js:31-36 | `includes` holds exactly when there is an occurrence, and the index is the first one |
| Injector.FirstAtIndexOf | src/services/htmlInjector.js:32-37 | a first occurrence at `i` is what the search returns |
| Injector.Expand | src/services/htmlInjector.js:32-37 | the `$` expansion of a replacement without `$` is the replacement itself |
| Injector.ExpandMatched | src/services/htmlInjector.js:32 | `$&` at the front of a replacement text expands to the matched anchor, followed by the rest of the text |
| Injector.ReplaceFirst | src/services/htmlInjector.js:32 | `s.replace(pat, repl)` leaves `s` alone when `pat` does not occur, and otherwise, for a replacement without `$`, replaces exactly the first occurrence by the replacement |
| Injector.InsertBefore | src/services/htmlInjector.js:32-37 | replacing the first anchor by script + anchor inserts the script at the anchor's position |
| Injector.Splice | src/services/htmlInjector.js:30-41 | for a script without `$`, the output is the input with the script inserted at one position, so it grows by exactly the script's length and removing the script gives back the input |
| Injector.SpliceBeforeHeadClose | src/services/htmlInjector.js:31-33 | when `</head>` first occurs at `i`, the output is `html[..i] + script + html[i..]`, wherever `<body>` occurs |
| Injector.SpliceBeforeBodyOpen | src/services/htmlInjector.js:36-38 | without `</head>`, the script goes before the first `<body>` in the same way |
| Injector.SplicePrepend | src/services/htmlInjector.js:41 | with neither anchor the output is `script + html` |
| Injector.InjectConfig | src/services/htmlInjector.js:13-42 | when the JSON text has no `$`, `injectConfig` inserts its script block once into the otherwise unchanged document |
| Injector.InjectAssignsAppConfig | src/services/htmlInjector.js:13-42 | when the JSON text has no `$`, the injected document contains `window.__APP_CONFIG__ = <json>;` for the JSON text of the merged configuration |
| Injector.InjectNotIdempotent | src/services/htmlInjector.js:13-42 | injecting twice gives a different, longer document than injecting once |
| Injector.DollarPatternExpands | src/services/htmlInjector.js:32 | a script containing `$&` is not inserted verbatim: it expands to the matched anchor |
| Injector.GenerateDefaultConfig | src/services/htmlInjector.js:49-69 | every table entry has exactly `theme`, `feature_flags`, `api_base_url`, in that order |
| Injector.DefaultConfigFallback | src/services/htmlInjector.js:69 | any tenant other than `enterprise-a` and `enterprise-b` gets the `default` entry, with theme `default` and base URL `/api` |
| AdminRoutes.PostDecision | src/routes/admin.js:19-38 | a POST is invalid exactly when a field is falsy; a conflict reports the tenant's existing truthy rule, which differs from the requested version; an accepted POST has both fields and a tenant with no truthy rule or with the requested one |
| AdminRoutes.PostResponse | src/routes/admin.js:19-49 | a POST answers 200, 400 or 409; 400 carries the missing-parameters error; 200 echoes the tenant and version |
| AdminRoutes.PostTable | src/routes/admin.js:28-40 | a POST never removes a rule and adds no tenant other than the requested one |
| AdminRoutes.PostOutcomes | src/routes/admin.js:19-49 | POST returns 400 exactly when a field is falsy, 409 exactly when the tenant has a truthy rule for another version (with both versions in the body) and 200 exactly when it is accepted |
| AdminRoutes.PostTableEffect | src/routes/admin.js:19-49 | a 400 or 409 leaves the table unchanged; a 200 maps the tenant to the given version and leaves every other rule alone |
| AdminRoutes.PostNeverRemaps | src/routes/admin.js:31 | a POST never removes a rule and never changes a truthy rule, `default` included, to another version |
| AdminRoutes.PostsNeverRemap | src/routes/admin.js:31 | the same holds over any sequence of POSTs |
| AdminRoutes.HandlePost | src/routes/admin.js:15-54 | the response and the new table are the decision on the old snapshot; only an accepted POST touches the cache, and it does so exactly as `setVersionRule` does |
| AdminRoutes.HandleList | src/routes/admin.js:60-63 | GET returns 200 with the snapshot of the table |
| AdminRoutes.DeleteResponse | src/routes/admin.js:69-95 | DELETE gives 400 for an empty id, 404 for a tenant without a truthy rule, and 500 otherwise, because the engine defines no delete; it never succeeds |
| AdminRoutes.HandleDelete | src/routes/admin.js:69-95 | the handler answers `DeleteResponse` on the snapshot and changes nothing |
| BusinessRoutes.TenantOrDefault | src/routes/business.js:58-103 | the served tenant is the attached id when it is truthy and `default` otherwise, so it is never empty |
| BusinessRoutes.HandleRouteMatch | src/routes/business.js:29-46 | a falsy tenant gives 400 and the cache is untouched; otherwise the body carries the tenant, the path or `null`, and the version `getVersionTag` resolves, with that call's cache effect |
| BusinessRoutes.HomepageResponse | src/routes/business.js:66-91 | a failed read gives 404 with a page naming the version and the tenant, and nothing is injected; a successful read gives 200 with the tenant's config injected |
| BusinessRoutes.HandleHomepage | src/routes/business.js:56-96 | the page is `injectConfig(readIndexHtml(getVersionTag(id)), id, generateDefaultConfig(id))`, or the 404 page, and the cache changes as `getVersionTag` says |
| BusinessRoutes.HomepageInjection | src/routes/business.js:86-87 | the injected config names the tenant and carries the table's settings for it, and it is inserted once into the unchanged document |
| BusinessRoutes.HandleConfig | src/routes/business.js:102-110 | `/api/config` always answers 200 with JSON whose names are exactly `enterprise_id`, `theme`, `feature_flags` and `api_base_url` |
| BusinessRoutes.ConfigResponseFields | src/routes/business.js:102-109 | `/api/config` returns 200 with `enterprise_id` first and set to the tenant, followed by exactly `generateDefaultConfig(id)`'s fields |
| BusinessRoutes.ServedTenant | src/middleware/auth.js:24-40 | after authentication the served tenant is the claimed tenant, or `default` when the claims name none; without an accepted token it is the cookie tenant |
| Routing.UpperChar | src/middleware/router.js:35-47 | upper-casing moves `a` to `z` onto `A` to `Z` and keeps every other character |
| Routing.Upper | src/middleware/router.js:35-47 | `toUpperCase` keeps the length and upper-cases each character |
| Routing.UpperIdempotent | src/middleware/router.js:35-47 | upper-casing twice is upper-casing once |
| Routing.RouteKey | src/middleware/router.js:35-47 | the key is the upper-cased method, a `:`, then the path, stated slice by slice |
| Routing.RouteKeyIgnoresCase | src/middleware/router.js:35-47 | methods with the same upper-case form give the same key |
| Routing.RouteKeyInjective | src/middleware/router.js:35-47 | when methods contain no `:`, a key determines the path and the upper-cased method, even for paths that contain `:` |
| Routing.RouterDiscovery.constructor | src/middleware/router.js:24-26 | the registry starts empty |
| Routing.RouterDiscovery.RegisterRoute | src/middleware/router.js:34-38 | the key is bound to the handler, replacing an earlier binding in place; a new key goes to the end of the listing; the route is then found under any method with the same upper-case form; lookups of every other key are unchanged |
| Routing.RouterDiscovery.DiscoverRoute | src/middleware/router.js:46-49 | a lookup finds the handler exactly when the key is registered and gives `null` otherwise |
| Routing.RouterDiscovery.GetAllRoutes | src/middleware/router.js:55-57 | the listing names every registered key exactly once, in first-registration order |
| Routing.DistinctCard | src/middleware/router.js:56 | a listing without duplicates has as many entries as there are routes |
| Auth.Cookie | src/middleware/auth.js:13-27 | a cookie read is defined exactly when cookies were parsed and contain the name |
| Auth.SelectToken | src/middleware/auth.js:10-22 | a truthy token cookie is the token; otherwise a token comes only from a header that is exactly `Bearer ` followed by it; no token means no truthy cookie and no header in the `Bearer ` form |
| Auth.CookieTenant | src/middleware/auth.js:27-39 | the fallback tenant is the truthy tenant cookie, else `default`, and is never empty |
| Auth.ClaimTenant | src/middleware/auth.js:34 | the claimed tenant is the first truthy of `enterprise_id` and `enterpriseId`, else the raw `enterprise` claim, which may be absent |
| Auth.Authenticate | src/middleware/auth.js:8-48 | a user is attached only for a truthy selected token that `verify` accepts, with the claimed tenant; otherwise the tenant is the cookie tenant; an accepted token always attaches its claims; every request passes |
| Auth.CookieTakesPriority | src/middleware/auth.js:13-16 | with a truthy token cookie, the Authorization header has no effect on the outcome |
| Auth.BearerOnly | src/middleware/auth.js:17-28 | without a token cookie, a header not starting with `Bearer ` counts as no header and gives the fallback |
| Auth.BearerTokenExtracted | src/middleware/auth.js:19-24 | `Bearer t` hands exactly `t` to the verifier, and a bare `Bearer ` is no token |
| Auth.FallbackTenant | src/middleware/auth.js:24-40 | no token and a rejected token give the same fallback: no user, the truthy tenant cookie or else `default` |
| Auth.AcceptedTokenWithoutTenant | src/middleware/auth.js:33-35 | for any accepted claims without a truthy `enterprise_id` or `enterpriseId`, the user is the claims and the tenant is the raw `enterprise` claim: unset when absent, empty when empty, because no default is applied on this path |
| Auth.SubjectOnlyClaims | src/middleware/auth.js:33-35 | an instance: claims carrying only a subject leave the tenant unset |

## Left out

- Rules.SetRuleThenResolve: the lookup is shown to return the new version after a failed cache write only when no live truthy entry for the tenant is cached. `Rules.StaleAfterFailedWrite` shows that without this condition a stale cached tag stays in force until it expires.
- The `node-cache` and `ioredis` internals are not modelled: the periodic expiry sweep, connection events, reconnection timers and the `connect` event. Both stores are maps with an explicit expiry instant, and an entry is served while `now` is before that instant.
- `ali-oss` and `fs/promises` are each a map from key or path to content. `path.join` becomes concatenation with `/`, without its normalisation of `.`, `..` or repeated separators. Existence (`head` at src/services/storage.js:74, `access` at src/services/storage.js:78) is identified with readability, so `Storage.StorageService.FileExists` agrees with `ReadFile` only in the model: an existing directory or an unreadable file, for which `head` or `access` succeeds but `get` or `readFile` fails, is not modelled.
- `JSON.stringify` is the parameter `stringify`, since its output format is not modelled. The splice properties assume that its output contains no `$`.
- The async calls and `Promise.all` in `setRules` run sequentially in entry order. Entries have distinct keys, so the order does not matter (`Rules.WriteAllThenRead`).
- JavaScript property lookups that reach the prototype chain are not modelled, such as a tenant named `constructor` or `__proto__`. Table lookups see only own entries.
- Claims and request bodies have string values only. Non-string `enterprise_id`, `version_tag` or claim values, and values that are numbers or objects, are not modelled.
- A `ttl` is a natural number. A negative or non-integer `ttl` in a request is not modelled. An absent `ttl` is `None` and gets 3600; `null` or `0` is `Some(0)`.
- Error message texts and the HTML of the 404 page are not modelled. Each error is a body constructor carrying the fields the source puts into it.
- Upper-casing covers ASCII only. Unicode case mapping in `toUpperCase` is not modelled.
- `jwt.verify` is the parameter `verify`, and signing and token generation are not modelled. The cookie name is the default `access_token` of the configuration.
- Injector.Put: JavaScript lists array-index property names (`"0"`, `"1"`, ...) before all other names, in numeric order; the model puts every new name last, so its order is JavaScript's only for objects without such names. The configuration objects of `generateDefaultConfig` have none.
- Injector.SpreadPrefix: for the same reason, that `base`'s names stay in front is shown for insertion order only and does not hold in JavaScript when `over` brings array-index names.
- Injector.AppConfigKeys: likewise, that the merged configuration starts with the four fixed names is JavaScript's order only when `config` has no array-index names.
- The `config = {}` default argument of `injectConfig` (src/services/htmlInjector.js:13) is not modelled: every caller passes an object, and `Injector.InjectConfig` always takes one. Passing `{}` explicitly is the same call.
- JSON numbers are integers (`JNum`). Fractional and non-finite numbers do not occur in the configuration table and are not modelled; their truthiness (`NaN` is falsy) is therefore not modelled either.
- The outer `catch` blocks are not modelled: the middleware's disaster fallback to `default` (src/middleware/auth.js:43-47), the 500 of the POST handler (src/routes/admin.js:50-53) and the `next(error)` of the homepage (src/routes/business.js:92-95). With the model's total functions these are unreachable.
- The handler value in the route registry is truthy by assumption, so `routes.get(key) || null` gives the handler whenever the key is bound.
- `routerMiddleware` is not modelled because it only records a timestamp. The bootstrap file, the router aggregation, configuration parsing and logging are also not modelled.
