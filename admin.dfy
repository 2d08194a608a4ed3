/** The administrative rule endpoints: POST, GET and DELETE `/api/rules`.
    Each handler's decision is a function of the table snapshot and the
    request; only an accepted POST changes the engine. */
module AdminRoutes {
  import opened Common
  import Rules
  import opened Http

  /** The JSON body of a POST: missing fields are `None`; a `ttl` of `null`
      or `0` is `Some(0)`. */
  datatype RuleRequest = RuleRequest(enterpriseId: Option<string>, versionTag: Option<string>, ttl: Option<nat>)

  /** What a POST decides before touching the engine. */
  datatype PostOutcome = Invalid | Conflicting(existed: string) | Accepted

  /** A POST is refused unless both fields are truthy, and conflicts when
      the tenant already has a different truthy rule. */
  function PostDecision(rules: map<string, string>, req: RuleRequest): (o: PostOutcome)
    ensures o == Invalid <==> !Truthy(req.enterpriseId) || !Truthy(req.versionTag)
    ensures o.Conflicting? ==> && req.enterpriseId.value in rules
                               && o.existed == rules[req.enterpriseId.value]
                               && o.existed != "" && o.existed != req.versionTag.value
    ensures o == Accepted ==> && Truthy(req.enterpriseId) && Truthy(req.versionTag)
                              && (req.enterpriseId.value !in rules
                                  || rules[req.enterpriseId.value] in {"", req.versionTag.value})
  {
    if !Truthy(req.enterpriseId) || !Truthy(req.versionTag) then Invalid
    else
      var id, tag := req.enterpriseId.value, req.versionTag.value;
      if id in rules && rules[id] != "" && rules[id] != tag then Conflicting(rules[id])
      else Accepted
  }

  /** The response to a POST on a table snapshot. */
  function PostResponse(rules: map<string, string>, req: RuleRequest): (resp: Response)
    ensures resp.status in {200, 400, 409}
    ensures resp.status == 400 ==> resp.body == MissingParameters
    ensures resp.status == 200 ==> && Truthy(req.enterpriseId) && Truthy(req.versionTag)
                                   && resp.body == RuleUpdated(req.enterpriseId.value, req.versionTag.value)
  {
    match PostDecision(rules, req)
    case Invalid => Response(400, MissingParameters)
    case Conflicting(existed) =>
      Response(409, RuleConflict(req.enterpriseId.value, existed, req.versionTag.value))
    case Accepted => Response(200, RuleUpdated(req.enterpriseId.value, req.versionTag.value))
  }

  /** The table after a POST. */
  function PostTable(rules: map<string, string>, req: RuleRequest): (t: map<string, string>)
    ensures rules.Keys <= t.Keys
    ensures forall k :: k in t && k !in rules ==> req.enterpriseId == Some(k)
  {
    if PostDecision(rules, req) == Accepted then rules[req.enterpriseId.value := req.versionTag.value]
    else rules
  }

  /** The three outcomes of a POST, each with its condition stated both ways. */
  lemma PostOutcomes(rules: map<string, string>, req: RuleRequest)
    ensures PostResponse(rules, req).status == 400
            <==> !Truthy(req.enterpriseId) || !Truthy(req.versionTag)
    ensures PostResponse(rules, req).status == 409
            <==> && Truthy(req.enterpriseId) && Truthy(req.versionTag)
                 && req.enterpriseId.value in rules && rules[req.enterpriseId.value] != ""
                 && rules[req.enterpriseId.value] != req.versionTag.value
    ensures PostResponse(rules, req).status == 409 ==>
              PostResponse(rules, req).body
              == RuleConflict(req.enterpriseId.value, rules[req.enterpriseId.value], req.versionTag.value)
    ensures PostResponse(rules, req).status == 200 <==> PostDecision(rules, req) == Accepted
  {
  }

  /** Only an accepted POST changes the table, and then only at the given
      tenant, which afterwards holds the given version. */
  lemma PostTableEffect(rules: map<string, string>, req: RuleRequest)
    ensures PostResponse(rules, req).status != 200 ==> PostTable(rules, req) == rules
    ensures PostResponse(rules, req).status == 200 ==>
              && PostTable(rules, req)[req.enterpriseId.value] == req.versionTag.value
              && forall k :: k in rules && k != req.enterpriseId.value ==> PostTable(rules, req)[k] == rules[k]
  {
  }

  /** A POST never changes a tenant's truthy rule to another version, the
      'default' rule included, and never removes a rule. */
  lemma PostNeverRemaps(rules: map<string, string>, req: RuleRequest)
    ensures rules.Keys <= PostTable(rules, req).Keys
    ensures forall k :: k in rules && rules[k] != "" ==> PostTable(rules, req)[k] == rules[k]
  {
  }

  /** The table after a sequence of POSTs. */
  function PostAll(rules: map<string, string>, reqs: seq<RuleRequest>): map<string, string>
    decreases |reqs|
  {
    if |reqs| == 0 then rules else PostAll(PostTable(rules, reqs[0]), reqs[1..])
  }

  /** However many POSTs arrive, every truthy rule keeps its version. */
  lemma {:induction false} PostsNeverRemap(rules: map<string, string>, reqs: seq<RuleRequest>)
    ensures rules.Keys <= PostAll(rules, reqs).Keys
    ensures forall k :: k in rules && rules[k] != "" ==> PostAll(rules, reqs)[k] == rules[k]
    decreases |reqs|
  {
    if |reqs| > 0 {
      PostNeverRemaps(rules, reqs[0]);
      PostsNeverRemap(PostTable(rules, reqs[0]), reqs[1..]);
    }
  }

  /** POST `/api/rules`. `fault` says whether the cache write fails. */
  method HandlePost(engine: Rules.RuleEngine, req: RuleRequest, now: int, fault: bool) returns (resp: Response)
    requires engine.Valid()
    modifies engine, engine.cache
    ensures engine.Valid()
    ensures resp == PostResponse(old(engine.defaultRules), req)
    ensures engine.defaultRules == PostTable(old(engine.defaultRules), req)
    ensures PostDecision(old(engine.defaultRules), req) != Accepted ==>
              engine.cache.State() == old(engine.cache.State())
    ensures PostDecision(old(engine.defaultRules), req) == Accepted ==>
              engine.cache.State()
              == Rules.SetRule(old(engine.defaultRules), old(engine.cache.State()), req.enterpriseId.value,
                               req.versionTag.value, req.ttl, now, fault).1
  {
    if !Truthy(req.enterpriseId) || !Truthy(req.versionTag) {
      return Response(400, MissingParameters);
    }
    var id, tag := req.enterpriseId.value, req.versionTag.value;
    var rules := engine.GetDefaultRules();
    if id in rules && rules[id] != "" && rules[id] != tag {
      return Response(409, RuleConflict(id, rules[id], tag));
    }
    var _ := engine.SetVersionRule(id, tag, req.ttl, now, fault);
    resp := Response(200, RuleUpdated(id, tag));
  }

  /** GET `/api/rules`: the snapshot of the table. */
  method HandleList(engine: Rules.RuleEngine) returns (resp: Response)
    ensures resp == Response(200, RuleList(engine.defaultRules))
  {
    var rules := engine.GetDefaultRules();
    resp := Response(200, RuleList(rules));
  }

  /** The message of the error raised by calling a method the engine does
      not define. */
  const MissingDeleteMessage := "ruleEngine.deleteVersionRule is not a function"

  /** The response to DELETE `/api/rules/:enterprise_id`. The rule engine
      has no `deleteVersionRule`, so for a mapped tenant the call raises an
      error that the handler turns into a 500. */
  function DeleteResponse(rules: map<string, string>, enterpriseId: string): (resp: Response)
    ensures enterpriseId == "" ==> resp == Response(400, EmptyEnterpriseId)
    ensures enterpriseId != "" && !(enterpriseId in rules && rules[enterpriseId] != "") ==>
              resp == Response(404, RuleNotFound(enterpriseId))
    ensures enterpriseId != "" && enterpriseId in rules && rules[enterpriseId] != "" ==>
              resp == Response(500, InternalError(MissingDeleteMessage))
    ensures resp.status != 200
  {
    if enterpriseId == "" then Response(400, EmptyEnterpriseId)
    else if !(enterpriseId in rules && rules[enterpriseId] != "") then Response(404, RuleNotFound(enterpriseId))
    else Response(500, InternalError(MissingDeleteMessage))
  }

  /** DELETE `/api/rules/:enterprise_id`: it never changes the engine. */
  method HandleDelete(engine: Rules.RuleEngine, enterpriseId: string) returns (resp: Response)
    ensures resp == DeleteResponse(engine.defaultRules, enterpriseId)
  {
    if enterpriseId == "" {
      return Response(400, EmptyEnterpriseId);
    }
    var rules := engine.GetDefaultRules();
    if !(enterpriseId in rules && rules[enterpriseId] != "") {
      return Response(404, RuleNotFound(enterpriseId));
    }
    resp := Response(500, InternalError(MissingDeleteMessage));
  }
}
