/** HTTP responses of the route handlers, reduced to a status code and the
    shape of the body. Error texts are not modelled: each error body is a
    constructor of its own. */
module Http {
  import opened Common
  import Injector

  datatype Body =
    | MissingParameters
    | EmptyEnterpriseId
    | RuleConflict(enterpriseId: string, existedVersion: string, newVersion: string)
    | RuleUpdated(enterpriseId: string, versionTag: string)
    | RuleList(rules: map<string, string>)
    | RuleNotFound(enterpriseId: string)
    | InternalError(message: string)
    | VersionMatch(enterpriseId: string, path: Option<string>, version: string)
    | Page(html: string)
    | MissingVersionPage(versionTag: string, enterpriseId: string)
    | Json(data: Injector.Object)

  datatype Response = Response(status: nat, body: Body)
}
