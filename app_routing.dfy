/**
 * The application's route table as the app assembles it: every path under
 * `/api`, the versioned controllers further under `/v1`.  The status and
 * user groups mirror their controllers' own `routes` functions.
 */
module AppRouting {
  import opened Wrappers
  import opened Routes
  import SessionController

  const STATUS_NON_VERSIONED := RouteGroup(Some("/status"), [Handler(Get, "/version")])
  const STATUS := RouteGroup(Some("/status"), [Handler(Get, "/health")])
  const USERS := RouteGroup(Some("/users"), [Handler(Post, "/register")])
  const EXTERNAL_BANK_INSTITUTIONS :=
    RouteGroup(Some("/external-bank-institutions"), [Handler(Get, "/"), Handler(Get, "/countries-overview")])

  const API := "/api"
  const V1 := "/v1"

  /**
   * The openapi controller's `routes`: the JSON and YAML documents, no prefix
   * of their own.  The app adds a `non_versioned_routes` group of that
   * controller, which its source does not define; `BuildAppRoutes` takes that
   * group as a parameter, and `OpenapiPaths` shows where these two handlers
   * would land.
   */
  const OPENAPI := RouteGroup(None, [Handler(Get, "/openapi.json"), Handler(Get, "/openapi.yaml")])

  /**
   * `routes` of the app: the builder calls in their order.  Every group ends
   * up under `/api`, and every group added after `.prefix("/v1")` under
   * `/api/v1`.
   */
  method BuildAppRoutes(openapiNonVersioned: RouteGroup) returns (groups: seq<RouteGroup>)
    ensures |groups| == 6
    ensures groups[0] == STATUS_NON_VERSIONED.WithPrefix(API + "/status")
    ensures groups[1] == Prefixed(Some(API), openapiNonVersioned)
    ensures groups[2] == USERS.WithPrefix(API + V1 + "/users")
    ensures groups[3] == SessionController.ROUTES.WithPrefix(API + V1 + "/sessions")
    ensures groups[4] == STATUS.WithPrefix(API + V1 + "/status")
    ensures groups[5] == EXTERNAL_BANK_INSTITUTIONS.WithPrefix(API + V1 + "/external-bank-institutions")
    ensures forall i :: 0 <= i < |groups| ==> groups[i].prefix.Some? && API <= groups[i].prefix.value
    ensures forall i :: 2 <= i < |groups| ==> API + V1 <= groups[i].prefix.value
  {
    var builder := new ExtendedAppRoutes.Empty();
    builder.Prefix(API);
    builder.AddRoute(STATUS_NON_VERSIONED);
    builder.AddRoute(openapiNonVersioned);
    builder.Prefix(V1);
    builder.AddRoute(USERS);
    builder.AddRoute(SessionController.ROUTES);
    builder.AddRoute(STATUS);
    builder.AddRoute(EXTERNAL_BANK_INSTITUTIONS);
    groups := builder.Into();
    VersionedUnder(API + V1, "/users");
    VersionedUnder(API + V1, "/sessions");
    VersionedUnder(API + V1, "/status");
    VersionedUnder(API + V1, "/external-bank-institutions");
    assert API <= API + V1;
    UnderApi(API, "/status");
    UnderApi(API, openapiNonVersioned.prefix.GetOr(""));
  }

  lemma VersionedUnder(versioned: string, own: string)
    requires API <= versioned
    ensures versioned <= versioned + own && API <= versioned + own
  {
    assert (versioned + own)[..|versioned|] == versioned;
  }

  lemma UnderApi(api: string, own: string)
    ensures api <= api + own
  {
    assert (api + own)[..|api|] == api;
  }

  /** If the group were the controller's `routes`, its documents would answer at `/api/openapi.json` and `/api/openapi.yaml`. */
  lemma OpenapiPaths()
    ensures Prefixed(Some(API), OPENAPI).Paths() == ["/api/openapi.json", "/api/openapi.yaml"]
  {
    assert API + "" == "/api";
    assert "/api" + "/openapi.json" == "/api/openapi.json";
    assert "/api" + "/openapi.yaml" == "/api/openapi.yaml";
  }

  /** Spelled out, the non-versioned status group sits under `/api/status`. */
  lemma NonVersionedSpelledOut()
    ensures API + "/status" == "/api/status"
  {
  }

  /** Spelled out, the users and sessions groups sit under `/api/v1`. */
  lemma AccountPrefixesSpelledOut()
    ensures API + V1 + "/users" == "/api/v1/users"
    ensures API + V1 + "/sessions" == "/api/v1/sessions"
  {
    assert API + V1 == "/api/v1";
  }

  /** Spelled out, the versioned status group sits under `/api/v1`. */
  lemma StatusPrefixSpelledOut()
    ensures API + V1 + "/status" == "/api/v1/status"
  {
    assert API + V1 == "/api/v1";
  }

  /** Spelled out, the institutions group sits under `/api/v1`. */
  lemma InstitutionsPrefixSpelledOut()
    ensures API + V1 + "/external-bank-institutions" == "/api/v1/external-bank-institutions"
  {
    assert API + V1 == "/api/v1";
  }

  /** The stored paths of the login and current-session endpoints are `/api/v1/sessions/` and `/api/v1/sessions/current`. */
  lemma SessionPaths()
    ensures Prefixed(Some("/api/v1"), SessionController.ROUTES).Paths() == ["/api/v1/sessions/", "/api/v1/sessions/current"]
  {
    assert "/api/v1" + "/sessions" == "/api/v1/sessions";
    assert "/api/v1/sessions" + "/" == "/api/v1/sessions/";
    assert "/api/v1/sessions" + "/current" == "/api/v1/sessions/current";
  }
}
