/**
 * The bank-data (GoCardless) API client: request-URL building and the
 * access-token renewal state.
 */
module BankClient {
  import opened Wrappers
  import opened Strings
  import opened AppErrors

  const API_V2 := "/api/v2"
  /** The endpoint suffixes, each `API_V2` followed by the resource path. */
  const TOKEN_NEW_SUFFIX := "/api/v2/token/new/"
  const TOKEN_REFRESH_SUFFIX := "/api/v2/token/refresh/"
  const INSTITUTIONS_SUFFIX := "/api/v2/institutions/"

  /** The value `api_url` takes when the configuration leaves it out. */
  const DEFAULT_API_URL := "https://bankaccountdata.gocardless.com/"

  /** The endpoint with a leading and a trailing slash added where missing. */
  function NormalizeEndpoint(endpoint: string): (n: string)
    ensures StartsWith(n, "/") && EndsWith(n, "/")
    ensures |endpoint| + (if StartsWith(endpoint, "/") then 0 else 1) <= |n|
    ensures StartsWith(endpoint, "/") ==> n[..|endpoint|] == endpoint
    ensures !StartsWith(endpoint, "/") ==> n[1..|endpoint| + 1] == endpoint
    ensures StartsWith(endpoint, "/") && EndsWith(endpoint, "/") ==> n == endpoint
    ensures |n| <= |endpoint| + 2
  {
    var leading := if StartsWith(endpoint, "/") then endpoint else "/" + endpoint;
    if EndsWith(leading, "/") then leading else leading + "/"
  }

  /** `build_request_url`: the API url with one trailing slash removed, then the normalised endpoint. */
  function BuildRequestUrl(apiUrl: string, endpoint: string): (url: string)
    ensures EndsWith(url, "/")
  {
    StripSuffix(apiUrl, "/") + NormalizeEndpoint(endpoint)
  }

  /** The url is the stripped API url followed by the normalised endpoint, and nothing else. */
  lemma RequestUrlShape(apiUrl: string, endpoint: string)
    ensures StartsWith(BuildRequestUrl(apiUrl, endpoint), StripSuffix(apiUrl, "/"))
    ensures EndsWith(BuildRequestUrl(apiUrl, endpoint), NormalizeEndpoint(endpoint))
    ensures |BuildRequestUrl(apiUrl, endpoint)| == |StripSuffix(apiUrl, "/")| + |NormalizeEndpoint(endpoint)|
  {
    Affixes(StripSuffix(apiUrl, "/"), NormalizeEndpoint(endpoint));
  }

  /** Only one slash is stripped from the API url: `x//` keeps one, so the result then holds `//`. */
  lemma StripsOneSlashOnly(base: string, endpoint: string)
    ensures BuildRequestUrl(base + "//", endpoint) == base + "/" + NormalizeEndpoint(endpoint)
    ensures !EndsWith(base, "/") ==> BuildRequestUrl(base + "/", endpoint) == BuildRequestUrl(base, endpoint)
  {
    var u := base + "//";
    assert u[|u| - 1..] == "/";
    assert u[..|u| - 1] == base + "/";
    var v := base + "/";
    assert v[|v| - 1..] == "/";
    assert v[..|v| - 1] == base;
  }

  /** An endpoint that already has both slashes is inserted unchanged. */
  lemma SlashedEndpointUnchanged(apiUrl: string, endpoint: string)
    requires StartsWith(endpoint, "/") && EndsWith(endpoint, "/")
    ensures BuildRequestUrl(apiUrl, endpoint) == StripSuffix(apiUrl, "/") + endpoint
  {
  }

  /** Supplying a missing leading or trailing slash does not change the url. */
  lemma SlashesAreNormalised(apiUrl: string, endpoint: string)
    ensures !StartsWith(endpoint, "/") ==>
      BuildRequestUrl(apiUrl, "/" + endpoint) == BuildRequestUrl(apiUrl, endpoint)
    ensures !EndsWith(endpoint, "/") ==>
      BuildRequestUrl(apiUrl, endpoint + "/") == BuildRequestUrl(apiUrl, endpoint)
  {
    var e := endpoint;
    if !StartsWith(e, "/") {
      assert StartsWith("/" + e, "/");
    }
    if !EndsWith(e, "/") {
      var t := e + "/";
      assert t[|t| - 1..] == "/";
      assert EndsWith(t, "/");
      if StartsWith(e, "/") {
        assert StartsWith(t, "/") by { assert t[..1] == e[..1]; }
      } else if e == [] {
        assert t == "/";
        assert NormalizeEndpoint(e) == "/";
      } else {
        assert t[0] == e[0];
        assert e[0] != '/';
        assert !StartsWith(t, "/");
        var s := "/" + e;
        assert s + "/" == "/" + t;
        assert s[|s| - 1..] == e[|e| - 1..];
        assert !EndsWith(s, "/");
      }
    }
  }

  /** With a server url that has no trailing slash, the token path is appended as written. */
  lemma TokenPaths(base: string)
    requires !EndsWith(base, "/")
    ensures BuildRequestUrl(base, TOKEN_NEW_SUFFIX) == base + "/api/v2/token/new/"
    ensures BuildRequestUrl(base, TOKEN_REFRESH_SUFFIX) == base + "/api/v2/token/refresh/"
    ensures BuildRequestUrl(base, INSTITUTIONS_SUFFIX) == base + "/api/v2/institutions/"
  {
    Slashed(TOKEN_NEW_SUFFIX);
    SlashedEndpointUnchanged(base, TOKEN_NEW_SUFFIX);
    Slashed(TOKEN_REFRESH_SUFFIX);
    SlashedEndpointUnchanged(base, TOKEN_REFRESH_SUFFIX);
    Slashed(INSTITUTIONS_SUFFIX);
    SlashedEndpointUnchanged(base, INSTITUTIONS_SUFFIX);
  }

  /** The suffixes are `API_V2` followed by their resource path. */
  lemma SuffixesExtendApiV2()
    ensures TOKEN_NEW_SUFFIX == API_V2 + "/token/new/"
    ensures TOKEN_REFRESH_SUFFIX == API_V2 + "/token/refresh/"
    ensures INSTITUTIONS_SUFFIX == API_V2 + "/institutions/"
  {
  }

  lemma Slashed(s: string)
    requires |s| >= 1 && s[0] == '/' && s[|s| - 1] == '/'
    ensures StartsWith(s, "/") && EndsWith(s, "/")
  {
    assert s[..1] == "/";
    assert s[|s| - 1..] == "/";
  }

  /** The default API url yields the production token endpoint. */
  lemma DefaultTokenUrl()
    ensures BuildRequestUrl(DEFAULT_API_URL, TOKEN_NEW_SUFFIX)
      == "https://bankaccountdata.gocardless.com/api/v2/token/new/"
  {
    var base := "https://bankaccountdata.gocardless.com";
    assert DEFAULT_API_URL == base + "/";
    assert !EndsWith(base, "/") by { assert base[|base| - 1] == 'm'; }
    StripsOneSlashOnly(base, TOKEN_NEW_SUFFIX);
    TokenPaths(base);
  }

  /** Seconds are `u32` values in the token responses. */
  const U32_LIMIT := 0x1_0000_0000
  type U32 = x: int | 0 <= x < U32_LIMIT

  datatype JwtResponse = JwtResponse(access: string, accessExpires: U32, refresh: string, refreshExpires: U32)
  datatype RefreshResponse = RefreshResponse(access: string, accessExpires: U32)

  /**
   * The renewal job's period in seconds: `access_expires - 5` on `u32`.
   * Below 5 the subtraction overflows, which is a failure (`None`).
   */
  function RenewalPeriod(accessExpires: U32): (secs: Option<U32>)
    ensures secs.Some? <==> accessExpires >= 5
    ensures secs.Some? ==> secs.value + 5 == accessExpires
  {
    if accessExpires < 5 then None else Some(accessExpires - 5)
  }

  /** The shared token the renewal job overwrites in place. */
  class TokenHolder {
    var token: JwtResponse

    constructor (initial: JwtResponse)
      ensures token == initial
    {
      token := initial;
    }

    /** `get_token`: the current access token. */
    function GetToken(): (access: string)
      reads this
      ensures access == token.access
    {
      token.access
    }

    /**
     * One renewal step, given the outcome of the refresh request made with
     * `token.refresh`: a success replaces the access token and its expiry and
     * keeps the refresh token; a failure is logged and changes nothing.
     */
    method ApplyRenewal(outcome: Result<RefreshResponse, AppError>)
      modifies this
      ensures outcome.Ok? ==> token == JwtResponse(outcome.value.access, outcome.value.accessExpires,
                                                  old(token.refresh), old(token.refreshExpires))
      ensures outcome.Err? ==> token == old(token)
    {
      match outcome {
        case Ok(res) =>
          token := token.(access := res.access, accessExpires := res.accessExpires);
        case Err(_) =>
      }
    }
  }

  /** `parse_response`: any non-success status is an internal error with empty details. */
  function ParseResponse<T>(success: bool, body: T): (r: Result<T, AppError>)
    ensures r.Ok? <==> success
    ensures r.Ok? ==> r.value == body
    ensures !success ==> r == Err(GeneralInternalServerError(""))
  {
    if success then Ok(body) else Err(GeneralInternalServerError(""))
  }
}
