/**
 * The search cluster's connection settings and the base URL built from
 * them: `<protocol>://<host>:<port>`.
 */
module OpensearchConfig {
  import opened Wrappers
  import opened Bits
  import opened Strings
  import opened Decimal

  datatype OpensearchConfig = OpensearchConfig(
    isHttps: bool,
    host: string,
    port: U16,
    username: string,
    password: string,
    disableProxy: bool,
    disableCertValidation: bool)

  /** The values serde fills in for the two flags when the file leaves them out. */
  const DEFAULT_DISABLE_PROXY := true
  const DEFAULT_DISABLE_CERT_VALIDATION := false

  /** Deserialising: the two flags fall back to their defaults, every other field is required. */
  function FromFields(isHttps: bool, host: string, port: U16, username: string, password: string,
                      disableProxy: Option<bool>, disableCertValidation: Option<bool>): (c: OpensearchConfig)
    ensures c.isHttps == isHttps && c.host == host && c.port == port
    ensures c.username == username && c.password == password
    ensures disableProxy.None? ==> c.disableProxy
    ensures disableCertValidation.None? ==> !c.disableCertValidation
    ensures disableProxy.Some? ==> c.disableProxy == disableProxy.value
    ensures disableCertValidation.Some? ==> c.disableCertValidation == disableCertValidation.value
  {
    OpensearchConfig(isHttps, host, port, username, password,
                     disableProxy.GetOr(DEFAULT_DISABLE_PROXY),
                     disableCertValidation.GetOr(DEFAULT_DISABLE_CERT_VALIDATION))
  }

  function Protocol(isHttps: bool): string {
    if isHttps then "https" else "http"
  }

  /** Only an https address begins with `https://`. */
  lemma ProtocolPrefix(isHttps: bool, rest: string)
    ensures StartsWith(Protocol(isHttps) + "://" + rest, "https://") <==> isHttps
  {
    var url := Protocol(isHttps) + "://" + rest;
    if isHttps {
      assert url[..8] == "https://";
    } else {
      assert url[4] == ':';
    }
  }

  /** The pieces of `<protocol>://<host>:<port>` sit where the format puts them. */
  lemma UrlShape(protocol: string, host: string, port: string, url: string)
    requires url == protocol + "://" + host + ":" + port
    ensures StartsWith(url, protocol + "://" + host + ":")
    ensures EndsWith(url, ":" + port)
    ensures url == protocol + "://" + (host + ":" + port)
  {
    var head := protocol + "://" + host;
    Affixes(head + ":", port);
    assert url == head + (":" + port);
    Affixes(head, ":" + port);
  }

  /** `get_url`. */
  function GetUrl(c: OpensearchConfig): (url: string)
    ensures StartsWith(url, "https://") <==> c.isHttps
    ensures StartsWith(url, Protocol(c.isHttps) + "://" + c.host + ":")
    ensures EndsWith(url, ":" + Digits(c.port))
    ensures |url| == |Protocol(c.isHttps) + "://" + c.host + ":"| + |Digits(c.port)|
  {
    var url := Protocol(c.isHttps) + "://" + c.host + ":" + Digits(c.port);
    UrlShape(Protocol(c.isHttps), c.host, Digits(c.port), url);
    ProtocolPrefix(c.isHttps, c.host + ":" + Digits(c.port));
    url
  }

  /** The port text after the last colon reads back as the port, without leading zeros. */
  lemma PortReadsBack(c: OpensearchConfig)
    ensures var url, digits := GetUrl(c), Digits(c.port);
            |digits| < |url| && url[|url| - |digits|..] == digits && FoldDigits(digits, 0) == c.port &&
            (digits[0] == '0' <==> c.port == 0)
  {
    var url, digits := GetUrl(c), Digits(c.port);
    assert url[|url| - |digits|..] == (":" + digits)[1..];
    DigitsRoundTrip(c.port);
  }

  /** The digits hold no colon, so the port starts right after the last one. */
  lemma PortHasNoColon(c: OpensearchConfig)
    ensures forall i :: 0 <= i < |Digits(c.port)| ==> Digits(c.port)[i] != ':'
  {
  }
}
