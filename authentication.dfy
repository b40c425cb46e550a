/**
 * Bearer-token authentication: the api key is taken from the
 * `authorization` header, which must be visible ASCII text starting with
 * `Bearer `.
 */
module Authentication {
  import opened Wrappers
  import opened Bits
  import opened Strings
  import opened AppErrors

  const TOKEN_PREFIX := "Bearer "
  const AUTH_HEADER := "authorization"
  /** The message of the HTTP library's failed text conversion. */
  const TO_STR_ERROR := "failed to convert header to a str"

  /** Request headers by lower-case name; each name's first value. */
  type HeaderMap = map<string, seq<Byte>>

  /** The bytes a header value may hold to be read as text: tab and the visible ASCII range. */
  predicate IsVisibleAscii(b: Byte) {
    b == 9 || 32 <= b < 127
  }

  /** `HeaderValue::to_str`. */
  function ToStr(value: seq<Byte>): (r: Result<string, string>)
    ensures r.Ok? <==> forall i :: 0 <= i < |value| ==> IsVisibleAscii(value[i])
    ensures r.Ok? ==> |r.value| == |value| && forall i :: 0 <= i < |value| ==> r.value[i] as int == value[i]
    ensures r.Err? ==> r.error == TO_STR_ERROR
  {
    if forall i :: 0 <= i < |value| ==> IsVisibleAscii(value[i]) then
      Ok(seq(|value|, i requires 0 <= i < |value| => value[i] as char))
    else
      Err(TO_STR_ERROR)
  }

  /** The bytes of an ASCII text, as a client sends it. */
  function AsciiBytes(s: string): (b: seq<Byte>)
    requires forall i :: 0 <= i < |s| ==> s[i] as int < 0x80
    ensures |b| == |s| && forall i :: 0 <= i < |s| ==> b[i] == s[i] as int
  {
    seq(|s|, i requires 0 <= i < |s| => s[i] as int)
  }

  /** `extract_api_key_from_header`: missing header, then non-text value, then missing prefix. */
  function ExtractApiKey(headers: HeaderMap): (r: Result<string, ApiError>)
    ensures AUTH_HEADER !in headers ==> r == Err(AuthHeaderMissing)
    ensures AUTH_HEADER in headers && ToStr(headers[AUTH_HEADER]).Err? ==>
              r == Err(InvalidHeaderValue(TO_STR_ERROR))
    ensures AUTH_HEADER in headers && ToStr(headers[AUTH_HEADER]).Ok? ==>
              (!StartsWith(ToStr(headers[AUTH_HEADER]).value, TOKEN_PREFIX) <==> r == Err(InvalidBearerToken))
    ensures r.Ok? ==> AUTH_HEADER in headers && ToStr(headers[AUTH_HEADER]) == Ok(TOKEN_PREFIX + r.value)
    ensures AUTH_HEADER in headers && ToStr(headers[AUTH_HEADER]).Ok? &&
            StartsWith(ToStr(headers[AUTH_HEADER]).value, TOKEN_PREFIX) ==>
              r == Ok(ToStr(headers[AUTH_HEADER]).value[|TOKEN_PREFIX|..])
  {
    if AUTH_HEADER !in headers then Err(AuthHeaderMissing)
    else
      match ToStr(headers[AUTH_HEADER])
      case Err(msg) => Err(InvalidHeaderValue(msg))
      case Ok(text) =>
        if StartsWith(text, TOKEN_PREFIX) then
          assert text == TOKEN_PREFIX + text[|TOKEN_PREFIX|..];
          Ok(text[|TOKEN_PREFIX|..])
        else Err(InvalidBearerToken)
  }

  /** A header `Bearer <key>` holding a visible-ASCII key yields that key. */
  lemma ExtractsSentKey(headers: HeaderMap, key: string)
    requires forall i :: 0 <= i < |key| ==> ' ' <= key[i] <= '~'
    requires AUTH_HEADER in headers && headers[AUTH_HEADER] == AsciiBytes(TOKEN_PREFIX + key)
    ensures ExtractApiKey(headers) == Ok(key)
  {
    var text := TOKEN_PREFIX + key;
    var t := ToStr(headers[AUTH_HEADER]);
    assert forall i :: 0 <= i < |text| ==> ' ' <= text[i] <= '~';
    assert t.Ok?;
    assert t.value == text;
    assert text[|TOKEN_PREFIX|..] == key;
  }

  /** `Bearer ` alone is accepted and yields the empty key. */
  lemma BareBearerGivesEmptyKey(headers: HeaderMap)
    requires AUTH_HEADER in headers && headers[AUTH_HEADER] == AsciiBytes(TOKEN_PREFIX)
    ensures ExtractApiKey(headers) == Ok("")
  {
    ExtractsSentKey(headers, "");
    assert TOKEN_PREFIX + "" == TOKEN_PREFIX;
  }

  /** The prefix is case-sensitive: `bearer <key>` is rejected. */
  lemma LowercasePrefixRejected(headers: HeaderMap, key: string)
    requires forall i :: 0 <= i < |key| ==> ' ' <= key[i] <= '~'
    requires AUTH_HEADER in headers && headers[AUTH_HEADER] == AsciiBytes("bearer " + key)
    ensures ExtractApiKey(headers) == Err(InvalidBearerToken)
  {
    var text := "bearer " + key;
    assert forall i :: 0 <= i < |text| ==> ' ' <= text[i] <= '~';
    var t := ToStr(headers[AUTH_HEADER]);
    assert t.value == text;
    assert t.value[0] != TOKEN_PREFIX[0];
  }
}
