/**
 * The supported-institutions list: country codes are lowercased and sandbox
 * institutions (those listing country `xx`) are dropped, order preserved.
 */
module Institutions {
  import opened Wrappers
  import opened AppErrors

  datatype Institution = Institution(
    id: string,
    name: string,
    bic: Option<string>,
    transactionTotalDays: string,
    maxAccessValidForDays: string,
    countries: seq<string>,
    logo: Option<string>)

  const SANDBOX_COUNTRY := "xx"

  /** ASCII lowercasing of one character; other characters are kept. */
  function LowerChar(c: char): (d: char)
    ensures 'A' <= c <= 'Z' ==> d as int == c as int + 32
    ensures !('A' <= c <= 'Z') ==> d == c
  {
    if 'A' <= c <= 'Z' then (c as int + 32) as char else c
  }

  predicate IsLower(s: string) {
    forall i :: 0 <= i < |s| ==> !('A' <= s[i] <= 'Z')
  }

  function ToLower(s: string): (t: string)
    ensures |t| == |s|
    ensures forall i :: 0 <= i < |s| ==> t[i] == LowerChar(s[i])
    ensures IsLower(t)
  {
    seq(|s|, i requires 0 <= i < |s| => LowerChar(s[i]))
  }

  /** Every country code of `ins` is lowercase. */
  predicate AllLower(ins: Institution) {
    forall j :: 0 <= j < |ins.countries| ==> IsLower(ins.countries[j])
  }

  /** Step one of the transform: lowercase every country code, nothing else changes. */
  function LowerCountries(ins: Institution): (r: Institution)
    ensures r == ins.(countries := r.countries)
    ensures |r.countries| == |ins.countries|
    ensures forall j :: 0 <= j < |ins.countries| ==> r.countries[j] == ToLower(ins.countries[j])
    ensures AllLower(r)
  {
    ins.(countries := seq(|ins.countries|, j requires 0 <= j < |ins.countries| => ToLower(ins.countries[j])))
  }

  predicate IsSandbox(ins: Institution) {
    SANDBOX_COUNTRY in ins.countries
  }

  /** The map-then-filter pipeline over the parsed list. */
  function Normalize(list: seq<Institution>): (r: seq<Institution>)
    ensures |r| <= |list|
    ensures forall k :: 0 <= k < |r| ==> !IsSandbox(r[k]) && AllLower(r[k])
  {
    if list == [] then []
    else
      var head := LowerCountries(list[0]);
      var rest := Normalize(list[1..]);
      if IsSandbox(head) then rest else [head] + rest
  }

  /** Every output entry is some input institution with its countries lowercased. */
  lemma {:induction false} NormalizeFromInput(list: seq<Institution>, k: nat)
    requires k < |Normalize(list)|
    ensures exists i :: 0 <= i < |list| && Normalize(list)[k] == LowerCountries(list[i])
  {
    var head := LowerCountries(list[0]);
    var rest := Normalize(list[1..]);
    if IsSandbox(head) || k > 0 {
      var k' := if IsSandbox(head) then k else k - 1;
      NormalizeFromInput(list[1..], k');
      var i :| 0 <= i < |list[1..]| && rest[k'] == LowerCountries(list[1..][i]);
      assert list[1..][i] == list[i + 1];
    } else {
      assert Normalize(list)[0] == LowerCountries(list[0]);
    }
  }

  /** The transform distributes over concatenation, so order is kept. */
  lemma {:induction false} NormalizeAppend(a: seq<Institution>, b: seq<Institution>)
    ensures Normalize(a + b) == Normalize(a) + Normalize(b)
  {
    if a == [] {
      assert a + b == b;
    } else {
      assert (a + b)[1..] == a[1..] + b;
      assert (a + b)[0] == a[0];
      NormalizeAppend(a[1..], b);
    }
  }

  /** One institution is kept, lowercased, exactly when its lowercased countries do not include `xx`. */
  lemma NormalizeSingle(ins: Institution)
    ensures Normalize([ins]) == if IsSandbox(LowerCountries(ins)) then [] else [LowerCountries(ins)]
  {
    assert [ins][1..] == [];
  }

  /**
   * No other institution is dropped: each non-sandbox one appears, lowercased,
   * right after the output of the institutions before it.
   */
  lemma NeverDropped(list: seq<Institution>, i: nat)
    requires i < |list| && !IsSandbox(LowerCountries(list[i]))
    ensures |Normalize(list[..i])| < |Normalize(list)|
    ensures Normalize(list)[|Normalize(list[..i])|] == LowerCountries(list[i])
  {
    var a, b, x := list[..i], list[i + 1..], LowerCountries(list[i]);
    var one := Normalize([list[i]]);
    assert one == [x] by { NormalizeSingle(list[i]); }
    assert list == a + ([list[i]] + b);
    NormalizeAppend(a, [list[i]] + b);
    NormalizeAppend([list[i]], b);
    var left, r := Normalize(a), Normalize(list);
    assert r == left + (one + Normalize(b));
    assert r[|left|] == x;
  }

  /** An institution listing `XX` (in any case) counts as a sandbox one and is removed. */
  lemma UppercaseSandboxRemoved(ins: Institution, j: nat)
    requires j < |ins.countries| && |ins.countries[j]| == 2
    requires ins.countries[j][0] in "xX" && ins.countries[j][1] in "xX"
    ensures Normalize([ins]) == []
  {
    NormalizeSingle(ins);
    var c := LowerCountries(ins).countries[j];
    assert c == ToLower(ins.countries[j]);
    assert c == SANDBOX_COUNTRY;
  }

  /** The parsed response: its success flag and its body. */
  datatype Response = Response(success: bool, body: seq<Institution>)

  /** `get_supported_institutions`: an error on a failed response, else the normalised list. */
  function GetSupportedInstitutions(response: Response): (r: Result<seq<Institution>, AppError>)
    ensures !response.success ==> r == Err(GeneralInternalServerError(""))
    ensures response.success ==> r == Ok(Normalize(response.body))
  {
    if response.success then Ok(Normalize(response.body)) else Err(GeneralInternalServerError(""))
  }
}
