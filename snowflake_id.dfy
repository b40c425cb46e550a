/**
 * The `Snowflake` id type: a newtype over i64 whose JSON form is its decimal
 * text, and which is parsed back with the i64 parser.
 */
module SnowflakeId {
  import opened Wrappers
  import opened Bits
  import opened Decimal

  datatype Snowflake = Snowflake(id: I64)

  /** The failure of deserialisation: serde's custom error carrying the parse error. */
  datatype DeserializeError = Custom(cause: ParseIntError)

  function FromI64(value: I64): (s: Snowflake)
    ensures s.id == value
  {
    Snowflake(value)
  }

  function ToI64(s: Snowflake): (value: I64)
    ensures FromI64(value) == s
  {
    s.id
  }

  /** The two conversions are mutual inverses. */
  lemma ConversionsInverse(value: I64, s: Snowflake)
    ensures ToI64(FromI64(value)) == value
    ensures FromI64(ToI64(s)) == s
  {
  }

  /** `Display`: the decimal text of the id. */
  function Display(s: Snowflake): (text: string)
    ensures |text| >= 1
    ensures text[0] == '-' <==> s.id < 0
  {
    FormatInt(s.id)
  }

  /** `Serialize`: a JSON string holding the id's decimal text. */
  function Serialize(s: Snowflake): (json: string)
    ensures json == Display(s)
  {
    FormatInt(s.id)
  }

  /** `Deserialize`: parse the JSON string as an i64. */
  function Deserialize(json: string): (r: Result<Snowflake, DeserializeError>)
    ensures r.Ok? <==> WellFormed(json, true) && I64_MIN <= TextValue(json, true) <= I64_MAX
    ensures r.Ok? ==> r.value.id == TextValue(json, true)
  {
    ParseIntSpec(json, true, I64_MIN, I64_MAX);
    match ParseI64(json)
    case Ok(v) => Ok(Snowflake(v))
    case Err(e) => Err(Custom(e))
  }

  /** Every id survives serialisation followed by deserialisation. */
  lemma SerializeRoundTrip(s: Snowflake)
    ensures Deserialize(Serialize(s)) == Ok(s)
  {
    FormatParseI64(s.id);
  }

  /** Text is rejected when it is not an optionally signed digit string, or when its value leaves i64. */
  lemma DeserializeRejects(json: string)
    ensures !WellFormed(json, true) ==> Deserialize(json).Err?
    ensures Deserialize("").Err? && Deserialize("12a").Err? && Deserialize("-").Err?
  {
  }

  /** Overflow: the digits of any number above i64::MAX do not parse. */
  lemma DeserializeRejectsOverflow(n: nat)
    requires n > I64_MAX
    ensures Deserialize(Digits(n)).Err?
  {
    DigitsRoundTrip(n);
  }

  /** Negative ids are accepted, although the published schema gives a minimum of 0. */
  lemma DeserializeAcceptsNegative(n: int)
    requires 0 < n <= I64_MAX
    ensures Deserialize("-" + Digits(n)) == Ok(Snowflake(-n))
  {
    var m: I64 := -n;
    assert FormatInt(m) == "-" + Digits(n);
    FormatParseI64(m);
  }

  /** The derived order: by id. */
  predicate Less(a: Snowflake, b: Snowflake) {
    a.id < b.id
  }

  /** Equality and order on snowflakes are those of their ids. */
  lemma OrderFollowsId(a: Snowflake, b: Snowflake)
    ensures a == b <==> a.id == b.id
    ensures Less(a, b) || a == b || Less(b, a)
    ensures !(Less(a, b) && Less(b, a))
  {
  }
}
