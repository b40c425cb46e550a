/**
 * The pagination query parameters: each is read from query text as a u64,
 * with a default when absent, and copied into the framework's own query.
 */
module Pagination {
  import opened Wrappers
  import opened Bits
  import opened Decimal

  const DEFAULT_PAGE_SIZE: U64 := 25
  const DEFAULT_PAGE: U64 := 1

  datatype PaginationQuery = PaginationQuery(pageSize: U64, page: U64)

  /** The framework's query type the handlers pass on. */
  datatype FrameworkQuery = FrameworkQuery(page: U64, pageSize: U64)

  /** One parameter: absent takes the default, present text must parse as a u64. */
  function ReadField(text: Option<string>, default: U64): (r: Result<U64, ParseIntError>)
    ensures text.None? ==> r == Ok(default)
    ensures text.Some? ==> (r.Ok? <==> WellFormed(text.value, false) && TextValue(text.value, false) <= U64_MAX)
    ensures text.Some? && r.Ok? ==> r.value == TextValue(text.value, false)
  {
    match text
    case None => Ok(default)
    case Some(s) =>
      ParseIntSpec(s, false, 0, U64_MAX);
      match ParseU64(s)
      case Ok(v) => Ok(v)
      case Err(e) => Err(e)
  }

  /**
   * Deserialising the query: both fields read as above; there is no range
   * check beyond the u64 one.  When both fail, the model reports the page
   * size's error; serde reports the error of whichever field comes first in
   * the query string, whose key order is not modelled.
   */
  function Deserialize(pageSize: Option<string>, page: Option<string>): (r: Result<PaginationQuery, ParseIntError>)
    ensures r.Ok? <==> ReadField(pageSize, DEFAULT_PAGE_SIZE).Ok? && ReadField(page, DEFAULT_PAGE).Ok?
    ensures r.Ok? ==> r.value.pageSize == ReadField(pageSize, DEFAULT_PAGE_SIZE).value
    ensures r.Ok? ==> r.value.page == ReadField(page, DEFAULT_PAGE).value
    ensures ReadField(pageSize, DEFAULT_PAGE_SIZE).Err? ==> r == Err(ReadField(pageSize, DEFAULT_PAGE_SIZE).error)
    ensures ReadField(pageSize, DEFAULT_PAGE_SIZE).Ok? && ReadField(page, DEFAULT_PAGE).Err? ==>
              r == Err(ReadField(page, DEFAULT_PAGE).error)
  {
    match ReadField(pageSize, DEFAULT_PAGE_SIZE)
    case Err(e) => Err(e)
    case Ok(size) =>
      match ReadField(page, DEFAULT_PAGE)
      case Err(e) => Err(e)
      case Ok(number) => Ok(PaginationQuery(size, number))
  }

  /** The conversion into the framework's query. */
  function Into(q: PaginationQuery): (f: FrameworkQuery)
    ensures f.page == q.page && f.pageSize == q.pageSize
  {
    FrameworkQuery(q.page, q.pageSize)
  }

  /** With no parameters at all the defaults apply. */
  lemma DefaultsWhenAbsent()
    ensures Deserialize(None, None) == Ok(PaginationQuery(25, 1))
  {
  }

  /** Any u64 written in decimal is read back as itself, zero included. */
  lemma DigitsReadBack(size: U64, page: U64)
    ensures Deserialize(Some(Digits(size)), Some(Digits(page))) == Ok(PaginationQuery(size, page))
  {
    FormatParseU64(size);
    FormatParseU64(page);
  }

  /** A page size of zero is accepted. */
  lemma ZeroAccepted(page: Option<string>)
    requires ReadField(page, DEFAULT_PAGE).Ok?
    ensures Deserialize(Some("0"), page).Ok? && Deserialize(Some("0"), page).value.pageSize == 0
  {
    FormatParseU64(0);
  }

  /** Text that is not an unsigned number is rejected, whichever field it is in. */
  lemma NonNumericRejected(text: string, other: Option<string>)
    requires !WellFormed(text, false)
    ensures Deserialize(Some(text), other).Err?
    ensures Deserialize(other, Some(text)).Err?
  {
  }

  /** A negative number is not a u64. */
  lemma NegativeRejected(n: nat)
    ensures Deserialize(Some("-" + Digits(n)), None).Err?
  {
    var s := "-" + Digits(n);
    assert !IsDigit(s[0]);
    assert !AllDigits(s);
  }
}
