/**
 * The pagination of the listing handlers (`getAllProperties` and the board's
 * `getAllPosts`): the `page` and `limit` query parameters, the offset
 * `(page - 1) * limit` and the page count `Math.ceil(total / limit)`.
 *
 * The parameters are strings. JavaScript reads them twice: `parseInt` turns
 * them into the LIMIT parameter and the reported `page`/`limit`, while the
 * arithmetic operators convert them with `Number`.
 */
module Paging {
  import opened Common
  import opened JsText
  import opened Db

  /** A parsed query string: every parameter is a string. */
  type Query = map<string, string>

  /** The numeric value of `page` (default 1) in `page - 1`; None is NaN. */
  function PageNumber(q: Query): Option<int>
  {
    if "page" in q then NumberOf(q["page"]) else Some(1)
  }

  /** The numeric value of `limit` (default 10) in `* limit` and `total / limit`; None is NaN. */
  function LimitNumber(q: Query): Option<int>
  {
    if "limit" in q then NumberOf(q["limit"]) else Some(10)
  }

  /** `(page - 1) * limit` */
  function OffsetValue(q: Query): (r: Value)
    ensures r.NaN? <==> PageNumber(q).None? || LimitNumber(q).None?
    ensures "page" !in q && "limit" !in q ==> r == Int(0)
  {
    if PageNumber(q).Some? && LimitNumber(q).Some? then Int((PageNumber(q).value - 1) * LimitNumber(q).value)
    else NaN
  }

  /** `parseInt(limit)` */
  function LimitValue(q: Query): (r: Value)
    ensures r.Int? || r.NaN?
    ensures "limit" !in q ==> r == Int(10)
  {
    if "limit" in q then ParseInt(q["limit"]) else Int(10)
  }

  /** `parseInt(page)` */
  function PageValue(q: Query): (r: Value)
    ensures r.Int? || r.NaN?
    ensures "page" !in q ==> r == Int(1)
  {
    if "page" in q then ParseInt(q["page"]) else Int(1)
  }

  /**
   * `Math.ceil(total / limit)` as it reaches the JSON body: None (null) when
   * the quotient is NaN or infinite, that is when limit is NaN or 0.
   */
  function TotalPages(total: nat, limit: Option<int>): (r: Option<int>)
    ensures r.Some? <==> limit.Some? && limit.value != 0
    ensures r.Some? && limit.value > 0 ==> (r.value - 1) * limit.value < total <= r.value * limit.value
    ensures r.Some? && limit.value < 0 ==> r.value * limit.value <= total < (r.value - 1) * limit.value
  {
    if limit.None? || limit.value == 0 then None
    else if limit.value > 0 then Some(CeilDiv(total, limit.value))
    else Some(-(total / -limit.value))
  }

  /** The smallest c with total <= c * d. */
  function CeilDiv(total: nat, d: int): (c: nat)
    requires d > 0
    ensures (c - 1) * d < total <= c * d
  {
    (total + d - 1) / d
  }

  datatype Pagination = Pagination(total: nat, page: Value, limit: Value, totalPages: Option<int>)

  /** The query of page p with l rows per page, other parameters as given. */
  predicate PageQuery(q: Query, p: int, l: int)
  {
    "page" in q && q["page"] == DecimalString(p) && "limit" in q && q["limit"] == DecimalString(l)
  }

  /** Page p of l rows, written as decimals, parses back to p and l and starts at row (p - 1) * l. */
  lemma PageNumbers(q: Query, p: int, l: int)
    requires PageQuery(q, p, l)
    ensures PageNumber(q) == Some(p) && LimitNumber(q) == Some(l)
    ensures OffsetValue(q) == Int((p - 1) * l)
    ensures PageValue(q) == Int(p) && LimitValue(q) == Int(l)
  {
    NumberOfDecimalString(p);
    NumberOfDecimalString(l);
    ParseIntOfDecimalString(p);
    ParseIntOfDecimalString(l);
  }

  /** A page of at least one row is empty exactly when it starts past the end. */
  lemma SliceNonEmpty<T>(rows: seq<T>, offset: nat, l: nat)
    requires l >= 1
    ensures |Slice(rows, offset, Some(l))| > 0 <==> offset < |rows|
  {
  }

  /** Page p of l rows, starting at row (p - 1) * l, is non-empty exactly when p <= ceil(total / l). */
  lemma PageWithinTotal<T>(rows: seq<T>, p: int, l: int, offset: nat)
    requires p >= 1 && l >= 1 && offset == (p - 1) * l
    ensures |Slice(rows, offset, Some(l))| > 0 <==> p <= CeilDiv(|rows|, l)
  {
    SliceNonEmpty(rows, offset, l);
    PagesBefore(p, l, |rows|);
  }

  /** (p - 1) * l < total exactly when p <= ceil(total / l). */
  lemma PagesBefore(p: int, l: int, total: nat)
    requires l >= 1
    ensures (p - 1) * l < total <==> p <= CeilDiv(total, l)
  {
    var c := CeilDiv(total, l);
    if p <= c {
      assert (p - 1) * l <= (c - 1) * l by { MultiplyMonotone(p - 1, c - 1, l); }
    } else {
      assert c * l <= (p - 1) * l by { MultiplyMonotone(c, p - 1, l); }
    }
  }

  lemma MultiplyMonotone(a: int, b: int, l: int)
    requires a <= b && l >= 0
    ensures a * l <= b * l
  {
    assert b * l - a * l == (b - a) * l;
  }
}
