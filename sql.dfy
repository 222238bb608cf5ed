/**
 * Parameterised SQL as the listing queries build it: a list of clauses, each
 * reading one placeholder `$k`, and the parameter list `values` they are sent
 * with. A clause is a WHERE conjunct on one column, a LIMIT or an OFFSET.
 *
 * PostgreSQL converts each parameter to the type of its position; a value it
 * cannot convert (NaN for an integer column, a negative LIMIT or OFFSET)
 * makes the whole statement fail.
 */
module Sql {
  import opened Common
  import opened JsText

  /** `column = $k`, `column >= $k`, `column <= $k` */
  datatype Op = Equals | AtLeast | AtMost

  datatype Clause = Cond(column: string, op: Op, slot: nat) | LimitBy(slot: nat) | OffsetBy(slot: nat)

  /**
   * Placeholders are numbered in push order: clause k reads `$(k+1)`, which
   * is `values[k]`.
   */
  predicate Numbered(clauses: seq<Clause>, values: seq<Value>)
  {
    |clauses| == |values| && forall k :: 0 <= k < |clauses| ==> clauses[k].slot == k + 1
  }

  /** `values.push(v); query += clause` */
  function Push(clauses: seq<Clause>, values: seq<Value>, c: Clause, v: Value): (r: (seq<Clause>, seq<Value>))
    requires Numbered(clauses, values) && c.slot == |values| + 1
    ensures Numbered(r.0, r.1)
  {
    (clauses + [c], values + [v])
  }

  /** A column value compared with a parameter; NULL satisfies no comparison. */
  predicate Compare(op: Op, column: Option<Value>, v: Value)
  {
    column.Some? && column.value != Null &&
    match op
    case Equals => column.value == v
    case AtLeast => SqlInt(column.value).Some? && SqlInt(v).Some? && SqlInt(column.value).value >= SqlInt(v).value
    case AtMost => SqlInt(column.value).Some? && SqlInt(v).Some? && SqlInt(column.value).value <= SqlInt(v).value
  }

  /** PostgreSQL accepts the parameter at this position. */
  predicate ParamOk(c: Clause, v: Value)
  {
    match c
    case Cond(_, op, _) => op == Equals || SqlInt(v).Some?
    case LimitBy(_) => SqlInt(v).Some? && SqlInt(v).value >= 0
    case OffsetBy(_) => SqlInt(v).Some? && SqlInt(v).value >= 0
  }

  predicate ParamsOk(clauses: seq<Clause>, values: seq<Value>)
    requires Numbered(clauses, values)
  {
    forall k :: 0 <= k < |clauses| ==> ParamOk(clauses[k], values[k])
  }

  /** One more clause is accepted when the old ones are and its own parameter is. */
  lemma ParamsOkAppend(clauses: seq<Clause>, values: seq<Value>, c: Clause, v: Value)
    requires Numbered(clauses, values) && c.slot == |values| + 1
    ensures Numbered(clauses + [c], values + [v])
    ensures ParamsOk(clauses + [c], values + [v]) <==> ParamsOk(clauses, values) && ParamOk(c, v)
  {
    var cs, vs := clauses + [c], values + [v];
    assert cs[|clauses|] == c && vs[|clauses|] == v;
    assert forall k :: 0 <= k < |clauses| ==> cs[k] == clauses[k] && vs[k] == values[k];
  }

  /**
   * LIMIT and OFFSET pushed on the next two placeholders: the statement is
   * accepted when the earlier clauses and both counts are, and then it reads
   * its row count and its offset from the two new parameters.
   */
  lemma PagingAppended(clauses: seq<Clause>, values: seq<Value>, limit: Value, offset: Value)
    requires Numbered(clauses, values)
    ensures Numbered(clauses + [LimitBy(|values| + 1), OffsetBy(|values| + 2)], values + [limit, offset])
    ensures ParamsOk(clauses + [LimitBy(|values| + 1), OffsetBy(|values| + 2)], values + [limit, offset]) <==>
      ParamsOk(clauses, values) && ParamOk(LimitBy(0), limit) && ParamOk(OffsetBy(0), offset)
    ensures ParamsOk(clauses + [LimitBy(|values| + 1), OffsetBy(|values| + 2)], values + [limit, offset]) ==>
      LimitOf(clauses + [LimitBy(|values| + 1), OffsetBy(|values| + 2)], values + [limit, offset]) == Some(SqlInt(limit).value) &&
      OffsetOf(clauses + [LimitBy(|values| + 1), OffsetBy(|values| + 2)], values + [limit, offset]) == SqlInt(offset).value
  {
    var l, o := LimitBy(|values| + 1), OffsetBy(|values| + 2);
    var c1, v1 := clauses + [l], values + [limit];
    ParamsOkAppend(clauses, values, l, limit);
    ParamsOkAppend(c1, v1, o, offset);
    var cs, vs := c1 + [o], v1 + [offset];
    assert cs == clauses + [l, o] && vs == values + [limit, offset];
    if ParamsOk(cs, vs) {
      assert cs[..|c1|] == c1 && vs[..|c1|] == v1;
    }
  }

  /** The row count of the LIMIT clause, if there is one. */
  function LimitOf(clauses: seq<Clause>, values: seq<Value>): (r: Option<nat>)
    requires Numbered(clauses, values) && ParamsOk(clauses, values)
    ensures r.Some? <==> exists k :: 0 <= k < |clauses| && clauses[k].LimitBy?
  {
    if clauses == [] then None
    else
      var n := |clauses| - 1;
      if clauses[n].LimitBy? then Some(SqlInt(values[n]).value)
      else
        assert forall k :: 0 <= k < n ==> clauses[..n][k] == clauses[k];
        LimitOf(clauses[..n], values[..n])
  }

  /** The row count skipped by the OFFSET clause, 0 when there is none. */
  function OffsetOf(clauses: seq<Clause>, values: seq<Value>): (r: nat)
    requires Numbered(clauses, values) && ParamsOk(clauses, values)
    ensures (forall k :: 0 <= k < |clauses| ==> !clauses[k].OffsetBy?) ==> r == 0
  {
    if clauses == [] then 0
    else
      var n := |clauses| - 1;
      if clauses[n].OffsetBy? then SqlInt(values[n]).value
      else
        assert forall k :: 0 <= k < n ==> clauses[..n][k] == clauses[k];
        OffsetOf(clauses[..n], values[..n])
  }
}
