/**
 * The public property listing: `getAllProperties(filters)` and
 * `getPropertyCount(filters)` of the property model.
 *
 * Two levels are modelled. The builder level follows the code: each supplied
 * filter pushes one parameter and appends one `AND column op $k` conjunct,
 * then LIMIT and OFFSET are pushed the same way. The semantic level says
 * which rows a filter record selects, in which order, and which page of them
 * is returned. The builders' contracts connect the two.
 */
module PropertyListing {
  import opened Common
  import opened JsText
  import opened Db
  import opened Sql

  /**
   * The filter record the controller passes in. A field is `None` when it is
   * `undefined`. The controller never passes `null` for a numeric filter;
   * `Sql.ParamOk` would treat one as a parameter PostgreSQL refuses, while
   * PostgreSQL binds NULL and the comparison selects no row.
   */
  datatype Filters = Filters(
    city: Option<Value>, minDeposit: Option<Value>, maxDeposit: Option<Value>,
    minRent: Option<Value>, maxRent: Option<Value>, propertyType: Option<Value>,
    roomCount: Option<Value>, limit: Option<Value>, offset: Option<Value>)

  function Column(row: PropertyRow, name: string): Option<Value>
  {
    Get(row.cols, name)
  }

  function CreatedAt(row: PropertyRow): int { row.createdAt }

  // ---------------------------------------------------------------------
  // Semantic level

  /**
   * The row satisfies every supplied filter: city and property type match
   * exactly, the deposit and rent bounds are inclusive, room_count is a
   * minimum. City, property type and room count count as supplied only when
   * truthy; the four bounds whenever they are not undefined.
   */
  predicate MatchesFilters(f: Filters, row: PropertyRow)
  {
    (TruthyOpt(f.city) ==> Compare(Equals, Column(row, "city"), f.city.value)) &&
    (f.minDeposit.Some? ==> Compare(AtLeast, Column(row, "deposit"), f.minDeposit.value)) &&
    (f.maxDeposit.Some? ==> Compare(AtMost, Column(row, "deposit"), f.maxDeposit.value)) &&
    (f.minRent.Some? ==> Compare(AtLeast, Column(row, "monthly_rent"), f.minRent.value)) &&
    (f.maxRent.Some? ==> Compare(AtMost, Column(row, "monthly_rent"), f.maxRent.value)) &&
    (TruthyOpt(f.propertyType) ==> Compare(Equals, Column(row, "property_type"), f.propertyType.value)) &&
    (TruthyOpt(f.roomCount) ==> Compare(AtLeast, Column(row, "room_count"), f.roomCount.value))
  }

  /** PostgreSQL accepts every supplied bound and room count as an integer. */
  predicate FilterParamsAccepted(f: Filters)
  {
    (f.minDeposit.Some? ==> SqlInt(f.minDeposit.value).Some?) &&
    (f.maxDeposit.Some? ==> SqlInt(f.maxDeposit.value).Some?) &&
    (f.minRent.Some? ==> SqlInt(f.minRent.value).Some?) &&
    (f.maxRent.Some? ==> SqlInt(f.maxRent.value).Some?) &&
    (TruthyOpt(f.roomCount) ==> SqlInt(f.roomCount.value).Some?)
  }

  /** LIMIT is sent only when limit is truthy, OFFSET only when both are. */
  predicate PagingAccepted(f: Filters)
  {
    (TruthyOpt(f.limit) ==> SqlInt(f.limit.value).Some? && SqlInt(f.limit.value).value >= 0) &&
    (TruthyOpt(f.limit) && TruthyOpt(f.offset) ==>
      SqlInt(f.offset.value).Some? && SqlInt(f.offset.value).value >= 0)
  }

  predicate FiltersAccepted(f: Filters)
  {
    FilterParamsAccepted(f) && PagingAccepted(f)
  }

  function PageLimit(f: Filters): (r: Option<nat>)
    requires PagingAccepted(f)
    ensures r.Some? <==> TruthyOpt(f.limit)
  {
    if TruthyOpt(f.limit) then Some(SqlInt(f.limit.value).value) else None
  }

  function PageOffset(f: Filters): nat
    requires PagingAccepted(f)
  {
    if TruthyOpt(f.limit) && TruthyOpt(f.offset) then SqlInt(f.offset.value).value else 0
  }

  /** The base condition of the listing: active, with a verified agent that has a user row. */
  predicate PubliclyListed(row: PropertyRow, agents: seq<AgentRow>, users: seq<UserRow>)
  {
    Column(row, "is_active") == Some(Bool(true)) &&
    var agent := FindAgent(agents, row.agentId);
    agent.Some? && agent.value.status == VERIFIED && FindUser(users, agent.value.userId).Some?
  }

  /** The base condition of the count, which joins agents but not users. */
  predicate PubliclyCounted(row: PropertyRow, agents: seq<AgentRow>)
  {
    Column(row, "is_active") == Some(Bool(true)) &&
    var agent := FindAgent(agents, row.agentId);
    agent.Some? && agent.value.status == VERIFIED
  }

  function ListedRows(properties: seq<PropertyRow>, agents: seq<AgentRow>, users: seq<UserRow>): seq<PropertyRow>
  {
    Where(properties, (r: PropertyRow) => PubliclyListed(r, agents, users))
  }

  function CountedRows(properties: seq<PropertyRow>, agents: seq<AgentRow>): seq<PropertyRow>
  {
    Where(properties, (r: PropertyRow) => PubliclyCounted(r, agents))
  }

  function Matching(rows: seq<PropertyRow>, f: Filters): seq<PropertyRow>
  {
    Where(rows, (r: PropertyRow) => MatchesFilters(f, r))
  }

  /** What `getAllProperties(f)` returns: the matching listed rows, newest first, one page of them. */
  function ListingSpec(properties: seq<PropertyRow>, agents: seq<AgentRow>, users: seq<UserRow>, f: Filters)
    : Result<seq<PropertyRow>>
  {
    if !FiltersAccepted(f) then DbError
    else Ok(Slice(SortDesc(Matching(ListedRows(properties, agents, users), f), CreatedAt), PageOffset(f), PageLimit(f)))
  }

  /** What `getPropertyCount(f)` returns. */
  function CountSpec(properties: seq<PropertyRow>, agents: seq<AgentRow>, f: Filters): Result<nat>
  {
    if !FilterParamsAccepted(f) then DbError
    else Ok(|Matching(CountedRows(properties, agents), f)|)
  }

  // ---------------------------------------------------------------------
  // Builder level

  /** A row satisfies every WHERE conjunct of the clause list. */
  predicate AllHold(row: PropertyRow, clauses: seq<Clause>, values: seq<Value>)
  {
    forall k :: 0 <= k < |clauses| && k < |values| && clauses[k].Cond? ==>
      Compare(clauses[k].op, Column(row, clauses[k].column), values[k])
  }

  /** The rows the WHERE part of the clause list selects. */
  function Selected(rows: seq<PropertyRow>, clauses: seq<Clause>, values: seq<Value>): seq<PropertyRow>
  {
    Where(rows, (r: PropertyRow) => AllHold(r, clauses, values))
  }

  /** The filters in the order the code tests them, numbered 0 to 6. */
  function FilterField(f: Filters, i: nat): Option<Value>
    requires i < 7
  {
    match i
    case 0 => f.city
    case 1 => f.minDeposit
    case 2 => f.maxDeposit
    case 3 => f.minRent
    case 4 => f.maxRent
    case 5 => f.propertyType
    case _ => f.roomCount
  }

  /** The column filter i compares. */
  function FilterColumn(i: nat): string
    requires i < 7
  {
    match i
    case 0 => "city"
    case 1 => "deposit"
    case 2 => "deposit"
    case 3 => "monthly_rent"
    case 4 => "monthly_rent"
    case 5 => "property_type"
    case _ => "room_count"
  }

  /** The comparison filter i uses. */
  function FilterOp(i: nat): Op
    requires i < 7
  {
    match i
    case 0 => Equals
    case 1 => AtLeast
    case 2 => AtMost
    case 3 => AtLeast
    case 4 => AtMost
    case 5 => Equals
    case _ => AtLeast
  }

  /** Whether filter i pushes a parameter: truthy for 0, 5 and 6, not undefined for the bounds. */
  predicate FilterSupplied(f: Filters, i: nat)
    requires i < 7
  {
    if i == 0 || i == 5 || i == 6 then TruthyOpt(FilterField(f, i)) else FilterField(f, i).Some?
  }

  predicate FilterHolds(f: Filters, row: PropertyRow, i: nat)
    requires i < 7
  {
    FilterSupplied(f, i) ==> Compare(FilterOp(i), Column(row, FilterColumn(i)), FilterField(f, i).value)
  }

  predicate FilterParamOk(f: Filters, i: nat)
    requires i < 7
  {
    FilterSupplied(f, i) ==> ParamOk(Cond(FilterColumn(i), FilterOp(i), 1), FilterField(f, i).value)
  }

  /** The number of filters among the first j that are supplied. */
  function SuppliedBelow(f: Filters, j: nat): nat
    requires j <= 7
  {
    if j == 0 then 0 else SuppliedBelow(f, j - 1) + (if FilterSupplied(f, j - 1) then 1 else 0)
  }

  /** The number of supplied filters, each of which adds one conjunct and one parameter. */
  function FilterCount(f: Filters): nat
  {
    SuppliedBelow(f, 7)
  }

  /** After the first j filters, the clauses are their conjuncts, numbered in push order. */
  ghost predicate BuiltUpTo(f: Filters, clauses: seq<Clause>, values: seq<Value>, j: nat)
    requires j <= 7
  {
    Numbered(clauses, values) &&
    (forall k :: 0 <= k < |clauses| ==> clauses[k].Cond?) &&
    |clauses| == SuppliedBelow(f, j) &&
    (forall row :: AllHold(row, clauses, values) <==> forall i :: 0 <= i < j ==> FilterHolds(f, row, i)) &&
    (ParamsOk(clauses, values) <==> forall i :: 0 <= i < j ==> FilterParamOk(f, i))
  }

  lemma FilterStep(f: Filters, i: nat, clauses: seq<Clause>, values: seq<Value>,
                   clauses': seq<Clause>, values': seq<Value>)
    requires i < 7 && BuiltUpTo(f, clauses, values, i)
    requires FilterSupplied(f, i) ==>
      clauses' == clauses + [Cond(FilterColumn(i), FilterOp(i), |values| + 1)] &&
      values' == values + [FilterField(f, i).value]
    requires !FilterSupplied(f, i) ==> clauses' == clauses && values' == values
    ensures BuiltUpTo(f, clauses', values', i + 1)
  {
    if FilterSupplied(f, i) {
      var c := Cond(FilterColumn(i), FilterOp(i), |values| + 1);
      var v := FilterField(f, i).value;
      forall row ensures AllHold(row, clauses', values') <==> AllHold(row, clauses, values) && FilterHolds(f, row, i)
      {
        AllHoldAppend(row, clauses, values, c, v);
      }
      ParamsOkAppend(clauses, values, c, v);
      assert ParamOk(c, v) == FilterParamOk(f, i);
    }
  }

  /** One more clause adds its own conjunct to the WHERE condition. */
  lemma AllHoldAppend(row: PropertyRow, clauses: seq<Clause>, values: seq<Value>, c: Clause, v: Value)
    requires |clauses| == |values|
    ensures AllHold(row, clauses + [c], values + [v]) <==>
      AllHold(row, clauses, values) && (c.Cond? ==> Compare(c.op, Column(row, c.column), v))
  {
    var cs, vs := clauses + [c], values + [v];
    assert cs[|clauses|] == c && vs[|clauses|] == v;
    if AllHold(row, clauses, values) && (c.Cond? ==> Compare(c.op, Column(row, c.column), v)) {
      forall k | 0 <= k < |cs| && k < |vs| && cs[k].Cond?
        ensures Compare(cs[k].op, Column(row, cs[k].column), vs[k])
      {
        if k < |clauses| { assert cs[k] == clauses[k] && vs[k] == values[k]; }
      }
    }
    if AllHold(row, cs, vs) {
      forall k | 0 <= k < |clauses| && k < |values| && clauses[k].Cond?
        ensures Compare(clauses[k].op, Column(row, clauses[k].column), values[k])
      {
        assert cs[k] == clauses[k] && vs[k] == values[k];
      }
    }
  }

  /** The seven per-filter conditions together are the filter semantics. */
  lemma AllFiltersMeanMatches(f: Filters, row: PropertyRow)
    ensures (forall i :: 0 <= i < 7 ==> FilterHolds(f, row, i)) <==> MatchesFilters(f, row)
    ensures (forall i :: 0 <= i < 7 ==> FilterParamOk(f, i)) <==> FilterParamsAccepted(f)
  {
    assert FilterHolds(f, row, 0) && FilterHolds(f, row, 1) && FilterHolds(f, row, 2) && FilterHolds(f, row, 3) &&
           FilterHolds(f, row, 4) && FilterHolds(f, row, 5) && FilterHolds(f, row, 6)
       <==> MatchesFilters(f, row);
    assert FilterParamOk(f, 0) && FilterParamOk(f, 1) && FilterParamOk(f, 2) && FilterParamOk(f, 3) &&
           FilterParamOk(f, 4) && FilterParamOk(f, 5) && FilterParamOk(f, 6)
       <==> FilterParamsAccepted(f);
  }

  /**
   * One `if (filter) { conditions.push(...); values.push(...) }` block:
   * filter i adds its conjunct, numbered after the parameters so far, when
   * it is supplied.
   */
  method PushFilter(f: Filters, i: nat, clauses: seq<Clause>, values: seq<Value>)
    returns (clauses': seq<Clause>, values': seq<Value>)
    requires i < 7 && BuiltUpTo(f, clauses, values, i)
    ensures FilterSupplied(f, i) ==>
      clauses' == clauses + [Cond(FilterColumn(i), FilterOp(i), |values| + 1)] &&
      values' == values + [FilterField(f, i).value]
    ensures !FilterSupplied(f, i) ==> clauses' == clauses && values' == values
    ensures BuiltUpTo(f, clauses', values', i + 1)
  {
    clauses', values' := clauses, values;
    if FilterSupplied(f, i) {
      clauses', values' := clauses + [Cond(FilterColumn(i), FilterOp(i), |values| + 1)], values + [FilterField(f, i).value];
    }
    FilterStep(f, i, clauses, values, clauses', values');
  }

  /**
   * The WHERE conjuncts of the filters, shared by the listing and the count
   * builder: city, the deposit bounds, the rent bounds, the type and the
   * room count, in that order.
   */
  method BuildFilterClauses(f: Filters) returns (clauses: seq<Clause>, values: seq<Value>)
    ensures BuiltUpTo(f, clauses, values, 7)
  {
    clauses, values := [], [];
    clauses, values := PushFilter(f, 0, clauses, values);
    clauses, values := PushFilter(f, 1, clauses, values);
    clauses, values := PushFilter(f, 2, clauses, values);
    clauses, values := PushFilter(f, 3, clauses, values);
    clauses, values := PushFilter(f, 4, clauses, values);
    clauses, values := PushFilter(f, 5, clauses, values);
    clauses, values := PushFilter(f, 6, clauses, values);
  }

  /** `getAllProperties`: the filter conjuncts, then LIMIT when limit is truthy and, inside that, OFFSET when offset is. */
  method BuildListingQuery(f: Filters) returns (clauses: seq<Clause>, values: seq<Value>)
    ensures Numbered(clauses, values)
    ensures forall row :: AllHold(row, clauses, values) <==> MatchesFilters(f, row)
    ensures ParamsOk(clauses, values) <==> FiltersAccepted(f)
    ensures ParamsOk(clauses, values) ==>
      LimitOf(clauses, values) == PageLimit(f) && OffsetOf(clauses, values) == PageOffset(f)
    ensures |values| == FilterCount(f) + (if TruthyOpt(f.limit) then 1 else 0) +
      (if TruthyOpt(f.limit) && TruthyOpt(f.offset) then 1 else 0)
  {
    clauses, values := BuildFilterClauses(f);
    forall row ensures AllHold(row, clauses, values) <==> MatchesFilters(f, row)
    {
      AllFiltersMeanMatches(f, row);
    }
    AllFiltersMeanMatches(f, PropertyRow(0, 0, map[], 0, 0));
    if TruthyOpt(f.limit) {
      var c := LimitBy(|values| + 1);
      forall row ensures AllHold(row, clauses + [c], values + [f.limit.value]) <==> AllHold(row, clauses, values)
      {
        AllHoldAppend(row, clauses, values, c, f.limit.value);
      }
      ParamsOkAppend(clauses, values, c, f.limit.value);
      clauses, values := clauses + [c], values + [f.limit.value];
      if TruthyOpt(f.offset) {
        var d := OffsetBy(|values| + 1);
        forall row ensures AllHold(row, clauses + [d], values + [f.offset.value]) <==> AllHold(row, clauses, values)
        {
          AllHoldAppend(row, clauses, values, d, f.offset.value);
        }
        ParamsOkAppend(clauses, values, d, f.offset.value);
        clauses, values := clauses + [d], values + [f.offset.value];
      }
    }
  }

  /** The rows the built WHERE selects are the rows the filters describe. */
  lemma {:induction false} SelectedIsMatching(rows: seq<PropertyRow>, clauses: seq<Clause>, values: seq<Value>, f: Filters)
    requires forall row :: AllHold(row, clauses, values) <==> MatchesFilters(f, row)
    ensures Selected(rows, clauses, values) == Matching(rows, f)
  {
    if rows != [] {
      SelectedIsMatching(rows[1..], clauses, values, f);
    }
  }

  /** `getAllProperties(filters)`, run against the tables. */
  method GetAllProperties(db: Database, f: Filters) returns (r: Result<seq<PropertyRow>>)
    ensures r == ListingSpec(db.properties, db.agents, db.users, f)
  {
    var clauses, values := BuildListingQuery(f);
    if !ParamsOk(clauses, values) {
      return DbError;
    }
    var base := ListedRows(db.properties, db.agents, db.users);
    SelectedIsMatching(base, clauses, values, f);
    r := Ok(Slice(SortDesc(Selected(base, clauses, values), CreatedAt), OffsetOf(clauses, values), LimitOf(clauses, values)));
  }

  /** `getPropertyCount(filters)`: the same conjuncts, no ORDER BY, LIMIT or OFFSET. */
  method GetPropertyCount(db: Database, f: Filters) returns (r: Result<nat>)
    ensures r == CountSpec(db.properties, db.agents, f)
  {
    var clauses, values := BuildFilterClauses(f);
    forall row ensures AllHold(row, clauses, values) <==> MatchesFilters(f, row)
    {
      AllFiltersMeanMatches(f, row);
    }
    AllFiltersMeanMatches(f, PropertyRow(0, 0, map[], 0, 0));
    if !ParamsOk(clauses, values) {
      return DbError;
    }
    var base := CountedRows(db.properties, db.agents);
    SelectedIsMatching(base, clauses, values, f);
    CountIsWhereLength(base, (row: PropertyRow) => AllHold(row, clauses, values));
    r := Ok(Count(base, (row: PropertyRow) => AllHold(row, clauses, values)));
  }

  // ---------------------------------------------------------------------
  // Properties of the listing

  /** Every listed row is an active property of a verified agent and satisfies the filters. */
  lemma ListingRowsArePublic(properties: seq<PropertyRow>, agents: seq<AgentRow>, users: seq<UserRow>, f: Filters)
    requires ListingSpec(properties, agents, users, f).Ok?
    ensures forall row :: row in ListingSpec(properties, agents, users, f).value ==>
      row in properties && PubliclyListed(row, agents, users) && MatchesFilters(f, row) &&
      Column(row, "is_active") == Some(Bool(true)) &&
      FindAgent(agents, row.agentId).Some? && FindAgent(agents, row.agentId).value.status == VERIFIED
  {
    var matching := Matching(ListedRows(properties, agents, users), f);
    var sorted := SortDesc(matching, CreatedAt);
    SortDescCorrect(matching, CreatedAt);
    SliceBounds(sorted, PageOffset(f), PageLimit(f));
    forall row | row in ListingSpec(properties, agents, users, f).value
      ensures row in matching
    {
      assert row in sorted;
      assert row in multiset(sorted);
    }
  }

  /** The listing is ordered newest first and holds at most LIMIT rows. */
  lemma ListingOrderedAndBounded(properties: seq<PropertyRow>, agents: seq<AgentRow>, users: seq<UserRow>, f: Filters)
    requires ListingSpec(properties, agents, users, f).Ok?
    ensures Descending(ListingSpec(properties, agents, users, f).value, CreatedAt)
    ensures TruthyOpt(f.limit) ==> |ListingSpec(properties, agents, users, f).value| <= PageLimit(f).value
  {
    var matching := Matching(ListedRows(properties, agents, users), f);
    var sorted := SortDesc(matching, CreatedAt);
    SortDescCorrect(matching, CreatedAt);
    SliceBounds(sorted, PageOffset(f), PageLimit(f));
  }

  /** Without a truthy limit the listing is every matching row, newest first. */
  lemma NoLimitListsAll(properties: seq<PropertyRow>, agents: seq<AgentRow>, users: seq<UserRow>, f: Filters)
    requires FiltersAccepted(f) && !TruthyOpt(f.limit)
    ensures ListingSpec(properties, agents, users, f) ==
      Ok(SortDesc(Matching(ListedRows(properties, agents, users), f), CreatedAt))
  {
  }

  /** A room_count of 0 selects the same rows as no room_count at all. */
  lemma RoomCountZeroIgnored(f: Filters, row: PropertyRow)
    ensures MatchesFilters(f.(roomCount := Some(Int(0))), row) == MatchesFilters(f.(roomCount := None), row)
    ensures FilterCount(f.(roomCount := Some(Int(0)))) == FilterCount(f.(roomCount := None))
  {
    var g, h := f.(roomCount := Some(Int(0))), f.(roomCount := None);
    forall i | 0 <= i < 7 ensures FilterSupplied(g, i) == FilterSupplied(h, i)
    {
      assert FilterField(g, i) == FilterField(h, i) || i == 6;
    }
    SuppliedAlike(g, h, 7);
  }

  /** Filters that are supplied alike push the same number of parameters. */
  lemma {:induction false} SuppliedAlike(f: Filters, g: Filters, j: nat)
    requires j <= 7
    requires forall i :: 0 <= i < j ==> FilterSupplied(f, i) == FilterSupplied(g, i)
    ensures SuppliedBelow(f, j) == SuppliedBelow(g, j)
  {
    if j > 0 {
      SuppliedAlike(f, g, j - 1);
    }
  }

  /**
   * When every agent has a user row, the count is the number of rows the
   * listing would show without LIMIT and OFFSET.
   */
  lemma CountAgreesWithListing(properties: seq<PropertyRow>, agents: seq<AgentRow>, users: seq<UserRow>, f: Filters)
    requires forall a :: a in agents ==> FindUser(users, a.userId).Some?
    requires FilterParamsAccepted(f)
    ensures CountSpec(properties, agents, f) == Ok(|Matching(ListedRows(properties, agents, users), f)|)
  {
    forall row | row in properties
      ensures PubliclyListed(row, agents, users) == PubliclyCounted(row, agents)
    {
      var agent := FindAgent(agents, row.agentId);
      if agent.Some? {
        assert agent.value in agents;
      }
    }
    WhereCongruence(properties, (r: PropertyRow) => PubliclyListed(r, agents, users),
                                (r: PropertyRow) => PubliclyCounted(r, agents));
  }
}
