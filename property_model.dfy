/**
 * The writing side of the property model and the lookup by id:
 * `getPropertyById`, `createProperty`, `addPropertyImages`, `updateProperty`,
 * `updatePropertyThumbnail`, `deletePropertyImage` and `deleteProperty`.
 *
 * Each operation changes the tables of a `Database` in place. The three that
 * run inside BEGIN/COMMIT take a `Fault`: a failing statement before COMMIT
 * rolls the tables back, while a failure of the SELECT that follows COMMIT
 * leaves the committed change and still reports an error.
 */
module PropertyModel {
  import opened Common
  import opened JsText
  import opened Db
  import opened PropertyListing

  // ---------------------------------------------------------------------
  // Images of a property, as every query returns them

  predicate IsThumbnail(m: ImageRow) { m.isThumbnail }
  predicate NotThumbnail(m: ImageRow) { !m.isThumbnail }

  /** Sorting by the negated id newest-first is sorting by id ascending. */
  function NegatedId(m: ImageRow): int { -m.id }

  /** The image rows of one property, in table order. */
  function ImagesOf(images: seq<ImageRow>, propertyId: int): seq<ImageRow>
  {
    Where(images, (m: ImageRow) => m.propertyId == propertyId)
  }

  /** `... WHERE property_id = $1 ORDER BY is_thumbnail DESC, image_id ASC` */
  function ImageListing(images: seq<ImageRow>, propertyId: int): seq<ImageRow>
  {
    var own := ImagesOf(images, propertyId);
    SortDesc(Where(own, IsThumbnail), NegatedId) + SortDesc(Where(own, NotThumbnail), NegatedId)
  }

  /**
   * The image listing holds exactly the property's images, each once.
   */
  lemma ImageListingCorrect(images: seq<ImageRow>, propertyId: int)
    ensures multiset(ImageListing(images, propertyId)) == multiset(ImagesOf(images, propertyId))
    ensures forall m :: m in ImageListing(images, propertyId) <==> m in images && m.propertyId == propertyId
  {
    var own := ImagesOf(images, propertyId);
    var r := ImageListing(images, propertyId);
    ImageListingMultiset(own, r);
    forall m ensures m in r <==> m in own
    {
      assert m in r <==> m in multiset(r);
      assert m in own <==> m in multiset(own);
    }
  }

  /** The listing puts thumbnails first and orders each group by id. */
  lemma ImageListingOrdered(images: seq<ImageRow>, propertyId: int)
    ensures ThumbnailsFirst(ImageListing(images, propertyId))
  {
    var own := ImagesOf(images, propertyId);
    var thumbs := SortDesc(Where(own, IsThumbnail), NegatedId);
    var others := SortDesc(Where(own, NotThumbnail), NegatedId);
    SortedGroup(own, IsThumbnail);
    SortedGroup(own, NotThumbnail);
    assert forall i :: 0 <= i < |thumbs| ==> IsThumbnail(thumbs[i]);
    assert forall i :: 0 <= i < |others| ==> NotThumbnail(others[i]);
    GroupsInOrder(thumbs, others);
  }

  lemma ImageListingMultiset(own: seq<ImageRow>, r: seq<ImageRow>)
    requires r == SortDesc(Where(own, IsThumbnail), NegatedId) + SortDesc(Where(own, NotThumbnail), NegatedId)
    ensures multiset(r) == multiset(own)
  {
    SortDescCorrect(Where(own, IsThumbnail), NegatedId);
    SortDescCorrect(Where(own, NotThumbnail), NegatedId);
    WherePartition(own, IsThumbnail, NotThumbnail);
  }

  /** `ORDER BY is_thumbnail DESC, image_id ASC` holds of the rows. */
  predicate ThumbnailsFirst(r: seq<ImageRow>)
  {
    forall i, j :: 0 <= i < j < |r| ==>
      (r[i].isThumbnail && !r[j].isThumbnail) || (r[i].isThumbnail == r[j].isThumbnail && r[i].id <= r[j].id)
  }

  lemma GroupsInOrder(a: seq<ImageRow>, b: seq<ImageRow>)
    requires forall i :: 0 <= i < |a| ==> a[i].isThumbnail
    requires forall i :: 0 <= i < |b| ==> !b[i].isThumbnail
    requires forall i, j :: 0 <= i < j < |a| ==> a[i].id <= a[j].id
    requires forall i, j :: 0 <= i < j < |b| ==> b[i].id <= b[j].id
    ensures ThumbnailsFirst(a + b)
  {
    var r := a + b;
    forall i, j | 0 <= i < j < |r|
      ensures (r[i].isThumbnail && !r[j].isThumbnail) || (r[i].isThumbnail == r[j].isThumbnail && r[i].id <= r[j].id)
    {
      if j < |a| {
        assert r[i] == a[i] && r[j] == a[j];
      } else if i >= |a| {
        assert r[i] == b[i - |a|] && r[j] == b[j - |a|];
      } else {
        assert r[i] == a[i] && r[j] == b[j - |a|];
      }
    }
  }

  /** One group of the listing: the rows passing p, by ascending id. */
  lemma SortedGroup(rows: seq<ImageRow>, p: ImageRow -> bool)
    ensures multiset(SortDesc(Where(rows, p), NegatedId)) == multiset(Where(rows, p))
    ensures forall i :: 0 <= i < |SortDesc(Where(rows, p), NegatedId)| ==>
      p(SortDesc(Where(rows, p), NegatedId)[i])
    ensures forall i, j :: 0 <= i < j < |SortDesc(Where(rows, p), NegatedId)| ==>
      SortDesc(Where(rows, p), NegatedId)[i].id <= SortDesc(Where(rows, p), NegatedId)[j].id
  {
    var s := SortDesc(Where(rows, p), NegatedId);
    SortDescCorrect(Where(rows, p), NegatedId);
    forall i | 0 <= i < |s| ensures p(s[i])
    {
      assert s[i] in multiset(s);
    }
    forall i, j | 0 <= i < j < |s| ensures s[i].id <= s[j].id
    {
      assert NegatedId(s[i]) >= NegatedId(s[j]);
    }
  }

  // ---------------------------------------------------------------------
  // getPropertyById

  /** A property with the images it owns. */
  datatype PropertyDetail = PropertyDetail(property: PropertyRow, images: seq<ImageRow>)

  /**
   * The lookup joins the agent and its user and requires `is_active = true`;
   * unlike the public listing it does not look at the agent's verification.
   */
  predicate Reachable(p: PropertyRow, agents: seq<AgentRow>, users: seq<UserRow>)
  {
    Column(p, "is_active") == Some(Bool(true)) &&
    var agent := FindAgent(agents, p.agentId);
    agent.Some? && FindUser(users, agent.value.userId).Some?
  }

  /** `getPropertyById(id)`: null for a missing or inactive property. */
  function PropertyById(db: Database, id: int): (r: Option<PropertyDetail>)
    reads db
    ensures r.Some? ==> r.value.property in db.properties && r.value.property.id == id
    ensures r.Some? ==> Reachable(r.value.property, db.agents, db.users)
    ensures r.Some? ==> r.value.images == ImageListing(db.images, id)
    ensures r.None? <==> FindProperty(db.properties, id).None? ||
                         !Reachable(FindProperty(db.properties, id).value, db.agents, db.users)
  {
    var row := FindProperty(db.properties, id);
    if row.None? || !Reachable(row.value, db.agents, db.users) then None
    else Some(PropertyDetail(row.value, ImageListing(db.images, id)))
  }

  /** A published property is reachable by id; the converse does not hold. */
  lemma ListedIsReachable(p: PropertyRow, agents: seq<AgentRow>, users: seq<UserRow>)
    requires PubliclyListed(p, agents, users)
    ensures Reachable(p, agents, users)
  {
  }

  // ---------------------------------------------------------------------
  // Column types

  /**
   * How the properties table reads a bound parameter. The schema is not part
   * of this repository; the types are the ones the code relies on: the
   * amounts and counts are integers (the listing compares them with integer
   * parameters, the insert defaults them to 0, 1 and 6), the amenity flags
   * and `is_active` are booleans, and the address, place and kind columns
   * are text. The dates, the room size and the floors are stored as given.
   */
  datatype ColumnType = IntegerColumn | BooleanColumn | TextColumn | UncheckedColumn

  function PropertyColumnType(c: string): ColumnType
  {
    if c in {"deposit", "monthly_rent", "maintenance_fee", "room_count", "bathroom_count", "min_stay_months"} then
      IntegerColumn
    else if c in {"has_bed", "has_washing_machine", "has_refrigerator", "has_microwave", "has_desk",
                  "has_closet", "has_air_conditioner", "is_active"} then
      BooleanColumn
    else if c in {"address", "city", "district", "heating_type", "property_type"} then TextColumn
    else UncheckedColumn
  }

  /**
   * The value a column of type t stores for a bound parameter, or None when
   * PostgreSQL rejects the parameter, which fails the whole statement.
   */
  function StoredValue(t: ColumnType, v: Value): Option<Value>
  {
    if v == Null then Some(Null)
    else
      match t
      case IntegerColumn => if SqlInt(v).Some? then Some(Int(SqlInt(v).value)) else None
      case BooleanColumn => if SqlBool(v).Some? then Some(Bool(SqlBool(v).value)) else None
      case TextColumn => Some(Str(ParamText(v)))
      case UncheckedColumn => Some(v)
  }

  /** Every value of the map converts to its column's type. */
  predicate Storable(cols: map<string, Value>)
  {
    forall c :: c in cols ==> StoredValue(PropertyColumnType(c), cols[c]).Some?
  }

  /** The columns as the table stores them. */
  function Stored(cols: map<string, Value>): map<string, Value>
    requires Storable(cols)
  {
    map c | c in cols :: StoredValue(PropertyColumnType(c), cols[c]).value
  }

  /**
   * A value already of its column's type is stored unchanged, so storing is
   * idempotent: a stored value bound again is stored as itself.
   */
  lemma StoredIsIdempotent(t: ColumnType, v: Value)
    ensures t == IntegerColumn && v.Int? ==> StoredValue(t, v) == Some(v)
    ensures t == BooleanColumn && v.Bool? ==> StoredValue(t, v) == Some(v)
    ensures t == TextColumn && v.Str? ==> StoredValue(t, v) == Some(v)
    ensures StoredValue(t, v).Some? ==> StoredValue(t, StoredValue(t, v).value) == StoredValue(t, v)
  {
    if v.Bool? {
      SqlBoolInputs(v.b, 0);
    }
    if t == BooleanColumn && StoredValue(t, v).Some? && v != Null {
      SqlBoolInputs(SqlBool(v).value, 0);
    }
  }

  /**
   * A form sends every field as text: numerals are stored as integers and the
   * checkbox words as booleans.
   */
  lemma FormTextStored(n: int, b: bool)
    ensures StoredValue(IntegerColumn, Str(DecimalString(n))) == Some(Int(n))
    ensures StoredValue(BooleanColumn, Str(if b then "true" else "false")) == Some(Bool(b))
  {
    SqlIntOfDecimalString(n);
    SqlBoolInputs(b, 0);
  }

  /** Text that is no numeral, NaN and a boolean each fail an integer column. */
  lemma IntegerColumnRejects(b: bool)
    ensures StoredValue(IntegerColumn, Str("abc")) == None
    ensures StoredValue(IntegerColumn, NaN) == None && StoredValue(IntegerColumn, Bool(b)) == None
  {
    assert TrimPg("abc") == "abc";
    assert !IsDigit("abc"[0]);
  }

  /** Only the columns `updateProperty` may write have a checked type. */
  lemma TypedColumnsAreFields(c: string)
    requires PropertyColumnType(c) != UncheckedColumn
    ensures c in PropertyFields
  {
  }

  // ---------------------------------------------------------------------
  // createProperty

  /** Inserted as given; `undefined` is bound as NULL. */
  const PlainColumns: set<string> := {"address", "deposit", "monthly_rent", "city"}

  /** Inserted as `value || default`. */
  const InsertDefaults: map<string, Value> := map[
    "maintenance_fee" := Int(0), "construction_date" := Null, "available_from" := Null,
    "room_size" := Null, "room_count" := Int(1), "bathroom_count" := Int(1),
    "floor" := Null, "total_floors" := Null, "heating_type" := Null,
    "property_type" := Null, "min_stay_months" := Int(6), "has_bed" := Bool(false),
    "has_washing_machine" := Bool(false), "has_refrigerator" := Bool(false),
    "has_microwave" := Bool(false), "has_desk" := Bool(false), "has_closet" := Bool(false),
    "has_air_conditioner" := Bool(false), "district" := Null]

  function ValueOrNull(data: map<string, Value>, key: string): Value
  {
    if key in data then data[key] else Null
  }

  /**
   * The columns of a new row: the four plain columns, the defaulted ones,
   * and `is_active`, which the INSERT leaves to the table default (true).
   */
  function InsertedColumns(data: map<string, Value>): map<string, Value>
  {
    map c | c in PlainColumns + InsertDefaults.Keys + {"is_active"} ::
      if c in PlainColumns then ValueOrNull(data, c)
      else if c in InsertDefaults then OrElse(Get(data, c), InsertDefaults[c])
      else Bool(true)
  }

  /**
   * A plain column takes the request's value or NULL, a defaulted column the
   * request's value when it is truthy and its default otherwise.
   */
  lemma InsertedColumnsMeaning(data: map<string, Value>)
    ensures var cols := InsertedColumns(data);
      (forall c :: c in PlainColumns ==> Get(cols, c) == Some(ValueOrNull(data, c))) &&
      (forall c :: c in InsertDefaults ==>
         Get(cols, c) == Some(if TruthyOpt(Get(data, c)) then data[c] else InsertDefaults[c])) &&
      Get(cols, "is_active") == Some(Bool(true))
  {
    ColumnGroupsDisjoint();
  }

  lemma ColumnGroupsDisjoint()
    ensures PlainColumns !! InsertDefaults.Keys
    ensures "is_active" !in PlainColumns && "is_active" !in InsertDefaults
  {
  }

  /**
   * `createProperty(data)` for the owning agent, at time now: the INSERT
   * fails without a write when a bound value does not convert to its column.
   */
  method CreateProperty(db: Database, agentId: int, data: map<string, Value>, now: int) returns (r: Result<PropertyRow>)
    modifies db`properties, db`nextId
    ensures !Storable(InsertedColumns(data)) ==>
      r == DbError && db.properties == old(db.properties) && db.nextId == old(db.nextId)
    ensures Storable(InsertedColumns(data)) ==>
      r == Ok(PropertyRow(old(db.nextId), agentId, Stored(InsertedColumns(data)), now, now)) &&
      db.properties == old(db.properties) + [r.value] &&
      db.nextId == old(db.nextId) + 1
  {
    var cols := InsertedColumns(data);
    if !Storable(cols) {
      return DbError;
    }
    var id := db.FreshId();
    var row := PropertyRow(id, agentId, Stored(cols), now, now);
    db.properties := db.properties + [row];
    r := Ok(row);
  }

  /**
   * A room count, bathroom count, minimum stay or maintenance fee left out
   * of the request gets its default; the new row is active.
   */
  lemma InsertDefaultsApply(data: map<string, Value>)
    ensures "room_count" !in data ==> Get(InsertedColumns(data), "room_count") == Some(Int(1))
    ensures "bathroom_count" !in data ==> Get(InsertedColumns(data), "bathroom_count") == Some(Int(1))
    ensures "min_stay_months" !in data ==> Get(InsertedColumns(data), "min_stay_months") == Some(Int(6))
    ensures !TruthyOpt(Get(data, "maintenance_fee")) ==> Get(InsertedColumns(data), "maintenance_fee") == Some(Int(0))
    ensures Get(InsertedColumns(data), "is_active") == Some(Bool(true))
  {
    DefaultValues();
    DefaultApplies(data, "room_count");
    DefaultApplies(data, "bathroom_count");
    DefaultApplies(data, "min_stay_months");
    DefaultApplies(data, "maintenance_fee");
    InsertedColumnsMeaning(data);
  }

  /** A defaulted column whose request value is falsy gets its default. */
  lemma DefaultApplies(data: map<string, Value>, c: string)
    requires c in InsertDefaults
    ensures !TruthyOpt(Get(data, c)) ==> Get(InsertedColumns(data), c) == Some(InsertDefaults[c])
  {
    InsertedColumnsMeaning(data);
  }

  lemma DefaultValues()
    ensures "room_count" in InsertDefaults && InsertDefaults["room_count"] == Int(1)
    ensures "bathroom_count" in InsertDefaults && InsertDefaults["bathroom_count"] == Int(1)
    ensures "min_stay_months" in InsertDefaults && InsertDefaults["min_stay_months"] == Int(6)
    ensures "maintenance_fee" in InsertDefaults && InsertDefaults["maintenance_fee"] == Int(0)
  {
  }

  /**
   * A property created by a verified agent whose user exists shows up in the
   * public listing of the same tables, and in the unfiltered one.
   */
  lemma CreatedIsListed(properties: seq<PropertyRow>, agents: seq<AgentRow>, users: seq<UserRow>,
                        row: PropertyRow, data: map<string, Value>)
    requires Storable(InsertedColumns(data)) && row.cols == Stored(InsertedColumns(data))
    requires FindAgent(agents, row.agentId).Some? && FindAgent(agents, row.agentId).value.status == VERIFIED
    requires FindUser(users, FindAgent(agents, row.agentId).value.userId).Some?
    ensures row in ListedRows(properties + [row], agents, users)
    ensures MatchesFilters(Filters(None, None, None, None, None, None, None, None, None), row)
  {
    StoredActive(data);
    assert Column(row, "is_active") == Some(Bool(true));
    assert row in properties + [row];
  }

  /** The stored row of a successful insert is active. */
  lemma StoredActive(data: map<string, Value>)
    requires Storable(InsertedColumns(data))
    ensures Get(Stored(InsertedColumns(data)), "is_active") == Some(Bool(true))
  {
    var cols := InsertedColumns(data);
    InsertedColumnsMeaning(data);
    assert cols["is_active"] == Bool(true);
    assert PropertyColumnType("is_active") == BooleanColumn;
    SqlBoolInputs(true, 0);
    assert Stored(cols)["is_active"] == StoredValue(BooleanColumn, Bool(true)).value;
  }

  // ---------------------------------------------------------------------
  // addPropertyImages

  /** The rows the loop inserts: one per path, in order, with consecutive ids. */
  function NewImages(propertyId: int, paths: seq<string>, thumbnailIndex: Value, firstId: int): (r: seq<ImageRow>)
    ensures |r| == |paths|
  {
    seq(|paths|, k requires 0 <= k < |paths| => ImageRow(firstId + k, propertyId, paths[k], Int(k) == thumbnailIndex))
  }

  /**
   * Every new row belongs to the property and carries its path; exactly the
   * row at thumbnailIndex is a thumbnail, so none is when the index is out
   * of range or not an integer (`i === thumbnailIndex` is strict).
   */
  lemma NewImagesShape(propertyId: int, paths: seq<string>, thumbnailIndex: Value, firstId: int)
    ensures forall k :: 0 <= k < |paths| ==>
      var m := NewImages(propertyId, paths, thumbnailIndex, firstId)[k];
      m.propertyId == propertyId && m.path == paths[k] && m.id == firstId + k &&
      (m.isThumbnail <==> Int(k) == thumbnailIndex)
    ensures (exists k :: 0 <= k < |paths| && NewImages(propertyId, paths, thumbnailIndex, firstId)[k].isThumbnail)
      <==> thumbnailIndex.Int? && 0 <= thumbnailIndex.i < |paths|
  {
    if thumbnailIndex.Int? && 0 <= thumbnailIndex.i < |paths| {
      assert NewImages(propertyId, paths, thumbnailIndex, firstId)[thumbnailIndex.i].isThumbnail;
    }
  }

  /**
   * `addPropertyImages(propertyId, paths, thumbnailIndex)`. Statement i < n is
   * the i-th INSERT, statement n the COMMIT, statement n + 1 the SELECT.
   */
  method AddPropertyImages(db: Database, propertyId: int, paths: seq<string>, thumbnailIndex: Value, fault: Fault)
    returns (r: Result<seq<ImageRow>>)
    modifies db`images, db`nextId
    ensures fault.FailAt? && fault.step <= |paths| ==> r == DbError && db.images == old(db.images)
    ensures !(fault.FailAt? && fault.step <= |paths|) ==>
      db.images == old(db.images) + NewImages(propertyId, paths, thumbnailIndex, old(db.nextId)) &&
      db.nextId == old(db.nextId) + |paths| &&
      r == (if FailsAt(fault, |paths| + 1) then DbError else Ok(ImageListing(db.images, propertyId)))
    ensures old(db.ImagesValid()) ==> db.ImagesValid()
  {
    var snapshot := db.images;
    var firstId := db.nextId;
    var i := 0;
    while i < |paths|
      invariant 0 <= i <= |paths|
      invariant db.nextId == firstId + i
      invariant db.images == snapshot + NewImages(propertyId, paths[..i], thumbnailIndex, firstId)
      invariant fault.FailAt? ==> fault.step >= i
      invariant old(db.ImagesValid()) ==> db.ImagesValid()
    {
      if FailsAt(fault, i) {
        db.images := snapshot;
        return DbError;
      }
      var id := db.FreshId();
      var row := ImageRow(id, propertyId, paths[i], Int(i) == thumbnailIndex);
      assert NewImages(propertyId, paths[..i + 1], thumbnailIndex, firstId) ==
             NewImages(propertyId, paths[..i], thumbnailIndex, firstId) + [row];
      db.images := db.images + [row];
      i := i + 1;
    }
    assert paths[..i] == paths;
    if FailsAt(fault, |paths|) {
      db.images := snapshot;
      return DbError;
    }
    if FailsAt(fault, |paths| + 1) {
      return DbError;
    }
    r := Ok(ImageListing(db.images, propertyId));
  }

  /**
   * Adding images with an in-range index to a property that already has a
   * thumbnail leaves it with two: the operation does not keep a single one.
   */
  lemma AddingMayDoubleThumbnail(images: seq<ImageRow>, propertyId: int, paths: seq<string>,
                                 thumbnailIndex: Value, firstId: int, old_: int)
    requires 0 <= old_ < |images| && images[old_].propertyId == propertyId && images[old_].isThumbnail
    requires thumbnailIndex.Int? && 0 <= thumbnailIndex.i < |paths|
    ensures var after := images + NewImages(propertyId, paths, thumbnailIndex, firstId);
      after[old_].isThumbnail && after[|images| + thumbnailIndex.i].isThumbnail &&
      after[old_].propertyId == propertyId && after[|images| + thumbnailIndex.i].propertyId == propertyId &&
      old_ != |images| + thumbnailIndex.i
  {
  }

  // ---------------------------------------------------------------------
  // updateProperty

  /** The columns `updateProperty` may write, in the order it tests them. */
  const PropertyFields: seq<string> := [
    "address", "deposit", "monthly_rent", "maintenance_fee",
    "construction_date", "available_from", "room_size", "room_count",
    "bathroom_count", "floor", "total_floors", "heating_type", "property_type",
    "min_stay_months", "has_bed", "has_washing_machine", "has_refrigerator",
    "has_microwave", "has_desk", "has_closet", "has_air_conditioner", "city", "district",
    "is_active"]

  lemma PropertyFieldsDistinct()
    ensures forall a, b :: 0 <= a < b < |PropertyFields| ==> PropertyFields[a] != PropertyFields[b]
  {
  }

  /**
   * The SET list: every allow-listed field that is not undefined in data,
   * in allow-list order, each with its value at the same position.
   */
  method BuildPropertyUpdate(data: map<string, Value>) returns (fields: seq<string>, values: seq<Value>)
    ensures |fields| == |values|
    ensures forall k :: 0 <= k < |fields| ==> fields[k] in data && values[k] == data[fields[k]]
    ensures forall c :: c in fields <==> c in PropertyFields && c in data
    ensures forall a, b :: 0 <= a < b < |fields| ==> fields[a] != fields[b]
  {
    PropertyFieldsDistinct();
    fields, values := ProvidedFields(PropertyFields, data);
  }

  /**
   * `fields.forEach(field => { if (data[field] !== undefined) ... })`: the
   * listed fields the request provides, in list order, with their values.
   */
  method ProvidedFields(allowed: seq<string>, data: map<string, Value>) returns (fields: seq<string>, values: seq<Value>)
    requires forall a, b :: 0 <= a < b < |allowed| ==> allowed[a] != allowed[b]
    ensures |fields| == |values|
    ensures forall k :: 0 <= k < |fields| ==> fields[k] in data && values[k] == data[fields[k]]
    ensures forall c :: c in fields <==> c in allowed && c in data
    ensures forall a, b :: 0 <= a < b < |fields| ==> fields[a] != fields[b]
  {
    fields, values := [], [];
    var i := 0;
    while i < |allowed|
      invariant 0 <= i <= |allowed|
      invariant |fields| == |values|
      invariant forall k :: 0 <= k < |fields| ==> fields[k] in data && values[k] == data[fields[k]]
      invariant forall c :: c in fields <==> c in allowed[..i] && c in data
      invariant forall a, b :: 0 <= a < b < |fields| ==> fields[a] != fields[b]
    {
      var field := allowed[i];
      assert allowed[..i + 1] == allowed[..i] + [field];
      if field in data {
        assert field !in allowed[..i];
        fields, values := fields + [field], values + [data[field]];
      }
      i := i + 1;
    }
    assert allowed[..i] == allowed;
  }

  /** `SET field = $k, ...` applied to the columns of one row. */
  function AssignColumns(cols: map<string, Value>, fields: seq<string>, values: seq<Value>): (r: map<string, Value>)
    requires |fields| == |values|
    ensures forall c :: c in r <==> c in cols || c in fields
    decreases |fields|
  {
    if fields == [] then cols
    else AssignColumns(cols[fields[0] := values[0]], fields[1..], values[1..])
  }

  /**
   * The columns after `updateProperty(id, data)`: allow-listed fields present
   * in data take their new value; every other column keeps its old one.
   */
  function PatchedColumns(cols: map<string, Value>, data: map<string, Value>, allowed: seq<string>)
    : (r: map<string, Value>)
    ensures forall c :: c in allowed && c in data ==> c in r && r[c] == data[c]
    ensures forall c :: !(c in allowed && c in data) ==> Get(r, c) == Get(cols, c)
  {
    map c | c in cols.Keys + (set f | f in allowed && f in data) ::
      if c in allowed && c in data then data[c] else cols[c]
  }

  /** Writing the built SET list is the patch the allow-list describes. */
  lemma {:induction false} AssignIsPatch(cols: map<string, Value>, fields: seq<string>, values: seq<Value>,
                                         data: map<string, Value>)
    requires |fields| == |values|
    requires forall k :: 0 <= k < |fields| ==> fields[k] in data && values[k] == data[fields[k]]
    requires forall a, b :: 0 <= a < b < |fields| ==> fields[a] != fields[b]
    ensures forall c :: c in fields ==>
      c in AssignColumns(cols, fields, values) && AssignColumns(cols, fields, values)[c] == data[c]
    ensures forall c :: c !in fields ==> Get(AssignColumns(cols, fields, values), c) == Get(cols, c)
    decreases |fields|
  {
    if fields != [] {
      var cols' := cols[fields[0] := values[0]];
      assert forall a, b :: 0 <= a < b < |fields[1..]| ==> fields[1..][a] != fields[1..][b] by {
        forall a, b | 0 <= a < b < |fields[1..]| ensures fields[1..][a] != fields[1..][b]
        {
          assert fields[1..][a] == fields[a + 1] && fields[1..][b] == fields[b + 1];
        }
      }
      AssignIsPatch(cols', fields[1..], values[1..], data);
      assert fields[0] !in fields[1..] by {
        forall k | 0 <= k < |fields[1..]| ensures fields[1..][k] != fields[0]
        {
          assert fields[1..][k] == fields[k + 1];
        }
      }
      forall c | c in fields ensures c == fields[0] || c in fields[1..]
      {
        var k :| 0 <= k < |fields| && fields[k] == c;
        if k > 0 { assert fields[1..][k - 1] == c; }
      }
    }
  }

  /** The table after `updateProperty(id, data)`: the rows with the id patched, the others as they were. */
  function PatchedRows(rows: seq<PropertyRow>, id: int, data: map<string, Value>, now: int): (r: seq<PropertyRow>)
    ensures |r| == |rows|
  {
    seq(|rows|, k requires 0 <= k < |rows| =>
      if rows[k].id == id then rows[k].(cols := PatchedColumns(rows[k].cols, data, PropertyFields), updatedAt := now)
      else rows[k])
  }

  /** The UPDATE statement as built: `SET field = value, ..., updated_at = NOW() WHERE property_id = id`. */
  function AssignedRows(rows: seq<PropertyRow>, id: int, fields: seq<string>, values: seq<Value>, now: int)
    : seq<PropertyRow>
    requires |fields| == |values|
  {
    seq(|rows|, k requires 0 <= k < |rows| =>
      if rows[k].id == id then rows[k].(cols := AssignColumns(rows[k].cols, fields, values), updatedAt := now)
      else rows[k])
  }

  /** Running the built statement patches the row with the request's fields. */
  lemma AssignedRowsArePatched(rows: seq<PropertyRow>, id: int, data: map<string, Value>, now: int,
                               fields: seq<string>, values: seq<Value>)
    requires |fields| == |values|
    requires forall k :: 0 <= k < |fields| ==> fields[k] in data && values[k] == data[fields[k]]
    requires forall c :: c in fields <==> c in PropertyFields && c in data
    requires forall a, b :: 0 <= a < b < |fields| ==> fields[a] != fields[b]
    ensures AssignedRows(rows, id, fields, values, now) == PatchedRows(rows, id, data, now)
  {
    var updated := AssignedRows(rows, id, fields, values, now);
    var patched := PatchedRows(rows, id, data, now);
    forall k | 0 <= k < |rows|
      ensures updated[k] == patched[k]
    {
      AssignedColumnsArePatched(rows[k].cols, fields, values, data, PropertyFields);
    }
  }

  /** On one row, the built SET list gives the patched columns. */
  lemma AssignedColumnsArePatched(cols: map<string, Value>, fields: seq<string>, values: seq<Value>,
                                  data: map<string, Value>, allowed: seq<string>)
    requires |fields| == |values|
    requires forall k :: 0 <= k < |fields| ==> fields[k] in data && values[k] == data[fields[k]]
    requires forall c :: c in fields <==> c in allowed && c in data
    requires forall a, b :: 0 <= a < b < |fields| ==> fields[a] != fields[b]
    ensures AssignColumns(cols, fields, values) == PatchedColumns(cols, data, allowed)
  {
    var a := AssignColumns(cols, fields, values);
    var p := PatchedColumns(cols, data, allowed);
    AssignIsPatch(cols, fields, values, data);
    forall c ensures Get(a, c) == Get(p, c)
    {
      if c in fields {
        assert c in allowed && c in data;
      }
    }
    forall c ensures c in a <==> c in p
    {
      assert Get(a, c).Some? == Get(p, c).Some?;
    }
    forall c | c in a ensures a[c] == p[c]
    {
      assert Get(a, c) == Get(p, c);
    }
  }

  /**
   * `updateProperty(id, data)` at time now. The UPDATE fails without a write
   * when a provided value does not convert to its column; otherwise the
   * result is the first updated row, or None when no row has the id.
   */
  method UpdateProperty(db: Database, id: int, data: map<string, Value>, now: int)
    returns (r: Result<Option<PropertyRow>>)
    modifies db`properties
    ensures !Storable(data) ==> r == DbError && db.properties == old(db.properties)
    ensures Storable(data) ==>
      db.properties == PatchedRows(old(db.properties), id, Stored(data), now) &&
      r.Ok? && (r.value.None? <==> FindProperty(old(db.properties), id).None?) &&
      (r.value.Some? ==> r.value == FindProperty(db.properties, id))
  {
    var fields, values := BuildPropertyUpdate(data);
    if exists k :: 0 <= k < |fields| && StoredValue(PropertyColumnType(fields[k]), values[k]).None? {
      return DbError;
    }
    UnboundIsProvided(data, fields, values);
    var bound := seq(|fields|, k requires 0 <= k < |fields| => StoredValue(PropertyColumnType(fields[k]), values[k]).value);
    var rows := db.properties;
    AssignedRowsArePatched(rows, id, Stored(data), now, fields, bound);
    db.properties := AssignedRows(rows, id, fields, bound, now);
    FindAfterUpdate(rows, db.properties, id);
    r := Ok(FindProperty(db.properties, id));
  }

  /**
   * A provided value that does not convert is one of the SET list's, since
   * every typed column is allow-listed.
   */
  lemma UnboundIsProvided(data: map<string, Value>, fields: seq<string>, values: seq<Value>)
    requires |fields| == |values|
    requires forall k :: 0 <= k < |fields| ==> fields[k] in data && values[k] == data[fields[k]]
    requires forall c :: c in fields <==> c in PropertyFields && c in data
    requires forall k :: 0 <= k < |fields| ==> StoredValue(PropertyColumnType(fields[k]), values[k]).Some?
    ensures Storable(data)
  {
    forall c | c in data ensures StoredValue(PropertyColumnType(c), data[c]).Some?
    {
      if PropertyColumnType(c) != UncheckedColumn {
        TypedColumnsAreFields(c);
        var k :| 0 <= k < |fields| && fields[k] == c;
      }
    }
  }

  /** Updating in place keeps which ids exist. */
  lemma {:induction false} FindAfterUpdate(before: seq<PropertyRow>, after: seq<PropertyRow>, id: int)
    requires |before| == |after| && forall k :: 0 <= k < |before| ==> after[k].id == before[k].id
    ensures FindProperty(after, id).None? <==> FindProperty(before, id).None?
  {
    if before != [] {
      FindAfterUpdate(before[1..], after[1..], id);
    }
  }

  // ---------------------------------------------------------------------
  // updatePropertyThumbnail

  /** `UPDATE property_images SET is_thumbnail = false WHERE property_id = $1` */
  function ClearThumbnails(images: seq<ImageRow>, propertyId: int): (r: seq<ImageRow>)
    ensures |r| == |images|
  {
    seq(|images|, k requires 0 <= k < |images| =>
      if images[k].propertyId == propertyId then images[k].(isThumbnail := false) else images[k])
  }

  /**
   * `UPDATE property_images SET is_thumbnail = true WHERE image_id = $1 AND
   * property_id = $2`; a null imageId matches no row.
   */
  function MarkThumbnail(images: seq<ImageRow>, imageId: Option<int>, propertyId: int): (r: seq<ImageRow>)
    ensures |r| == |images|
  {
    seq(|images|, k requires 0 <= k < |images| =>
      if Some(images[k].id) == imageId && images[k].propertyId == propertyId
      then images[k].(isThumbnail := true) else images[k])
  }

  /**
   * After the two updates, the property's thumbnail is exactly the image
   * imageId when that image belongs to it, and there is none otherwise;
   * with distinct ids that is at most one. Images of other properties and
   * every id, path and owner stay as they were.
   */
  lemma ThumbnailSwap(images: seq<ImageRow>, imageId: Option<int>, propertyId: int)
    ensures var r := MarkThumbnail(ClearThumbnails(images, propertyId), imageId, propertyId);
      forall k :: 0 <= k < |r| ==>
        r[k].id == images[k].id && r[k].propertyId == images[k].propertyId && r[k].path == images[k].path &&
        (r[k].propertyId != propertyId ==> r[k] == images[k]) &&
        (r[k].propertyId == propertyId ==> (r[k].isThumbnail <==> Some(r[k].id) == imageId))
    ensures var r := MarkThumbnail(ClearThumbnails(images, propertyId), imageId, propertyId);
      DistinctIds(images, (m: ImageRow) => m.id) ==>
      forall i, j :: 0 <= i < j < |r| && r[i].propertyId == propertyId && r[j].propertyId == propertyId ==>
        !(r[i].isThumbnail && r[j].isThumbnail)
  {
  }

  /**
   * An image id parameter PostgreSQL accepts: NULL, which matches no row, or
   * an integer; anything else fails the statement that binds it.
   */
  predicate IdBindable(v: Value)
  {
    v == Null || SqlInt(v).Some?
  }

  /** The image id the second UPDATE compares with, None for NULL. */
  function IdParam(v: Value): (r: Option<int>)
    ensures v.Int? ==> r == Some(v.i)
    ensures v == Null ==> r == None
  {
    if SqlInt(v).Some? then Some(SqlInt(v).value) else None
  }

  /** The transaction rolls back: an injected fault up to COMMIT, or an image id the second UPDATE cannot bind. */
  predicate ThumbnailRollsBack(fault: Fault, imageId: Value)
  {
    (fault.FailAt? && fault.step <= 2) || !IdBindable(imageId)
  }

  /**
   * `updatePropertyThumbnail(propertyId, imageId)`: statements 0 and 1 are the
   * two updates, 2 the COMMIT, 3 the SELECT.
   */
  method UpdatePropertyThumbnail(db: Database, propertyId: int, imageId: Value, fault: Fault)
    returns (r: Result<seq<ImageRow>>)
    modifies db`images
    ensures ThumbnailRollsBack(fault, imageId) ==> r == DbError && db.images == old(db.images)
    ensures !ThumbnailRollsBack(fault, imageId) ==>
      db.images == MarkThumbnail(ClearThumbnails(old(db.images), propertyId), IdParam(imageId), propertyId) &&
      r == (if FailsAt(fault, 3) then DbError else Ok(ImageListing(db.images, propertyId)))
    ensures old(db.ImagesValid()) ==> db.ImagesValid()
  {
    var snapshot := db.images;
    if FailsAt(fault, 0) {
      return DbError;
    }
    var cleared := ClearThumbnails(db.images, propertyId);
    if db.ImagesValid() {
      SameIdsValid(db.images, cleared, db.nextId);
    }
    db.images := cleared;
    if FailsAt(fault, 1) || !IdBindable(imageId) {
      db.images := snapshot;
      return DbError;
    }
    var marked := MarkThumbnail(db.images, IdParam(imageId), propertyId);
    if db.ImagesValid() {
      SameIdsValid(db.images, marked, db.nextId);
    }
    db.images := marked;
    if FailsAt(fault, 2) {
      db.images := snapshot;
      return DbError;
    }
    if FailsAt(fault, 3) {
      return DbError;
    }
    r := Ok(ImageListing(db.images, propertyId));
  }

  // ---------------------------------------------------------------------
  // deletePropertyImage

  /** Whether some row of the table is an image of the property. */
  predicate HasImages(images: seq<ImageRow>, propertyId: int)
  {
    exists k :: 0 <= k < |images| && images[k].propertyId == propertyId
  }

  /** `DELETE FROM property_images WHERE image_id = $1` */
  function WithoutImage(images: seq<ImageRow>, imageId: int): (r: seq<ImageRow>)
    ensures forall m :: m in r <==> m in images && m.id != imageId
  {
    Where(images, (m: ImageRow) => m.id != imageId)
  }

  /**
   * `deletePropertyImage(imageId, propertyId)`. The check and the DELETE use
   * only imageId. When the deleted row was a thumbnail, one image of
   * propertyId chosen by the database (`LIMIT 1` without ORDER BY) becomes
   * the thumbnail; any remaining image may be the one.
   */
  method DeletePropertyImage(db: Database, imageId: int, propertyId: int) returns (r: Option<ImageRow>)
    modifies db`images
    ensures r == FindImage(old(db.images), imageId)
    ensures r.None? ==> db.images == old(db.images)
    ensures r.Some? && !r.value.isThumbnail ==> db.images == WithoutImage(old(db.images), imageId)
    ensures r.Some? && r.value.isThumbnail ==>
      var rest := WithoutImage(old(db.images), imageId);
      |db.images| == |rest| &&
      if HasImages(rest, propertyId) then
        exists k :: 0 <= k < |rest| && rest[k].propertyId == propertyId &&
          db.images == rest[k := rest[k].(isThumbnail := true)]
      else db.images == rest
    ensures r.Some? ==> forall m :: m in db.images ==> m.id != imageId
    ensures old(db.ImagesValid()) ==> db.ImagesValid()
  {
    r := FindImage(db.images, imageId);
    if r.None? {
      return;
    }
    var rest := WithoutImage(db.images, imageId);
    if db.ImagesValid() {
      WhereDistinct(db.images, (m: ImageRow) => m.id != imageId, ImageId);
    }
    db.images := rest;
    if r.value.isThumbnail && HasImages(rest, propertyId) {
      var k :| 0 <= k < |rest| && rest[k].propertyId == propertyId;
      var promoted := rest[k := rest[k].(isThumbnail := true)];
      if db.ImagesValid() {
        SameIdsValid(rest, promoted, db.nextId);
      }
      ThumbnailPromoted(old(db.images), promoted, imageId, propertyId, k);
      db.images := promoted;
    }
  }

  /** Changing flags in place keeps the ids, so it keeps the id invariant. */
  lemma SameIdsValid(a: seq<ImageRow>, b: seq<ImageRow>, nextId: int)
    requires |a| == |b| && forall i :: 0 <= i < |a| ==> b[i].id == a[i].id
    requires DistinctIds(a, ImageId) && forall m :: m in a ==> m.id < nextId
    ensures DistinctIds(b, ImageId) && forall m :: m in b ==> m.id < nextId
  {
    forall m | m in b ensures m.id < nextId
    {
      var i :| 0 <= i < |b| && b[i] == m;
      assert a[i] in a;
    }
    forall i, j | 0 <= i < j < |b| ensures ImageId(b[i]) != ImageId(b[j])
    {
      assert ImageId(a[i]) != ImageId(a[j]);
    }
  }

  /**
   * After deleting a thumbnail, a property that still has images has a
   * thumbnail again, and the deleted id is gone.
   */
  lemma ThumbnailPromoted(before: seq<ImageRow>, after: seq<ImageRow>, imageId: int, propertyId: int, k: int)
    requires 0 <= k < |WithoutImage(before, imageId)|
    requires WithoutImage(before, imageId)[k].propertyId == propertyId
    requires after == WithoutImage(before, imageId)[k := WithoutImage(before, imageId)[k].(isThumbnail := true)]
    ensures exists j :: 0 <= j < |after| && after[j].propertyId == propertyId && after[j].isThumbnail
    ensures forall m :: m in after ==> m.id != imageId
  {
    var rest := WithoutImage(before, imageId);
    assert after[k].propertyId == propertyId && after[k].isThumbnail;
    forall m | m in after ensures m.id != imageId
    {
      var j :| 0 <= j < |after| && after[j] == m;
      assert rest[j] in rest;
    }
  }

  // ---------------------------------------------------------------------
  // deleteProperty

  function WithoutPropertyImages(images: seq<ImageRow>, propertyId: int): seq<ImageRow>
  {
    Where(images, (m: ImageRow) => m.propertyId != propertyId)
  }

  function WithoutProperty(properties: seq<PropertyRow>, propertyId: int): (r: seq<PropertyRow>)
    ensures forall p :: p in r <==> p in properties && p.id != propertyId
  {
    Where(properties, (p: PropertyRow) => p.id != propertyId)
  }

  /**
   * `deleteProperty(propertyId)`: statement 0 deletes the images, 1 the
   * property, 2 is the COMMIT. The result is the deleted row, or None when
   * there was none.
   */
  method DeleteProperty(db: Database, propertyId: int, fault: Fault) returns (r: Result<Option<PropertyRow>>)
    modifies db`images, db`properties
    ensures fault.FailAt? && fault.step <= 2 ==>
      r == DbError && db.images == old(db.images) && db.properties == old(db.properties)
    ensures !(fault.FailAt? && fault.step <= 2) ==>
      r == Ok(FindProperty(old(db.properties), propertyId)) &&
      db.images == WithoutPropertyImages(old(db.images), propertyId) &&
      db.properties == WithoutProperty(old(db.properties), propertyId)
    ensures old(db.ImagesValid()) ==> db.ImagesValid()
  {
    var images, properties := db.images, db.properties;
    if FailsAt(fault, 0) {
      return DbError;
    }
    if db.ImagesValid() {
      WhereDistinct(db.images, (m: ImageRow) => m.propertyId != propertyId, ImageId);
    }
    db.images := WithoutPropertyImages(db.images, propertyId);
    if FailsAt(fault, 1) {
      db.images := images;
      return DbError;
    }
    var deleted := FindProperty(db.properties, propertyId);
    db.properties := WithoutProperty(db.properties, propertyId);
    if FailsAt(fault, 2) {
      db.images, db.properties := images, properties;
      return DbError;
    }
    r := Ok(deleted);
  }

  /** After a committed delete nothing of the property is left: no row, no image, no lookup result. */
  lemma DeletedPropertyGone(images: seq<ImageRow>, properties: seq<PropertyRow>, propertyId: int)
    ensures forall m :: m in WithoutPropertyImages(images, propertyId) ==> m.propertyId != propertyId
    ensures FindProperty(WithoutProperty(properties, propertyId), propertyId).None?
    ensures ImageListing(WithoutPropertyImages(images, propertyId), propertyId) == []
  {
    WhereNone(WithoutPropertyImages(images, propertyId), (m: ImageRow) => m.propertyId == propertyId);
  }
}
