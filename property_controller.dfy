/**
 * The property controller: the pagination of `getAllProperties` and the
 * ordered checks of the handlers that create, update and delete properties
 * and their images.
 *
 * Every handler first runs a ladder of checks that can end the request with
 * 403, 404 or 400; the ladders are functions here, and each handler method
 * states that a request ended by one of them changes no table. The files a
 * handler deletes from disk are returned as a list of paths, in the order the
 * handler unlinks them, so that the contracts can say when that happens.
 * The request's user is the claims the authentication middleware attached.
 */
module PropertyController {
  import opened Common
  import opened JsText
  import opened Db
  import opened Validators
  import opened PropertyListing
  import opened PropertyModel
  import opened AgentModel
  import opened Paging

  // ---------------------------------------------------------------------
  // getAllProperties: pagination

  /** `x ? parseInt(x) : undefined` for a query parameter. */
  function OptionalInt(q: Query, key: string): Option<Value>
  {
    if key in q && q[key] != "" then Some(ParseInt(q[key])) else None
  }

  function OptionalStr(q: Query, key: string): Option<Value>
  {
    if key in q then Some(Str(q[key])) else None
  }

  /** The filter record the handler builds from the query string. */
  function ListingFilters(q: Query): Filters
  {
    Filters(OptionalStr(q, "city"), OptionalInt(q, "min_deposit"), OptionalInt(q, "max_deposit"),
            OptionalInt(q, "min_monthly_rent"), OptionalInt(q, "max_monthly_rent"),
            OptionalStr(q, "property_type"), OptionalInt(q, "room_count"),
            Some(LimitValue(q)), Some(OffsetValue(q)))
  }

  datatype ListingReply =
    | Listing(properties: seq<PropertyRow>, pagination: Pagination)
    | ListingFailed(response: Response)

  const LISTING_FAILED := Response(500, "Error getting properties")

  /** `getAllProperties(req, res)`: one page of the listing and the pagination block. */
  method GetAllPropertiesHandler(db: Database, q: Query) returns (reply: ListingReply)
    ensures var f := ListingFilters(q);
      reply.ListingFailed? <==>
        ListingSpec(db.properties, db.agents, db.users, f).DbError? || CountSpec(db.properties, db.agents, f).DbError?
    ensures reply.ListingFailed? ==> reply.response == LISTING_FAILED
    ensures var f := ListingFilters(q);
      reply.Listing? ==>
        reply.properties == ListingSpec(db.properties, db.agents, db.users, f).value &&
        reply.pagination == Pagination(CountSpec(db.properties, db.agents, f).value, PageValue(q), LimitValue(q),
                                       TotalPages(CountSpec(db.properties, db.agents, f).value, LimitNumber(q)))
  {
    var f := ListingFilters(q);
    var rows := GetAllProperties(db, f);
    if rows.DbError? {
      return ListingFailed(LISTING_FAILED);
    }
    var total := GetPropertyCount(db, f);
    if total.DbError? {
      return ListingFailed(LISTING_FAILED);
    }
    reply := Listing(rows.value, Pagination(total.value, PageValue(q), LimitValue(q), TotalPages(total.value, LimitNumber(q))));
  }

  /** Page p of l rows starts at row (p - 1) * l and holds at most l rows. */
  lemma PageArithmetic(q: Query, p: int, l: int)
    requires PageQuery(q, p, l) && p >= 1 && l >= 1
    ensures PagingAccepted(ListingFilters(q))
    ensures PageLimit(ListingFilters(q)) == Some(l)
    ensures PageOffset(ListingFilters(q)) == (p - 1) * l
    ensures PageValue(q) == Int(p) && LimitValue(q) == Int(l)
    ensures LimitNumber(q) == Some(l)
  {
    PageNumbers(q, p, l);
    var offset := (p - 1) * l;
    MultiplyMonotone(0, p - 1, l);
    var f := ListingFilters(q);
    assert f.limit == Some(Int(l)) && f.offset == Some(Int(offset));
  }

  /** With the page's limit and offset, the listing page is non-empty exactly when p <= ceil(count / l). */
  lemma ListingPageWithinCount(properties: seq<PropertyRow>, agents: seq<AgentRow>, users: seq<UserRow>,
                               f: Filters, p: int, l: int)
    requires p >= 1 && l >= 1
    requires FiltersAccepted(f) && PageLimit(f) == Some(l) && PageOffset(f) == (p - 1) * l
    requires forall a :: a in agents ==> FindUser(users, a.userId).Some?
    ensures ListingSpec(properties, agents, users, f).Ok? && CountSpec(properties, agents, f).Ok?
    ensures |ListingSpec(properties, agents, users, f).value| > 0 <==> p <= CeilDiv(CountSpec(properties, agents, f).value, l)
  {
    CountAgreesWithListing(properties, agents, users, f);
    var sorted := SortDesc(Matching(ListedRows(properties, agents, users), f), CreatedAt);
    PageWithinTotal(sorted, p, l, PageOffset(f));
  }

  /**
   * When every agent has a user row, page p is non-empty exactly when p is
   * at most the reported number of pages.
   */
  lemma PageNonEmptyIffWithinTotal(properties: seq<PropertyRow>, agents: seq<AgentRow>, users: seq<UserRow>,
                                   q: Query, p: int, l: int)
    requires PageQuery(q, p, l) && p >= 1 && l >= 1
    requires FilterParamsAccepted(ListingFilters(q))
    requires forall a :: a in agents ==> FindUser(users, a.userId).Some?
    ensures ListingSpec(properties, agents, users, ListingFilters(q)).Ok?
    ensures CountSpec(properties, agents, ListingFilters(q)).Ok?
    ensures LimitNumber(q) == Some(l)
    ensures |ListingSpec(properties, agents, users, ListingFilters(q)).value| > 0 <==>
            p <= TotalPages(CountSpec(properties, agents, ListingFilters(q)).value, LimitNumber(q)).value
  {
    var f := ListingFilters(q);
    PageArithmetic(q, p, l);
    ListingPageWithinCount(properties, agents, users, f, p, l);
  }


  // ---------------------------------------------------------------------
  // The check ladders

  const ONLY_VERIFIED_CREATE := Response(403, "Only verified agents can create properties")
  const NOT_VERIFIED_YET := Response(403, "Your agent account is not verified yet")
  const VALIDATION_FAILED := Response(400, "Validation failed")
  const ONLY_AGENTS_UPDATE := Response(403, "Only agents can update properties")
  const PROPERTY_NOT_FOUND := Response(404, "Property not found")
  const ONLY_OWN_UPDATE := Response(403, "You can only update your own properties")
  const IMAGE_NOT_FOUND := Response(404, "Image not found")
  const ONLY_AGENTS_OR_ADMINS_DELETE := Response(403, "Only agents or admins can delete properties")
  const ONLY_OWN_DELETE := Response(403, "You can only delete your own properties")

  const PROPERTY_CREATED := Response(201, "Property created successfully")
  const PROPERTY_UPDATED := Response(200, "Property updated successfully")
  const THUMBNAIL_UPDATED := Response(200, "Property thumbnail updated successfully")
  const IMAGE_DELETED := Response(200, "Property image deleted successfully")
  const PROPERTY_DELETED := Response(200, "Property deleted successfully")

  const CREATE_FAILED := Response(500, "Error creating property")
  const UPDATE_FAILED := Response(500, "Error updating property")
  const THUMBNAIL_FAILED := Response(500, "Error updating property thumbnail")
  const IMAGE_DELETE_FAILED := Response(500, "Error deleting property image")
  const DELETE_FAILED := Response(500, "Error deleting property")

  /** The checks of `createProperty`: an agent row whose status is verified. */
  function CreateGate(agent: Option<AgentRow>): (r: Option<Response>)
    ensures r.None? <==> agent.Some? && agent.value.status == VERIFIED
    ensures agent.None? ==> r == Some(ONLY_VERIFIED_CREATE)
    ensures r.Some? ==> r.value.status == 403
  {
    if agent.None? then Some(ONLY_VERIFIED_CREATE)
    else if agent.value.status != VERIFIED then Some(NOT_VERIFIED_YET)
    else None
  }

  /**
   * The checks shared by `updateProperty`, `updatePropertyThumbnail` and
   * `deletePropertyImage`: the caller needs an agent row, even an admin, and
   * then must own the property or be an admin.
   */
  function EditGate(agent: Option<AgentRow>, property: Option<PropertyDetail>, role: string): (r: Option<Response>)
    ensures r.None? <==>
      agent.Some? && property.Some? && (property.value.property.agentId == agent.value.id || role == ADMIN)
    ensures agent.None? ==> r == Some(ONLY_AGENTS_UPDATE)
    ensures agent.Some? && property.None? ==> r == Some(PROPERTY_NOT_FOUND)
    ensures r.Some? ==> r.value.status == 403 || r.value.status == 404
  {
    if agent.None? then Some(ONLY_AGENTS_UPDATE)
    else if property.None? then Some(PROPERTY_NOT_FOUND)
    else if property.value.property.agentId != agent.value.id && role != ADMIN then Some(ONLY_OWN_UPDATE)
    else None
  }

  /**
   * The checks of `deleteProperty`: an admin passes without an agent row; an
   * agent must own the property unless it is an admin.
   */
  function DeleteGate(agent: Option<AgentRow>, property: Option<PropertyDetail>, role: string): (r: Option<Response>)
    ensures r.None? <==>
      property.Some? && (role == ADMIN || (agent.Some? && property.value.property.agentId == agent.value.id))
    ensures agent.None? && role != ADMIN ==> r == Some(ONLY_AGENTS_OR_ADMINS_DELETE)
    ensures r.Some? ==> r.value.status == 403 || r.value.status == 404
  {
    if agent.None? && role != ADMIN then Some(ONLY_AGENTS_OR_ADMINS_DELETE)
    else if property.None? then Some(PROPERTY_NOT_FOUND)
    else if agent.Some? && property.value.property.agentId != agent.value.id && role != ADMIN then Some(ONLY_OWN_DELETE)
    else None
  }

  /** An admin without an agent row may delete a property but not edit it. */
  lemma AdminWithoutAgentRow(property: PropertyDetail)
    ensures EditGate(None, Some(property), ADMIN) == Some(ONLY_AGENTS_UPDATE)
    ensures DeleteGate(None, Some(property), ADMIN).None?
  {
  }

  // ---------------------------------------------------------------------
  // Uploaded files

  const PROPERTY_UPLOADS := "/uploads/properties/"

  /** `req.files.map(file => '/uploads/properties/' + path.basename(file.path))` */
  function UploadPaths(files: seq<string>): (r: seq<string>)
    ensures |r| == |files|
    ensures forall k :: 0 <= k < |r| ==>
      StartsWith(r[k], PROPERTY_UPLOADS) && '/' !in r[k][|PROPERTY_UPLOADS|..]
  {
    seq(|files|, k requires 0 <= k < |files| => PROPERTY_UPLOADS + Basename(files[k]))
  }

  /** `req.body.thumbnailIndex ? parseInt(req.body.thumbnailIndex) : 0` */
  function ThumbnailIndex(body: map<string, Value>): (r: Value)
    ensures !TruthyOpt(Get(body, "thumbnailIndex")) ==> r == Int(0)
    ensures r.Int? || r.NaN?
  {
    if TruthyOpt(Get(body, "thumbnailIndex")) then ParseIntValue(body["thumbnailIndex"]) else Int(0)
  }

  /** The image paths of a property, in the order `getPropertyById` lists them. */
  function ImagePaths(images: seq<ImageRow>): (r: seq<string>)
    ensures |r| == |images| && forall k :: 0 <= k < |r| ==> r[k] == images[k].path
  {
    seq(|images|, k requires 0 <= k < |images| => images[k].path)
  }

  // ---------------------------------------------------------------------
  // Handlers

  /**
   * The upload step shared by create and update: when files were uploaded,
   * `addPropertyImages` with their stored paths and the requested thumbnail
   * index. `failed` is whether it raised.
   */
  method AttachUploads(db: Database, propertyId: int, files: seq<string>, body: map<string, Value>, fault: Fault)
    returns (failed: bool)
    modifies db`images, db`nextId
    ensures files == [] ==> !failed && db.images == old(db.images) && db.nextId == old(db.nextId)
    ensures files != [] && fault.FailAt? && fault.step <= |files| ==> failed && db.images == old(db.images)
    ensures files != [] && !(fault.FailAt? && fault.step <= |files|) ==>
      db.images == old(db.images) + NewImages(propertyId, UploadPaths(files), ThumbnailIndex(body), old(db.nextId)) &&
      failed == FailsAt(fault, |files| + 1)
    ensures old(db.ImagesValid()) ==> db.ImagesValid()
  {
    failed := false;
    if |files| > 0 {
      var added := AddPropertyImages(db, propertyId, UploadPaths(files), ThumbnailIndex(body), fault);
      failed := added.DbError?;
    }
  }

  /** The tables and the reply after `createProperty` has passed its checks. */
  datatype Created = Created(properties: seq<PropertyRow>, images: seq<ImageRow>, resp: Response, removed: seq<string>)

  /**
   * The outcome of the insert with valid data. A value the table cannot
   * convert fails the INSERT: 500, no write, and the uploaded files deleted.
   * Otherwise the property row stays; the images are added unless the image
   * transaction fails, and on any failure of that transaction the reply is a
   * 500 and the uploaded files are deleted.
   */
  function CreateOutcome(properties: seq<PropertyRow>, images: seq<ImageRow>, nextId: int, agentId: int,
                         data: map<string, Value>, body: map<string, Value>, files: seq<string>, now: int,
                         fault: Fault): (c: Created)
    ensures !Storable(InsertedColumns(data)) ==>
      c.properties == properties && c.images == images && c.resp == CREATE_FAILED && c.removed == files
    ensures Storable(InsertedColumns(data)) ==>
      c.properties == properties + [PropertyRow(nextId, agentId, Stored(InsertedColumns(data)), now, now)] &&
      (c.images == images || c.images == images + NewImages(nextId, UploadPaths(files), ThumbnailIndex(body), nextId + 1)) &&
      (c.resp == PROPERTY_CREATED <==> files == [] || !(fault.FailAt? && fault.step <= |files| + 1))
    ensures c.resp == PROPERTY_CREATED ==> c.removed == [] && (files != [] ==> c.images != images)
    ensures c.resp != PROPERTY_CREATED ==> c.resp == CREATE_FAILED && c.removed == files
  {
    var cols := InsertedColumns(data);
    if !Storable(cols) then Created(properties, images, CREATE_FAILED, files)
    else
      var row := PropertyRow(nextId, agentId, Stored(cols), now, now);
      if files == [] then Created(properties + [row], images, PROPERTY_CREATED, [])
      else if fault.FailAt? && fault.step <= |files| then Created(properties + [row], images, CREATE_FAILED, files)
      else
        var added := images + NewImages(nextId, UploadPaths(files), ThumbnailIndex(body), nextId + 1);
        if FailsAt(fault, |files| + 1) then Created(properties + [row], added, CREATE_FAILED, files)
        else Created(properties + [row], added, PROPERTY_CREATED, [])
  }

  /**
   * A body the validator accepts can still fail the INSERT and the UPDATE: a
   * deposit of `"abc"` is neither missing nor below zero, yet no integer.
   */
  lemma ValidBodyMayFailInsert(body: map<string, Value>)
    requires TruthyOpt(Get(body, "address")) && TruthyOpt(Get(body, "city"))
    requires Get(body, "deposit") == Some(Str("abc")) && Get(body, "monthly_rent") == Some(Int(0))
    requires "maintenance_fee" !in body
    ensures PropertyDataValid(body) && !Storable(InsertedColumns(body)) && !Storable(body)
  {
    LetterDepositValid(body);
    IntegerColumnRejects(false);
    UnconvertedPlainColumn(body, "deposit");
  }

  lemma LetterDepositValid(body: map<string, Value>)
    requires TruthyOpt(Get(body, "address")) && TruthyOpt(Get(body, "city"))
    requires Get(body, "deposit") == Some(Str("abc")) && Get(body, "monthly_rent") == Some(Int(0))
    requires "maintenance_fee" !in body
    ensures PropertyDataValid(body)
  {
    NoMinusNotNegative("abc");
    assert !Negative(Get(body, "deposit")) && !Negative(Get(body, "monthly_rent"));
  }

  /** A plain column whose value does not convert fails both the INSERT and the UPDATE. */
  lemma UnconvertedPlainColumn(data: map<string, Value>, c: string)
    requires c in PlainColumns && c in data
    requires StoredValue(PropertyColumnType(c), data[c]).None?
    ensures !Storable(InsertedColumns(data)) && !Storable(data)
  {
    InsertedColumnsMeaning(data);
    assert InsertedColumns(data)[c] == data[c];
  }

  /** The writing half of `createProperty` once the data is valid. */
  method InsertWithUploads(db: Database, agentId: int, data: map<string, Value>, body: map<string, Value>,
                           files: seq<string>, now: int, fault: Fault)
    returns (resp: Response, removed: seq<string>)
    modifies db`properties, db`images, db`nextId
    ensures Created(db.properties, db.images, resp, removed) ==
      CreateOutcome(old(db.properties), old(db.images), old(db.nextId), agentId, data, body, files, now, fault)
  {
    var created := CreateProperty(db, agentId, data, now);
    if created.DbError? {
      return CREATE_FAILED, files;
    }
    var row := created.value;
    assert db.images == old(db.images) && row.id == old(db.nextId) && db.nextId == row.id + 1;
    var failed := AttachUploads(db, row.id, files, body, fault);
    if failed {
      return CREATE_FAILED, files;
    }
    resp, removed := PROPERTY_CREATED, [];
  }

  /**
   * `createProperty(req, res)`: the agent gate, the validator on the body
   * with the caller's agent id, then the insert. `fault` is injected into
   * `addPropertyImages`.
   */
  method CreatePropertyHandler(db: Database, user: Claims, body: map<string, Value>, files: seq<string>,
                               now: int, fault: Fault)
    returns (resp: Response, errors: seq<PropertyError>, removed: seq<string>)
    modifies db`properties, db`images, db`nextId
    ensures var gate := CreateGate(old(AgentByUserId(db, user.id)));
      gate.Some? ==> resp == gate.value && errors == [] && removed == [] && unchanged(db)
    ensures var agent := old(AgentByUserId(db, user.id));
      CreateGate(agent).None? ==>
        var data := body["agent_id" := Int(agent.value.id)];
        (errors != [] <==> !PropertyDataValid(data)) &&
        (forall e :: e in errors <==> Violates(data, e)) &&
        (errors != [] ==> resp == VALIDATION_FAILED && removed == [] && unchanged(db)) &&
        (errors == [] ==>
           Created(db.properties, db.images, resp, removed) ==
           CreateOutcome(old(db.properties), old(db.images), old(db.nextId), agent.value.id, data, body, files, now, fault))
  {
    errors, removed := [], [];
    var agent := AgentByUserId(db, user.id);
    var gate := CreateGate(agent);
    if gate.Some? {
      return gate.value, errors, removed;
    }
    var data := body["agent_id" := Int(agent.value.id)];
    errors := ValidatePropertyData(data);
    ErrorsEmptyIffValid(data, errors);
    if |errors| > 0 {
      return VALIDATION_FAILED, errors, removed;
    }
    resp, removed := InsertWithUploads(db, agent.value.id, data, body, files, now, fault);
  }

  /**
   * `updateProperty(req, res)`: the ownership ladder, the validator, the
   * patch, then the images. A value the table cannot convert fails the
   * UPDATE: 500, no write, and the uploaded files deleted. `fault` is
   * injected into `addPropertyImages`.
   */
  method UpdatePropertyHandler(db: Database, user: Claims, id: int, body: map<string, Value>, files: seq<string>,
                               now: int, fault: Fault)
    returns (resp: Response, errors: seq<PropertyError>, removed: seq<string>)
    modifies db`properties, db`images, db`nextId
    ensures var gate := EditGate(old(AgentByUserId(db, user.id)), old(PropertyById(db, id)), user.role);
      gate.Some? ==> resp == gate.value && errors == [] && removed == [] && unchanged(db)
    ensures EditGate(old(AgentByUserId(db, user.id)), old(PropertyById(db, id)), user.role).None? ==>
      (errors != [] <==> !PropertyDataValid(body)) &&
      (forall e :: e in errors <==> Violates(body, e)) &&
      (errors != [] ==> resp == VALIDATION_FAILED && removed == [] && unchanged(db))
    ensures EditGate(old(AgentByUserId(db, user.id)), old(PropertyById(db, id)), user.role).None? &&
            PropertyDataValid(body) && !Storable(body) ==>
      resp == UPDATE_FAILED && removed == files && unchanged(db)
    ensures EditGate(old(AgentByUserId(db, user.id)), old(PropertyById(db, id)), user.role).None? &&
            PropertyDataValid(body) && Storable(body) ==>
      db.properties == PatchedRows(old(db.properties), id, Stored(body), now) &&
      (files == [] ==> db.images == old(db.images) && resp == PROPERTY_UPDATED && removed == []) &&
      (files != [] && fault.FailAt? && fault.step <= |files| ==>
         db.images == old(db.images) && resp == UPDATE_FAILED && removed == files) &&
      (files != [] && !(fault.FailAt? && fault.step <= |files|) ==>
         db.images == old(db.images) + NewImages(id, UploadPaths(files), ThumbnailIndex(body), old(db.nextId)) &&
         (FailsAt(fault, |files| + 1) ==> resp == UPDATE_FAILED && removed == files) &&
         (!FailsAt(fault, |files| + 1) ==> resp == PROPERTY_UPDATED && removed == []))
  {
    errors, removed := [], [];
    var agent := AgentByUserId(db, user.id);
    var property := PropertyById(db, id);
    var gate := EditGate(agent, property, user.role);
    if gate.Some? {
      return gate.value, errors, removed;
    }
    errors := ValidatePropertyData(body);
    ErrorsEmptyIffValid(body, errors);
    if |errors| > 0 {
      return VALIDATION_FAILED, errors, removed;
    }
    var updated := UpdateProperty(db, id, body, now);
    if updated.DbError? {
      return UPDATE_FAILED, errors, files;
    }
    var failed := AttachUploads(db, id, files, body, fault);
    if failed {
      return UPDATE_FAILED, errors, files;
    }
    resp := PROPERTY_UPDATED;
  }

  /**
   * `updatePropertyThumbnail(req, res)`; `fault` is injected into the model's
   * transaction. imageId is the body's value, null when it is undefined, as
   * node-postgres binds it.
   */
  method UpdateThumbnailHandler(db: Database, user: Claims, id: int, imageId: Value, fault: Fault)
    returns (resp: Response)
    modifies db`images
    ensures var gate := EditGate(old(AgentByUserId(db, user.id)), old(PropertyById(db, id)), user.role);
      gate.Some? ==> resp == gate.value && db.images == old(db.images)
    ensures EditGate(old(AgentByUserId(db, user.id)), old(PropertyById(db, id)), user.role).None? ==>
      (ThumbnailRollsBack(fault, imageId) ==> db.images == old(db.images) && resp == THUMBNAIL_FAILED) &&
      (!ThumbnailRollsBack(fault, imageId) ==>
         db.images == MarkThumbnail(ClearThumbnails(old(db.images), id), IdParam(imageId), id) &&
         resp == (if FailsAt(fault, 3) then THUMBNAIL_FAILED else THUMBNAIL_UPDATED))
  {
    var agent := AgentByUserId(db, user.id);
    var property := PropertyById(db, id);
    var gate := EditGate(agent, property, user.role);
    if gate.Some? {
      return gate.value;
    }
    var images := UpdatePropertyThumbnail(db, id, imageId, fault);
    if images.DbError? {
      return THUMBNAIL_FAILED;
    }
    resp := THUMBNAIL_UPDATED;
  }

  /**
   * `deletePropertyImage(req, res)`: the image must be one of the property's
   * listed images; its file is deleted only after the database row is.
   */
  method DeleteImageHandler(db: Database, user: Claims, id: int, imageId: int) returns (resp: Response, removed: seq<string>)
    modifies db`images
    ensures var gate := EditGate(old(AgentByUserId(db, user.id)), old(PropertyById(db, id)), user.role);
      gate.Some? ==> resp == gate.value && removed == [] && db.images == old(db.images)
    ensures var property := old(PropertyById(db, id));
      EditGate(old(AgentByUserId(db, user.id)), property, user.role).None? &&
      FindImage(property.value.images, imageId).None? ==>
        resp == IMAGE_NOT_FOUND && removed == [] && db.images == old(db.images)
    ensures removed != [] ==>
      resp == IMAGE_DELETED && FindImage(old(db.images), imageId).Some? &&
      (forall m :: m in db.images ==> m.id != imageId) &&
      removed == [FindImage(old(PropertyById(db, id)).value.images, imageId).value.path]
    ensures resp == IMAGE_DELETED ==> removed != []
    ensures resp != IMAGE_DELETED ==> db.images == old(db.images)
    ensures var property := old(PropertyById(db, id));
      EditGate(old(AgentByUserId(db, user.id)), property, user.role).None? &&
      FindImage(property.value.images, imageId).Some? ==>
        resp == IMAGE_DELETED && removed == [FindImage(property.value.images, imageId).value.path]
    ensures resp == IMAGE_DELETED ==>
      var gone := FindImage(old(db.images), imageId).value;
      var rest := WithoutImage(old(db.images), imageId);
      ((!gone.isThumbnail || !HasImages(rest, id)) ==> db.images == rest) &&
      (gone.isThumbnail && HasImages(rest, id) ==>
         exists k :: 0 <= k < |rest| && rest[k].propertyId == id && db.images == rest[k := rest[k].(isThumbnail := true)])
    ensures old(db.ImagesValid()) ==> db.ImagesValid()
  {
    removed := [];
    var agent := AgentByUserId(db, user.id);
    var property := PropertyById(db, id);
    var gate := EditGate(agent, property, user.role);
    if gate.Some? {
      return gate.value, removed;
    }
    var target := FindImage(property.value.images, imageId);
    if target.None? {
      return IMAGE_NOT_FOUND, removed;
    }
    ImageListingCorrect(db.images, id);
    assert target.value in db.images;
    var deleted := DeletePropertyImage(db, imageId, id);
    if deleted.None? {
      return IMAGE_NOT_FOUND, removed;
    }
    removed := [target.value.path];
    resp := IMAGE_DELETED;
  }

  /**
   * `deleteProperty(req, res)`: the image files are deleted only after the
   * database transaction commits. `fault` is injected into that transaction.
   */
  method DeletePropertyHandler(db: Database, user: Claims, id: int, fault: Fault)
    returns (resp: Response, removed: seq<string>)
    modifies db`images, db`properties
    ensures var gate := DeleteGate(old(AgentByUserId(db, user.id)), old(PropertyById(db, id)), user.role);
      gate.Some? ==>
        resp == gate.value && removed == [] && db.images == old(db.images) && db.properties == old(db.properties)
    ensures DeleteGate(old(AgentByUserId(db, user.id)), old(PropertyById(db, id)), user.role).None? ==>
      (fault.FailAt? && fault.step <= 2 ==>
         resp == DELETE_FAILED && removed == [] &&
         db.images == old(db.images) && db.properties == old(db.properties)) &&
      (!(fault.FailAt? && fault.step <= 2) ==>
         db.images == WithoutPropertyImages(old(db.images), id) &&
         db.properties == WithoutProperty(old(db.properties), id) &&
         resp == PROPERTY_DELETED && removed == ImagePaths(old(PropertyById(db, id)).value.images))
  {
    removed := [];
    var agent := AgentByUserId(db, user.id);
    var property := PropertyById(db, id);
    var gate := DeleteGate(agent, property, user.role);
    if gate.Some? {
      return gate.value, removed;
    }
    var paths := ImagePaths(property.value.images);
    var deleted := DeleteProperty(db, id, fault);
    if deleted.DbError? {
      return DELETE_FAILED, removed;
    }
    if deleted.value.None? {
      return PROPERTY_NOT_FOUND, removed;
    }
    removed := paths;
    resp := PROPERTY_DELETED;
  }
}
