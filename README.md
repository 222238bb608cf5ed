# Rumos backend in Dafny

Rumos is a room-rental site. It has an Express backend over PostgreSQL and
form validators in the browser. This project models the backend's data
layer (the `*Model.js` objects), its request handlers (the
`*Controller.js` objects), the authentication and role middleware, and the
server-side and client-side validators, and proves what they promise.

How the pieces are modelled:

- **Database.** The tables (users, agents, properties, property images,
  favorites, board categories, board posts, board comments, contact
  requests) are fields of one `Db.Database` class. Each field is a
  sequence of row datatypes. One counter, `nextId`, stands for every
  SERIAL column.
- **Model functions.** A model function that writes becomes a method with
  a field-level `modifies` frame. Its `ensures` gives the new tables as a
  function of the old ones: an UPDATE is a row-by-row map, a DELETE is a
  filter (`Where`), an INSERT is an append. A read becomes a `reads db`
  function, or a function of the table sequences.
- **SQL clauses.** `ORDER BY ... DESC` is `Db.SortDesc` and
  `OFFSET/LIMIT` is `Db.Slice`. A join keeps a row only when the joined
  row exists.
- **Query builders.** The dynamic builders (property filters, board
  category filter, UPDATE SET lists) are methods. They build a clause list
  with numbered placeholders (module `Sql`). Each is proved to select
  exactly the rows the filters describe.
- **Transactions.** Transactions take a `Fault` argument that names the
  statement that raises. A failure at or before COMMIT restores the tables
  as they were before BEGIN.
- **Handlers.** Each handler is a method or function returning the HTTP
  status and message it sends, together with its effect on the tables.
  Files the handler unlinks are returned as a list of paths.
- **JavaScript values.** Request query and body fields are JavaScript
  values (`Common.Value`: null, integer, NaN, string, boolean); an absent
  key is `undefined`. Module `JsText` models `parseInt`, `Number` on
  integer notation for the paging arithmetic, the numeric-literal grammar
  behind `isNaN(Number(x))` and `x < 0`, `split` and `path.basename` as
  far as the handlers use them.
- **Column types.** Each property column has a type (integer, boolean,
  text, or stored as given). A value is stored after PostgreSQL's input
  conversion for its column's type (`PropertyModel.StoredValue`); a value
  that does not convert fails the INSERT or UPDATE.
- **Outside effects as parameters.** bcrypt's `hash` and `compare`, JWT
  verification, the clock and uploaded file paths are parameters.

## Model

| member | source | states |
|---|---|---|
| Validators.EmailShapeIsPattern | backend/utils/validators.js:3-6 | the e-mail pattern accepts a string exactly when it has one `@`, no white space, and a `.` in its domain with text on both sides |
| Validators.IsValidEmail | backend/utils/validators.js:3-6 | an accepted address is at least five characters long and neither starts nor ends with `@` |
| Validators.EmailFromParts | backend/utils/validators.js:3-6 | any three non-empty runs free of `@` and white space, joined as local@domain.tld, are accepted |
| Validators.PhoneFromParts | backend/utils/validators.js:9-13 | every combination of the pattern's class character, optional hyphens and 3- or 4-digit middle block is accepted |
| Validators.PhoneParts | backend/utils/validators.js:9-13 | conversely, every accepted number decomposes into `01`, a class character, optional hyphens, a 3/4-digit block and a 4-digit block |
| Validators.TailFromParts | backend/utils/validators.js:11 | `-?[0-9]{3,4}-?[0-9]{4}$` accepts a 3- or 4-digit block and a 4-digit block with any choice of hyphens |
| Validators.TailParts | backend/utils/validators.js:11 | conversely, whatever that part of the pattern accepts splits into those blocks and hyphens |
| Validators.PrefixTail | backend/utils/validators.js:11 | `01`, a class character and an accepted tail make an accepted number |
| Validators.PhoneLength | backend/utils/validators.js:9-13 | an accepted number is 10 to 13 characters long |
| Validators.PhoneAcceptsBar | backend/utils/validators.js:11 | the bar written inside the bracket class is itself accepted as the third character |
| Validators.IsValidPhoneNumber | backend/utils/validators.js:9-13 | an accepted number is 10 to 13 characters long |
| Validators.StrongPasswordIsRule | backend/utils/validators.js:16-20 | the lookahead pattern accepts exactly strings of 8 or more ASCII letters and digits with a lower-case letter, an upper-case letter and a digit |
| Validators.IsStrongPassword | backend/utils/validators.js:16-20 | an accepted password holds a digit |
| Validators.ValidatePropertyData | backend/utils/validators.js:23-41 | the returned errors are exactly the violated checks (missing address/city, missing or negative deposit and rent, a truthy negative maintenance fee), each once, in the validator's order |
| Validators.EveryCheckRuns | backend/utils/validators.js:23-41 | the validator runs every kind of check, each at the position its rank gives |
| Validators.Failed | backend/utils/validators.js:23-41 | the errors reported by the first k checks number at most k |
| Validators.FailedMembers | backend/utils/validators.js:23-41 | the first k checks report exactly the violated checks of rank below k |
| Validators.FailedBelow | backend/utils/validators.js:23-41 | the first k checks report only checks of rank below k |
| Validators.FailedOrdered | backend/utils/validators.js:23-41 | the first k checks report their errors in increasing rank, so none twice |
| Validators.FailedStep | backend/utils/validators.js:27-38 | each `if (...) errors.push(...)` extends the report of the checks before it by its own check exactly when that check is violated |
| Validators.ReportMeaning | backend/utils/validators.js:23-41 | the full report holds exactly the violated checks, in the order the validator runs them |
| Validators.NoViolationIffValid | backend/utils/validators.js:23-41 | no check is violated exactly when address and city are truthy, deposit and rent are present and non-negative, and any truthy maintenance fee is non-negative |
| Validators.ErrorsEmptyIffValid | backend/utils/validators.js:23-41 | the validator returns an empty list exactly when the body is valid in that sense |
| ClientValidators.PhoneTailLength | frontend/src/utils/validators.js:53 | the part after the area prefix is 7 to 10 characters long |
| ClientValidators.ClientAcceptsBackendMobile | frontend/src/utils/validators.js:53-54 | every number the backend accepts passes the form, unless its third character is the bar |
| ClientValidators.ClientAcceptsLandlineBackendRejects | frontend/src/utils/validators.js:53 | the form accepts the Seoul landline 02-123-4567, which the backend rejects |
| ClientValidators.BackendAcceptsBarClientRejects | frontend/src/utils/validators.js:53 | the backend accepts 01\|-1234-5678, which the form rejects |
| ClientValidators.PhoneSpacesIgnored | frontend/src/utils/validators.js:54 | two numbers that differ only in white space get the same verdict |
| ClientValidators.ValidateRegistration | frontend/src/utils/validators.js:2-75 | no message exactly when the named field passes its rule (length bounds, matching confirmation, e-mail and phone patterns, agent-only fields); `validation.required` exactly for a blank required field |
| ClientValidators.ValidateProfile | frontend/src/utils/validators.js:78-108 | no message exactly when e-mail, phone or (for agents) company name passes; `validation.required` exactly for a blank one |
| ClientValidators.ProfileAgreesWithRegistration | frontend/src/utils/validators.js:78-108 | the profile form's verdict on e-mail and phone equals the registration form's |
| ClientValidators.ValidatePasswordChange | frontend/src/utils/validators.js:111-138 | no message exactly when the field passes: a current password, a new one of at least 6 characters, a confirmation equal to it |
| ClientValidators.ConfirmedPasswordPasses | frontend/src/utils/validators.js:128-135 | a confirmation that passes equals the new password, which is at least 6 characters long |
| ClientValidators.ValidatePropertyForm | frontend/src/utils/validators.js:141-161 | `validation.required` exactly for a blank required field, `validation.numeric` exactly for a filled numeric field that is not a number, otherwise none |
| ClientValidators.OptionalAmountsMayBeBlank | frontend/src/utils/validators.js:142-156 | a blank maintenance fee, room size, floor or total floors passes |
| ClientValidators.ValidatePostForm | frontend/src/utils/validators.js:164-181 | the title message exactly for a blank title, the length message exactly for a title over 100 characters, the content message exactly for blank content |
| AuthMiddleware.BearerToken | backend/middleware/authMiddleware.js:15 | the token is the header text after `Bearer ` up to the next space |
| AuthMiddleware.Authenticate | backend/middleware/authMiddleware.js:5-31 | 401 "Authorization token required" for a missing header, a header without `Bearer `, or an empty token; the request is authenticated exactly when verification of that token succeeds, with its claims; otherwise 401 "Invalid or expired token" |
| AuthMiddleware.BearerRoundTrip | backend/middleware/authMiddleware.js:10-25 | a header `Bearer ` + token, token non-empty and without spaces, reaches verification with the token unchanged |
| AuthMiddleware.EmptyTokenRefused | backend/middleware/authMiddleware.js:15-19 | `Bearer ` followed by nothing or by a space is refused before verification |
| RoleMiddleware.CheckRole | backend/middleware/roleMiddleware.js:3-15 | 401 exactly without a user, 403 exactly for a role outside the list, passes exactly for a role in it |
| RoleMiddleware.IsAgent | backend/middleware/roleMiddleware.js:18-20 | 401 exactly without a user; passes exactly for the roles agent and admin |
| RoleMiddleware.IsAdmin | backend/middleware/roleMiddleware.js:22-25 | 401 exactly without a user; passes exactly for the role admin |
| RoleMiddleware.GuardsAdmit | backend/middleware/roleMiddleware.js:18-25 | isAgent admits exactly the roles agent and admin, isAdmin exactly admin |
| RoleMiddleware.AdminIsAgent | backend/middleware/roleMiddleware.js:18-25 | whoever isAdmin admits, isAgent admits too |
| RoleMiddleware.IsSameUser | backend/middleware/roleMiddleware.js:28-46 | 401 exactly without a user; an admin always passes; anyone else passes exactly when their id equals `parseInt` of the id or userId parameter |
| RoleMiddleware.RequestedUser | backend/middleware/roleMiddleware.js:29 | the requested id is `parseInt` of the first truthy parameter, an integer or NaN |
| RoleMiddleware.OwnResourceAdmitted | backend/middleware/roleMiddleware.js:28-46 | a user asking for their own id written in decimal is admitted |
| RoleMiddleware.NoParameterOnlyAdmin | backend/middleware/roleMiddleware.js:29-41 | without either parameter only an admin passes, since `parseInt(undefined)` is NaN |
| JsText.ParseIntOfDigits | backend/middleware/roleMiddleware.js:29 | `parseInt` of an optional minus sign followed by decimal digits reads exactly that integer |
| JsText.ParseIntOfDecimalString | backend/controllers/boardController.js:22-26 | `parseInt` of an integer written in decimal gives that integer back |
| JsText.NumberOf | backend/controllers/propertyController.js:28 | `Number` of blank text is 0, and of decimal digits with surrounding white space their value |
| JsText.NumberOfDigits | backend/controllers/boardController.js:22 | `Number` of plain decimal digits is their value |
| JsText.NumberOfNegated | backend/controllers/propertyController.js:24-28 | `Number` of a minus sign before decimal digits is the negated value |
| JsText.SqlInt | backend/models/boardModel.js:97-110 | an integer bound to an integer column is stored as itself; null and NaN denote no integer |
| JsText.SqlIntOfDecimalString | backend/models/propertyModel.js:141-176 | the decimal text of an integer, as a form sends it, is read by an integer column as that integer |
| JsText.SqlIntOfDigits | backend/models/propertyModel.js:141-176 | decimal digits are read by an integer column as their value |
| JsText.SqlIntOfNegatedDigits | backend/models/propertyModel.js:141-176 | a minus sign before decimal digits is read as the negated value |
| JsText.SqlBoolInputs | backend/models/propertyModel.js:141-176 | a boolean column stores a JSON boolean as itself, reads the strings `true` and `false` as those flags, and of the integers accepts only 1 and 0 |
| JsText.TrueText | backend/models/propertyModel.js:141-176 | the text `true` is read as true |
| JsText.FalseText | backend/models/propertyModel.js:141-176 | the text `false` is read as false |
| JsText.IntegerText | backend/models/propertyModel.js:141-176 | an integer bound to a boolean column is true for 1, false for 0 and rejected otherwise |
| JsText.NoMinusNotNegative | backend/utils/validators.js:30-35 | text without surrounding space that does not start with a minus sign is not below zero for the validator |
| JsText.JoinSplit | backend/middleware/authMiddleware.js:15 | joining the pieces of `split` with the separator gives the string back |
| JsText.Basename | backend/controllers/propertyController.js:154 | the base name of a path holds no slash |
| Sql.Push | backend/models/propertyModel.js:20-23 | pushing a clause keeps every placeholder numbered by its own parameter's position |
| Sql.ParamsOkAppend | backend/models/propertyModel.js:20-67 | the parameters stay acceptable to PostgreSQL when one more acceptable clause is pushed |
| Sql.PagingAppended | backend/models/boardModel.js:33-34 | LIMIT and OFFSET pushed last are accepted exactly when the earlier clauses and both counts are, and then give the row count and the offset |
| Sql.LimitOf | backend/models/propertyModel.js:59-62 | the LIMIT row count of a clause list, when there is a LIMIT clause; Sql.PagingAppended pins it to the pushed count |
| Sql.OffsetOf | backend/models/propertyModel.js:63-66 | the OFFSET row count, 0 without an OFFSET clause; Sql.PagingAppended pins it to the pushed offset |
| Db.Database.FreshId | backend/models/userModel.js:42-49 | a SERIAL id: the current counter value, after which the counter moves on by one |
| Db.SortDescCorrect | backend/models/propertyModel.js:56 | `ORDER BY ... DESC` returns exactly the input rows, as a multiset, newest first |
| Db.SliceBounds | backend/models/propertyModel.js:59-67 | an OFFSET/LIMIT page holds at most LIMIT rows, each from the ordered result, in its order |
| Db.SliceOfDescending | backend/models/propertyModel.js:56-67 | a page of an ordered result keeps the order and holds only rows of that result |
| Db.CountIsWhereLength | backend/models/propertyModel.js:356-405 | `COUNT(*)` equals the number of rows the same WHERE selects |
| Paging.TotalPages | backend/controllers/propertyController.js:55 | `Math.ceil(total / limit)` as sent: null when limit is 0 or NaN, otherwise the smallest page count covering total |
| Paging.CeilDiv | backend/controllers/propertyController.js:55 | the smallest c with total ≤ c·d |
| Paging.OffsetValue | backend/controllers/propertyController.js:22-28 | `(page - 1) * limit` is NaN exactly when page or limit is not a number, and 0 with neither parameter |
| Paging.LimitValue | backend/controllers/propertyController.js:22-28 | `parseInt(limit)` is an integer or NaN, 10 without the parameter |
| Paging.PageValue | backend/controllers/propertyController.js:22-28 | `parseInt(page)` is an integer or NaN, 1 without the parameter |
| Paging.PageNumbers | backend/controllers/propertyController.js:24-28 | page p and limit l written in decimal parse back to p and l, and the offset `(page - 1) * limit` is (p-1)·l |
| Paging.PagesBefore | backend/controllers/propertyController.js:55 | (p-1)·l < total exactly when p ≤ ceil(total / l) |
| Paging.SliceNonEmpty | backend/models/propertyModel.js:59-67 | a page of positive size is empty exactly when its offset is past the end |
| Paging.PageWithinTotal | backend/controllers/propertyController.js:24-55 | page p of l rows from row (p-1)·l is non-empty exactly when p ≤ ceil(total / l) |
| PropertyListing.AllHoldAppend | backend/models/propertyModel.js:20-53 | one more AND clause adds exactly its own condition to the WHERE |
| PropertyListing.AllFiltersMeanMatches | backend/models/propertyModel.js:20-53 | the seven per-filter conditions together are the filter semantics, and their parameters are accepted together |
| PropertyListing.BuildFilterClauses | backend/models/propertyModel.js:17-53 | the clauses pushed are the conditions of exactly the supplied filters, in source order, with numbered placeholders |
| PropertyListing.PushFilter | backend/models/propertyModel.js:20-53 | one filter block pushes its conjunct, numbered after the earlier parameters, exactly when the filter is supplied, and keeps the clause list describing the filters so far |
| PropertyListing.BuildListingQuery | backend/models/propertyModel.js:6-71 | the WHERE holds for a row exactly when it matches the filters; LIMIT only for a truthy limit and OFFSET only inside it for a truthy offset; the parameters are accepted exactly when the filter values are |
| PropertyListing.SelectedIsMatching | backend/models/propertyModel.js:6-71 | the rows the built WHERE selects are the rows matching the filters |
| PropertyListing.GetAllProperties | backend/models/propertyModel.js:6-71 | the result is the listing specification: active properties of verified agents with a user row, matching the filters, newest first, paged; an error for unacceptable parameters |
| PropertyListing.GetPropertyCount | backend/models/propertyModel.js:356-405 | the count is the number of active properties of verified agents matching the filters, without the users join |
| PropertyListing.ListingRowsArePublic | backend/models/propertyModel.js:6-71 | every listed row is an active property of a verified agent and satisfies every filter |
| PropertyListing.ListingOrderedAndBounded | backend/models/propertyModel.js:56-67 | the listing is newest first and holds at most LIMIT rows |
| PropertyListing.NoLimitListsAll | backend/models/propertyModel.js:59-67 | without a truthy limit the listing holds every matching row |
| PropertyListing.RoomCountZeroIgnored | backend/models/propertyModel.js:50-53 | room_count 0 selects the same rows as no room_count |
| PropertyListing.SuppliedAlike | backend/models/propertyModel.js:17-53 | filters supplied alike push the same number of parameters, so LIMIT and OFFSET get the same placeholders |
| PropertyListing.CountAgreesWithListing | backend/models/propertyModel.js:356-405 | when every agent has a user row, the count equals the length of the unpaged listing |
| PropertyController.GetAllPropertiesHandler | backend/controllers/propertyController.js:19-62 | 200 with the listing for the query's filters and a pagination block of total, page, limit and total pages; 500 exactly when the listing or count fails |
| PropertyController.PageArithmetic | backend/controllers/propertyController.js:22-41 | for page p and limit l in decimal the filters page from row (p-1)·l with LIMIT l |
| PropertyController.PageNonEmptyIffWithinTotal | backend/controllers/propertyController.js:19-57 | when every agent has a user row, page p is non-empty exactly when p is at most the reported total pages |
| PropertyController.ListingPageWithinCount | backend/controllers/propertyController.js:19-57 | with LIMIT l and OFFSET (p-1)·l, the listing page is non-empty exactly when p ≤ ceil(count / l) |
| PropertyController.CreateGate | backend/controllers/propertyController.js:122-130 | creation passes exactly for a caller with a verified agent row; otherwise 403 |
| PropertyController.EditGate | backend/controllers/propertyController.js:189-205 | update passes exactly for a caller with an agent row, an existing property, and ownership or the admin role; 403 without an agent row, 404 for a missing property |
| PropertyController.DeleteGate | backend/controllers/propertyController.js:355-371 | delete passes exactly for an admin, or an agent owning an existing property; 403 for a non-admin without an agent row |
| PropertyController.AdminWithoutAgentRow | backend/controllers/propertyController.js:189-205 | an admin without an agent row is refused an edit but may delete |
| PropertyController.UploadPaths | backend/controllers/propertyController.js:154 | one stored path per file, each `/uploads/properties/` + the file's base name |
| PropertyController.ThumbnailIndex | backend/controllers/propertyController.js:157 | a falsy index gives 0; otherwise the result is `parseInt`'s integer or NaN |
| PropertyController.ImagePaths | backend/controllers/propertyController.js:379-384 | the paths of the property's images, position by position |
| PropertyController.ValidBodyMayFailInsert | backend/controllers/propertyController.js:132-179 | a body with deposit `"abc"` passes the validator, yet neither the INSERT nor the UPDATE can store it |
| PropertyController.LetterDepositValid | backend/utils/validators.js:23-41 | a letter deposit is neither missing nor below zero, so the validator accepts the body |
| PropertyController.UnconvertedPlainColumn | backend/models/propertyModel.js:141-176 | one unconvertible plain column makes both the INSERT and the UPDATE fail |
| PropertyController.AttachUploads | backend/controllers/propertyController.js:152-159 | no files, no write; a failed image transaction leaves the images as they were; otherwise the new image rows are appended; the image id invariant is kept |
| PropertyController.CreateOutcome | backend/controllers/propertyController.js:141-180 | a column value the table cannot convert fails the INSERT: 500, no write, uploads unlinked; otherwise the row with the converted values stays, and 201 exactly when there are no uploads or the image transaction commits, with the images added; on failure 500 and the uploaded files unlinked |
| PropertyController.InsertWithUploads | backend/controllers/propertyController.js:141-180 | the tables, reply and unlinked files after a valid create, including a failed INSERT, are those CreateOutcome describes |
| PropertyController.CreatePropertyHandler | backend/controllers/propertyController.js:117-180 | the gate's 403 or the validator's 400 without a write; otherwise the insert, which may fail on an unconvertible value, as CreateOutcome describes |
| PropertyController.UpdatePropertyHandler | backend/controllers/propertyController.js:183-252 | a gate or validator refusal without a write; a value the table cannot convert gives 500, no write and the uploads unlinked; otherwise the property patched with the converted values, then the uploads attached |
| PropertyController.UpdateThumbnailHandler | backend/controllers/propertyController.js:255-291 | a gate refusal without a write; an image id that is neither null nor integer text, or a fault up to COMMIT, gives 500 with the images unchanged; otherwise the swap to that image |
| PropertyController.DeleteImageHandler | backend/controllers/propertyController.js:294-346 | 404 exactly when the gate passes and the image is not among the property's listed images; when it is, 200 and its file unlinked, with the row deleted and, when it was the thumbnail and images remain, one of the property's images promoted; a refusal changes no image |
| PropertyController.DeletePropertyHandler | backend/controllers/propertyController.js:349-394 | a gate refusal without a write; the image files are unlinked only after the transaction commits |
| PropertyModel.ImageListingCorrect | backend/models/propertyModel.js:110-117 | the image listing holds exactly the property's images, each once |
| PropertyModel.ImageListingOrdered | backend/models/propertyModel.js:114 | thumbnails come first and each group is by ascending id |
| PropertyModel.SortedGroup | backend/models/propertyModel.js:114 | one group of the listing holds exactly its rows, by strictly ascending id |
| PropertyModel.PropertyById | backend/models/propertyModel.js:92-124 | null exactly when the property is missing, inactive, or lacks its agent or the agent's user; otherwise the row with its ordered images |
| PropertyModel.ListedIsReachable | backend/models/propertyModel.js:6-124 | a property in the public listing is found by id |
| PropertyModel.InsertedColumnsMeaning | backend/models/propertyModel.js:141-176 | a plain column stores the request value or NULL; a defaulted column the value when truthy, its default otherwise |
| PropertyModel.StoredIsIdempotent | backend/models/propertyModel.js:141-176 | a value already of its column's type is stored as itself, and storing a stored value again changes nothing |
| PropertyModel.FormTextStored | backend/models/propertyModel.js:141-176 | form text of an integer is stored as that integer, and `true`/`false` as the flag, in their columns |
| PropertyModel.IntegerColumnRejects | backend/models/propertyModel.js:141-176 | an integer column refuses the text `abc`, NaN and a boolean |
| PropertyModel.TypedColumnsAreFields | backend/models/propertyModel.js:226-233 | every column with a checked type is one the update may set |
| PropertyModel.StoredActive | backend/models/propertyModel.js:150-156 | the INSERT leaves is_active to the table default, so a stored new row is active |
| PropertyModel.CreateProperty | backend/models/propertyModel.js:141-176 | an error and no write when some column value does not convert to its column's type; otherwise one row appended with a fresh id, the owning agent and the converted inserted columns |
| PropertyModel.InsertDefaultsApply | backend/models/propertyModel.js:166-170 | an omitted room count, bathroom count, minimum stay or maintenance fee gets 1, 1, 6 or 0, and the new row is active |
| PropertyModel.DefaultApplies | backend/models/propertyModel.js:164-170 | a defaulted column whose request value is falsy stores its default |
| PropertyModel.CreatedIsListed | backend/models/propertyModel.js:6-176 | a property stored for a verified agent with a user row appears in the unfiltered listing |
| PropertyModel.NewImages | backend/models/propertyModel.js:186-196 | one row per path, in order, with consecutive ids |
| PropertyModel.NewImagesShape | backend/models/propertyModel.js:186-196 | every new row has the property and its path; exactly the row at the thumbnail index is a thumbnail, none when out of range |
| PropertyModel.AddPropertyImages | backend/models/propertyModel.js:178-217 | a failure up to COMMIT rolls the inserts back; otherwise the new rows are appended and the property's ordered images returned; the id invariant is kept |
| PropertyModel.AddingMayDoubleThumbnail | backend/models/propertyModel.js:186-196 | adding images to a property that has a thumbnail can leave it with two |
| PropertyModel.BuildPropertyUpdate | backend/models/propertyModel.js:226-240 | the SET list holds exactly the allow-listed fields not undefined in the data, in allow-list order, each with its own value |
| PropertyModel.ProvidedFields | backend/models/propertyModel.js:235-240 | the fields of a distinct allow-list that the data defines, in list order, each once and with its own value |
| PropertyModel.AssignColumns | backend/models/propertyModel.js:235-250 | applying a SET list writes each listed column and keeps every other |
| PropertyModel.PatchedColumns | backend/models/propertyModel.js:226-244 | allow-listed fields present in the data take their new value; every other column keeps its old one |
| PropertyModel.AssignIsPatch | backend/models/propertyModel.js:226-251 | writing the built SET list is the allow-list patch |
| PropertyModel.PatchedRows | backend/models/propertyModel.js:251 | the rows with the id are patched, the others unchanged |
| PropertyModel.AssignedColumnsArePatched | backend/models/propertyModel.js:226-251 | on one row the built SET list gives exactly the allow-list patch of its columns |
| PropertyModel.AssignedRowsArePatched | backend/models/propertyModel.js:226-254 | the UPDATE as built leaves the table patched: the row with the id patched, the others unchanged |
| PropertyModel.UnboundIsProvided | backend/models/propertyModel.js:226-251 | when every value of the SET list converts, every value of the data does |
| PropertyModel.UpdateProperty | backend/models/propertyModel.js:219-255 | an error and no write when a SET value does not convert; otherwise the table is patched with the converted values and the result is the patched row, or none when no row has the id |
| PropertyModel.FindAfterUpdate | backend/models/propertyModel.js:251-254 | updating in place keeps which ids exist |
| PropertyModel.ClearThumbnails | backend/models/propertyModel.js:266-268 | no image of the property is a thumbnail afterwards; other rows keep their flag |
| PropertyModel.MarkThumbnail | backend/models/propertyModel.js:272-274 | only the image with the id that belongs to the property becomes a thumbnail |
| PropertyModel.ThumbnailSwap | backend/models/propertyModel.js:263-277 | after both updates the property's thumbnail is exactly that image when it belongs to the property, and there is none otherwise |
| PropertyModel.IdParam | backend/models/propertyModel.js:272-274 | an integer image id is compared as itself, null as no id |
| PropertyModel.UpdatePropertyThumbnail | backend/models/propertyModel.js:258-296 | a failure up to COMMIT, or an image id PostgreSQL cannot bind as an integer, restores the images; otherwise the swap holds and the ordered images are returned |
| PropertyModel.DeletePropertyImage | backend/models/propertyModel.js:298-329 | the row with the image id is deleted, whatever its property; when it was a thumbnail one image of the given property is promoted |
| PropertyModel.WithoutImage | backend/models/propertyModel.js:310 | exactly the rows with another id remain |
| PropertyModel.ThumbnailPromoted | backend/models/propertyModel.js:312-323 | after deleting a thumbnail, a property that still has images has a thumbnail, and the deleted id is gone |
| PropertyModel.DeleteProperty | backend/models/propertyModel.js:331-354 | a failure up to COMMIT restores both tables; otherwise the images and the row are gone and the deleted row is returned |
| PropertyModel.WithoutProperty | backend/models/propertyModel.js:342 | exactly the properties with another id remain |
| PropertyModel.DeletedPropertyGone | backend/models/propertyModel.js:331-354 | after a committed delete no row, image or lookup result of the property remains |
| UserModel.PublicHidesPassword | backend/models/userModel.js:8 | the public view ignores the password and keeps every other column |
| UserModel.AllUsers | backend/models/userModel.js:7-11 | every row, in order, without passwords |
| UserModel.UserById | backend/models/userModel.js:14-18 | the public view of the row with the id, or undefined when there is none |
| UserModel.FindUserBy | backend/models/userModel.js:21-32 | the first row whose column holds the value, or none when no row does |
| UserModel.UserByUsername | backend/models/userModel.js:21-25 | the first row with the username, password included |
| UserModel.UserByEmail | backend/models/userModel.js:28-32 | the first row with the e-mail, password included |
| UserModel.RoleOrUser | backend/models/userModel.js:48 | the given role when truthy, otherwise `user` |
| UserModel.CreateUser | backend/models/userModel.js:35-52 | one row appended that stores the password's hash, never the password, and the role or `user` |
| UserModel.PatchUser | backend/models/userModel.js:55-94 | e-mail, phone and password change only when the new value is truthy, the password to its hash; id, username and role are kept |
| UserModel.UserSets | backend/models/userModel.js:63-83 | the SET list in push order: e-mail, phone, password hash when truthy, then updated_at |
| UserModel.Pushed | backend/models/userModel.js:64-83 | a later SET entry is applied after the earlier ones |
| UserModel.UserUpdatedFound | backend/models/userModel.js:92-93 | after an update in place by id the lookup finds the patched row |
| UserModel.PatchedUsers | backend/models/userModel.js:90-92 | the row with the id is patched, the others are unchanged |
| UserModel.PatchedUsersMissing | backend/models/userModel.js:90-93 | when no row has the id the update changes nothing |
| UserModel.UpdateUser | backend/models/userModel.js:55-94 | the table is patched; the result is the public view of the patched row, undefined when no row has the id |
| UserModel.UsersWithout | backend/models/userModel.js:98 | exactly the rows without the id remain |
| UserModel.DeleteUser | backend/models/userModel.js:97-101 | the rows with the id are removed and the first of them returned |
| UserModel.VerifyCredentials | backend/models/userModel.js:104-122 | null exactly when no row has the username or `compare` rejects the password against its stored hash; otherwise the row without its password |
| UserModel.FindUserByAppend | backend/models/userModel.js:21-25 | a row appended under a value no earlier row holds is the one found |
| UserModel.RegisteredCanLogIn | backend/models/userModel.js:35-122 | a user created under a new username logs in with the same password, when `compare` accepts a password against its own hash |
| UserController.RegisterCheck | backend/controllers/userController.js:9-45 | 400 exactly when the registration is not acceptable: fields present, valid e-mail, phone and password, username and e-mail unused |
| UserController.RegisterLadderOrder | backend/controllers/userController.js:14-45 | each 400 message is given exactly when every earlier check passed and its own failed |
| UserController.Register | backend/controllers/userController.js:9-72 | a refused registration changes nothing; an accepted one appends one user with the client's role or `user` and answers 201 with a token for it |
| UserController.Login | backend/controllers/userController.js:75-113 | 400 exactly for a missing username or password, 401 exactly when the credentials are not verified, otherwise 200 with a token carrying the user's id, username and role |
| UserController.ProfileCheck | backend/controllers/userController.js:143-171 | 400 only for a provided field that fails its check, or an e-mail held by another user |
| UserController.OwnEmailAccepted | backend/controllers/userController.js:166-171 | an e-mail held only by the caller passes the duplicate check |
| UserController.UpdateProfile | backend/controllers/userController.js:143-192 | a refused update changes nothing; otherwise the caller's row is patched, 404 when it is gone |
| AgentModel.AgentById | backend/models/agentModel.js:17-26 | the agent with the id, exactly when it and its user row exist |
| AgentModel.AgentByUserId | backend/models/agentModel.js:29-38 | an agent row of the user exactly when the user exists and has one |
| AgentModel.CreateAgent | backend/models/agentModel.js:41-55 | one pending agent row appended with the given columns, returned through the lookup |
| AgentModel.PatchAgent | backend/models/agentModel.js:58-94 | the license image changes only when the new one is truthy, company name and office address whenever not undefined; id, user and status kept |
| AgentModel.PatchedAgents | backend/models/agentModel.js:89-92 | the row with the id is patched, the others unchanged |
| AgentModel.UpdateAgent | backend/models/agentModel.js:58-94 | the table is patched; the lookup then finds the patched row; null when no row has the id |
| AgentModel.WithStatus | backend/models/agentModel.js:104-111 | the row with the id gets the status, the others unchanged |
| AgentModel.UpdateVerificationStatus | backend/models/agentModel.js:103-119 | only the status and updated_at of the row change; null when no row has the id |
| AgentModel.UpdatedFound | backend/models/agentModel.js:89-93 | after an update in place by id the lookup finds the patched row |
| AgentModel.PendingAgents | backend/models/agentModel.js:122-131 | exactly the pending agents with a user row |
| AgentController.LicensePath | backend/controllers/agentController.js:35 | the stored path starts with `/uploads/licenses/` and has no slash after it |
| AgentController.RegisterAgent | backend/controllers/agentController.js:11-66 | 400 without a write for missing fields or file; a failed user insert unlinks the file and changes nothing; a failed agent insert keeps the user row; otherwise a user and a pending agent are appended |
| AgentController.UpdateAgentProfile | backend/controllers/agentController.js:88-136 | 404 without an agent row; otherwise the row is patched, and the old license file is unlinked only when a new one replaced it |
| AgentController.UploadReplacesLicense | backend/controllers/agentController.js:107-108 | a new upload always replaces the stored license path |
| AgentController.VerifyAgent | backend/controllers/agentController.js:181-209 | 400 for a status other than verified or rejected and 404 for an unknown agent, both without a write; on 200 the agent has the new status |
| AdminController.DeleteUserHandler | backend/controllers/adminController.js:138-157 | 404 exactly for an unknown user, without a write; otherwise no row with the id remains |
| AdminController.CreateCategory | backend/controllers/adminController.js:160-181 | 400 without a name and no write; otherwise one category appended with `description || null` |
| AdminController.RenamedCategories | backend/controllers/adminController.js:195-196 | the row with the id gets the name and description, the others unchanged |
| AdminController.UpdateCategory | backend/controllers/adminController.js:184-210 | 400 without a name and 404 for an unknown id, without a write; otherwise the category is renamed |
| AdminController.Uncategorized | backend/controllers/adminController.js:218 | posts of the category lose it, other posts are unchanged |
| AdminController.UncategorizedMeaning | backend/controllers/adminController.js:218 | afterwards no post is in the category, and every post keeps its other columns |
| AdminController.CategoriesWithout | backend/controllers/adminController.js:221 | exactly the categories without the id remain |
| AdminController.DeleteCategory | backend/controllers/adminController.js:213-236 | posts lose the category first, even when the answer is 404; 404 exactly for an unknown id |
| FavoriteModel.FindPair | backend/models/favoriteModel.js:23-27 | the first row of the user and property, none exactly when no row is |
| FavoriteModel.IsFavorite | backend/models/favoriteModel.js:23-27 | true exactly when some row holds the pair |
| FavoriteModel.AddIdempotent | backend/models/favoriteModel.js:30-47 | a second add of the same pair leaves the table as the first did, and the pair is then present |
| FavoriteModel.AddFavorite | backend/models/favoriteModel.js:30-47 | already-exists exactly when the pair was present, with no insert; otherwise one row appended; afterwards the pair is present |
| FavoriteModel.FavoritesWithout | backend/models/favoriteModel.js:51 | exactly the rows of other pairs remain |
| FavoriteModel.RemoveFavorite | backend/models/favoriteModel.js:50-54 | every row of the pair is deleted and no other; undefined exactly when there was none |
| FavoriteModel.GetUserFavorites | backend/models/favoriteModel.js:6-20 | exactly the user's rows whose property is active with its agent, newest first |
| FavoriteController.CheckFavorite | backend/controllers/favoriteController.js:22-34 | 200 with true exactly when the pair is a favorite |
| FavoriteController.AddFavoriteHandler | backend/controllers/favoriteController.js:37-64 | 404 without a write for a missing or inactive property; 200 when the pair was present; otherwise 201 with one new row |
| FavoriteController.RemoveFavoriteHandler | backend/controllers/favoriteController.js:67-86 | the pair's rows are deleted; 404 exactly when there were none |
| BoardModel.BuildPostsQuery | backend/models/boardModel.js:13-38 | the category condition on `$1` only for a truthy category, then LIMIT and OFFSET on the next placeholders; a post passes the WHERE exactly when it is in the category |
| BoardModel.PostHoldsIgnoresPaging | backend/models/boardModel.js:33-34 | LIMIT and OFFSET add no condition on the posts |
| BoardModel.BuildCountQuery | backend/models/boardModel.js:41-54 | the same category condition and nothing else |
| BoardModel.SelectedIsInCategory | backend/models/boardModel.js:24-34 | the rows the built WHERE selects are the posts of the category |
| BoardModel.GetAllPosts | backend/models/boardModel.js:13-38 | the result is the posts page of the category, newest first, from OFFSET, at most LIMIT |
| BoardModel.GetPostCount | backend/models/boardModel.js:41-54 | the number of posts in the category, author row or not |
| BoardModel.PostsPageMeaning | backend/models/boardModel.js:13-38 | a page holds at most LIMIT posts, newest first, each an existing post of the category with an author row |
| BoardModel.PostsPage | backend/models/boardModel.js:13-38 | an error exactly when LIMIT or OFFSET is not a non-negative integer; otherwise at most LIMIT posts |
| BoardModel.NoCategoryListsAll | backend/models/boardModel.js:24-29 | a falsy category selects every post |
| BoardModel.CountAgreesWithListing | backend/models/boardModel.js:13-54 | when every post has an author row, the count is the number of posts the unpaged listing shows |
| BoardModel.PostById | backend/models/boardModel.js:59-74 | the post with the id, exactly when it and its author exist |
| BoardModel.CommentsOfMeaning | backend/models/boardModel.js:79-85 | the comments shown are exactly the post's comments with an author, oldest first |
| BoardModel.Viewed | backend/models/boardModel.js:76 | only the post with the id changes, its views by one |
| BoardModel.GetPostById | backend/models/boardModel.js:57-94 | null and no write for a missing post; otherwise the post as read before the view, and the stored views one higher |
| BoardModel.ViewedFound | backend/models/boardModel.js:76 | after the view the lookup finds the post with one more view and nothing else changed |
| BoardModel.PostUpdatedFound | backend/models/boardModel.js:76-127 | after an update in place by id the lookup finds the patched row |
| BoardModel.CategoryOf | backend/models/boardModel.js:97-110 | PostgreSQL's reading of the category parameter: NULL for null, an integer for integer text, otherwise an error |
| BoardModel.CreatePost | backend/models/boardModel.js:97-110 | a conversion error writes nothing; otherwise the post is appended with 0 views and returned through the fetch, which counts a view |
| BoardModel.CreatedPostViewed | backend/models/boardModel.js:97-110 | a new post with an existing author is returned with 0 views and stored with 1 |
| BoardModel.EditPost | backend/models/boardModel.js:113-131 | the edit keeps id, author, views and creation time |
| BoardModel.Edited | backend/models/boardModel.js:115-122 | only the post with the id is edited |
| BoardModel.EditedFound | backend/models/boardModel.js:115-127 | after the edit the lookup finds the edited post |
| BoardModel.UpdatePost | backend/models/boardModel.js:113-131 | null and no write when no post has the id; otherwise the edit, then the fetch that counts a view |
| BoardModel.PostsWithout | backend/models/boardModel.js:143-146 | exactly the posts without the id remain |
| BoardModel.CommentsNotOf | backend/models/boardModel.js:140-141 | exactly the comments of other posts remain |
| BoardModel.DeletePost | backend/models/boardModel.js:134-156 | a failure up to COMMIT restores both tables; otherwise the post's comments and the post are gone and the deleted post is returned |
| BoardModel.DeleteAfterView | backend/models/boardModel.js:134-156 | counting a view and then deleting leaves what deleting alone leaves |
| BoardModel.AddComment | backend/models/boardModel.js:159-179 | the comment is always appended; the call succeeds exactly when its author exists |
| BoardModel.FindComment | backend/models/boardModel.js:208-212 | the first comment with the id, none exactly when there is none |
| BoardModel.CommentsWithout | backend/models/boardModel.js:209 | exactly the comments without the id remain |
| BoardModel.DeleteComment | backend/models/boardModel.js:208-212 | only that comment is removed and returned, none when it was missing |
| BoardController.CategoryFilterNeedsNonZeroNumber | backend/controllers/boardController.js:27-31 | only a category that parses to a non-zero integer filters the listing |
| BoardController.GetAllPostsHandler | backend/controllers/boardController.js:19-47 | 200 with the page of posts and a pagination block whose total counts the category's posts; 500 when the listing fails |
| BoardController.PostPageNonEmptyIffWithinTotal | backend/controllers/boardController.js:19-42 | when every post has an author row, page p is non-empty exactly when p is at most the reported total pages |
| BoardController.GetPostByIdHandler | backend/controllers/boardController.js:50-65 | 404 without a write for a missing post; otherwise 200 with the post and a counted view |
| BoardController.BodyCategory | backend/controllers/boardController.js:84 | `category_id || null`: null exactly for a falsy field |
| BoardController.CreatePostHandler | backend/controllers/boardController.js:68-93 | 400 without a write for a missing title or content; otherwise the post with the caller as author is inserted and returned |
| BoardController.KeptCategory | backend/controllers/boardController.js:121 | the new category when truthy, the post's current one otherwise |
| BoardController.UpdatePostHandler | backend/controllers/boardController.js:96-133 | 400 before any write; 404 for a missing post; 403 for someone neither author nor admin, after the fetch has counted a view; otherwise the edit, views two higher |
| BoardController.DeletePostHandler | backend/controllers/boardController.js:136-162 | 404 for a missing post; 403 for someone neither author nor admin, after a counted view; otherwise the post and its comments are gone |
| BoardController.AddCommentHandler | backend/controllers/boardController.js:165-197 | 400 and 404 without a write; otherwise a view is counted and the comment appended |
| BoardController.UpdateCommentHandler | backend/controllers/boardController.js:200-236 | 400 for empty content; past that check the reference to an undefined `db` throws, so the answer is 500 |
| BoardController.DeleteCommentHandler | backend/controllers/boardController.js:239-268 | the reference to an undefined `db` throws before any check, so the answer is always 500 |
| ContactModel.CreateContactRequest | backend/models/contactModel.js:6-17 | one unread request appended with exactly the given user, property, agent and message |
| ContactModel.AgentContactRequests | backend/models/contactModel.js:20-35 | exactly the agent's requests whose user and property exist, newest first |
| ContactModel.UserContactRequests | backend/models/contactModel.js:38-54 | exactly the user's requests whose property, agent and agent's user exist, newest first |
| ContactModel.FindReceived | backend/models/contactModel.js:57-67 | the first request with the id that the agent received, none exactly when there is none |
| ContactModel.FindSent | backend/models/contactModel.js:70-79 | the first request with the id that the user sent, none exactly when there is none |
| ContactModel.MarkedReadScoped | backend/models/contactModel.js:57-67 | rows the agent did not receive under the id are unchanged; the marked row changes only is_read and updated_at; nothing matches, nothing changes |
| ContactModel.MarkedReadFound | backend/models/contactModel.js:57-67 | after marking, the lookup finds the marked version of the first received row |
| ContactModel.MarkedRead | backend/models/contactModel.js:57-67 | as many rows as before; a row is read afterwards exactly when it was read or is the agent's request with the id |
| ContactModel.MarkAsRead | backend/models/contactModel.js:57-67 | only the agent's request with the id is marked read; undefined exactly when there is none, otherwise the marked row |
| ContactModel.ContactsWithout | backend/models/contactModel.js:71 | exactly the rows not sent by the user under the id remain |
| ContactModel.DeleteContactRequest | backend/models/contactModel.js:70-79 | only the user's request with the id is removed and returned; nothing changes when there is none |
| ContactController.CreateContactRequestHandler | backend/controllers/contactController.js:9-38 | 404 without a write when the property is not found; otherwise 201 and one unread request to the property's agent, a falsy message stored as null |
| ContactController.AgentRequestsHandler | backend/controllers/contactController.js:41-59 | 403 exactly for a caller without an agent row; otherwise 200 with exactly the requests the caller's agent received whose user and property exist, newest first |
| ContactController.MarkAsReadHandler | backend/controllers/contactController.js:76-102 | 403 without an agent row and 404 when the agent received no such request, both without a write; otherwise only that request is marked |
| ContactController.DeleteContactRequestHandler | backend/controllers/contactController.js:105-124 | 404 exactly when the caller sent no such request, without a write; otherwise that request is deleted and other users' requests stay |

## Left out

- Connection handling, concurrency and the Express routing table are not modelled. Each handler runs alone against one `Database`.
- Database errors are modelled where a handler or model makes them matter: the `Fault` argument of transactions, and PostgreSQL rejecting a parameter it cannot convert (listing and board paging parameters, the board category, property column values and the thumbnail image id). No other database error is modelled.
- The table definitions are not in the repository. The property column types are inferred from the code: the amounts and counts are integers, the `has_*` flags and is_active are booleans, address, city, district, heating and property type are text. The dates, room_size and the floors are stored as given, unconverted; PostgreSQL's date and numeric input is not modelled.
- PostgreSQL's boolean input is modelled with ASCII case folding only, and its integer input without range limits.
- Foreign-key, UNIQUE and NOT NULL constraints and the column defaults are not modelled. This includes the board post views default of 0 and the contact request is_read default of false, which are taken as given. Deletes that PostgreSQL would refuse or cascade are modelled as the plain DELETE.
- Rows with equal ORDER BY keys are not ordered by the database. `Db.SortDesc` picks one order, and the properties proved about it (order by key, same multiset) hold for every order.
- The joined display columns (agent name and phone, usernames, e-mails, addresses, thumbnails) are not part of the result rows. The joins still decide which rows appear.
- Only response status and message are modelled. The JSON bodies beyond them are not.
- JWT signing and verification, bcrypt hashing and comparing, the clock and multer's storage are parameters. Their algorithms are not part of this model.
- File unlinking is returned as the list of removed paths. Whether `fs.unlink` succeeds is not modelled.
- `parseInt`, and `Number` in the paging arithmetic `(page - 1) * limit` and `total / limit` (JsText.NumberOf), are modelled on integer notation; decimal fractions, exponents, `Infinity` and non-integral results are not modelled there. The form check `isNaN(Number(x))` (JsText.IsNumeric) and the comparison `x < 0` (JsText.LessThanZero) follow JavaScript's full numeric-literal grammar. String length is the number of characters, not of UTF-16 code units.
- LessThanZero reads the sign of a numeral from its exact decimal value, not from the double JavaScript rounds it to. A negative numeral that underflows to -0, such as `"-1e-400"`, is not below zero in JavaScript but counts as negative here, so Validators.ValidatePropertyData reports a negative deposit, rent or fee for it that the source does not.
- A numeric listing filter that is `null` is treated as a parameter PostgreSQL refuses (Sql.ParamOk), where PostgreSQL would bind NULL and select no row. The controller passes `parseInt(...)` or `undefined` for these filters, never `null`, so no handler outcome differs.
- Path parameters are modelled as integers. Body values that are not strings where the source reads strings, and query parameters given more than once (Express arrays), are not modelled.
- The read-only handlers that only forward a model call are not modelled as handlers. These are getProfile, getAllUsers, getUserById, getAgentProfile, getAllAgents, getAgentById, the getPendingAgents handlers, getUserFavorites, getUserContactRequests, getDashboardStats, getRecentProperties, getPropertyById, getPropertiesByAgentId, getCategories and getUserPosts. Their model queries are modelled where other handlers use them.
- `getRecentProperties`, `getPropertiesByAgentId`, `agentModel.getAllAgents`, `agentModel.deleteAgent`, `boardModel.getCategories` and `boardModel.getUserPosts` are plain reads or unused; they are not modelled.
- `boardModel.updateComment` is not modelled: its handler always fails before calling it.
- `userController.deleteUser` is the same code as the admin handler and is modelled once, as AdminController.DeleteUserHandler. `adminController.verifyAgent` repeats the agent controller's and is modelled as AgentController.VerifyAgent.
- The upload middleware (multer file filters and size limits) is not part of this model. Uploaded files arrive as a list of paths.
- The backend phone pattern `01([0|1|6|7|8|9])` lets a `|` through as the third character. This is modelled as written (Validators.PhoneAcceptsBar, ClientValidators.BackendAcceptsBarClientRejects).
- A property is inserted before its images, which come from a separate transaction; when that transaction fails the property stays, without images (PropertyController.CreateOutcome).
- `thumbnailIndex` is not clamped to the uploads, so an index out of range gives no thumbnail (PropertyModel.NewImagesShape).
- A malformed numeric filter becomes NaN through `parseInt`; PostgreSQL rejects the parameter and the answer is 500 (PropertyListing.BuildListingQuery, PropertyController.GetAllPropertiesHandler).
- A 400 answer after an upload does not unlink the uploaded files. The model follows the code.
