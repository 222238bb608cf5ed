/**
 * The user controller: the validation ladders of `register`, `login` and
 * `updateProfile`, and the writes they lead to. The JWT that `register` and
 * `login` sign is represented by the claims handed to `generateToken`.
 */
module UserController {
  import opened Common
  import opened Db
  import opened Validators
  import opened UserModel

  const ALL_FIELDS_REQUIRED := Response(400, "All fields are required")
  const INVALID_EMAIL := Response(400, "Invalid email format")
  const INVALID_PHONE := Response(400, "Invalid phone number format")
  const WEAK_PASSWORD := Response(400, "Password must be at least 8 characters long and contain at least one uppercase letter, one lowercase letter, and one number")
  const USERNAME_EXISTS := Response(400, "Username already exists")
  const EMAIL_EXISTS := Response(400, "Email already exists")
  const USER_REGISTERED := Response(201, "User registered successfully")
  const CREDENTIALS_REQUIRED := Response(400, "Username and password are required")
  const INVALID_CREDENTIALS := Response(401, "Invalid credentials")
  const LOGIN_SUCCESSFUL := Response(200, "Login successful")
  const USER_NOT_FOUND := Response(404, "User not found")
  const PROFILE_UPDATED := Response(200, "Profile updated successfully")

  /** The fields of a registration body; None is a missing field. */
  datatype Registration = Registration(
    username: Option<string>, password: Option<string>, email: Option<string>,
    phoneNumber: Option<string>, role: Option<string>)

  predicate FieldsPresent(b: Registration)
  {
    TruthyStr(b.username) && TruthyStr(b.password) && TruthyStr(b.email) && TruthyStr(b.phoneNumber)
  }

  /** Everything `register` demands before it inserts. */
  predicate RegistrationAcceptable(db: Database, b: Registration)
    reads db
  {
    FieldsPresent(b) && IsValidEmail(b.email.value) && IsValidPhoneNumber(b.phoneNumber.value) &&
    IsStrongPassword(b.password.value) &&
    (forall u :: u in db.users ==> u.username != b.username.value) &&
    (forall u :: u in db.users ==> u.email != b.email.value)
  }

  /** The ladder of `register`: the first failing check's 400, or None. */
  function RegisterCheck(db: Database, b: Registration): (r: Option<Response>)
    reads db
    ensures r.Some? ==> r.value.status == 400
    ensures r.None? <==> RegistrationAcceptable(db, b)
  {
    if !FieldsPresent(b) then Some(ALL_FIELDS_REQUIRED)
    else if !IsValidEmail(b.email.value) then Some(INVALID_EMAIL)
    else if !IsValidPhoneNumber(b.phoneNumber.value) then Some(INVALID_PHONE)
    else if !IsStrongPassword(b.password.value) then Some(WEAK_PASSWORD)
    else if UserByUsername(db, b.username.value).Some? then Some(USERNAME_EXISTS)
    else if UserByEmail(db, b.email.value).Some? then Some(EMAIL_EXISTS)
    else None
  }

  /**
   * The rungs in order: each message is given exactly when every earlier
   * check passed and its own failed.
   */
  lemma RegisterLadderOrder(db: Database, b: Registration)
    ensures RegisterCheck(db, b) == Some(ALL_FIELDS_REQUIRED) <==> !FieldsPresent(b)
    ensures RegisterCheck(db, b) == Some(INVALID_EMAIL) <==> FieldsPresent(b) && !IsValidEmail(b.email.value)
    ensures RegisterCheck(db, b) == Some(INVALID_PHONE) <==>
      FieldsPresent(b) && IsValidEmail(b.email.value) && !IsValidPhoneNumber(b.phoneNumber.value)
    ensures RegisterCheck(db, b) == Some(WEAK_PASSWORD) <==>
      FieldsPresent(b) && IsValidEmail(b.email.value) && IsValidPhoneNumber(b.phoneNumber.value) &&
      !IsStrongPassword(b.password.value)
    ensures RegisterCheck(db, b) == Some(USERNAME_EXISTS) <==>
      FieldsPresent(b) && IsValidEmail(b.email.value) && IsValidPhoneNumber(b.phoneNumber.value) &&
      IsStrongPassword(b.password.value) && exists u :: u in db.users && u.username == b.username.value
    ensures RegisterCheck(db, b) == Some(EMAIL_EXISTS) <==>
      FieldsPresent(b) && IsValidEmail(b.email.value) && IsValidPhoneNumber(b.phoneNumber.value) &&
      IsStrongPassword(b.password.value) && (forall u :: u in db.users ==> u.username != b.username.value) &&
      exists u :: u in db.users && u.email == b.email.value
  {
  }

  /**
   * `register(req, res)`: a rejected registration changes nothing; an
   * accepted one appends one user, with the client's role or `'user'`, and
   * signs a token for it.
   */
  method Register(db: Database, b: Registration, hash: string -> string, now: int)
    returns (resp: Response, token: Option<Claims>)
    modifies db`users, db`nextId
    ensures old(RegisterCheck(db, b)).Some? ==>
      resp == old(RegisterCheck(db, b)).value && token.None? && unchanged(db)
    ensures old(RegisterCheck(db, b)).None? ==>
      var row := UserRow(old(db.nextId), b.username.value, hash(b.password.value), b.email.value,
                         b.phoneNumber.value, RoleOrUser(b.role), now, now);
      resp == USER_REGISTERED && db.users == old(db.users) + [row] &&
      token == Some(Claims(row.id, row.username, row.role))
  {
    var check := RegisterCheck(db, b);
    if check.Some? {
      return check.value, None;
    }
    var user := CreateUser(db, b.username.value, b.password.value, b.email.value, b.phoneNumber.value,
                           Some(RoleOrUser(b.role)), hash, now);
    resp, token := USER_REGISTERED, Some(Claims(user.id, user.username, user.role));
  }

  /** What `login` sends: the response and the claims of the token it signs. */
  datatype LoginReply = LoginReply(resp: Response, token: Option<Claims>)

  /** `login(req, res)` */
  function Login(db: Database, username: Option<string>, password: Option<string>,
                 compare: (string, string) -> bool): (r: LoginReply)
    reads db
    ensures r.resp == CREDENTIALS_REQUIRED <==> !TruthyStr(username) || !TruthyStr(password)
    ensures r.resp == INVALID_CREDENTIALS <==>
      TruthyStr(username) && TruthyStr(password) && VerifyCredentials(db, username.value, password.value, compare).None?
    ensures r.resp.status == 200 <==> r.token.Some?
    ensures r.token.Some? ==>
      r.resp == LOGIN_SUCCESSFUL &&
      exists u :: u in db.users && u.username == username.value && compare(password.value, u.passwordHash) &&
                  r.token.value == Claims(u.id, u.username, u.role)
  {
    if !TruthyStr(username) || !TruthyStr(password) then LoginReply(CREDENTIALS_REQUIRED, None)
    else
      var user := VerifyCredentials(db, username.value, password.value, compare);
      if user.None? then LoginReply(INVALID_CREDENTIALS, None)
      else LoginReply(LOGIN_SUCCESSFUL, Some(Claims(user.value.id, user.value.username, user.value.role)))
  }

  /** The ladder of `updateProfile`: only the fields provided are checked. */
  function ProfileCheck(db: Database, userId: int, email: Option<string>, phoneNumber: Option<string>,
                        password: Option<string>): (r: Option<Response>)
    reads db
    ensures r.Some? ==> r.value.status == 400
    ensures r.None? <==>
      (TruthyStr(email) ==>
         IsValidEmail(email.value) &&
         (UserByEmail(db, email.value).None? || UserByEmail(db, email.value).value.id == userId)) &&
      (TruthyStr(phoneNumber) ==> IsValidPhoneNumber(phoneNumber.value)) &&
      (TruthyStr(password) ==> IsStrongPassword(password.value))
    ensures !TruthyStr(email) && !TruthyStr(phoneNumber) && !TruthyStr(password) ==> r.None?
    ensures r == Some(EMAIL_EXISTS) ==> email.Some? && exists u :: u in db.users && u.email == email.value && u.id != userId
  {
    if TruthyStr(email) && !IsValidEmail(email.value) then Some(INVALID_EMAIL)
    else if TruthyStr(phoneNumber) && !IsValidPhoneNumber(phoneNumber.value) then Some(INVALID_PHONE)
    else if TruthyStr(password) && !IsStrongPassword(password.value) then Some(WEAK_PASSWORD)
    else if TruthyStr(email) && UserByEmail(db, email.value).Some? && UserByEmail(db, email.value).value.id != userId
    then Some(EMAIL_EXISTS)
    else None
  }

  /** An e-mail address held only by the caller passes the duplicate check. */
  lemma OwnEmailAccepted(db: Database, userId: int, email: string)
    requires IsValidEmail(email)
    requires forall u :: u in db.users && u.email == email ==> u.id == userId
    ensures ProfileCheck(db, userId, Some(email), None, None).None?
  {
  }

  /** `updateProfile(req, res)` */
  method UpdateProfile(db: Database, userId: int, email: Option<string>, phoneNumber: Option<string>,
                       password: Option<string>, hash: string -> string, now: int) returns (resp: Response)
    modifies db`users
    ensures old(ProfileCheck(db, userId, email, phoneNumber, password)).Some? ==>
      resp == old(ProfileCheck(db, userId, email, phoneNumber, password)).value && db.users == old(db.users)
    ensures old(ProfileCheck(db, userId, email, phoneNumber, password)).None? ==>
      db.users == PatchedUsers(old(db.users), userId, email, phoneNumber, password, hash, now) &&
      (resp == USER_NOT_FOUND <==> FindUser(old(db.users), userId).None?) &&
      (resp != USER_NOT_FOUND ==> resp == PROFILE_UPDATED)
    ensures resp == USER_NOT_FOUND ==> db.users == old(db.users)
  {
    var check := ProfileCheck(db, userId, email, phoneNumber, password);
    if check.Some? {
      return check.value;
    }
    if FindUser(db.users, userId).None? {
      PatchedUsersMissing(db.users, userId, email, phoneNumber, password, hash, now);
    }
    var updated := UpdateUser(db, userId, email, phoneNumber, password, hash, now);
    if updated.None? {
      return USER_NOT_FOUND;
    }
    resp := PROFILE_UPDATED;
  }
}
