/**
 * `authenticateUser`: reads a bearer token from the Authorization header,
 * verifies it, and attaches the decoded claims to the request.
 *
 * Token verification (signature and expiry) is a parameter: it yields the
 * claims, or nothing where the library would throw.
 */
module AuthMiddleware {
  import opened Common
  import opened JsText

  const TOKEN_REQUIRED := Response(401, "Authorization token required")
  const INVALID_TOKEN := Response(401, "Invalid or expired token")

  /** The request is answered, or passed on with `req.user` set to the claims. */
  datatype AuthOutcome = Reject(response: Response) | Authenticated(user: Claims)

  const BEARER := "Bearer "

  /** `authHeader.split(' ')[1]` for a header that starts with "Bearer ". */
  function BearerToken(header: string): (token: string)
    requires StartsWith(header, BEARER)
    ensures token == UpTo(header[7..], ' ')
  {
    assert header[..7] == BEARER;
    assert ' ' !in header[..6];
    SplitAfterSeparator(header, ' ', 6);
    SplitFirst(header[7..], ' ');
    Split(header, ' ')[1]
  }

  /** `authenticateUser` on the given Authorization header. */
  function Authenticate(header: Option<string>, verify: string -> Option<Claims>): (r: AuthOutcome)
    ensures !TruthyStr(header) || !StartsWith(header.value, BEARER) ==> r == Reject(TOKEN_REQUIRED)
    ensures r.Authenticated? <==>
      TruthyStr(header) && StartsWith(header.value, BEARER) &&
      var token := UpTo(header.value[7..], ' ');
      token != "" && verify(token).Some?
    ensures r.Authenticated? ==> r.user == verify(UpTo(header.value[7..], ' ')).value
    ensures r.Reject? ==> r.response == TOKEN_REQUIRED || r.response == INVALID_TOKEN
  {
    if !TruthyStr(header) || !StartsWith(header.value, BEARER) then Reject(TOKEN_REQUIRED)
    else
      var token := BearerToken(header.value);
      if token == "" then Reject(TOKEN_REQUIRED)
      else match verify(token)
        case None => Reject(INVALID_TOKEN)
        case Some(claims) => Authenticated(claims)
  }

  /** A well-formed header carries its token to verification unchanged. */
  lemma BearerRoundTrip(token: string, verify: string -> Option<Claims>)
    requires token != "" && ' ' !in token
    ensures Authenticate(Some(BEARER + token), verify) ==
      (if verify(token).Some? then Authenticated(verify(token).value) else Reject(INVALID_TOKEN))
  {
    var h := BEARER + token;
    assert h[..7] == BEARER;
    assert h[7..] == token;
    UpToWhole(token, ' ');
  }

  /** Text without the separator is its own prefix up to the separator. */
  lemma {:induction false} UpToWhole(s: string, sep: char)
    requires sep !in s
    ensures UpTo(s, sep) == s
  {
    if s != [] {
      assert sep !in s[1..];
      UpToWhole(s[1..], sep);
    }
  }

  /** "Bearer " with nothing after it, or a second space straight after, is refused before verification. */
  lemma EmptyTokenRefused(rest: string, verify: string -> Option<Claims>)
    requires rest == "" || rest[0] == ' '
    ensures Authenticate(Some(BEARER + rest), verify) == Reject(TOKEN_REQUIRED)
  {
    var h := BEARER + rest;
    assert h[..7] == BEARER;
    assert h[7..] == rest;
  }
}
