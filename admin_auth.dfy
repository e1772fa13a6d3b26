/** The Basic-authentication middleware of ui/rest/middleware/admin_auth.go:
    parsing an `Authorization` header under the "Basic" scheme (section 2
    of RFC 7617) and deciding a request for the admin area, against the
    configured admin credentials, or for the user area, against the user
    table.

    A handler either answers 401 with a message (and, for a missing header,
    a `WWW-Authenticate` challenge), or passes the request on with the
    request locals it stored.  The base64 decoder is a parameter here; the
    Base64 module gives one for section 4 of RFC 4648. */
module AdminAuth {
  import opened Outcomes
  import opened Text
  import opened UserRepository
  import opened SessionRegistry
  import UserManagement
  import Base64

  const BasicPrefix: string := "Basic "
  const AdminRealm: string := "Basic realm=\"Admin Area\""
  const UserRealm: string := "Basic realm=\"User Area\""

  const MsgAuthorizationRequired: string := "Authorization required"
  const MsgInvalidFormat: string := "Invalid authorization format"
  const MsgInvalidEncoding: string := "Invalid authorization encoding"
  const MsgInvalidAdmin: string := "Invalid admin credentials"
  const MsgInvalidUser: string := "Invalid user credentials"

  /** A value stored in the request's locals. */
  datatype Local = IntLocal(i: int) | StrLocal(s: string) | SessionLocal(session: UserSession)

  /** The handler's answer: 401 with a message and an optional
      `WWW-Authenticate` value, or `c.Next()` with the locals set. */
  datatype Verdict =
    | Unauthorized(message: string, challenge: Option<string>)
    | Proceed(locals: map<string, Local>)

  datatype ParseError = MissingHeader | BadScheme | BadEncoding | BadPair

  /** The credentials of a Basic header: the header must be non-empty and
      start with the case-sensitive "Basic ", the rest must decode, and the
      decoded text splits at its first ':' -- the password may contain
      further colons, the user-id none. */
  function ParseBasic(auth: string, decode: string -> Option<string>): (r: Result<(string, string), ParseError>)
    ensures auth == "" <==> r == Err(MissingHeader)
    ensures auth != "" && !(BasicPrefix <= auth) <==> r == Err(BadScheme)
    ensures BasicPrefix <= auth && decode(auth[|BasicPrefix|..]).None? <==> r == Err(BadEncoding)
    ensures r == Err(BadPair) <==> BasicPrefix <= auth && decode(auth[|BasicPrefix|..]).Some?
                                   && ':' !in decode(auth[|BasicPrefix|..]).value
    ensures r.Ok? ==>
      && BasicPrefix <= auth
      && decode(auth[|BasicPrefix|..]) == Some(r.value.0 + ":" + r.value.1)
      && ':' !in r.value.0
  {
    if auth == "" then Err(MissingHeader)
    else if !(BasicPrefix <= auth) then Err(BadScheme)
    else
      var payload := decode(auth[|BasicPrefix|..]);
      if payload.None? then Err(BadEncoding)
      else
        var pair := SplitAtFirst(payload.value, ':');
        if pair.None? then Err(BadPair)
        else Ok(pair.value)
  }

  /** Every user-id without a colon, with any password, comes back out of a
      header that carries it. */
  lemma ParseBasicOfPair(auth: string, decode: string -> Option<string>, username: string, password: string)
    requires BasicPrefix <= auth
    requires decode(auth[|BasicPrefix|..]) == Some(username + ":" + password)
    requires ':' !in username
    ensures ParseBasic(auth, decode) == Ok((username, password))
  {
    SplitAtFirstOfJoin(username, password, ':');
  }

  /** A user-id containing a colon never comes out of a header. */
  lemma NoColonInParsedUser(auth: string, decode: string -> Option<string>, username: string)
    requires ':' in username
    ensures forall password :: ParseBasic(auth, decode) != Ok((username, password))
  {
  }

  /** The 401 answer for a parse failure: a missing header is challenged
      with the realm; a failed decode is an encoding error; a wrong scheme or
      a payload without ':' is a format error. */
  function ParseFailure(e: ParseError, realm: string): (v: Verdict)
    ensures v.Unauthorized?
    ensures v.challenge.Some? <==> e == MissingHeader
    ensures v.challenge.Some? ==> v.challenge.value == realm
    ensures v.message == match e
      case MissingHeader => MsgAuthorizationRequired
      case BadEncoding => MsgInvalidEncoding
      case _ => MsgInvalidFormat
  {
    match e
    case MissingHeader => Unauthorized(MsgAuthorizationRequired, Some(realm))
    case BadScheme => Unauthorized(MsgInvalidFormat, None)
    case BadEncoding => Unauthorized(MsgInvalidEncoding, None)
    case BadPair => Unauthorized(MsgInvalidFormat, None)
  }

  /** `AdminBasicAuth`: passes the request on iff both configured admin
      credentials are set and the header carries exactly them. */
  function AdminBasicAuth(auth: string, adminUsername: string, adminPassword: string, decode: string -> Option<string>)
    : (v: Verdict)
    ensures v.Proceed? <==>
      adminUsername != "" && adminPassword != "" && ParseBasic(auth, decode) == Ok((adminUsername, adminPassword))
    ensures v.Proceed? ==> v.locals == map[]
    ensures ParseBasic(auth, decode).Err? ==> v == ParseFailure(ParseBasic(auth, decode).error, AdminRealm)
    ensures ParseBasic(auth, decode).Ok? && v.Unauthorized? ==> v == Unauthorized(MsgInvalidAdmin, None)
  {
    var parsed := ParseBasic(auth, decode);
    if parsed.Err? then ParseFailure(parsed.error, AdminRealm)
    else
      var (username, password) := parsed.value;
      if adminUsername != "" && adminPassword != "" && username == adminUsername && password == adminPassword then
        Proceed(map[])
      else
        Unauthorized(MsgInvalidAdmin, None)
  }

  /** With either admin credential unset, nobody reaches the admin area. */
  lemma UnsetAdminRejectsAll(auth: string, adminUsername: string, adminPassword: string, decode: string -> Option<string>)
    requires adminUsername == "" || adminPassword == ""
    ensures AdminBasicAuth(auth, adminUsername, adminPassword, decode).Unauthorized?
  {
  }

  /** An admin whose configured user-id contains a colon can never log in:
      the header's user-id is cut at the first colon. */
  lemma ColonAdminLockedOut(auth: string, adminUsername: string, adminPassword: string, decode: string -> Option<string>)
    requires ':' in adminUsername
    ensures AdminBasicAuth(auth, adminUsername, adminPassword, decode).Unauthorized?
  {
    NoColonInParsedUser(auth, decode, adminUsername);
  }

  /** A header carrying the configured credentials is accepted. */
  lemma AdminAcceptsOwnHeader(auth: string, adminUsername: string, adminPassword: string, decode: string -> Option<string>)
    requires adminUsername != "" && adminPassword != "" && ':' !in adminUsername
    requires BasicPrefix <= auth
    requires decode(auth[|BasicPrefix|..]) == Some(adminUsername + ":" + adminPassword)
    ensures AdminBasicAuth(auth, adminUsername, adminPassword, decode) == Proceed(map[])
  {
    ParseBasicOfPair(auth, decode, adminUsername, adminPassword);
  }

  /** A client sending its admin credentials the standard way -- "Basic "
      and the base64 of "user-id:password" -- is let in by the standard
      decoder. */
  lemma AdminAcceptsEncodedCredentials(adminUsername: string, adminPassword: string)
    requires adminUsername != "" && adminPassword != "" && ':' !in adminUsername
    requires Base64.IsByteText(adminUsername + ":" + adminPassword)
    ensures AdminBasicAuth(BasicPrefix + Base64.EncodeText(adminUsername + ":" + adminPassword),
                           adminUsername, adminPassword, Base64.StdDecode) == Proceed(map[])
  {
    var encoded := Base64.EncodeText(adminUsername + ":" + adminPassword);
    var auth := BasicPrefix + encoded;
    assert auth[|BasicPrefix|..] == encoded;
    Base64.DecodeEncodeText(adminUsername + ":" + adminPassword);
    AdminAcceptsOwnHeader(auth, adminUsername, adminPassword, Base64.StdDecode);
  }

  const UserIDKey: string := "user_id"
  const UsernameKey: string := "username"
  const UserSessionKey: string := "user_session"

  /** `UserBasicAuth`: looks the user up by the header's user-id, then
      checks the password against the table; on success stores the user's id
      and username in the locals.  An unknown user and a wrong password get
      the same answer. */
  function UserBasicAuth(auth: string, repo: UserTable, sm: SessionManager, decode: string -> Option<string>,
                         matches: (string, string) -> bool, lookupAnswers: bool, checkAnswers: bool)
    : (v: Verdict)
    reads repo, sm, sm.Clients()
    requires repo.Valid() && sm.Valid()
    ensures ParseBasic(auth, decode).Err? ==> v == ParseFailure(ParseBasic(auth, decode).error, UserRealm)
    ensures ParseBasic(auth, decode).Ok? && v.Unauthorized? ==> v == Unauthorized(MsgInvalidUser, None)
    ensures v.Proceed? <==>
      && ParseBasic(auth, decode).Ok?
      && var (username, password) := ParseBasic(auth, decode).value;
         && lookupAnswers && FindUsername(repo.rows, username).Some?
         && repo.ValidateCredentials(username, password, checkAnswers, matches)
    ensures v.Proceed? ==>
      var u := FindUsername(repo.rows, ParseBasic(auth, decode).value.0).value;
      && u.isActive
      && v.locals == map[UserIDKey := IntLocal(u.id), UsernameKey := StrLocal(u.username)]
  {
    var parsed := ParseBasic(auth, decode);
    if parsed.Err? then ParseFailure(parsed.error, UserRealm)
    else
      var (username, password) := parsed.value;
      var user := UserManagement.GetUserByUsername(repo, sm, username, lookupAnswers);
      if user.Err? then Unauthorized(MsgInvalidUser, None)
      else if repo.ValidateCredentials(username, password, checkAnswers, matches) then
        repo.UniqueUsername(FindUsername(repo.rows, username).value, username);
        Proceed(map[UserIDKey := IntLocal(user.value.id), UsernameKey := StrLocal(user.value.username)])
      else
        Unauthorized(MsgInvalidUser, None)
  }
}
