/** The session-activation middleware of ui/rest/middleware/user_session.go:
    it reads the user-id from a Basic header, looks the user up, stores the
    user's id and username in the request locals, and get-or-creates that
    user's session in the registry; and the getters that read those locals
    back. */
module UserSessionMiddleware {
  import opened Outcomes
  import opened UserDomain
  import opened UserRepository
  import opened SessionRegistry
  import opened AdminAuth
  import UserManagement

  /** The 401 answer for a parse failure here: no realm is challenged, and a
      missing header and a wrong scheme share one message. */
  function SessionParseFailure(e: ParseError): (v: Verdict)
    ensures v.Unauthorized? && v.challenge.None?
    ensures v.message == MsgAuthorizationRequired <==> e == MissingHeader || e == BadScheme
    ensures v.message == MsgInvalidEncoding <==> e == BadEncoding
    ensures v.message == MsgInvalidFormat <==> e == BadPair
  {
    match e
    case MissingHeader => Unauthorized(MsgAuthorizationRequired, None)
    case BadScheme => Unauthorized(MsgAuthorizationRequired, None)
    case BadEncoding => Unauthorized(MsgInvalidEncoding, None)
    case BadPair => Unauthorized(MsgInvalidFormat, None)
  }

  /** The decision before the registry is touched: the looked-up user, or
      the 401 answer.  Only the user-id of the header is used. */
  function Identify(auth: string, repo: UserTable, sm: SessionManager, decode: string -> Option<string>, lookupAnswers: bool)
    : (r: Result<UserResponse, Verdict>)
    reads repo, sm, sm.Clients()
    requires sm.Valid()
    ensures ParseBasic(auth, decode).Err? ==> r == Err(SessionParseFailure(ParseBasic(auth, decode).error))
    ensures r.Ok? <==>
      ParseBasic(auth, decode).Ok? && lookupAnswers && FindUsername(repo.rows, ParseBasic(auth, decode).value.0).Some?
    ensures ParseBasic(auth, decode).Ok? && r.Err? ==> r.error == Unauthorized(MsgInvalidUser, None)
    ensures r.Ok? ==>
      var u := FindUsername(repo.rows, ParseBasic(auth, decode).value.0).value;
      r.value.id == u.id && r.value.username == u.username
  {
    var parsed := ParseBasic(auth, decode);
    if parsed.Err? then Err(SessionParseFailure(parsed.error))
    else
      var user := UserManagement.GetUserByUsername(repo, sm, parsed.value.0, lookupAnswers);
      if user.Err? then Err(Unauthorized(MsgInvalidUser, None))
      else Ok(user.value)
  }

  /** The password half of the header is never checked: two headers naming
      the same user-id are decided alike, whatever their passwords. */
  lemma PasswordNotChecked(auth1: string, auth2: string, repo: UserTable, sm: SessionManager,
                           decode: string -> Option<string>, lookupAnswers: bool)
    requires sm.Valid()
    requires ParseBasic(auth1, decode).Ok? && ParseBasic(auth2, decode).Ok?
    requires ParseBasic(auth1, decode).value.0 == ParseBasic(auth2, decode).value.0
    ensures Identify(auth1, repo, sm, decode, lookupAnswers) == Identify(auth2, repo, sm, decode, lookupAnswers)
  {
  }

  /** Every request the user area's Basic authentication passes on, this
      middleware identifies as the same user. */
  lemma IdentifiesWhatUserAuthAccepts(auth: string, repo: UserTable, sm: SessionManager, decode: string -> Option<string>,
                                      matches: (string, string) -> bool, lookupAnswers: bool, checkAnswers: bool)
    requires repo.Valid() && sm.Valid()
    requires UserBasicAuth(auth, repo, sm, decode, matches, lookupAnswers, checkAnswers).Proceed?
    ensures Identify(auth, repo, sm, decode, lookupAnswers).Ok?
    ensures var locals := UserBasicAuth(auth, repo, sm, decode, matches, lookupAnswers, checkAnswers).locals;
      var u := Identify(auth, repo, sm, decode, lookupAnswers).value;
      locals == map[UserIDKey := IntLocal(u.id), UsernameKey := StrLocal(u.username)]
  {
  }

  /** The locals a successful request carries on. */
  function SessionLocals(userID: int, username: string, s: UserSession): (locals: map<string, Local>)
    ensures locals.Keys == {UserIDKey, UsernameKey, UserSessionKey}
  {
    map[UserIDKey := IntLocal(userID), UsernameKey := StrLocal(username), UserSessionKey := SessionLocal(s)]
  }

  /** `UserSessionMiddleware`: on a known user-id, the locals hold the user's
      id, username and session, and the session is the one the registry
      already held for that user, or a new one now registered. */
  method UserSessionHandler(auth: string, repo: UserTable, sm: SessionManager, decode: string -> Option<string>,
                            lookupAnswers: bool, cfg: StoreConfig, init: InitOutcome)
    returns (v: Verdict)
    requires repo.Valid() && sm.Valid()
    requires SliceableConfig(cfg) && WellFormedInit(init)
    modifies sm
    ensures sm.Valid()
    ensures old(Identify(auth, repo, sm, decode, lookupAnswers)).Err? ==>
      v == old(Identify(auth, repo, sm, decode, lookupAnswers)).error && sm.sessions == old(sm.sessions)
    ensures v.Proceed? <==> old(Identify(auth, repo, sm, decode, lookupAnswers)).Ok?
    ensures v.Proceed? ==>
      var u := old(Identify(auth, repo, sm, decode, lookupAnswers)).value;
      && u.id in sm.sessions
      && v.locals == SessionLocals(u.id, u.username, sm.sessions[u.id])
      && (u.id in old(sm.sessions) ==> sm.sessions == old(sm.sessions))
      && (u.id !in old(sm.sessions) ==>
            && fresh(sm.sessions[u.id]) && BuiltFor(sm.sessions[u.id], u.id, u.username, cfg, init)
            && sm.sessions == old(sm.sessions)[u.id := sm.sessions[u.id]])
  {
    var who := Identify(auth, repo, sm, decode, lookupAnswers);
    if who.Err? {
      return who.error;
    }
    var s := sm.GetOrCreateUserSession(who.value.id, who.value.username, cfg, init);
    v := Proceed(SessionLocals(who.value.id, who.value.username, s));
  }

  /** Two requests in a row for the same user are handed the same session
      object. */
  method RepeatedRequests(auth: string, repo: UserTable, sm: SessionManager, decode: string -> Option<string>,
                          cfg: StoreConfig, init: InitOutcome)
    returns (first: Verdict, second: Verdict)
    requires repo.Valid() && sm.Valid()
    requires SliceableConfig(cfg) && WellFormedInit(init)
    modifies sm
    ensures first.Proceed? && second.Proceed? ==>
      GetUserSessionFromContext(first.locals) == GetUserSessionFromContext(second.locals)
    ensures first.Proceed? <==> second.Proceed?
  {
    ghost var who := Identify(auth, repo, sm, decode, true);
    first := UserSessionHandler(auth, repo, sm, decode, true, cfg, init);
    assert Identify(auth, repo, sm, decode, true).Ok? <==> who.Ok?;
    second := UserSessionHandler(auth, repo, sm, decode, true, cfg, init);
  }

  /** `GetUserIDFromContext`: the stored user id, or (0, false) when the
      local is absent or not an int. */
  function GetUserIDFromContext(locals: map<string, Local>): (r: (int, bool))
    ensures r.1 <==> UserIDKey in locals && locals[UserIDKey].IntLocal?
    ensures r.1 ==> r.0 == locals[UserIDKey].i
    ensures !r.1 ==> r.0 == 0
  {
    if UserIDKey in locals && locals[UserIDKey].IntLocal? then (locals[UserIDKey].i, true) else (0, false)
  }

  /** `GetUsernameFromContext`: the stored username, or ("", false). */
  function GetUsernameFromContext(locals: map<string, Local>): (r: (string, bool))
    ensures r.1 <==> UsernameKey in locals && locals[UsernameKey].StrLocal?
    ensures r.1 ==> r.0 == locals[UsernameKey].s
    ensures !r.1 ==> r.0 == ""
  {
    if UsernameKey in locals && locals[UsernameKey].StrLocal? then (locals[UsernameKey].s, true) else ("", false)
  }

  /** `GetUserSessionFromContext`: the stored session, or (nil, false). */
  function GetUserSessionFromContext(locals: map<string, Local>): (r: (UserSession?, bool))
    ensures r.1 <==> UserSessionKey in locals && locals[UserSessionKey].SessionLocal?
    ensures r.1 ==> r.0 == locals[UserSessionKey].session
    ensures !r.1 ==> r.0 == null
  {
    if UserSessionKey in locals && locals[UserSessionKey].SessionLocal? then (locals[UserSessionKey].session, true)
    else (null, false)
  }

  /** The getters read back what the middleware stored. */
  lemma LocalsReadBack(userID: int, username: string, s: UserSession)
    ensures GetUserIDFromContext(SessionLocals(userID, username, s)) == (userID, true)
    ensures GetUsernameFromContext(SessionLocals(userID, username, s)) == (username, true)
    ensures GetUserSessionFromContext(SessionLocals(userID, username, s)) == (s, true)
  {
  }

  /** After the user area's Basic authentication, the session getter finds
      nothing: only this middleware stores a session. */
  lemma UserAuthStoresNoSession(auth: string, repo: UserTable, sm: SessionManager, decode: string -> Option<string>,
                                matches: (string, string) -> bool, lookupAnswers: bool, checkAnswers: bool)
    requires repo.Valid() && sm.Valid()
    requires UserBasicAuth(auth, repo, sm, decode, matches, lookupAnswers, checkAnswers).Proceed?
    ensures GetUserSessionFromContext(UserBasicAuth(auth, repo, sm, decode, matches, lookupAnswers, checkAnswers).locals)
            == (null, false)
  {
  }
}
