/** The user-management use cases of usecase/usermanagement.go: request
    validation, the account operations over the user table, the credentials
    map, and the three admin operations on a user's messaging session.

    `whatsapp.GetConnectionStatus` (infrastructure/whatsapp/init.go) is not
    part of this model; it is taken to report the process-wide client the
    way `GetUserConnectionStatus` reports a user's.  The cleanups
    `PerformCleanupAndUpdateGlobals` and `PerformPartialCleanupAndUpdateGlobals`
    are not part of this model either: their outcome (`cleanupOk`) and the
    client they install are parameters.  Whether the database answers each
    query is a parameter too. */
module UserManagement {
  import opened Outcomes
  import opened Text
  import opened UserDomain
  import opened UserRepository
  import opened Handles
  import opened SessionRegistry

  /** Lengths are Go's `len` on a string: bytes of UTF-8. */
  const MinUsernameBytes: nat := 3
  const MaxUsernameBytes: nat := 50
  const MinPasswordBytes: nat := 6

  datatype UserError =
    | UsernameRequired
    | UsernameLength
    | PasswordRequired
    | PasswordTooShort
    | LookupFailed(cause: RepoError)
    | UsernameExists
    | UserNotFound
    | CreateFailed(cause: RepoError)
    | UpdateFailed(cause: RepoError)
    | ReadBackFailed(cause: RepoError)
    | DeleteFailed(cause: RepoError)
    | ListFailed(cause: RepoError)
    | NoGlobalClient
    | ReconnectFailed
    | DisconnectFailed
    | ClearFailed

  predicate UsernameLengthOk(username: string) {
    MinUsernameBytes <= ByteLen(username) <= MaxUsernameBytes
  }

  predicate PasswordLengthOk(password: string) {
    ByteLen(password) >= MinPasswordBytes
  }

  // ---------------------------------------------------------------------
  // Validation
  // ---------------------------------------------------------------------

  /** `CreateUser`'s checks, in order: an empty username, a username outside
      3..50 bytes, an empty password, a password under 6 bytes. */
  function ValidateCreate(req: CreateUserRequest): (r: Option<UserError>)
    ensures r.None? <==> UsernameLengthOk(req.username) && PasswordLengthOk(req.password)
    ensures r == Some(UsernameRequired) <==> req.username == ""
    ensures r == Some(UsernameLength) <==> req.username != "" && !UsernameLengthOk(req.username)
    ensures r == Some(PasswordRequired) <==> UsernameLengthOk(req.username) && req.password == ""
    ensures r == Some(PasswordTooShort) <==>
      UsernameLengthOk(req.username) && req.password != "" && !PasswordLengthOk(req.password)
  {
    if req.username == "" then Some(UsernameRequired)
    else if ByteLen(req.username) < MinUsernameBytes || ByteLen(req.username) > MaxUsernameBytes then Some(UsernameLength)
    else if req.password == "" then Some(PasswordRequired)
    else if ByteLen(req.password) < MinPasswordBytes then Some(PasswordTooShort)
    else None
  }

  /** `UpdateUser`'s checks: an empty username or password means "leave it
      as it is" and passes; a given one must meet the creation bounds. */
  function ValidateUpdate(req: UpdateUserRequest): (r: Option<UserError>)
    ensures r.None? <==>
      (req.username == "" || UsernameLengthOk(req.username)) && (req.password == "" || PasswordLengthOk(req.password))
    ensures r == Some(UsernameLength) <==> req.username != "" && !UsernameLengthOk(req.username)
    ensures r == Some(PasswordTooShort) <==>
      (req.username == "" || UsernameLengthOk(req.username)) && req.password != "" && !PasswordLengthOk(req.password)
    ensures r.Some? ==> r.value == UsernameLength || r.value == PasswordTooShort
  {
    if req.username != "" && (ByteLen(req.username) < MinUsernameBytes || ByteLen(req.username) > MaxUsernameBytes) then
      Some(UsernameLength)
    else if req.password != "" && ByteLen(req.password) < MinPasswordBytes then Some(PasswordTooShort)
    else None
  }

  /** A request that passes creation's checks passes update's checks. */
  lemma CreateRulesImplyUpdateRules(req: CreateUserRequest, isActive: Option<bool>)
    requires ValidateCreate(req).None?
    ensures ValidateUpdate(UpdateUserRequest(req.username, req.password, isActive)).None?
  {
  }

  // ---------------------------------------------------------------------
  // Responses
  // ---------------------------------------------------------------------

  /** The response for a stored user and a connection status; the password
      never leaves the table. */
  function Response(u: User, st: ConnectionStatus): (resp: UserResponse)
    ensures resp.id == u.id && resp.username == u.username && resp.isActive == u.isActive
    ensures resp.isConnected == st.isConnected && resp.isLoggedIn == st.isLoggedIn
    ensures resp.createdAt == u.createdAt && resp.updatedAt == u.updatedAt
  {
    UserResponse(u.id, u.username, u.isActive, st.isConnected, st.isLoggedIn, u.createdAt, u.updatedAt)
  }

  /** The status of the process-wide client, reported the way a user's
      session status is. */
  function GlobalConnectionStatus(g: GlobalClient): (st: ConnectionStatus)
    reads g, g.client
    ensures g.client == null ==> st == NoStatus
    ensures g.client != null ==> st.isConnected == g.client.connected && st.isLoggedIn == g.client.loggedIn
  {
    var c := g.client;
    if c == null then NoStatus
    else ConnectionStatus(c.connected, c.loggedIn, if c.storeID.Some? then c.storeID.value else "")
  }

  // ---------------------------------------------------------------------
  // Account operations
  // ---------------------------------------------------------------------

  /** `CreateUser`: validates, refuses a taken username, inserts an active
      user and reports the status of the new id's session. */
  method CreateUser(repo: UserTable, sm: SessionManager, req: CreateUserRequest, hashed: Option<string>, now: int,
                    checkAnswers: bool, insertAnswers: bool)
    returns (r: Result<UserResponse, UserError>)
    requires repo.Valid() && sm.Valid()
    modifies repo
    ensures repo.Valid()
    ensures ValidateCreate(req).Some? ==> r == Err(ValidateCreate(req).value)
    ensures ValidateCreate(req).None? && !checkAnswers ==> r == Err(LookupFailed(QueryFailed))
    ensures ValidateCreate(req).None? && checkAnswers && FindUsername(old(repo.rows), req.username).Some? ==>
      r == Err(UsernameExists)
    ensures r.Ok? <==>
      && ValidateCreate(req).None? && checkAnswers && FindUsername(old(repo.rows), req.username).None?
      && hashed.Some? && insertAnswers
    ensures r.Err? ==> repo.rows == old(repo.rows) && repo.lastID == old(repo.lastID)
    ensures r.Ok? ==>
      && repo.lastID == old(repo.lastID) + 1
      && repo.rows == old(repo.rows) + [User(repo.lastID, req.username, hashed.value, true, now, now)]
      && r.value == Response(User(repo.lastID, req.username, req.password, true, now, now),
                             sm.GetUserConnectionStatus(repo.lastID))
    ensures r.Ok? && (forall k | k in sm.sessions :: k <= old(repo.lastID)) ==>
      !r.value.isConnected && !r.value.isLoggedIn
  {
    var invalid := ValidateCreate(req);
    if invalid.Some? {
      return Err(invalid.value);
    }
    var existing := repo.GetByUsername(req.username, checkAnswers);
    if existing.Err? {
      return Err(LookupFailed(existing.error));
    }
    if existing.value.Some? {
      return Err(UsernameExists);
    }
    var created := repo.Create(req.username, req.password, true, hashed, now, insertAnswers);
    if created.Err? {
      return Err(CreateFailed(created.error));
    }
    var user := created.value;
    var status := sm.GetUserConnectionStatus(user.id);
    r := Ok(Response(user, status));
  }

  /** `GetUser`: the user with the id, reported with the status of the
      process-wide client rather than the user's own session. */
  function GetUser(repo: UserTable, g: GlobalClient, id: int, answers: bool): (r: Result<UserResponse, UserError>)
    reads repo, g, g.client
    ensures !answers ==> r == Err(LookupFailed(QueryFailed))
    ensures answers && FindID(repo.rows, id).None? ==> r == Err(UserNotFound)
    ensures r.Ok? <==> answers && FindID(repo.rows, id).Some?
    ensures r.Ok? ==> r.value == Response(FindID(repo.rows, id).value, GlobalConnectionStatus(g)) && r.value.id == id
    ensures r.Ok? ==> r.value.isConnected == (g.client != null && g.client.connected)
  {
    var found := repo.GetByID(id, answers);
    if found.Err? then Err(LookupFailed(found.error))
    else if found.value.None? then Err(UserNotFound)
    else Ok(Response(found.value.value, GlobalConnectionStatus(g)))
  }

  /** `GetUserByUsername`: the user with the username, reported with the
      status of that user's own session. */
  function GetUserByUsername(repo: UserTable, sm: SessionManager, username: string, answers: bool)
    : (r: Result<UserResponse, UserError>)
    reads repo, sm, sm.Clients()
    requires sm.Valid()
    ensures !answers ==> r == Err(LookupFailed(QueryFailed))
    ensures r.Ok? <==> answers && FindUsername(repo.rows, username).Some?
    ensures r.Ok? ==>
      var u := FindUsername(repo.rows, username).value;
      r.value == Response(u, sm.GetUserConnectionStatus(u.id)) && r.value.username == username
  {
    var found := repo.GetByUsername(username, answers);
    if found.Err? then Err(LookupFailed(found.error))
    else if found.value.None? then Err(UserNotFound)
    else Ok(Response(found.value.value, sm.GetUserConnectionStatus(found.value.value.id)))
  }

  /** Looking a stored user up by id and by username finds the same
      account; only the connection status may differ, since GetUser reports
      the process-wide client. */
  lemma LookupsAgree(repo: UserTable, sm: SessionManager, g: GlobalClient, u: User)
    requires repo.Valid() && sm.Valid()
    requires u in repo.rows
    ensures GetUser(repo, g, u.id, true).Ok? && GetUserByUsername(repo, sm, u.username, true).Ok?
    ensures var a := GetUser(repo, g, u.id, true).value;
      var b := GetUserByUsername(repo, sm, u.username, true).value;
      && a.id == b.id == u.id && a.username == b.username == u.username && a.isActive == b.isActive == u.isActive
      && a.createdAt == b.createdAt && a.updatedAt == b.updatedAt
      && b.isConnected == sm.GetUserConnectionStatus(u.id).isConnected
  {
    var k :| 0 <= k < |repo.rows| && repo.rows[k] == u;
    var byID := FindID(repo.rows, u.id);
    assert byID.Some? by {
      assert repo.rows[k].id == u.id;
    }
    var byName := FindUsername(repo.rows, u.username);
    assert byName.Some? by {
      assert repo.rows[k].username == u.username;
    }
    SameIDSameRow(repo.rows, repo.lastID, byID.value, u);
    repo.UniqueUsername(u, u.username);
    assert byName.value == u;
  }

  /** In a well-formed table two rows with the same id are the same row. */
  lemma SameIDSameRow(rows: seq<User>, lastID: int, x: User, y: User)
    requires WellFormedRows(rows, lastID)
    requires x in rows && y in rows && x.id == y.id
    ensures x == y
  {
    var i :| 0 <= i < |rows| && rows[i] == x;
    var j :| 0 <= j < |rows| && rows[j] == y;

  }

  /** `GetAllUsers`: every stored user, newest first, each with the status
      of the user's own session. */
  method GetAllUsers(repo: UserTable, sm: SessionManager, answers: bool) returns (r: Result<seq<UserResponse>, UserError>)
    requires sm.Valid()
    ensures !answers ==> r == Err(ListFailed(QueryFailed))
    ensures answers ==> r.Ok? && repo.GetAll(answers).Ok?
    ensures r.Ok? ==>
      var users := repo.GetAll(answers).value;
      && |r.value| == |users|
      && forall i | 0 <= i < |users| :: r.value[i] == Response(users[i], sm.GetUserConnectionStatus(users[i].id))
    ensures r.Ok? ==> forall i, j | 0 <= i < j < |r.value| :: r.value[i].createdAt >= r.value[j].createdAt
  {
    var all := repo.GetAll(answers);
    if all.Err? {
      return Err(ListFailed(all.error));
    }
    var users := all.value;
    var responses: seq<UserResponse> := [];
    for i := 0 to |users|
      invariant |responses| == i
      invariant forall k | 0 <= k < i :: responses[k] == Response(users[k], sm.GetUserConnectionStatus(users[k].id))
    {
      var status := sm.GetUserConnectionStatus(users[i].id);
      responses := responses + [Response(users[i], status)];
    }
    r := Ok(responses);
  }

  /** `UpdateUser`'s checks before the write: validation, the user's
      existence, and a new username's availability, looked up only when it
      differs from the current one.  Yields the current row. */
  function UpdateChecks(repo: UserTable, id: int, req: UpdateUserRequest, lookupAnswers: bool, checkAnswers: bool)
    : (r: Result<User, UserError>)
    reads repo
    requires repo.Valid()
    ensures ValidateUpdate(req).Some? ==> r == Err(ValidateUpdate(req).value)
    ensures ValidateUpdate(req).None? && !lookupAnswers ==> r == Err(LookupFailed(QueryFailed))
    ensures ValidateUpdate(req).None? && lookupAnswers && FindID(repo.rows, id).None? ==> r == Err(UserNotFound)
    ensures (&& ValidateUpdate(req).None? && lookupAnswers && FindID(repo.rows, id).Some?
             && req.username != FindID(repo.rows, id).value.username && req.username != ""
             && checkAnswers && FindUsername(repo.rows, req.username).Some?) ==> r == Err(UsernameExists)
    ensures r.Ok? <==>
      && ValidateUpdate(req).None? && lookupAnswers && FindID(repo.rows, id).Some?
      && (req.username == "" || req.username == FindID(repo.rows, id).value.username
          || (checkAnswers && FindUsername(repo.rows, req.username).None?))
    ensures r.Ok? ==> r == Ok(FindID(repo.rows, id).value) && r.value in repo.rows && r.value.id == id
    ensures r.Ok? ==> !(req.username != "" && Clashes(repo.rows, id, req.username))
  {
    var invalid := ValidateUpdate(req);
    if invalid.Some? then Err(invalid.value)
    else
      var existing := repo.GetByID(id, lookupAnswers);
      if existing.Err? then Err(LookupFailed(existing.error))
      else if existing.value.None? then Err(UserNotFound)
      else
        var current := existing.value.value;
        var same := if req.username != "" && req.username != current.username
                    then Some(repo.GetByUsername(req.username, checkAnswers)) else None;
        if same.Some? && same.value.Err? then Err(LookupFailed(same.value.error))
        else if same.Some? && same.value.value.Some? then Err(UsernameExists)
        else
          NoClashAfterChecks(repo.rows, repo.lastID, id, current, req.username);
          Ok(current)
  }

  /** `UpdateUser`: runs the checks, updates the row and reads it back.  A
      failed read-back is reported although the update has been committed. */
  method UpdateUser(repo: UserTable, sm: SessionManager, id: int, req: UpdateUserRequest, hashed: Option<string>, now: int,
                    lookupAnswers: bool, checkAnswers: bool, writeAnswers: bool, readAnswers: bool)
    returns (r: Result<UserResponse, UserError>)
    requires repo.Valid() && sm.Valid()
    modifies repo
    ensures repo.Valid() && repo.lastID == old(repo.lastID)
    ensures var checked := old(UpdateChecks(repo, id, req, lookupAnswers, checkAnswers));
      var hash := if hashed.Some? then hashed.value else "";
      var writes := checked.Ok? && RequestedColumns(req) != [] && (req.password == "" || hashed.Some?) && writeAnswers;
      && (checked.Err? ==> r == Err(checked.error))
      && (checked.Ok? && RequestedColumns(req) == [] ==> r == Err(UpdateFailed(NoFieldsToUpdate)))
      && (checked.Ok? && !writes ==> r.Err? && r.error.UpdateFailed?)
      && (!writes ==> repo.rows == old(repo.rows))
      && (writes ==> repo.rows == Rewritten(old(repo.rows), id, req, hash, now))
      && (writes && !readAnswers ==> r == Err(ReadBackFailed(QueryFailed)))
      && (writes && readAnswers ==> r == Ok(Response(Updated(checked.value, req, hash, now), sm.GetUserConnectionStatus(id))))
  {
    var checked := UpdateChecks(repo, id, req, lookupAnswers, checkAnswers);
    if checked.Err? {
      return Err(checked.error);
    }
    var written := WriteAndReadBack(repo, id, req, hashed, now, checked.value, writeAnswers, readAnswers);
    if written.Err? {
      return Err(written.error);
    }
    var status := sm.GetUserConnectionStatus(id);
    r := Ok(Response(written.value, status));
  }

  /** The write and the read-back of `UpdateUser`, once the checks passed. */
  method WriteAndReadBack(repo: UserTable, id: int, req: UpdateUserRequest, hashed: Option<string>, now: int,
                          current: User, writeAnswers: bool, readAnswers: bool)
    returns (r: Result<User, UserError>)
    requires repo.Valid()
    requires current in repo.rows && current.id == id
    requires !(req.username != "" && Clashes(repo.rows, id, req.username))
    modifies repo
    ensures repo.Valid() && repo.lastID == old(repo.lastID)
    ensures var hash := if hashed.Some? then hashed.value else "";
      var writes := RequestedColumns(req) != [] && (req.password == "" || hashed.Some?) && writeAnswers;
      && (RequestedColumns(req) == [] ==> r == Err(UpdateFailed(NoFieldsToUpdate)))
      && (!writes ==> r.Err? && r.error.UpdateFailed? && repo.rows == old(repo.rows))
      && (writes ==> repo.rows == Rewritten(old(repo.rows), id, req, hash, now))
      && (writes && !readAnswers ==> r == Err(ReadBackFailed(QueryFailed)))
      && (writes && readAnswers ==> r == Ok(Updated(current, req, hash, now)))
  {
    ghost var before := repo.rows;
    var failed := repo.Update(id, req, hashed, now, writeAnswers);
    if failed.Some? {
      return Err(UpdateFailed(failed.value));
    }
    var again := repo.GetByID(id, readAnswers);
    if again.Err? {
      return Err(ReadBackFailed(again.error));
    }
    ReadBackIsUpdated(before, repo.lastID, id, req, if hashed.Some? then hashed.value else "", now, current);
    r := Ok(again.value.value);
  }

  /** Once the user exists and the new username is the user's own or held
      by nobody, the update cannot violate UNIQUE. */
  lemma NoClashAfterChecks(rows: seq<User>, lastID: int, id: int, current: User, username: string)
    requires WellFormedRows(rows, lastID)
    requires current in rows && current.id == id
    requires username != "" && username != current.username ==> FindUsername(rows, username).None?
    ensures !(username != "" && Clashes(rows, id, username))
  {
    var j :| 0 <= j < |rows| && rows[j] == current;
    forall i | 0 <= i < |rows| && rows[i].id != id
      ensures rows[i].username != current.username
    {
      assert i != j;
    }
  }

  /** The row read back after an update is the updated row. */
  lemma ReadBackIsUpdated(before: seq<User>, lastID: int, id: int, req: UpdateUserRequest, hash: string, now: int, current: User)
    requires WellFormedRows(before, lastID) && WellFormedRows(Rewritten(before, id, req, hash, now), lastID)
    requires current in before && current.id == id
    ensures FindID(before, id) == Some(current)
    ensures FindID(Rewritten(before, id, req, hash, now), id) == Some(Updated(current, req, hash, now))
  {
    var rows := Rewritten(before, id, req, hash, now);
    var j :| 0 <= j < |before| && before[j] == current;
    assert rows[j].id == id;
    var found := FindID(rows, id).value;
    var k :| 0 <= k < |rows| && rows[k] == found;
    SameIDSameRow(rows, lastID, rows[k], rows[j]);
    SameIDSameRow(before, lastID, FindID(before, id).value, current);
  }

  /** `DeleteUser`: requires the user to exist, then deletes the row. */
  method DeleteUser(repo: UserTable, id: int, lookupAnswers: bool, deleteAnswers: bool) returns (err: Option<UserError>)
    requires repo.Valid()
    modifies repo
    ensures repo.Valid() && repo.lastID == old(repo.lastID)
    ensures !lookupAnswers ==> err == Some(LookupFailed(QueryFailed))
    ensures lookupAnswers && FindID(old(repo.rows), id).None? ==> err == Some(UserNotFound)
    ensures lookupAnswers && FindID(old(repo.rows), id).Some? && !deleteAnswers ==> err == Some(DeleteFailed(QueryFailed))
    ensures err.None? <==> lookupAnswers && FindID(old(repo.rows), id).Some? && deleteAnswers
    ensures err.Some? ==> repo.rows == old(repo.rows)
    ensures err.None? ==> repo.rows == WithoutID(old(repo.rows), id)
  {
    var existing := repo.GetByID(id, lookupAnswers);
    if existing.Err? {
      return Some(LookupFailed(existing.error));
    }
    if existing.value.None? {
      return Some(UserNotFound);
    }
    var failed := repo.Delete(id, deleteAnswers);
    if failed.Some? {
      return Some(DeleteFailed(failed.value));
    }
    err := None;
  }

  // ---------------------------------------------------------------------
  // Credentials
  // ---------------------------------------------------------------------

  /** Active users with the same username are the same row. */
  lemma ActiveUsernamesUnique(rows: seq<User>, lastID: int)
    requires WellFormedRows(rows, lastID)
    ensures forall x, y | x in ActiveRows(rows) && y in ActiveRows(rows) && x.username == y.username :: x == y
  {
    forall x, y | x in ActiveRows(rows) && y in ActiveRows(rows) && x.username == y.username
      ensures x == y
    {
      var i :| 0 <= i < |rows| && rows[i] == x;
      var j :| 0 <= j < |rows| && rows[j] == y;
    }
  }

  /** The credentials loop: each user's username mapped to the stored
      password. */
  method CredentialsOf(users: seq<User>) returns (creds: map<string, string>)
    requires forall x, y | x in users && y in users && x.username == y.username :: x == y
    ensures forall name :: name in creds <==> exists k | 0 <= k < |users| :: users[k].username == name
    ensures forall k | 0 <= k < |users| :: creds[users[k].username] == users[k].password
  {
    creds := map[];
    for i := 0 to |users|
      invariant forall name :: name in creds <==> exists k | 0 <= k < i :: users[k].username == name
      invariant forall k | 0 <= k < i :: creds[users[k].username] == users[k].password
    {
      creds := creds[users[i].username := users[i].password];
    }
  }

  /** `GetActiveUserCredentials`: an empty map when the query fails;
      otherwise every active user's username mapped to the stored (hashed)
      password. */
  method GetActiveUserCredentials(repo: UserTable, answers: bool) returns (creds: map<string, string>)
    requires repo.Valid()
    ensures !answers ==> creds == map[]
    ensures answers ==> forall name :: name in creds <==> exists u | u in repo.rows :: u.isActive && u.username == name
    ensures forall u | u in repo.rows && u.isActive && answers :: creds[u.username] == u.password
  {
    var active := repo.GetActiveUsers(answers);
    if active.Err? {
      return map[];
    }
    var users := active.value;
    assert users == ActiveRows(repo.rows);
    ActiveUsernamesUnique(repo.rows, repo.lastID);
    creds := CredentialsOf(users);
    forall name
      ensures name in creds <==> exists u | u in repo.rows :: u.isActive && u.username == name
    {
      if exists u | u in repo.rows :: u.isActive && u.username == name {
        var u :| u in repo.rows && u.isActive && u.username == name;
        assert u in users;
      }
    }
    forall u | u in repo.rows && u.isActive
      ensures creds[u.username] == u.password
    {
      assert u in users;
    }
  }

  // ---------------------------------------------------------------------
  // Admin session operations
  // ---------------------------------------------------------------------

  /** The check the three admin operations share: the user must exist and
      the process-wide client must be set. */
  function AdminPrecheck(repo: UserTable, g: GlobalClient, userID: int, answers: bool): (r: Option<UserError>)
    reads repo, g
    ensures !answers ==> r == Some(LookupFailed(QueryFailed))
    ensures answers && FindID(repo.rows, userID).None? ==> r == Some(UserNotFound)
    ensures answers && FindID(repo.rows, userID).Some? && g.client == null ==> r == Some(NoGlobalClient)
    ensures r.None? <==> answers && FindID(repo.rows, userID).Some? && g.client != null
  {
    var found := repo.GetByID(userID, answers);
    if found.Err? then Some(LookupFailed(found.error))
    else if found.value.None? then Some(UserNotFound)
    else if g.client == null then Some(NoGlobalClient)
    else None
  }

  /** `DisconnectWhatsAppSession`: after the checks, runs the partial
      cleanup, which on success installs the client it rebuilt as the
      process-wide one.  It acts on the process-wide client, not on the
      user's session. */
  method DisconnectWhatsAppSession(repo: UserTable, g: GlobalClient, userID: int, answers: bool,
                                   cleanupOk: bool, newClient: Client?)
    returns (err: Option<UserError>)
    requires g.Valid()
    requires newClient != null ==> newClient.Valid()
    modifies g
    ensures g.Valid()
    ensures old(AdminPrecheck(repo, g, userID, answers)).Some? ==>
      err == old(AdminPrecheck(repo, g, userID, answers)) && g.client == old(g.client)
    ensures old(AdminPrecheck(repo, g, userID, answers)).None? ==>
      && err == (if cleanupOk then None else Some(DisconnectFailed))
      && g.client == (if cleanupOk then newClient else old(g.client))
  {
    var invalid := AdminPrecheck(repo, g, userID, answers);
    if invalid.Some? {
      return invalid;
    }
    if !cleanupOk {
      return Some(DisconnectFailed);
    }
    g.client := newClient;
    err := None;
  }

  /** `ReconnectWhatsAppSession`: after the checks, connects the
      process-wide client only when it is not connected; an already
      connected client is left alone and the call succeeds. */
  method ReconnectWhatsAppSession(repo: UserTable, g: GlobalClient, userID: int, answers: bool, connectSucceeds: bool,
                                  logsIn: bool)
    returns (err: Option<UserError>)
    requires g.Valid()
    modifies g.client
    ensures g.Valid()
    ensures old(AdminPrecheck(repo, g, userID, answers)).Some? ==>
      err == old(AdminPrecheck(repo, g, userID, answers)) && (g.client != null ==> unchanged(g.client))
    ensures old(AdminPrecheck(repo, g, userID, answers)).None? && old(g.client.connected) ==>
      err.None? && unchanged(g.client)
    ensures old(AdminPrecheck(repo, g, userID, answers)).None? && !old(g.client.connected) ==>
      && err == (if connectSucceeds then None else Some(ReconnectFailed))
      && g.client.connected == connectSucceeds && g.client.storeID == old(g.client.storeID)
      && g.client.loggedIn == LoginAfterConnect(old(g.client.loggedIn), g.client.storeID, connectSucceeds, logsIn)
  {
    var invalid := AdminPrecheck(repo, g, userID, answers);
    if invalid.Some? {
      return invalid;
    }
    var client := g.client;
    if !client.connected {
      var ok := client.Connect(connectSucceeds, logsIn);
      if !ok {
        return Some(ReconnectFailed);
      }
    }
    err := None;
  }

  /** `ClearWhatsAppSession`: after the checks, logs the process-wide
      client out when it is logged in, ignoring a refused logout, then runs
      the full cleanup and returns only the cleanup's error. */
  method ClearWhatsAppSession(repo: UserTable, g: GlobalClient, userID: int, answers: bool,
                              logoutSucceeds: bool, cleanupOk: bool, newClient: Client?)
    returns (err: Option<UserError>)
    requires g.Valid()
    requires newClient != null ==> newClient.Valid()
    modifies g, g.client
    ensures newClient != null ==> newClient.Valid()
    ensures old(g.client) != null ==> old(g.client).Valid()
    ensures old(AdminPrecheck(repo, g, userID, answers)).Some? ==>
      err == old(AdminPrecheck(repo, g, userID, answers)) && g.client == old(g.client)
      && (g.client != null ==> unchanged(g.client))
    ensures old(AdminPrecheck(repo, g, userID, answers)).None? ==>
      var c := old(g.client);
      && err == (if cleanupOk then None else Some(ClearFailed))
      && g.client == (if cleanupOk then newClient else c)
      && (old(c.loggedIn) && logoutSucceeds ==> !c.connected && !c.loggedIn && c.storeID.None?)
      && (!old(c.loggedIn) || !logoutSucceeds ==>
            c.connected == old(c.connected) && c.loggedIn == old(c.loggedIn) && c.storeID == old(c.storeID))
  {
    var invalid := AdminPrecheck(repo, g, userID, answers);
    if invalid.Some? {
      return invalid;
    }
    var client := g.client;
    if client.loggedIn {
      var _ := client.Logout(logoutSucceeds);
    }
    if !cleanupOk {
      return Some(ClearFailed);
    }
    g.client := newClient;
    err := None;
  }
}
