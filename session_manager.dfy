/** The per-user session registry of infrastructure/whatsapp/session_manager.go:
    a map from user id to that user's session (connection handle plus its two
    stores), with idempotent creation, removal with cleanup, snapshot listing,
    status derivation, manual reconnect and disconnect, and the logged-in-only
    reconnect sweep.  Each method is one atomic step: the read and write locks
    of the source serialise them. */
module SessionRegistry {
  import opened Outcomes
  import opened Text
  import opened Handles

  // ---------------------------------------------------------------------
  // Per-user store locations
  // ---------------------------------------------------------------------

  /** The two process-wide store URIs the per-user ones are derived from
      (`config.DBURI`, `config.DBKeysURI`). */
  datatype StoreConfig = StoreConfig(dbURI: string, dbKeysURI: string)

  const MemoryKeysURI: string := ":memory:"
  const SharedMemoryKeysURI: string := "file::memory:?cache=shared&_foreign_keys=on"
  const ForeignKeysQuery: string := "?_foreign_keys=on"

  predicate IsMemoryKeysURI(uri: string) {
    uri == MemoryKeysURI || uri == SharedMemoryKeysURI
  }

  /** The keys URI is sliced with `[5:]` only when it is set and is not one of
      the two in-memory configurations. */
  predicate SliceableKeysURI(uri: string) {
    uri == "" || IsMemoryKeysURI(uri) || |uri| >= 5
  }

  /** Both `[5:]` slices of CreateUserSession (dropping "file:") are in range. */
  predicate SliceableConfig(c: StoreConfig) {
    |c.dbURI| >= 5 && SliceableKeysURI(c.dbKeysURI)
  }

  /** The three parts of every per-user store URI,
      `file:<dir>/user_<id>_<kind>.db?_foreign_keys=on`. */
  function StorePrefix(dir: string): string {
    "file:" + dir + "/user_"
  }

  function StoreSuffix(kind: string): string {
    "_" + kind + ".db" + ForeignKeysQuery
  }

  function StoreURI(dir: string, userID: int, kind: string): string {
    StorePrefix(dir) + IntToDecimal(userID) + StoreSuffix(kind)
  }

  /** The session store of userID, beside the configured one. */
  function UserDBURI(c: StoreConfig, userID: int): string
    requires |c.dbURI| >= 5
  {
    StoreURI(Dir(c.dbURI[5..]), userID, "whatsapp")
  }

  /** The per-user keys store: none when the process has no keys store, a
      file under `storages/` when the process keeps its keys in memory, and a
      file beside the configured keys store otherwise. */
  function UserKeysDBURI(c: StoreConfig, userID: int): (uri: string)
    requires SliceableKeysURI(c.dbKeysURI)
    ensures uri == "" <==> c.dbKeysURI == ""
  {
    if c.dbKeysURI == "" then ""
    else if IsMemoryKeysURI(c.dbKeysURI) then StoreURI("storages", userID, "keys")
    else StoreURI(Dir(c.dbKeysURI[5..]), userID, "keys")
  }

  lemma SameAffixes(p: string, x: string, y: string, s: string)
    requires p + x + s == p + y + s
    ensures x == y
  {
    assert |x| == |y|;
    assert x == (p + x + s)[|p|..|p| + |x|];
    assert y == (p + y + s)[|p|..|p| + |y|];
  }

  /** Two users never share a store of the same kind in the same directory. */
  lemma StoreURIInjective(dir: string, a: int, b: int, kind: string)
    requires StoreURI(dir, a, kind) == StoreURI(dir, b, kind)
    ensures a == b
  {
    SameAffixes(StorePrefix(dir), IntToDecimal(a), IntToDecimal(b), StoreSuffix(kind));
    IntToDecimalInjective(a, b);
  }

  /** Different users never share a session store. */
  lemma UserDBURIInjective(c: StoreConfig, a: int, b: int)
    requires |c.dbURI| >= 5
    requires UserDBURI(c, a) == UserDBURI(c, b)
    ensures a == b
  {
    StoreURIInjective(Dir(c.dbURI[5..]), a, b, "whatsapp");
  }

  /** The per-user session store sits in the cleaned directory of the
      configured one: "file:./storages/whatsapp.db" puts user 7's store at
      "file:storages/user_7_whatsapp.db?_foreign_keys=on". */
  lemma UserDBURIBesideConfigured(c: StoreConfig, dir: string, name: string, userID: int)
    requires PlainName(dir) && '/' !in name
    requires c.dbURI == "file:./" + dir + "/" + name
    ensures UserDBURI(c, userID) == StoreURI(dir, userID, "whatsapp")
  {
    assert c.dbURI[5..] == "./" + dir + "/" + name;
    DirDropsDot(dir, name);
  }

  /** Different users never share a keys store, when there is one. */
  lemma UserKeysDBURIInjective(c: StoreConfig, a: int, b: int)
    requires SliceableKeysURI(c.dbKeysURI) && c.dbKeysURI != ""
    requires UserKeysDBURI(c, a) == UserKeysDBURI(c, b)
    ensures a == b
  {
    if IsMemoryKeysURI(c.dbKeysURI) {
      StoreURIInjective("storages", a, b, "keys");
    } else {
      StoreURIInjective(Dir(c.dbKeysURI[5..]), a, b, "keys");
    }
  }

  /** The character 21 places from the end of a store URI is the last one of
      its kind. */
  lemma StoreURIKindChar(dir: string, userID: int, kind: string)
    requires kind != []
    ensures var u := StoreURI(dir, userID, kind); |u| >= 21 && u[|u| - 21] == kind[|kind| - 1]
  {
    var tail := ".db" + ForeignKeysQuery;
    assert |tail| == 20;
    var head := StorePrefix(dir) + IntToDecimal(userID) + "_" + kind;
    assert StoreURI(dir, userID, kind) == head + tail;
  }

  /** A session store and a keys store never share a file, whoever owns them
      and wherever they live. */
  lemma SessionAndKeysStoresDiffer(c: StoreConfig, a: int, b: int)
    requires SliceableConfig(c)
    ensures UserDBURI(c, a) != UserKeysDBURI(c, b)
  {
    StoreURIKindChar(Dir(c.dbURI[5..]), a, "whatsapp");
    if c.dbKeysURI != "" {
      var dir := if IsMemoryKeysURI(c.dbKeysURI) then "storages" else Dir(c.dbKeysURI[5..]);
      assert UserKeysDBURI(c, b) == StoreURI(dir, b, "keys");
      StoreURIKindChar(dir, b, "keys");
    }
  }

  // ---------------------------------------------------------------------
  // Sessions
  // ---------------------------------------------------------------------

  /** What the opaque initialisers report while a session is built:
      whether `InitWaDB` yields a session store and a keys store, whether
      `InitWaCLI` yields a client, and which device identity that client finds
      in its store. */
  datatype InitOutcome = InitOutcome(dbOpens: bool, keysOpens: bool, clientStarts: bool, storedDevice: Option<string>)

  predicate WellFormedInit(init: InitOutcome) {
    init.storedDevice.Some? ==> IsDeviceID(init.storedDevice.value)
  }

  /** `UserSession`: set once at creation and never reassigned; its client and
      stores may be nil when their initialisation failed. */
  class UserSession {
    const userID: int
    const username: string
    const client: Client?
    const db: Container?
    const keysDB: Container?

    constructor (userID: int, username: string, client: Client?, db: Container?, keysDB: Container?)
      ensures this.userID == userID && this.username == username
      ensures this.client == client && this.db == db && this.keysDB == keysDB
    {
      this.userID := userID;
      this.username := username;
      this.client := client;
      this.db := db;
      this.keysDB := keysDB;
    }

    /** The objects RemoveUserSession acts on. */
    ghost function Handles(): set<object> {
      (if client != null then {client} else {}) + (if db != null then {db} else {}) +
      (if keysDB != null then {keysDB} else {})
    }
  }

  /** The shape of a newly built session: its handles bound to the user's
      own store URIs, open, disconnected and not logged in. */
  ghost predicate BuiltFor(s: UserSession, userID: int, username: string, cfg: StoreConfig, init: InitOutcome)
    reads s.Handles()
    requires SliceableConfig(cfg)
  {
    && s.userID == userID && s.username == username
    && (s.db != null <==> init.dbOpens)
    && (s.db != null ==> s.db.uri == UserDBURI(cfg, userID) && !s.db.closed)
    && (s.keysDB != null <==> init.keysOpens && cfg.dbKeysURI != "")
    && (s.keysDB != null ==> s.keysDB.uri == UserKeysDBURI(cfg, userID) && !s.keysDB.closed)
    && (s.client != null <==> init.clientStarts)
    && (s.client != null ==> !s.client.connected && !s.client.loggedIn && s.client.storeID == init.storedDevice)
  }

  /** Opens the user's stores (the keys store only when the process has one)
      and builds a client on them; a failed initialiser leaves its handle nil. */
  method BuildSession(userID: int, username: string, cfg: StoreConfig, init: InitOutcome) returns (s: UserSession)
    requires SliceableConfig(cfg) && WellFormedInit(init)
    ensures fresh(s) && BuiltFor(s, userID, username, cfg, init)
    ensures s.client != null ==> fresh(s.client) && s.client.Valid()
    ensures s.db != null ==> fresh(s.db)
    ensures s.keysDB != null ==> fresh(s.keysDB)
  {
    var db := OpenStore(UserDBURI(cfg, userID), init.dbOpens);
    var keysURI := UserKeysDBURI(cfg, userID);
    var keysDB := OpenStore(keysURI, keysURI != "" && init.keysOpens);
    var client := StartClient(init.clientStarts, init.storedDevice);
    s := new UserSession(userID, username, client, db, keysDB);
  }

  /** `sqlstore.New` on uri, nil when it fails. */
  method OpenStore(uri: string, opens: bool) returns (c: Container?)
    ensures c != null <==> opens
    ensures c != null ==> fresh(c) && c.uri == uri && !c.closed
  {
    c := null;
    if opens {
      c := new Container(uri);
    }
  }

  /** `InitWaCLI`, nil when it fails. */
  method StartClient(starts: bool, stored: Option<string>) returns (c: Client?)
    requires stored.Some? ==> IsDeviceID(stored.value)
    ensures c != null <==> starts
    ensures c != null ==> fresh(c) && c.Valid() && !c.connected && !c.loggedIn && c.storeID == stored
  {
    c := null;
    if starts {
      c := new Client(stored);
    }
  }

  /** One step of the logged-in-only sweep: a logged-in client that is not
      connected is asked to Connect.  Reports whether the client counts as
      logged in, whether Connect was called, and whether the client now
      counts as connected. */
  method SweepOne(c: Client?, connectSucceeds: bool, logsIn: bool) returns (loggedIn: bool, attempted: bool, connected: bool)
    requires c != null ==> c.Valid()
    modifies c
    ensures loggedIn == (c != null && old(c.loggedIn))
    ensures attempted == (c != null && old(c.loggedIn) && !old(c.connected))
    ensures connected == (loggedIn && c.connected)
    ensures c != null ==> c.Valid() && c.connected == (old(c.connected) || (attempted && connectSucceeds))
    ensures c != null ==> c.storeID == old(c.storeID)
    ensures c != null ==>
      c.loggedIn == (if attempted then LoginAfterConnect(old(c.loggedIn), c.storeID, connectSucceeds, logsIn) else old(c.loggedIn))
  {
    loggedIn, attempted, connected := false, false, false;
    if c != null && c.loggedIn {
      loggedIn := true;
      if !c.connected {
        attempted := true;
        connected := c.Connect(connectSucceeds, logsIn);
      } else {
        connected := true;
      }
    }
  }

  /** A client after the sweep, against its status before it: connected if
      it was or if an attempted reconnect succeeded, and logged in as that
      reconnect left it, or as before when there was none. */
  predicate Swept(c: Client, before: ConnectionStatus, attempted: bool, connectSucceeds: bool, logsIn: bool)
    reads c
  {
    && c.connected == (before.isConnected || (attempted && connectSucceeds))
    && c.loggedIn == (if attempted && connectSucceeds then logsIn else before.isLoggedIn)
  }

  /** The derived status `(isConnected, isLoggedIn, deviceID)`. */
  datatype ConnectionStatus = ConnectionStatus(isConnected: bool, isLoggedIn: bool, deviceID: string)

  const NoStatus: ConnectionStatus := ConnectionStatus(false, false, "")

  /** The users whose status is logged in. */
  function LoggedIn(statuses: map<int, ConnectionStatus>): set<int> {
    set id | id in statuses && statuses[id].isLoggedIn
  }

  /** The users the logged-in-only sweep reconnects: logged in and not
      connected. */
  function NeedsReconnect(statuses: map<int, ConnectionStatus>): set<int> {
    set id | id in statuses && statuses[id].isLoggedIn && !statuses[id].isConnected
  }

  /** How many of ids are logged in, counting along the sequence. */
  function CountLoggedIn(statuses: map<int, ConnectionStatus>, ids: seq<int>): nat {
    if ids == [] then 0
    else
      var last := ids[|ids| - 1];
      CountLoggedIn(statuses, ids[..|ids| - 1]) + (if last in statuses && statuses[last].isLoggedIn then 1 else 0)
  }

  /** Counting along a visit without repetitions gives the number of
      logged-in users visited. */
  lemma {:induction false} CountLoggedInIsCardinality(statuses: map<int, ConnectionStatus>, ids: seq<int>)
    requires forall i, j | 0 <= i < j < |ids| :: ids[i] != ids[j]
    ensures CountLoggedIn(statuses, ids) == |set x | x in ids && x in statuses && statuses[x].isLoggedIn|
  {
    if ids != [] {
      var prefix := ids[..|ids| - 1];
      var last := ids[|ids| - 1];
      CountLoggedInIsCardinality(statuses, prefix);
      var before := set x | x in prefix && x in statuses && statuses[x].isLoggedIn;
      var after := set x | x in ids && x in statuses && statuses[x].isLoggedIn;
      assert last !in prefix;
      assert ids == prefix + [last];
      if last in statuses && statuses[last].isLoggedIn {
        assert after == before + {last};
      } else {
        assert after == before;
      }
    }
  }

  /** A sweep that visits every user once, attempting exactly the logged-in,
      disconnected ones and counting the logged-in ones, attempted the users
      NeedsReconnect names and counted all of LoggedIn. */
  lemma SweepTotals(statuses: map<int, ConnectionStatus>, order: seq<int>, attempted: set<int>, count: nat)
    requires forall x :: x in order <==> x in statuses
    requires forall i, j | 0 <= i < j < |order| :: order[i] != order[j]
    requires forall x :: x in attempted <==> x in order && statuses[x].isLoggedIn && !statuses[x].isConnected
    requires count == CountLoggedIn(statuses, order)
    ensures attempted == NeedsReconnect(statuses)
    ensures count == |LoggedIn(statuses)|
  {
    assert forall x :: x in attempted <==> x in NeedsReconnect(statuses);
    CountLoggedInIsCardinality(statuses, order);
    var visited := set x | x in order && x in statuses && statuses[x].isLoggedIn;
    assert forall x :: x in visited <==> x in LoggedIn(statuses);
    assert visited == LoggedIn(statuses);
  }

  datatype RegistryError =
    | SessionNotFound(userID: int)
    | ClientNotInitialized(userID: int)
    | ConnectFailed(userID: int)

  /** `SessionManager` with its `sessions` map. */
  class SessionManager {
    var sessions: map<int, UserSession>

    /** The connection handles the registry holds. */
    ghost function Clients(): set<Client>
      reads this
    {
      set id | id in sessions && sessions[id].client != null :: sessions[id].client as Client
    }

    /** Every entry is stored under its own user id and no two entries share
        a connection handle. */
    ghost predicate Keyed()
      reads this
    {
      && (forall id | id in sessions :: sessions[id].userID == id)
      && (forall a, b | a in sessions && b in sessions && a != b ::
            sessions[a].client == null || sessions[a].client != sessions[b].client)
    }

    /** Keyed, and every handle is consistent. */
    ghost predicate Valid()
      reads this, Clients()
    {
      && Keyed()
      && (forall c | c in Clients() :: c.Valid())
    }

    /** `GetSessionManager()`: the registry starts empty. */
    constructor ()
      ensures Valid() && sessions == map[]
    {
      sessions := map[];
    }

    /** `GetUserSession`: the entry for userID, nil when there is none. */
    function GetUserSession(userID: int): (s: UserSession?)
      reads this
      requires Keyed()
      ensures s != null <==> userID in sessions
      ensures s != null ==> s == sessions[userID] && s.userID == userID
    {
      if userID in sessions then sessions[userID] else null
    }

    /** `GetUserClient`: the user's handle, nil when there is no session or
        the session has no client. */
    function GetUserClient(userID: int): (c: Client?)
      reads this
      requires Keyed()
      ensures c != null <==> userID in sessions && sessions[userID].client != null
      ensures c != null ==> c == sessions[userID].client && c in Clients()
    {
      var s := GetUserSession(userID);
      if s == null then null else s.client
    }

    /** `GetUserDB`: the user's session store, nil when there is none. */
    function GetUserDB(userID: int): (db: Container?)
      reads this
      requires Keyed()
      ensures db != null <==> userID in sessions && sessions[userID].db != null
      ensures db != null ==> db == sessions[userID].db
    {
      var s := GetUserSession(userID);
      if s == null then null else s.db
    }

    /** `HasStoredSession`: the user's client has a device identity. */
    predicate HasStoredSession(userID: int)
      reads this, Clients()
      requires Valid()
    {
      var c := GetUserClient(userID);
      c != null && c.storeID.Some?
    }

    /** `GetUserConnectionStatus`. */
    function GetUserConnectionStatus(userID: int): (st: ConnectionStatus)
      reads this, Clients()
      requires Valid()
      ensures userID !in sessions || sessions[userID].client == null ==> st == NoStatus
      ensures userID in sessions && sessions[userID].client != null ==>
        st.isConnected == sessions[userID].client.connected && st.isLoggedIn == sessions[userID].client.loggedIn
      ensures st.deviceID != "" <==> HasStoredSession(userID)
      ensures st.deviceID != "" ==> IsDeviceID(st.deviceID)
      ensures st.isLoggedIn ==> st.deviceID != ""
    {
      var c := GetUserClient(userID);
      if c == null then NoStatus
      else ConnectionStatus(c.connected, c.loggedIn, if c.storeID.Some? then c.storeID.value else "")
    }

    /** `ListActiveSessions`: a copy of the registry.  A Dafny map is a value,
        so later changes to the registry cannot reach it. */
    function ListActiveSessions(): (snapshot: map<int, UserSession>)
      reads this
      requires Keyed()
      ensures snapshot.Keys == sessions.Keys
      ensures forall id | id in snapshot :: snapshot[id] == sessions[id] && snapshot[id].userID == id
    {
      map id | id in sessions :: sessions[id]
    }

    /** `CreateUserSession`: returns the stored session unchanged when the
        user already has one (the re-check under the write lock); otherwise
        opens the user's stores, builds a client on them and stores the new
        session under userID.  It never reports an error. */
    method CreateUserSession(userID: int, username: string, cfg: StoreConfig, init: InitOutcome) returns (s: UserSession)
      requires Valid()
      requires userID !in sessions ==> SliceableConfig(cfg) && WellFormedInit(init)
      modifies this
      ensures Valid()
      ensures userID in old(sessions) ==> s == old(sessions[userID]) && sessions == old(sessions)
      ensures userID !in old(sessions) ==>
        && fresh(s) && BuiltFor(s, userID, username, cfg, init)
        && (s.client != null ==> fresh(s.client)) && (s.db != null ==> fresh(s.db)) && (s.keysDB != null ==> fresh(s.keysDB))
        && sessions == old(sessions)[userID := s]
    {
      if userID in sessions {
        s := sessions[userID];
        return;
      }
      s := BuildSession(userID, username, cfg, init);
      ghost var before := sessions;
      sessions := sessions[userID := s];
      assert forall id | id in before :: sessions[id] == before[id] && sessions[id].client in Clients() + {null};
      assert s.client != null ==> sessions[userID].client in Clients();
    }

    /** `GetOrCreateUserSession`: the existing session, or a new one. */
    method GetOrCreateUserSession(userID: int, username: string, cfg: StoreConfig, init: InitOutcome) returns (s: UserSession)
      requires Valid()
      requires userID !in sessions ==> SliceableConfig(cfg) && WellFormedInit(init)
      modifies this
      ensures Valid()
      ensures userID in old(sessions) ==> s == old(sessions[userID]) && sessions == old(sessions)
      ensures userID !in old(sessions) ==>
        && fresh(s) && BuiltFor(s, userID, username, cfg, init)
        && (s.client != null ==> fresh(s.client)) && (s.db != null ==> fresh(s.db)) && (s.keysDB != null ==> fresh(s.keysDB))
        && sessions == old(sessions)[userID := s]
    {
      var existing := GetUserSession(userID);
      if existing != null {
        return existing;
      }
      s := CreateUserSession(userID, username, cfg, init);
    }

    /** The handles of userID's session, if it has one. */
    ghost function SessionHandles(userID: int): set<object>
      reads this
    {
      if userID in sessions then sessions[userID].Handles() else {}
    }

    /** `RemoveUserSession`: fails with "session not found" on an absent id;
        otherwise disconnects the client, closes both stores (each only when
        present) and deletes that one entry. */
    method RemoveUserSession(userID: int) returns (err: Option<RegistryError>)
      requires Valid()
      modifies this, SessionHandles(userID)
      ensures Valid()
      ensures userID !in old(sessions) ==> err == Some(SessionNotFound(userID)) && sessions == old(sessions)
      ensures userID in old(sessions) ==>
        && err.None?
        && sessions == old(sessions) - {userID}
        && Released(old(sessions[userID]))
    {
      if userID !in sessions {
        return Some(SessionNotFound(userID));
      }
      var s := sessions[userID];
      if s.client != null {
        s.client.Disconnect();
      }
      if s.db != null {
        s.db.Close();
      }
      if s.keysDB != null {
        s.keysDB.Close();
      }
      sessions := sessions - {userID};
      err := None;
    }

    /** What removal leaves behind: the socket closed with the identity kept,
        and both stores closed. */
    twostate predicate Released(s: UserSession)
      reads s.Handles()
    {
      && (s.client != null ==> !s.client.connected && s.client.loggedIn == old(s.client.loggedIn) && s.client.storeID == old(s.client.storeID))
      && (s.db != null ==> s.db.closed)
      && (s.keysDB != null ==> s.keysDB.closed)
    }

    /** The handle of userID's session, as a frame. */
    ghost function ClientOf(userID: int): set<object>
      reads this
    {
      if userID in sessions && sessions[userID].client != null then {sessions[userID].client} else {}
    }

    /** `ManualReconnectUser`: "not found" without a session, "client not
        initialized" without a client, otherwise Connect and surface its
        failure.  It never creates a session. */
    method ManualReconnectUser(userID: int, connectSucceeds: bool, logsIn: bool) returns (err: Option<RegistryError>)
      requires Valid()
      modifies ClientOf(userID)
      ensures Valid()
      ensures userID !in sessions ==> err == Some(SessionNotFound(userID))
      ensures userID in sessions && sessions[userID].client == null ==> err == Some(ClientNotInitialized(userID))
      ensures userID in sessions && sessions[userID].client != null ==>
        var c := sessions[userID].client;
        && err == (if connectSucceeds then None else Some(ConnectFailed(userID)))
        && c.connected == (old(c.connected) || connectSucceeds)
        && c.loggedIn == LoginAfterConnect(old(c.loggedIn), c.storeID, connectSucceeds, logsIn)
        && c.storeID == old(c.storeID)
    {
      var s := GetUserSession(userID);
      if s == null {
        return Some(SessionNotFound(userID));
      }
      if s.client == null {
        return Some(ClientNotInitialized(userID));
      }
      var ok := s.client.Connect(connectSucceeds, logsIn);
      err := if ok then None else Some(ConnectFailed(userID));
    }

    /** `DisconnectUser`: the same two failures; otherwise closes the socket.
        The entry stays in the registry with its identity. */
    method DisconnectUser(userID: int) returns (err: Option<RegistryError>)
      requires Valid()
      modifies ClientOf(userID)
      ensures Valid()
      ensures userID !in sessions ==> err == Some(SessionNotFound(userID))
      ensures userID in sessions && sessions[userID].client == null ==> err == Some(ClientNotInitialized(userID))
      ensures userID in sessions && sessions[userID].client != null ==>
        var c := sessions[userID].client;
        && err.None?
        && !c.connected && c.loggedIn == old(c.loggedIn) && c.storeID == old(c.storeID)
    {
      var s := GetUserSession(userID);
      if s == null {
        return Some(SessionNotFound(userID));
      }
      if s.client == null {
        return Some(ClientNotInitialized(userID));
      }
      s.client.Disconnect();
      err := None;
    }

    /** The users whose client is logged in. */
    ghost function LoggedInIDs(): set<int>
      reads this, Clients()
    {
      set id | id in sessions && sessions[id].client != null && sessions[id].client.loggedIn
    }

    /** The users whose client is logged in and not connected. */
    ghost function NeedsReconnectIDs(): set<int>
      reads this, Clients()
    {
      set id | id in sessions && sessions[id].client != null && sessions[id].client.loggedIn && !sessions[id].client.connected
    }

    /** The status of every session, read once. */
    ghost method Snapshot() returns (m: map<int, ConnectionStatus>)
      requires Valid()
      ensures m.Keys == sessions.Keys
      ensures forall id | id in sessions && sessions[id].client == null :: !m[id].isLoggedIn && !m[id].isConnected
      ensures forall id | id in sessions && sessions[id].client != null ::
        m[id].isLoggedIn == sessions[id].client.loggedIn && m[id].isConnected == sessions[id].client.connected
      ensures LoggedIn(m) == LoggedInIDs() && NeedsReconnect(m) == NeedsReconnectIDs()
    {
      m := map id | id in sessions :: GetUserConnectionStatus(id);
    }

    /** `ReconnectAllLoggedInUsers`: visits every session (in no particular
        order) and calls Connect exactly on the logged-in, disconnected ones;
        it never changes the map.  It counts the logged-in users and those
        that end up connected; the second count never exceeds the first. */
    method ReconnectAllLoggedInUsers(connectSucceeds: int -> bool, logsIn: int -> bool)
      returns (attempted: set<int>, loggedInCount: nat, connectedCount: nat)
      requires Valid()
      modifies Clients()
      ensures Valid()
      ensures attempted == old(NeedsReconnectIDs())
      ensures loggedInCount == |old(LoggedInIDs())|
      ensures connectedCount <= loggedInCount
      ensures forall id | id in sessions && sessions[id].client != null ::
        var c := sessions[id].client;
        && c.connected == (old(c.connected) || (id in attempted && connectSucceeds(id)))
        && c.loggedIn == (if id in attempted && connectSucceeds(id) then logsIn(id) else old(c.loggedIn))
        && c.storeID == old(c.storeID)
    {
      ghost var before := Snapshot();
      var order := MapOrder(sessions.Keys);
      attempted, loggedInCount, connectedCount := SweepInOrder(order, before, connectSucceeds, logsIn);
      SweepTotals(before, order, attempted, loggedInCount);
    }

    /** The loop of ReconnectAllLoggedInUsers, visiting the sessions in the
        given order; `before` is the status of every session on entry. */
    method SweepInOrder(order: seq<int>, ghost before: map<int, ConnectionStatus>, connectSucceeds: int -> bool,
                        logsIn: int -> bool)
      returns (attempted: set<int>, loggedInCount: nat, connectedCount: nat)
      requires Valid()
      requires forall x :: x in order <==> x in sessions
      requires forall i, j | 0 <= i < j < |order| :: order[i] != order[j]
      requires before.Keys == sessions.Keys
      requires forall id | id in sessions && sessions[id].client == null :: !before[id].isLoggedIn && !before[id].isConnected
      requires forall id | id in sessions && sessions[id].client != null ::
        before[id].isLoggedIn == sessions[id].client.loggedIn && before[id].isConnected == sessions[id].client.connected
      modifies Clients()
      ensures Valid()
      ensures forall x :: x in attempted <==> x in order && before[x].isLoggedIn && !before[x].isConnected
      ensures loggedInCount == CountLoggedIn(before, order)
      ensures connectedCount <= loggedInCount
      ensures forall id | id in sessions && sessions[id].client != null ::
        && Swept(sessions[id].client, before[id], id in attempted, connectSucceeds(id), logsIn(id))
        && sessions[id].client.storeID == old(sessions[id].client.storeID)
    {
      attempted, loggedInCount, connectedCount := {}, 0, 0;
      for i := 0 to |order|
        invariant Valid()
        invariant forall id | id in sessions && sessions[id].client != null ::
          && Swept(sessions[id].client, before[id], id in attempted, connectSucceeds(id), logsIn(id))
          && sessions[id].client.storeID == old(sessions[id].client.storeID)
        invariant loggedInCount == CountLoggedIn(before, order[..i])
        invariant connectedCount <= loggedInCount
        invariant forall x :: x in attempted <==> x in order[..i] && before[x].isLoggedIn && !before[x].isConnected
      {
        var id := order[i];
        assert id !in order[..i];
        var loggedIn, tried, connected := SweepOne(sessions[id].client, connectSucceeds(id), logsIn(id));
        assert order[..i + 1][..i] == order[..i];
        if loggedIn {
          loggedInCount := loggedInCount + 1;
        }
        if tried {
          attempted := attempted + {id};
        }
        if connected {
          connectedCount := connectedCount + 1;
        }
      }
      assert order[..|order|] == order;
    }
  }
}
