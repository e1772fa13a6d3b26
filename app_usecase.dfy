/** The connection lifecycle of usecase/app.go: resolving the handle a
    request acts on, login by QR code or pairing code, logout, reconnect, and
    the device listings.  Every operation comes in two forms: one that takes a
    plain context (and then acts on the process-wide client) and one that
    takes the per-request AppContext (and acts on the user's own session).

    `whatsapp.GetClientForUser` (infrastructure/whatsapp/init.go) is not part
    of this model; it is taken to be the registry lookup
    `SessionManager.GetUserClient`.  The process-wide client and the registry
    are passed to every operation.  Remote outcomes (Connect, Logout, QR
    channel, pairing, cleanup, device queries) are parameters. */
module AppUsecase {
  import opened Outcomes
  import opened Handles
  import opened SessionRegistry

  /** `*AppContext`: the id and name the authentication middleware stored for
      the request; id 0 means no user was identified. */
  datatype AppContext = AppContext(userID: int, username: string)

  /** The `context.Context` an operation receives: a plain one, or one that
      is an `*AppContext`. */
  datatype Context = Background | App(app: AppContext)

  /** The context the `...WithContext` operations hand to their single-user
      counterparts when no user is identified: the embedded plain one. */
  function Dispatch(a: AppContext): (ctx: Context)
    ensures ctx.Background? <==> a.userID == 0
  {
    if a.userID == 0 then Background else App(a)
  }

  datatype AppError =
    | ErrNotLoggedIn
    | ErrNotConnected
    | ErrWaCLI
    | ErrAlreadyLoggedIn
    | ErrSessionSaved
    | ErrQrChannel
    | ErrReconnect
    | ConnectError(cause: HandleError)
    | InvalidPhoneNumber
    | PairingFailed
    | CleanupFailed
    | DeviceQueryFailed
    | RemoveFailed(reason: RegistryError)
    /** The source reads a nil handle's store and panics; the model ends the
        call with this outcome instead. */
    | NilDereference

  // ---------------------------------------------------------------------
  // Handle resolution
  // ---------------------------------------------------------------------

  /** `getClientFromContext`: an AppContext without a user is not logged in,
      a user without a client is not connected; a plain context falls back
      to the process-wide client, which may be nil. */
  function ClientFromContext(sm: SessionManager, g: GlobalClient, ctx: Context): (r: Result<Client?, AppError>)
    reads sm, g
    requires sm.Keyed()
    ensures ctx.Background? ==> r == Ok(g.client)
    ensures ctx.App? && ctx.app.userID == 0 ==> r == Err(ErrNotLoggedIn)
    ensures ctx.App? && ctx.app.userID != 0 && sm.GetUserClient(ctx.app.userID) == null ==> r == Err(ErrNotConnected)
    ensures ctx.App? && r.Ok? ==> r.value != null && r.value in sm.Clients() && r.value == sm.sessions[ctx.app.userID].client
  {
    match ctx
    case App(a) =>
      if a.userID == 0 then Err(ErrNotLoggedIn)
      else
        var client := sm.GetUserClient(a.userID);
        if client == null then Err(ErrNotConnected) else Ok(client)
    case Background => Ok(g.client)
  }

  /** A user-scoped context never acts on another user's handle, nor on a
      handle outside the registry. */
  lemma UserContextResolvesOwnClient(sm: SessionManager, g: GlobalClient, a: AppContext, other: int)
    requires sm.Keyed()
    requires ClientFromContext(sm, g, App(a)).Ok?
    requires other in sm.sessions && other != a.userID
    ensures a.userID in sm.sessions
    ensures ClientFromContext(sm, g, App(a)).value != sm.sessions[other].client
  {
    var c := ClientFromContext(sm, g, App(a)).value;
    assert c == sm.sessions[a.userID].client && c != null;
  }

  /** The handle an operation on ctx may change. */
  ghost function ClientFrame(sm: SessionManager, g: GlobalClient, ctx: Context): set<object>
    reads sm, g
    requires sm.Keyed()
  {
    var r := ClientFromContext(sm, g, ctx);
    if r.Ok? && r.value != null then {r.value} else {}
  }

  /** Both the registry and the process-wide client are consistent. */
  ghost predicate Consistent(sm: SessionManager, g: GlobalClient)
    reads sm, sm.Clients(), g, g.client
  {
    sm.Valid() && g.Valid()
  }

  // ---------------------------------------------------------------------
  // Reconnect
  // ---------------------------------------------------------------------

  /** `Reconnect`: Disconnect and then Connect the resolved handle, returning
      Connect's error.  On success the process-wide client is set to that
      handle (`UpdateGlobalClient`), even when it is a user's. */
  method Reconnect(sm: SessionManager, g: GlobalClient, ctx: Context, connectSucceeds: bool, logsIn: bool)
    returns (err: Option<AppError>)
    requires Consistent(sm, g)
    modifies g, ClientFrame(sm, g, ctx)
    ensures Consistent(sm, g)
    ensures var r := old(ClientFromContext(sm, g, ctx));
      && (r.Err? ==> err == Some(r.error) && g.client == old(g.client))
      && (r == Ok(null) ==> err == Some(ConnectError(ErrClientIsNil)) && g.client == old(g.client))
      && (r.Ok? && r.value != null ==>
            && err == (if connectSucceeds then None else Some(ConnectError(Refused)))
            && r.value.connected == connectSucceeds
            && r.value.loggedIn == LoginAfterConnect(old(r.value.loggedIn), r.value.storeID, connectSucceeds, logsIn)
            && r.value.storeID == old(r.value.storeID)
            && g.client == (if connectSucceeds then r.value else old(g.client)))
  {
    var r := ClientFromContext(sm, g, ctx);
    if r.Err? {
      return Some(r.error);
    }
    var client := r.value;
    DisconnectHandle(client);
    var cerr := ConnectHandle(client, connectSucceeds, logsIn);
    if cerr.Some? {
      return Some(ConnectError(cerr.value));
    }
    g.client := client;
    err := None;
  }

  /** `ReconnectWithContext`: without a user, Reconnect on the plain context;
      otherwise Disconnect and Connect the user's own handle.  The
      process-wide client is left alone. */
  method ReconnectWithContext(sm: SessionManager, g: GlobalClient, a: AppContext, connectSucceeds: bool, logsIn: bool)
    returns (err: Option<AppError>)
    requires Consistent(sm, g)
    modifies g, ClientFrame(sm, g, Dispatch(a))
    ensures Consistent(sm, g)
    ensures a.userID == 0 ==>
      var c := old(g.client);
      && err == (if c == null then Some(ConnectError(ErrClientIsNil)) else if connectSucceeds then None else Some(ConnectError(Refused)))
      && (c != null ==>
            && c.connected == connectSucceeds && c.storeID == old(c.storeID)
            && c.loggedIn == LoginAfterConnect(old(c.loggedIn), c.storeID, connectSucceeds, logsIn))
      && g.client == c
    ensures a.userID != 0 ==> g.client == old(g.client)
    ensures a.userID != 0 && old(sm.GetUserClient(a.userID)) == null ==> err == Some(ErrWaCLI)
    ensures a.userID != 0 && old(sm.GetUserClient(a.userID)) != null ==>
      var c := old(sm.GetUserClient(a.userID));
      && err == (if connectSucceeds then None else Some(ConnectError(Refused)))
      && c.connected == connectSucceeds && c.storeID == old(c.storeID)
      && c.loggedIn == LoginAfterConnect(old(c.loggedIn), c.storeID, connectSucceeds, logsIn)
  {
    if a.userID == 0 {
      err := Reconnect(sm, g, Background, connectSucceeds, logsIn);
      return;
    }
    var client := sm.GetUserClient(a.userID);
    if client == null {
      return Some(ErrWaCLI);
    }
    client.Disconnect();
    var ok := client.Connect(connectSucceeds, logsIn);
    err := if ok then None else Some(ConnectError(Refused));
  }

  // ---------------------------------------------------------------------
  // Logout
  // ---------------------------------------------------------------------

  /** `Logout`: asks the platform to log the resolved handle out, carries on
      with the cleanup whatever the platform answered, and returns only the
      cleanup's error.  A successful cleanup installs the client it rebuilt
      as the process-wide one. */
  method Logout(sm: SessionManager, g: GlobalClient, ctx: Context, logoutSucceeds: bool, cleanupOk: bool, newClient: Client?)
    returns (err: Option<AppError>)
    requires Consistent(sm, g)
    requires newClient != null ==> newClient.Valid()
    modifies g, ClientFrame(sm, g, ctx)
    ensures Consistent(sm, g)
    ensures var r := old(ClientFromContext(sm, g, ctx));
      && (r.Err? ==> err == Some(r.error) && g.client == old(g.client))
      && (r.Ok? ==>
            && err == (if cleanupOk then None else Some(CleanupFailed))
            && g.client == (if cleanupOk then newClient else old(g.client)))
      && (r.Ok? && r.value != null && logoutSucceeds ==>
            !r.value.connected && !r.value.loggedIn && r.value.storeID.None?)
      && (r.Ok? && r.value != null && !logoutSucceeds ==>
            r.value.connected == old(r.value.connected) && r.value.loggedIn == old(r.value.loggedIn)
            && r.value.storeID == old(r.value.storeID))
  {
    var r := ClientFromContext(sm, g, ctx);
    if r.Err? {
      return Some(r.error);
    }
    var _ := LogoutHandle(r.value, logoutSucceeds);
    if !cleanupOk {
      return Some(CleanupFailed);
    }
    g.client := newClient;
    err := None;
  }

  /** The objects LogoutWithContext may change. */
  ghost function LogoutFrame(sm: SessionManager, g: GlobalClient, a: AppContext): set<object>
    reads sm, g
    requires sm.Keyed()
  {
    if a.userID == 0 then ClientFrame(sm, g, Background) else sm.SessionHandles(a.userID)
  }

  /** `LogoutWithContext`: without a user, Logout on the plain context.
      Otherwise a user without a client gets ErrWaCLI; a user with one is
      logged out (the platform's answer is ignored) and the session is then
      removed from the registry, its stores closed. */
  method LogoutWithContext(sm: SessionManager, g: GlobalClient, a: AppContext, logoutSucceeds: bool, cleanupOk: bool, newClient: Client?)
    returns (err: Option<AppError>)
    requires Consistent(sm, g)
    requires newClient != null ==> newClient.Valid()
    modifies sm, g, LogoutFrame(sm, g, a)
    ensures Consistent(sm, g)
    ensures a.userID == 0 ==>
      && sm.sessions == old(sm.sessions)
      && err == (if cleanupOk then None else Some(CleanupFailed))
      && g.client == (if cleanupOk then newClient else old(g.client))
    ensures a.userID != 0 ==> g.client == old(g.client)
    ensures a.userID != 0 && old(sm.GetUserClient(a.userID)) == null ==>
      err == Some(ErrWaCLI) && sm.sessions == old(sm.sessions)
    ensures a.userID != 0 && old(sm.GetUserClient(a.userID)) != null ==>
      var c := old(sm.GetUserClient(a.userID));
      && err.None?
      && sm.sessions == old(sm.sessions) - {a.userID}
      && !c.connected
      && c.loggedIn == (old(c.loggedIn) && !logoutSucceeds)
      && c.storeID == (if logoutSucceeds then None else old(c.storeID))
      && var s := old(sm.sessions[a.userID]);
      && (s.db != null ==> s.db.closed) && (s.keysDB != null ==> s.keysDB.closed)
  {
    if a.userID == 0 {
      err := Logout(sm, g, Background, logoutSucceeds, cleanupOk, newClient);
      return;
    }
    var client := sm.GetUserClient(a.userID);
    if client == null {
      return Some(ErrWaCLI);
    }
    var _ := client.Logout(logoutSucceeds);
    var removeErr := sm.RemoveUserSession(a.userID);
    // The user has a client, hence a session: removal cannot fail here.
    err := match removeErr
      case Some(e) => Some(RemoveFailed(e))
      case None => None;
  }

  // ---------------------------------------------------------------------
  // Login
  // ---------------------------------------------------------------------

  /** What a successful QR login returns: the path of the QR image the
      background reader wrote. */
  datatype LoginResponse = LoginResponse(imagePath: string)

  /** The shared body of Login and LoginWithContext once the handle is known:
      Disconnect, then ask for a QR channel.  A store that already holds a
      device refuses (ErrQRStoreContainsID); the handle is then only
      connected, and the caller learns whether Connect left it logged in
      (ErrAlreadyLoggedIn) or it merely has a saved session (ErrSessionSaved).
      Any other channel failure is ErrQrChannel.  With a channel, Connect
      must succeed for the QR image to be handed back. */
  method QrLogin(client: Client, channelOpens: bool, connectSucceeds: bool, logsIn: bool, imagePath: string)
    returns (r: Result<LoginResponse, AppError>)
    requires client.Valid()
    modifies client
    ensures client.Valid()
    ensures client.storeID == old(client.storeID)
    ensures client.loggedIn == LoginAfterConnect(old(client.loggedIn), client.storeID, connectSucceeds, logsIn)
    ensures r == QrOutcome(client.storeID, client.loggedIn, channelOpens, connectSucceeds, imagePath)
    ensures client.connected == (connectSucceeds && (client.storeID.Some? || channelOpens))
    ensures r == Err(ErrAlreadyLoggedIn) ==> client.loggedIn && client.storeID.Some?
    ensures client.storeID.Some? && connectSucceeds && logsIn ==> r == Err(ErrAlreadyLoggedIn)
    ensures r.Ok? ==> client.storeID.None? && client.connected && !client.loggedIn
  {
    client.Disconnect();
    if client.storeID.Some? {
      var _ := client.Connect(connectSucceeds, logsIn);
      if client.loggedIn {
        return Err(ErrAlreadyLoggedIn);
      }
      return Err(ErrSessionSaved);
    }
    if !channelOpens {
      return Err(ErrQrChannel);
    }
    var ok := client.Connect(connectSucceeds, logsIn);
    if !ok {
      return Err(ErrReconnect);
    }
    r := Ok(LoginResponse(imagePath));
  }

  /** The outcome of a QR login on a handle with the given store identity,
      decided on the login state read after Connect. */
  function QrOutcome(stored: Option<string>, loggedIn: bool, channelOpens: bool, connectSucceeds: bool, imagePath: string)
    : (r: Result<LoginResponse, AppError>)
    ensures r.Ok? <==> stored.None? && channelOpens && connectSucceeds
    ensures r.Ok? ==> r.value.imagePath == imagePath
    ensures r == Err(ErrAlreadyLoggedIn) <==> stored.Some? && loggedIn
    ensures r == Err(ErrSessionSaved) <==> stored.Some? && !loggedIn
    ensures r == Err(ErrQrChannel) <==> stored.None? && !channelOpens
    ensures r == Err(ErrReconnect) <==> stored.None? && channelOpens && !connectSucceeds
  {
    if stored.Some? then Err(if loggedIn then ErrAlreadyLoggedIn else ErrSessionSaved)
    else if !channelOpens then Err(ErrQrChannel)
    else if connectSucceeds then Ok(LoginResponse(imagePath))
    else Err(ErrReconnect)
  }

  /** `Login`: resolve the handle (nil is ErrWaCLI), run the QR login, and on
      success make that handle the process-wide client. */
  method Login(sm: SessionManager, g: GlobalClient, ctx: Context, channelOpens: bool, connectSucceeds: bool, logsIn: bool,
               imagePath: string)
    returns (r: Result<LoginResponse, AppError>)
    requires Consistent(sm, g)
    modifies g, ClientFrame(sm, g, ctx)
    ensures Consistent(sm, g)
    ensures var rc := old(ClientFromContext(sm, g, ctx));
      && (rc.Err? ==> r == Err(rc.error) && g.client == old(g.client))
      && (rc == Ok(null) ==> r == Err(ErrWaCLI) && g.client == old(g.client))
      && (rc.Ok? && rc.value != null ==>
            && rc.value.loggedIn == LoginAfterConnect(old(rc.value.loggedIn), rc.value.storeID, connectSucceeds, logsIn)
            && r == QrOutcome(old(rc.value.storeID), rc.value.loggedIn, channelOpens, connectSucceeds, imagePath)
            && g.client == (if r.Ok? then rc.value else old(g.client)))
  {
    var rc := ClientFromContext(sm, g, ctx);
    if rc.Err? {
      return Err(rc.error);
    }
    var client := rc.value;
    if client == null {
      return Err(ErrWaCLI);
    }
    r := QrLogin(client, channelOpens, connectSucceeds, logsIn, imagePath);
    if r.Ok? {
      g.client := client;
    }
  }

  /** `LoginWithContext`: without a user, Login on the plain context;
      otherwise the QR login on the user's own handle (nil is ErrWaCLI),
      leaving the process-wide client alone. */
  method LoginWithContext(sm: SessionManager, g: GlobalClient, a: AppContext, channelOpens: bool, connectSucceeds: bool,
                          logsIn: bool, imagePath: string)
    returns (r: Result<LoginResponse, AppError>)
    requires Consistent(sm, g)
    modifies g, ClientFrame(sm, g, Dispatch(a))
    ensures Consistent(sm, g)
    ensures a.userID == 0 ==>
      var c := old(g.client);
      && (c == null ==> r == Err(ErrWaCLI) && g.client == null)
      && (c != null ==>
            && c.loggedIn == LoginAfterConnect(old(c.loggedIn), c.storeID, connectSucceeds, logsIn)
            && r == QrOutcome(old(c.storeID), c.loggedIn, channelOpens, connectSucceeds, imagePath)
            && g.client == c)
    ensures a.userID != 0 ==> g.client == old(g.client)
    ensures a.userID != 0 && old(sm.GetUserClient(a.userID)) == null ==> r == Err(ErrWaCLI)
    ensures a.userID != 0 && old(sm.GetUserClient(a.userID)) != null ==>
      var c := old(sm.GetUserClient(a.userID));
      && c.storeID == old(c.storeID)
      && c.loggedIn == LoginAfterConnect(old(c.loggedIn), c.storeID, connectSucceeds, logsIn)
      && r == QrOutcome(c.storeID, c.loggedIn, channelOpens, connectSucceeds, imagePath)
  {
    if a.userID == 0 {
      r := Login(sm, g, Background, channelOpens, connectSucceeds, logsIn, imagePath);
      return;
    }
    var client := sm.GetUserClient(a.userID);
    if client == null {
      return Err(ErrWaCLI);
    }
    r := QrLogin(client, channelOpens, connectSucceeds, logsIn, imagePath);
  }

  /** `LoginWithCode`: validate the phone number, resolve the handle, refuse a
      handle whose store already holds a device, reconnect (ignoring the
      outcome), then pair; a pairing code makes the handle the process-wide
      client.  The source reads the handle's store without a nil check, so a
      plain context without a process-wide client ends in NilDereference. */
  method LoginWithCode(sm: SessionManager, g: GlobalClient, ctx: Context, phoneValid: bool, connectSucceeds: bool,
                       logsIn: bool, pairing: Option<string>)
    returns (r: Result<string, AppError>)
    requires Consistent(sm, g)
    modifies g, ClientFrame(sm, g, ctx)
    ensures Consistent(sm, g)
    ensures !phoneValid ==> r == Err(InvalidPhoneNumber) && g.client == old(g.client)
    ensures var rc := old(ClientFromContext(sm, g, ctx));
      && (phoneValid && rc.Err? ==> r == Err(rc.error) && g.client == old(g.client))
      && (phoneValid && rc == Ok(null) ==> r == Err(NilDereference) && g.client == old(g.client))
      && (phoneValid && rc.Ok? && rc.value != null && old(rc.value.storeID).Some? ==>
            r == Err(ErrAlreadyLoggedIn) && g.client == old(g.client) && rc.value.connected == old(rc.value.connected))
      && (phoneValid && rc.Ok? && rc.value != null && old(rc.value.storeID).None? ==>
            && rc.value.connected == connectSucceeds && !rc.value.loggedIn
            && r == (if pairing.Some? then Ok(pairing.value) else Err(PairingFailed))
            && g.client == (if pairing.Some? || connectSucceeds then rc.value else old(g.client)))
  {
    if !phoneValid {
      return Err(InvalidPhoneNumber);
    }
    var rc := ClientFromContext(sm, g, ctx);
    if rc.Err? {
      return Err(rc.error);
    }
    var client := rc.value;
    if client == null {
      return Err(NilDereference);
    }
    if client.storeID.Some? {
      return Err(ErrAlreadyLoggedIn);
    }
    var _ := Reconnect(sm, g, ctx, connectSucceeds, logsIn);
    if pairing.None? {
      return Err(PairingFailed);
    }
    g.client := client;
    r := Ok(pairing.value);
  }

  /** `LoginWithCodeAndContext`: without a user, LoginWithCode on the plain
      context.  Otherwise the guards run in order before any pairing: an
      invalid number, a user without a client (ErrWaCLI), a store that
      already holds a device (ErrAlreadyLoggedIn); then the user's handle is
      reconnected (ignoring the outcome) and paired. */
  method LoginWithCodeAndContext(sm: SessionManager, g: GlobalClient, a: AppContext, phoneValid: bool, connectSucceeds: bool,
                                 logsIn: bool, pairing: Option<string>)
    returns (r: Result<string, AppError>)
    requires Consistent(sm, g)
    modifies g, ClientFrame(sm, g, Dispatch(a))
    ensures Consistent(sm, g)
    ensures !phoneValid ==> r == Err(InvalidPhoneNumber) && g.client == old(g.client)
    ensures a.userID == 0 && phoneValid && old(g.client) == null ==> r == Err(NilDereference) && g.client == null
    ensures a.userID == 0 && phoneValid && old(g.client) != null ==>
      var c := old(g.client);
      && g.client == c
      && (old(c.storeID).Some? ==> r == Err(ErrAlreadyLoggedIn) && c.connected == old(c.connected))
      && (old(c.storeID).None? ==>
            && r == (if pairing.Some? then Ok(pairing.value) else Err(PairingFailed))
            && c.connected == connectSucceeds && !c.loggedIn)
    ensures a.userID != 0 ==> g.client == old(g.client)
    ensures a.userID != 0 && phoneValid && old(sm.GetUserClient(a.userID)) == null ==> r == Err(ErrWaCLI)
    ensures a.userID != 0 && phoneValid && old(sm.GetUserClient(a.userID)) != null ==>
      var c := old(sm.GetUserClient(a.userID));
      && (old(c.storeID).Some? ==> r == Err(ErrAlreadyLoggedIn) && c.connected == old(c.connected))
      && (old(c.storeID).None? ==>
            && r == (if pairing.Some? then Ok(pairing.value) else Err(PairingFailed))
            && c.connected == connectSucceeds && !c.loggedIn)
  {
    if a.userID == 0 {
      r := LoginWithCode(sm, g, Background, phoneValid, connectSucceeds, logsIn, pairing);
      return;
    }
    if !phoneValid {
      return Err(InvalidPhoneNumber);
    }
    var client := sm.GetUserClient(a.userID);
    if client == null {
      return Err(ErrWaCLI);
    }
    if client.storeID.Some? {
      return Err(ErrAlreadyLoggedIn);
    }
    var _ := ReconnectWithContext(sm, g, a, connectSucceeds, logsIn);
    if pairing.None? {
      return Err(PairingFailed);
    }
    r := Ok(pairing.value);
  }

  // ---------------------------------------------------------------------
  // Devices
  // ---------------------------------------------------------------------

  /** A device row of a store: its JID and the two names the platform
      reports for it. */
  datatype Device = Device(id: string, pushName: string, businessName: string)

  /** `DevicesResponse`. */
  datatype DevicesResponse = DevicesResponse(name: string, device: string)

  /** The name shown for a device: its push name, or its business name when
      it has none. */
  function DeviceName(d: Device): (name: string)
    ensures d.pushName != "" ==> name == d.pushName
    ensures d.pushName == "" ==> name == d.businessName
    ensures name == "" <==> d.pushName == "" && d.businessName == ""
  {
    if d.pushName != "" then d.pushName else d.businessName
  }

  function DeviceEntry(d: Device): DevicesResponse {
    DevicesResponse(DeviceName(d), d.id)
  }

  /** The loop of FetchDevices: one entry per device, in order. */
  method DeviceResponses(devices: seq<Device>) returns (response: seq<DevicesResponse>)
    ensures |response| == |devices|
    ensures forall i | 0 <= i < |devices| :: response[i] == DeviceEntry(devices[i])
  {
    response := [];
    for i := 0 to |devices|
      invariant |response| == i
      invariant forall k | 0 <= k < i :: response[k] == DeviceEntry(devices[k])
    {
      var d := DevicesResponse(DeviceName(devices[i]), devices[i].id);
      response := response + [d];
    }
  }

  /** `FetchDevices`: resolve the handle (nil is ErrWaCLI), then list the
      process-wide store's devices; a failed query is returned as is. */
  method FetchDevices(sm: SessionManager, g: GlobalClient, ctx: Context, stored: Result<seq<Device>, AppError>)
    returns (r: Result<seq<DevicesResponse>, AppError>)
    requires sm.Keyed()
    ensures var rc := ClientFromContext(sm, g, ctx);
      && (rc.Err? ==> r == Err(rc.error))
      && (rc == Ok(null) ==> r == Err(ErrWaCLI))
      && (rc.Ok? && rc.value != null && stored.Err? ==> r == Err(stored.error))
      && (rc.Ok? && rc.value != null && stored.Ok? ==>
            r.Ok? && |r.value| == |stored.value|
            && forall i | 0 <= i < |stored.value| :: r.value[i] == DeviceEntry(stored.value[i]))
  {
    var rc := ClientFromContext(sm, g, ctx);
    if rc.Err? {
      return Err(rc.error);
    }
    if rc.value == null {
      return Err(ErrWaCLI);
    }
    if stored.Err? {
      return Err(stored.error);
    }
    var response := DeviceResponses(stored.value);
    r := Ok(response);
  }

  /** `FetchDevicesWithContext`: without a user, FetchDevices on the plain
      context; otherwise a user with no client or no session store gets
      ErrWaCLI, and the user's store's devices are listed. */
  method FetchDevicesWithContext(sm: SessionManager, g: GlobalClient, a: AppContext, stored: Result<seq<Device>, AppError>)
    returns (r: Result<seq<DevicesResponse>, AppError>)
    requires sm.Keyed()
    ensures a.userID == 0 && g.client == null ==> r == Err(ErrWaCLI)
    ensures a.userID != 0 && (sm.GetUserClient(a.userID) == null || sm.GetUserDB(a.userID) == null) ==> r == Err(ErrWaCLI)
    ensures (a.userID == 0 ==> g.client != null) && (a.userID != 0 ==> sm.GetUserClient(a.userID) != null && sm.GetUserDB(a.userID) != null) ==>
      && (stored.Err? ==> r == Err(stored.error))
      && (stored.Ok? ==>
            r.Ok? && |r.value| == |stored.value|
            && forall i | 0 <= i < |stored.value| :: r.value[i] == DeviceEntry(stored.value[i]))
  {
    if a.userID == 0 {
      r := FetchDevices(sm, g, Background, stored);
      return;
    }
    var client := sm.GetUserClient(a.userID);
    if client == null {
      return Err(ErrWaCLI);
    }
    var userDB := sm.GetUserDB(a.userID);
    if userDB == null {
      return Err(ErrWaCLI);
    }
    if stored.Err? {
      return Err(stored.error);
    }
    var response := DeviceResponses(stored.value);
    r := Ok(response);
  }

  /** `FirstDevice`: resolve the handle (nil is ErrWaCLI), then describe the
      process-wide store's first device. */
  method FirstDevice(sm: SessionManager, g: GlobalClient, ctx: Context, first: Result<Device, AppError>)
    returns (r: Result<DevicesResponse, AppError>)
    requires sm.Keyed()
    ensures var rc := ClientFromContext(sm, g, ctx);
      && (rc.Err? ==> r == Err(rc.error))
      && (rc == Ok(null) ==> r == Err(ErrWaCLI))
      && (rc.Ok? && rc.value != null ==> r == (if first.Ok? then Ok(DeviceEntry(first.value)) else Err(first.error)))
  {
    var rc := ClientFromContext(sm, g, ctx);
    if rc.Err? {
      return Err(rc.error);
    }
    if rc.value == null {
      return Err(ErrWaCLI);
    }
    if first.Err? {
      return Err(first.error);
    }
    r := Ok(DevicesResponse(DeviceName(first.value), first.value.id));
  }

  /** `FirstDeviceWithContext`: without a user, FirstDevice on the plain
      context; otherwise a user with no client or no session store gets
      ErrWaCLI, and the user's store's first device is described. */
  method FirstDeviceWithContext(sm: SessionManager, g: GlobalClient, a: AppContext, first: Result<Device, AppError>)
    returns (r: Result<DevicesResponse, AppError>)
    requires sm.Keyed()
    ensures a.userID == 0 && g.client == null ==> r == Err(ErrWaCLI)
    ensures a.userID != 0 && (sm.GetUserClient(a.userID) == null || sm.GetUserDB(a.userID) == null) ==> r == Err(ErrWaCLI)
    ensures (a.userID == 0 ==> g.client != null) && (a.userID != 0 ==> sm.GetUserClient(a.userID) != null && sm.GetUserDB(a.userID) != null) ==>
      r == (if first.Ok? then Ok(DeviceEntry(first.value)) else Err(first.error))
  {
    if a.userID == 0 {
      r := FirstDevice(sm, g, Background, first);
      return;
    }
    var client := sm.GetUserClient(a.userID);
    if client == null {
      return Err(ErrWaCLI);
    }
    var userDB := sm.GetUserDB(a.userID);
    if userDB == null {
      return Err(ErrWaCLI);
    }
    if first.Err? {
      return Err(first.error);
    }
    r := Ok(DevicesResponse(DeviceName(first.value), first.value.id));
  }
}
