/** The objects a session owns: the connection handle to the messaging
    platform (a whatsmeow client) and the SQL store containers it is bound to.
    Only the state the core reads or changes is kept: whether the socket is
    connected, whether the client is logged in, and the device JID held in the
    client's store.  Network outcomes are parameters: the caller passes
    whether the remote call succeeds and, for Connect, whether the platform
    then reports the client logged in. */
module Handles {
  import opened Outcomes

  /** Device JIDs rendered as text are at least this long; the status summary
      of the boot sweep shows the first ten characters of one. */
  const MinDeviceIDLength: nat := 10

  predicate IsDeviceID(id: string) {
    |id| >= MinDeviceIDLength
  }

  class Client {
    var connected: bool
    var loggedIn: bool
    /** `Store.ID`: the JID of the paired device, None when the store holds
        no device (never paired, or logged out). */
    var storeID: Option<string>

    /** A logged-in client always has a device identity in its store. */
    ghost predicate Valid()
      reads this
    {
      && (storeID.Some? ==> IsDeviceID(storeID.value))
      && (loggedIn ==> storeID.Some?)
    }

    /** A freshly built client (`InitWaCLI`): disconnected and not logged in,
        holding whatever device identity its store already had. */
    constructor (stored: Option<string>)
      requires stored.Some? ==> IsDeviceID(stored.value)
      ensures Valid()
      ensures !connected && !loggedIn && storeID == stored
    {
      connected := false;
      loggedIn := false;
      storeID := stored;
    }

    /** `Connect()`: opens the socket when the platform accepts it; a refused
        connection leaves the handle as it was.  Whether the client reports
        itself logged in afterwards (`IsLoggedIn()`) is the platform's answer
        `logsIn`, which only a handle whose store holds a device can get. */
    method Connect(succeeds: bool, logsIn: bool) returns (ok: bool)
      requires Valid()
      modifies this
      ensures Valid()
      ensures ok == succeeds
      ensures connected == (old(connected) || succeeds)
      ensures loggedIn == LoginAfterConnect(old(loggedIn), storeID, succeeds, logsIn)
      ensures storeID == old(storeID)
    {
      ok := succeeds;
      if succeeds {
        connected := true;
        loggedIn := logsIn && storeID.Some?;
      }
    }

    /** `Disconnect()`: closes the socket and keeps the stored identity, so a
        later Connect resumes the same device.  The login flag is kept too:
        only a Connect or a Logout changes it. */
    method Disconnect()
      requires Valid()
      modifies this
      ensures Valid()
      ensures !connected
      ensures loggedIn == old(loggedIn) && storeID == old(storeID)
    {
      connected := false;
    }

    /** `Logout(ctx)`: asks the platform to remove the device; on success the
        store forgets the device and the socket is closed, on failure nothing
        changes. */
    method Logout(succeeds: bool) returns (ok: bool)
      requires Valid()
      modifies this
      ensures Valid()
      ensures ok == succeeds
      ensures succeeds ==> !connected && !loggedIn && storeID.None?
      ensures !succeeds ==> connected == old(connected) && loggedIn == old(loggedIn) && storeID == old(storeID)
    {
      ok := succeeds;
      if succeeds {
        connected, loggedIn, storeID := false, false, None;
      }
    }
  }

  /** The login flag after a Connect: a refused connection keeps the one it
      had; an accepted one takes the platform's answer, and a handle whose
      store holds no device is never logged in. */
  function LoginAfterConnect(before: bool, stored: Option<string>, succeeds: bool, logsIn: bool): (loggedIn: bool)
    ensures loggedIn && succeeds ==> stored.Some?
    ensures !succeeds ==> loggedIn == before
  {
    if succeeds then logsIn && stored.Some? else before
  }

  /** What whatsmeow reports when a connection or logout request fails: the
      pointer was nil (`ErrClientIsNil`), or the platform refused. */
  datatype HandleError = ErrClientIsNil | Refused

  /** `cli.Disconnect()` through a pointer that may be nil: a nil client
      returns at once. */
  method DisconnectHandle(c: Client?)
    requires c != null ==> c.Valid()
    modifies c
    ensures c != null ==> c.Valid() && !c.connected && c.loggedIn == old(c.loggedIn) && c.storeID == old(c.storeID)
  {
    if c != null {
      c.Disconnect();
    }
  }

  /** `cli.Connect()` through a pointer that may be nil: a nil client reports
      ErrClientIsNil and nothing happens. */
  method ConnectHandle(c: Client?, succeeds: bool, logsIn: bool) returns (err: Option<HandleError>)
    requires c != null ==> c.Valid()
    modifies c
    ensures c == null ==> err == Some(ErrClientIsNil)
    ensures c != null ==> err == (if succeeds then None else Some(Refused))
    ensures c != null ==> c.Valid() && c.connected == (old(c.connected) || succeeds)
    ensures c != null ==> c.loggedIn == LoginAfterConnect(old(c.loggedIn), c.storeID, succeeds, logsIn)
    ensures c != null ==> c.storeID == old(c.storeID)
  {
    if c == null {
      return Some(ErrClientIsNil);
    }
    var ok := c.Connect(succeeds, logsIn);
    err := if ok then None else Some(Refused);
  }

  /** `cli.Logout(ctx)` through a pointer that may be nil. */
  method LogoutHandle(c: Client?, succeeds: bool) returns (err: Option<HandleError>)
    requires c != null ==> c.Valid()
    modifies c
    ensures c == null ==> err == Some(ErrClientIsNil)
    ensures c != null ==> err == (if succeeds then None else Some(Refused))
    ensures c != null ==> c.Valid()
    ensures c != null && succeeds ==> !c.connected && !c.loggedIn && c.storeID.None?
    ensures c != null && !succeeds ==> c.connected == old(c.connected) && c.loggedIn == old(c.loggedIn) && c.storeID == old(c.storeID)
  {
    if c == null {
      return Some(ErrClientIsNil);
    }
    var ok := c.Logout(succeeds);
    err := if ok then None else Some(Refused);
  }

  /** A `sqlstore.Container` opened on one URI. */
  class Container {
    const uri: string
    var closed: bool

    constructor (uri: string)
      ensures this.uri == uri && !closed
    {
      this.uri := uri;
      closed := false;
    }

    method Close()
      modifies this
      ensures closed
    {
      closed := true;
    }
  }

  /** The package-level client of the whatsapp package (`GetClient()`), the
      one the single-user code paths and the admin operations use. */
  class GlobalClient {
    var client: Client?

    ghost predicate Valid()
      reads this, client
    {
      client != null ==> client.Valid()
    }

    constructor (client: Client?)
      requires client != null ==> client.Valid()
      ensures Valid() && this.client == client
    {
      this.client := client;
    }
  }
}
