/** The supervisors of ui/rest/helpers/common.go: the two boot sweeps, which
    summarise every session's status and then restart every session, and the
    body of one tick of the periodic check, which connects every session that
    is not connected.  The start-up delay, the five-minute sleep and the
    goroutine around the tick are not modelled; each sweep is one sequential
    pass.  Remote outcomes are parameters: `connectSucceeds(id)` says whether
    Connect succeeds for user id's handle. */
module Supervisors {
  import opened Outcomes
  import opened Text
  import opened Handles
  import opened SessionRegistry
  import opened AppUsecase
  import opened UserDomain

  // ---------------------------------------------------------------------
  // Status summary
  // ---------------------------------------------------------------------

  /** The four labels of a status line. */
  datatype StatusLabel = ConnectedAndLoggedIn | ConnectedOnly | LoggedInOnly | Disconnected

  /** The label of a status: the first of the source's checks that holds. */
  function Classify(st: ConnectionStatus): (l: StatusLabel)
    ensures l == ConnectedAndLoggedIn <==> st.isConnected && st.isLoggedIn
    ensures l == ConnectedOnly <==> st.isConnected && !st.isLoggedIn
    ensures l == LoggedInOnly <==> !st.isConnected && st.isLoggedIn
    ensures l == Disconnected <==> !st.isConnected && !st.isLoggedIn
  {
    if st.isConnected && st.isLoggedIn then ConnectedAndLoggedIn
    else if st.isConnected then ConnectedOnly
    else if st.isLoggedIn then LoggedInOnly
    else Disconnected
  }

  function LabelText(l: StatusLabel): string {
    match l
    case ConnectedAndLoggedIn => "CONNECTED & LOGGED IN"
    case ConnectedOnly => "CONNECTED (NOT LOGGED IN)"
    case LoggedInOnly => "LOGGED IN (NOT CONNECTED)"
    case Disconnected => "DISCONNECTED"
  }

  /** The summary counters: sessions seen, connected, logged in. */
  datatype Counts = Counts(sessions: nat, connected: nat, loggedIn: nat)

  /** One pass of the status loop's body: the session is counted and its
      label decides which of the other two counters grow. */
  function Step(c: Counts, st: ConnectionStatus): Counts {
    match Classify(st)
    case ConnectedAndLoggedIn => Counts(c.sessions + 1, c.connected + 1, c.loggedIn + 1)
    case ConnectedOnly => Counts(c.sessions + 1, c.connected + 1, c.loggedIn)
    case LoggedInOnly => Counts(c.sessions + 1, c.connected, c.loggedIn + 1)
    case Disconnected => Counts(c.sessions + 1, c.connected, c.loggedIn)
  }

  /** The counters after the status loop has seen sts, in order. */
  function Tally(sts: seq<ConnectionStatus>): Counts
    decreases |sts|
  {
    if sts == [] then Counts(0, 0, 0) else Step(Tally(sts[..|sts| - 1]), sts[|sts| - 1])
  }

  lemma TallySnoc(sts: seq<ConnectionStatus>, st: ConnectionStatus)
    ensures Tally(sts + [st]) == Step(Tally(sts), st)
  {
    assert (sts + [st])[..|sts|] == sts;
  }

  /** How many of sts are connected. */
  function NumConnected(sts: seq<ConnectionStatus>): (n: nat)
    ensures n <= |sts|
    decreases |sts|
  {
    if sts == [] then 0 else NumConnected(sts[..|sts| - 1]) + (if sts[|sts| - 1].isConnected then 1 else 0)
  }

  /** How many of sts are logged in. */
  function NumLoggedIn(sts: seq<ConnectionStatus>): (n: nat)
    ensures n <= |sts|
    decreases |sts|
  {
    if sts == [] then 0 else NumLoggedIn(sts[..|sts| - 1]) + (if sts[|sts| - 1].isLoggedIn then 1 else 0)
  }

  /** The four-way classification counts each flag on its own: the connected
      counter is the number of connected sessions and the logged-in counter
      the number of logged-in ones, so neither exceeds the sessions seen. */
  lemma {:induction false} TallyCountsFlags(sts: seq<ConnectionStatus>)
    ensures Tally(sts) == Counts(|sts|, NumConnected(sts), NumLoggedIn(sts))
    ensures Tally(sts).connected <= Tally(sts).sessions && Tally(sts).loggedIn <= Tally(sts).sessions
    decreases |sts|
  {
    if sts != [] {
      TallyCountsFlags(sts[..|sts| - 1]);
    }
  }

  /** The device part of a status line: the first ten characters of the
      device id, or nothing when there is no id.  The source slices `[:10]`
      without a check, so an id must be empty or at least ten long. */
  function DeviceInfo(deviceID: string): (info: string)
    requires deviceID == "" || |deviceID| >= MinDeviceIDLength
    ensures info == "" <==> deviceID == ""
    ensures deviceID != "" ==> |info| == 24 && info[11..21] == deviceID[..10]
  {
    if deviceID != "" then " | Device: " + deviceID[..10] + "..." else ""
  }

  /** The status a snapshot records for id; an id without a session has none. */
  function StatusOf(statuses: map<int, ConnectionStatus>, id: int): ConnectionStatus {
    if id in statuses then statuses[id] else NoStatus
  }

  /** One more visited user adds one step to the counters. */
  lemma TallyAlongSnoc(statuses: map<int, ConnectionStatus>, ids: seq<int>, i: nat)
    requires i < |ids|
    ensures Tally(Along(statuses, ids[..i + 1])) == Step(Tally(Along(statuses, ids[..i])), StatusOf(statuses, ids[i]))
  {
    assert ids[..i + 1][..i] == ids[..i];
    TallySnoc(Along(statuses, ids[..i]), StatusOf(statuses, ids[i]));
  }

  /** The statuses of the registry, read once. */
  ghost function StatusMap(sm: SessionManager): map<int, ConnectionStatus>
    reads sm, sm.Clients()
    requires sm.Valid()
  {
    map id | id in sm.sessions :: sm.GetUserConnectionStatus(id)
  }

  /** The statuses of the given users, in order. */
  function Along(statuses: map<int, ConnectionStatus>, ids: seq<int>): (sts: seq<ConnectionStatus>)
    ensures |sts| == |ids|
    decreases |ids|
  {
    if ids == [] then [] else Along(statuses, ids[..|ids| - 1]) + [StatusOf(statuses, ids[|ids| - 1])]
  }

  /** The users connected according to a snapshot. */
  function Connected(statuses: map<int, ConnectionStatus>): set<int> {
    set id | id in statuses && statuses[id].isConnected
  }

  /** Along a visit, the logged-in count is the registry's logged-in count
      over the same ids. */
  lemma {:induction false} AlongLoggedIn(statuses: map<int, ConnectionStatus>, ids: seq<int>)
    requires forall x | x in ids :: x in statuses
    ensures NumLoggedIn(Along(statuses, ids)) == CountLoggedIn(statuses, ids)
    decreases |ids|
  {
    if ids != [] {
      var prefix := ids[..|ids| - 1];
      AlongLoggedIn(statuses, prefix);
      var sts := Along(statuses, ids);
      assert sts[..|sts| - 1] == Along(statuses, prefix);
    }
  }

  /** Along a visit without repetitions, the connected count is the number
      of connected ids visited. */
  lemma {:induction false} AlongConnected(statuses: map<int, ConnectionStatus>, ids: seq<int>)
    requires forall i, j | 0 <= i < j < |ids| :: ids[i] != ids[j]
    requires forall x | x in ids :: x in statuses
    ensures NumConnected(Along(statuses, ids)) == |set x | x in ids && statuses[x].isConnected|
    decreases |ids|
  {
    if ids != [] {
      var prefix := ids[..|ids| - 1];
      var last := ids[|ids| - 1];
      AlongConnected(statuses, prefix);
      var sts := Along(statuses, ids);
      assert sts[..|sts| - 1] == Along(statuses, prefix);
      var before := set x | x in prefix && statuses[x].isConnected;
      var after := set x | x in ids && statuses[x].isConnected;
      assert last !in prefix;
      assert ids == prefix + [last];
      if statuses[last].isConnected {
        assert forall x :: x in after <==> x in before || x == last;
        assert after == before + {last};
      } else {
        assert forall x :: x in after <==> x in before;
        assert after == before;
      }
    }
  }

  /** The counters of a status loop over every session of a snapshot, once
      each: all sessions, the connected ones and the logged-in ones. */
  lemma SummaryCounts(statuses: map<int, ConnectionStatus>, order: seq<int>)
    requires forall x :: x in order <==> x in statuses
    requires forall i, j | 0 <= i < j < |order| :: order[i] != order[j]
    ensures Tally(Along(statuses, order)) == Counts(|statuses|, |Connected(statuses)|, |LoggedIn(statuses)|)
  {
    DistinctLength(order, statuses.Keys);
    var sts := Along(statuses, order);
    TallyCountsFlags(sts);
    AlongLoggedIn(statuses, order);
    AlongConnected(statuses, order);
    CountLoggedInIsCardinality(statuses, order);
    var visited := set x | x in order && x in statuses && statuses[x].isLoggedIn;
    assert forall x :: x in visited <==> x in LoggedIn(statuses);
    assert visited == LoggedIn(statuses);
    var connected := set x | x in order && statuses[x].isConnected;
    assert forall x :: x in connected <==> x in Connected(statuses);
    assert connected == Connected(statuses);
  }

  // ---------------------------------------------------------------------
  // Restarting sessions
  // ---------------------------------------------------------------------

  /** One step of a boot sweep's reconnect phase: a nil handle is skipped,
      any other is disconnected and then connected. */
  method RestartOne(c: Client?, succeeds: bool, logsIn: bool)
    requires c != null ==> c.Valid()
    modifies c
    ensures c != null ==> c.Valid() && c.connected == succeeds
    ensures c != null ==> c.loggedIn == LoginAfterConnect(old(c.loggedIn), c.storeID, succeeds, logsIn)
    ensures c != null ==> c.storeID == old(c.storeID)
  {
    if c == null {
      return;
    }
    c.Disconnect();
    var _ := c.Connect(succeeds, logsIn);
  }

  /** Every handle of the registry ends connected exactly when its Connect
      succeeded, whatever its login state; one whose Connect succeeded is
      logged in as the platform answered. */
  ghost predicate EverySessionRestarted(sm: SessionManager, connectSucceeds: int -> bool, logsIn: int -> bool)
    reads sm, sm.Clients()
  {
    forall id | id in sm.sessions && sm.sessions[id].client != null ::
      var c := sm.sessions[id].client;
      && c.connected == connectSucceeds(id)
      && (connectSucceeds(id) ==> c.loggedIn == (logsIn(id) && c.storeID.Some?))
  }

  /** The reconnect phase of both boot sweeps: over a snapshot of the
      registry, in whatever order the map yields, Disconnect and then Connect
      every non-nil handle, logged in or not. */
  method RestartEverySession(sm: SessionManager, connectSucceeds: int -> bool, logsIn: int -> bool)
    requires sm.Valid()
    modifies sm.Clients()
    ensures sm.Valid()
    ensures EverySessionRestarted(sm, connectSucceeds, logsIn)
    ensures forall id | id in sm.sessions && sm.sessions[id].client != null ::
      var c := sm.sessions[id].client;
      && c.loggedIn == LoginAfterConnect(old(c.loggedIn), c.storeID, connectSucceeds(id), logsIn(id))
      && c.storeID == old(c.storeID)
  {
    var active := sm.ListActiveSessions();
    var order := MapOrder(active.Keys);
    for i := 0 to |order|
      invariant sm.Valid()
      invariant forall id | id in sm.sessions && sm.sessions[id].client != null ::
        var c := sm.sessions[id].client;
        && c.connected == (if id in order[..i] then connectSucceeds(id) else old(c.connected))
        && c.loggedIn == (if id in order[..i] then LoginAfterConnect(old(c.loggedIn), c.storeID, connectSucceeds(id), logsIn(id))
                          else old(c.loggedIn))
        && c.storeID == old(c.storeID)
    {
      var id := order[i];
      assert id !in order[..i];
      RestartOne(active[id].client, connectSucceeds(id), logsIn(id));
      assert order[..i + 1] == order[..i] + [id];
    }
    assert order[..|order|] == order;
  }

  /** The process-wide client was restarted by `Reconnect` on a plain
      context: the same handle, connected exactly when Connect succeeded. */
  twostate predicate GlobalRestarted(g: GlobalClient, succeeds: bool, logsIn: bool)
    reads g, g.client
  {
    && g.client == old(g.client)
    && (g.client != null ==>
          && g.client.connected == succeeds && g.client.storeID == old(g.client.storeID)
          && g.client.loggedIn == LoginAfterConnect(old(g.client.loggedIn), g.client.storeID, succeeds, logsIn))
  }

  /** No registry handle other than the process-wide one changed. */
  twostate predicate OthersUntouched(sm: SessionManager, g: GlobalClient)
    reads sm, sm.Clients(), g
  {
    && sm.sessions == old(sm.sessions)
    && forall id | id in old(sm.sessions) ::
         var c := old(sm.sessions[id].client);
         c != null && c != old(g.client) ==>
           c.connected == old(c.connected) && c.loggedIn == old(c.loggedIn) && c.storeID == old(c.storeID)
  }

  /** `service.Reconnect(context.Background())`, as both boot sweeps call it
      when there is nothing else to reconnect; its error is discarded. */
  method RestartGlobal(sm: SessionManager, g: GlobalClient, succeeds: bool, logsIn: bool)
    requires Consistent(sm, g)
    modifies g, ClientFrame(sm, g, Background)
    ensures Consistent(sm, g)
    ensures GlobalRestarted(g, succeeds, logsIn)
    ensures OthersUntouched(sm, g)
  {
    var _ := Reconnect(sm, g, Background, succeeds, logsIn);
  }

  // ---------------------------------------------------------------------
  // Boot sweep over the registry
  // ---------------------------------------------------------------------

  /** Which of the two endings a boot sweep took. */
  datatype BootPath = GlobalReconnect | SessionsReconnect

  /** The status loop of SetAutoConnectAfterBooting: reads every session's
      status once, in the given order, and counts.  `statuses` is the status
      of every session. */
  method SummarizeSessions(sm: SessionManager, order: seq<int>, ghost statuses: map<int, ConnectionStatus>) returns (counts: Counts)
    requires sm.Valid()
    requires forall x | x in order :: x in sm.sessions && x in statuses && statuses[x] == sm.GetUserConnectionStatus(x)
    ensures counts == Tally(Along(statuses, order))
  {
    counts := Counts(0, 0, 0);
    for i := 0 to |order|
      invariant counts == Tally(Along(statuses, order[..i]))
    {
      TallyAlongSnoc(statuses, order, i);
      counts := SummarizeOne(sm, order[i], counts);
    }
    assert order[..|order|] == order;
  }

  /** One pass of the status loop: read id's status, format its line, count. */
  method SummarizeOne(sm: SessionManager, id: int, counts: Counts) returns (next: Counts)
    requires sm.Valid()
    ensures next == Step(counts, sm.GetUserConnectionStatus(id))
  {
    var st := sm.GetUserConnectionStatus(id);
    var info := DeviceInfo(st.deviceID);
    next := Step(counts, st);
  }

  /** `SetAutoConnectAfterBooting`: with no session, reconnect the
      process-wide client and stop; otherwise summarise every session's
      status and then restart every session. */
  method SetAutoConnectAfterBooting(sm: SessionManager, g: GlobalClient, connectSucceeds: int -> bool, logsIn: int -> bool,
                                    globalConnectSucceeds: bool, globalLogsIn: bool)
    returns (path: BootPath, counts: Counts)
    requires Consistent(sm, g)
    modifies g, sm.Clients(), ClientFrame(sm, g, Background)
    ensures Consistent(sm, g)
    ensures sm.sessions == old(sm.sessions)
    ensures path == GlobalReconnect <==> old(sm.sessions) == map[]
    ensures path == GlobalReconnect ==> GlobalRestarted(g, globalConnectSucceeds, globalLogsIn) && OthersUntouched(sm, g)
    ensures path == SessionsReconnect ==>
      && g.client == old(g.client)
      && EverySessionRestarted(sm, connectSucceeds, logsIn)
      && (forall id | id in sm.sessions && sm.sessions[id].client != null ::
            var c := sm.sessions[id].client;
            && c.loggedIn == LoginAfterConnect(old(c.loggedIn), c.storeID, connectSucceeds(id), logsIn(id))
            && c.storeID == old(c.storeID))
      && counts == Counts(|old(sm.sessions)|, |Connected(old(StatusMap(sm)))|, |LoggedIn(old(StatusMap(sm)))|)
  {
    var active := sm.ListActiveSessions();
    if active == map[] {
      RestartGlobal(sm, g, globalConnectSucceeds, globalLogsIn);
      return GlobalReconnect, Counts(0, 0, 0);
    }
    counts := SummarizeRegistry(sm);
    RestartEverySession(sm, connectSucceeds, logsIn);
    path := SessionsReconnect;
  }

  /** The status pass of SetAutoConnectAfterBooting: every session of the
      registry, once each, in the order the map yields; the counters are
      the number of sessions, of connected ones and of logged-in ones. */
  method SummarizeRegistry(sm: SessionManager) returns (counts: Counts)
    requires sm.Valid()
    ensures counts == Counts(|sm.sessions|, |Connected(old(StatusMap(sm)))|, |LoggedIn(old(StatusMap(sm)))|)
  {
    ghost var statuses := StatusMap(sm);
    var active := sm.ListActiveSessions();
    var order := MapOrder(active.Keys);
    counts := SummarizeSessions(sm, order, statuses);
    SummaryCounts(statuses, order);
    assert statuses.Keys == sm.sessions.Keys;
  }

  // ---------------------------------------------------------------------
  // Boot sweep over the registered users
  // ---------------------------------------------------------------------

  /** The ids of the active users. */
  function ActiveIDs(users: seq<UserResponse>): (ids: set<int>)
    ensures forall i | 0 <= i < |users| && users[i].isActive :: users[i].id in ids
    decreases |users|
  {
    if users == [] then {}
    else
      var last := users[|users| - 1];
      ActiveIDs(users[..|users| - 1]) + (if last.isActive then {last.id} else {})
  }

  /** An id outside the active users' ids belongs to no active user. */
  lemma {:induction false} ActiveIDsOnlyActive(users: seq<UserResponse>, id: int)
    requires forall i | 0 <= i < |users| :: users[i].id == id ==> !users[i].isActive
    ensures id !in ActiveIDs(users)
    decreases |users|
  {
    if users != [] {
      ActiveIDsOnlyActive(users[..|users| - 1], id);
    }
  }

  /** The statuses the status loop reads for the active users, in order: an
      active user's session either existed before the sweep, with the status
      it had then, or was built by the sweep, disconnected and logged out. */
  function ActiveStatuses(users: seq<UserResponse>, before: map<int, ConnectionStatus>): (sts: seq<ConnectionStatus>)
    ensures sts == [] <==> ActiveIDs(users) == {}
    decreases |users|
  {
    if users == [] then []
    else
      var last := users[|users| - 1];
      ActiveStatuses(users[..|users| - 1], before) + (if last.isActive then [StatusOf(before, last.id)] else [])
  }

  /** One more user extends the active ids and the statuses read by that
      user's share. */
  lemma ActiveStep(users: seq<UserResponse>, i: nat, before: map<int, ConnectionStatus>)
    requires i < |users|
    ensures ActiveIDs(users[..i + 1]) == ActiveIDs(users[..i]) + (if users[i].isActive then {users[i].id} else {})
    ensures ActiveStatuses(users[..i + 1], before) ==
      ActiveStatuses(users[..i], before) + (if users[i].isActive then [StatusOf(before, users[i].id)] else [])
  {
    assert users[..i + 1][..i] == users[..i];
  }

  /** How the statuses of the registry relate to its handles. */
  ghost predicate Mirrors(st: ConnectionStatus, c: Client?)
    reads c
  {
    if c == null then !st.isConnected && !st.isLoggedIn
    else st.isConnected == c.connected && st.isLoggedIn == c.loggedIn
  }

  /** The registry part way through the first loop: it holds the entries
      it held at the start, unchanged, plus entries for `added`; those it
      did not hold at the start are disconnected and logged out. */
  ghost predicate Swept(sm: SessionManager, start: map<int, UserSession>, added: set<int>)
    reads sm, sm.Clients()
  {
    && sm.Valid()
    && sm.sessions.Keys == start.Keys + added
    && (forall id | id in start :: sm.sessions[id] == start[id])
    && (forall id | id in sm.sessions && id !in start ::
          sm.sessions[id].client == null || (!sm.sessions[id].client.connected && !sm.sessions[id].client.loggedIn))
  }

  /** Sessions that the first loop created are fresh, and so are their
      handles. */
  twostate predicate NewSessionsFresh(sm: SessionManager, start: map<int, UserSession>)
    reads sm
  {
    forall id | id in sm.sessions && id !in start ::
      fresh(sm.sessions[id]) && (sm.sessions[id].client != null ==> fresh(sm.sessions[id].client))
  }

  /** One pass of the first loop, for users[i]: skip an inactive user; for
      an active one, get or create the user's session, read its status,
      format its line and count it.  The status counted is the one the user
      had on entry to the sweep. */
  method CreateActiveStep(sm: SessionManager, users: seq<UserResponse>, i: nat, cfg: StoreConfig, init: InitOutcome, counts: Counts,
                          ghost start: map<int, UserSession>, ghost before: map<int, ConnectionStatus>)
    returns (next: Counts)
    requires i < |users|
    requires Swept(sm, start, ActiveIDs(users[..i]))
    requires SliceableConfig(cfg) && WellFormedInit(init)
    requires before.Keys == start.Keys
    requires users[i].id in start ==> Mirrors(before[users[i].id], start[users[i].id].client)
    requires counts == Tally(ActiveStatuses(users[..i], before))
    modifies sm
    ensures Swept(sm, start, ActiveIDs(users[..i + 1]))
    ensures next == Tally(ActiveStatuses(users[..i + 1], before))
    ensures forall id | id in sm.sessions && id !in old(sm.sessions) ::
      fresh(sm.sessions[id]) && (sm.sessions[id].client != null ==> fresh(sm.sessions[id].client))
    ensures forall id | id in old(sm.sessions) :: id in sm.sessions && sm.sessions[id] == old(sm.sessions[id])
  {
    var u := users[i];
    ActiveStep(users, i, before);
    if !u.isActive {
      assert ActiveIDs(users[..i + 1]) == ActiveIDs(users[..i]);
      assert ActiveStatuses(users[..i + 1], before) == ActiveStatuses(users[..i], before);
      return counts;
    }
    TallySnoc(ActiveStatuses(users[..i], before), StatusOf(before, u.id));
    next := CreateActiveOne(sm, u, cfg, init, counts, start, ActiveIDs(users[..i]), before);
  }

  /** An active user of the first loop: get or create the user's session,
      read its status, format its line and count it. */
  method CreateActiveOne(sm: SessionManager, u: UserResponse, cfg: StoreConfig, init: InitOutcome, counts: Counts,
                         ghost start: map<int, UserSession>, ghost added: set<int>, ghost before: map<int, ConnectionStatus>)
    returns (next: Counts)
    requires Swept(sm, start, added)
    requires SliceableConfig(cfg) && WellFormedInit(init)
    requires before.Keys == start.Keys
    requires u.id in start ==> Mirrors(before[u.id], start[u.id].client)
    modifies sm
    ensures Swept(sm, start, added + {u.id})
    ensures u.id in old(sm.sessions) ==> sm.sessions == old(sm.sessions)
    ensures u.id !in old(sm.sessions) ==>
      var s := sm.sessions[u.id];
      sm.sessions == old(sm.sessions)[u.id := s] && fresh(s) && (s.client != null ==> fresh(s.client))
    ensures next == Step(counts, StatusOf(before, u.id))
  {
    var _ := sm.GetOrCreateUserSession(u.id, u.username, cfg, init);
    var st := sm.GetUserConnectionStatus(u.id);
    var info := DeviceInfo(st.deviceID);
    next := Step(counts, st);
  }

  /** The first loop of SetAutoConnectAfterBootingWithUserManagement: skip
      inactive users, get or create a session for each active one, read its
      status and count it.  `before` is the registry's status on entry. */
  method CreateActiveSessions(sm: SessionManager, users: seq<UserResponse>, cfg: StoreConfig, inits: int -> InitOutcome,
                              ghost before: map<int, ConnectionStatus>)
    returns (counts: Counts)
    requires sm.Valid()
    requires SliceableConfig(cfg) && forall id :: WellFormedInit(inits(id))
    requires before.Keys == sm.sessions.Keys
    requires forall id | id in sm.sessions :: Mirrors(before[id], sm.sessions[id].client)
    modifies sm
    ensures Swept(sm, old(sm.sessions), ActiveIDs(users))
    ensures NewSessionsFresh(sm, old(sm.sessions))
    ensures counts == Tally(ActiveStatuses(users, before))
  {
    ghost var start := sm.sessions;
    counts := Counts(0, 0, 0);
    for i := 0 to |users|
      invariant Swept(sm, start, ActiveIDs(users[..i]))
      invariant NewSessionsFresh(sm, start)
      invariant counts == Tally(ActiveStatuses(users[..i], before))
    {
      counts := CreateActiveStep(sm, users, i, cfg, inits(users[i].id), counts, start, before);
    }
    assert users[..|users|] == users;
  }

  /** `SetAutoConnectAfterBootingWithUserManagement`.  When the users cannot
      be read it falls back to SetAutoConnectAfterBooting.  Otherwise it
      skips the inactive users and gets or creates a session for every
      active one, counting their statuses.  With no active user it
      reconnects the process-wide client and stops.  Otherwise it restarts
      every session of the registry, logged in or not. */
  method SetAutoConnectAfterBootingWithUserManagement(
      sm: SessionManager, g: GlobalClient, users: Option<seq<UserResponse>>, cfg: StoreConfig, inits: int -> InitOutcome,
      connectSucceeds: int -> bool, logsIn: int -> bool, globalConnectSucceeds: bool, globalLogsIn: bool)
    returns (fellBack: bool, path: BootPath, counts: Counts)
    requires Consistent(sm, g)
    requires SliceableConfig(cfg) && forall id :: WellFormedInit(inits(id))
    modifies sm, g, sm.Clients(), ClientFrame(sm, g, Background)
    ensures Consistent(sm, g)
    ensures fellBack <==> users.None?
    ensures fellBack ==> sm.sessions == old(sm.sessions) && (path == GlobalReconnect <==> old(sm.sessions) == map[])
    ensures users.Some? ==>
      && sm.sessions.Keys == old(sm.sessions).Keys + ActiveIDs(users.value)
      && (path == GlobalReconnect <==> ActiveIDs(users.value) == {})
      && counts == Tally(ActiveStatuses(users.value, old(StatusMap(sm))))
    ensures forall id | id in old(sm.sessions) :: id in sm.sessions && sm.sessions[id] == old(sm.sessions[id])
    ensures forall id | id in sm.sessions && id !in old(sm.sessions) ::
      var c := sm.sessions[id].client;
      && fresh(sm.sessions[id])
      && (c != null ==> fresh(c) && (c.loggedIn ==> path == SessionsReconnect && connectSucceeds(id) && logsIn(id)))
    ensures path == GlobalReconnect ==> GlobalRestarted(g, globalConnectSucceeds, globalLogsIn) && OthersUntouched(sm, g)
    ensures path == SessionsReconnect ==> g.client == old(g.client) && EverySessionRestarted(sm, connectSucceeds, logsIn)
  {
    if users.None? {
      fellBack := true;
      path, counts := SetAutoConnectAfterBooting(sm, g, connectSucceeds, logsIn, globalConnectSucceeds, globalLogsIn);
      return;
    }
    fellBack := false;
    if users.value == [] {
      RestartGlobal(sm, g, globalConnectSucceeds, globalLogsIn);
      return false, GlobalReconnect, Counts(0, 0, 0);
    }
    path, counts := BootFromUsers(sm, g, users.value, cfg, inits, connectSucceeds, logsIn, globalConnectSucceeds, globalLogsIn);
  }

  /** SetAutoConnectAfterBootingWithUserManagement once a non-empty list of
      users was read: the first loop, then, with no session counted, a
      reconnect of the process-wide client, and otherwise a restart of every
      session of the registry. */
  method BootFromUsers(
      sm: SessionManager, g: GlobalClient, users: seq<UserResponse>, cfg: StoreConfig, inits: int -> InitOutcome,
      connectSucceeds: int -> bool, logsIn: int -> bool, globalConnectSucceeds: bool, globalLogsIn: bool)
    returns (path: BootPath, counts: Counts)
    requires Consistent(sm, g)
    requires SliceableConfig(cfg) && forall id :: WellFormedInit(inits(id))
    modifies sm, g, sm.Clients(), ClientFrame(sm, g, Background)
    ensures Consistent(sm, g)
    ensures sm.sessions.Keys == old(sm.sessions).Keys + ActiveIDs(users)
    ensures path == GlobalReconnect <==> ActiveIDs(users) == {}
    ensures counts == Tally(ActiveStatuses(users, old(StatusMap(sm))))
    ensures forall id | id in old(sm.sessions) :: id in sm.sessions && sm.sessions[id] == old(sm.sessions[id])
    ensures forall id | id in sm.sessions && id !in old(sm.sessions) ::
      var c := sm.sessions[id].client;
      && fresh(sm.sessions[id])
      && (c != null ==> fresh(c) && (c.loggedIn ==> path == SessionsReconnect && connectSucceeds(id) && logsIn(id)))
    ensures path == GlobalReconnect ==> GlobalRestarted(g, globalConnectSucceeds, globalLogsIn) && OthersUntouched(sm, g)
    ensures path == SessionsReconnect ==> g.client == old(g.client) && EverySessionRestarted(sm, connectSucceeds, logsIn)
  {
    ghost var before := StatusMap(sm);
    counts := CreateActiveSessions(sm, users, cfg, inits, before);
    TallyCountsFlags(ActiveStatuses(users, before));
    if counts.sessions == 0 {
      assert sm.sessions == old(sm.sessions);
      RestartGlobal(sm, g, globalConnectSucceeds, globalLogsIn);
      return GlobalReconnect, counts;
    }
    RestartEverySession(sm, connectSucceeds, logsIn);
    path := SessionsReconnect;
  }

  // ---------------------------------------------------------------------
  // Periodic check
  // ---------------------------------------------------------------------

  /** The users whose handle exists and is not connected. */
  ghost function DisconnectedIDs(sm: SessionManager): set<int>
    reads sm, sm.Clients()
  {
    set id | id in sm.sessions && sm.sessions[id].client != null && !sm.sessions[id].client.connected
  }

  /** One session of a tick: a handle that exists and is not connected is
      asked to Connect.  Reports whether it was asked. */
  method TickOne(c: Client?, succeeds: bool, logsIn: bool) returns (attempted: bool)
    requires c != null ==> c.Valid()
    modifies c
    ensures attempted == (c != null && !old(c.connected))
    ensures c != null ==> c.Valid() && c.connected == (old(c.connected) || succeeds)
    ensures c != null ==> c.storeID == old(c.storeID)
    ensures c != null ==>
      c.loggedIn == (if attempted then LoginAfterConnect(old(c.loggedIn), c.storeID, succeeds, logsIn) else old(c.loggedIn))
  {
    attempted := false;
    if c != null && !c.connected {
      attempted := true;
      var _ := c.Connect(succeeds, logsIn);
    }
  }

  /** One tick of `SetAutoReconnectCheckingForAllUsers`: over a snapshot of
      the registry, Connect exactly the handles that exist and are not
      connected.  No entry is added or removed. */
  method ReconnectTick(sm: SessionManager, connectSucceeds: int -> bool, logsIn: int -> bool) returns (attempted: set<int>)
    requires sm.Valid()
    modifies sm.Clients()
    ensures sm.Valid()
    ensures attempted == old(DisconnectedIDs(sm))
    ensures forall id | id in sm.sessions && sm.sessions[id].client != null ::
      var c := sm.sessions[id].client;
      && c.connected == (old(c.connected) || connectSucceeds(id))
      && c.loggedIn == (if id in attempted then LoginAfterConnect(old(c.loggedIn), c.storeID, connectSucceeds(id), logsIn(id))
                        else old(c.loggedIn))
      && c.storeID == old(c.storeID)
  {
    var active := sm.ListActiveSessions();
    var order := MapOrder(active.Keys);
    attempted := {};
    for i := 0 to |order|
      invariant sm.Valid()
      invariant forall id | id in sm.sessions && sm.sessions[id].client != null ::
        var c := sm.sessions[id].client;
        && c.connected == (if id in order[..i] then old(c.connected) || connectSucceeds(id) else old(c.connected))
        && c.loggedIn == (if id in order[..i] && !old(c.connected)
                          then LoginAfterConnect(old(c.loggedIn), c.storeID, connectSucceeds(id), logsIn(id))
                          else old(c.loggedIn))
        && c.storeID == old(c.storeID)
      invariant forall x :: x in attempted <==>
        x in order[..i] && sm.sessions[x].client != null && !old(sm.sessions[x].client.connected)
    {
      var id := order[i];
      assert id !in order[..i];
      var tried := TickOne(active[id].client, connectSucceeds(id), logsIn(id));
      assert order[..i + 1] == order[..i] + [id];
      if tried {
        attempted := attempted + {id};
      }
    }
    assert order[..|order|] == order;
    assert forall x :: x in attempted <==> x in old(DisconnectedIDs(sm));
  }
}
