# Per-user messaging sessions: registry, lifecycle and access policy

This project models the multi-user core of a WhatsApp gateway in Dafny. The
gateway is an HTTP/MCP server: each registered user owns a messaging session.
A session is a whatsmeow client bound to two per-user SQL stores.

The centre is the session registry (`SessionRegistry.SessionManager`). It is a
map from user id to session, with:

- idempotent create and get-or-create;
- removal that disconnects the client and closes the stores;
- snapshot listing;
- status derivation;
- manual reconnect and disconnect;
- the logged-in-only reconnect sweep.

Around it sit:

- the boot and periodic supervisors (`Supervisors`);
- the per-user and process-wide connection lifecycle (`AppUsecase`);
- the user-management use cases and admin session operations (`UserManagement`);
- the user table and its UPDATE-statement builder (`UserRepository`);
- the Basic-authentication middlewares (`AdminAuth`);
- the session-activation middleware and its context getters (`UserSessionMiddleware`);
- the group operations' participant parsing and result mapping (`GroupUsecase`).

`Base64` gives the standard base64 decoder of section 4 of RFC 4648, the way
Go's `base64.StdEncoding` decodes. The middlewares take the decoder as a
parameter, so the Basic scheme of section 2 of RFC 7617 can be followed end
to end.

The connection handle (`Handles.Client`) is an object with three fields:
`connected`, `loggedIn` and `storeID` (the device JID held in its store).
Its `Connect`, `Disconnect` and `Logout` take the remote outcome as a
parameter. Every registry method is one atomic step, because the source's
mutex serialises them. Source-level randomness, such as Go's map iteration
order, becomes an arbitrary order (`Outcomes.MapOrder`), and the proofs hold
for every order.

Quirks of the code that the model keeps as written:

- The admin session operations act on the process-wide client, not on the user's session.
- `GetUser` reports the process-wide connection status, while the other lookups report the user's own.
- The boot sweeps restart every session, logged in or not. `ReconnectAllLoggedInUsers` touches only logged-in sessions.
- The password half of a header is never checked by the session-activation middleware.
- A configured admin user-id containing ':' can never log in.
- The decoder accepts non-canonical padding bits.

The REST entry point (cmd/rest.go:126) starts `SetAutoConnectAfterBooting`. The
MCP entry point (cmd/mcp.go:42-44) starts `SetAutoConnectAfterBootingWithUserManagement`
and the all-users periodic check. The model proves each sweep separately.

## Model

| member | source | states |
|---|---|---|
| SessionRegistry.SessionManager.GetUserSession | infrastructure/whatsapp/session_manager.go:48-52 | a session is returned exactly when the user has one, and it is that user's (its userID is the key) |
| SessionRegistry.SessionManager.GetUserClient | infrastructure/whatsapp/session_manager.go:142-148 | non-nil exactly when the user has a session with a client, and then it is that session's client |
| SessionRegistry.SessionManager.GetUserDB | infrastructure/whatsapp/session_manager.go:151-157 | non-nil exactly when the user has a session with a store, and then it is that session's store |
| SessionRegistry.SessionManager.GetUserConnectionStatus | infrastructure/whatsapp/session_manager.go:160-174 | (false, false, "") for a missing session or nil client; otherwise the client's two flags; a device id is reported iff the session has a stored identity (`HasStoredSession`, lines 272-284), and a logged-in client always has one |
| SessionRegistry.SessionManager.ListActiveSessions | infrastructure/whatsapp/session_manager.go:177-187 | the snapshot has exactly the registry's keys and sessions; being a value, later registry changes do not reach it |
| SessionRegistry.SessionManager.CreateUserSession | infrastructure/whatsapp/session_manager.go:55-109 | an existing user gets the stored session back with the map unchanged (the re-check at 59-63); otherwise a fresh session built for (userID, username) on the derived store URIs is stored under userID and no other key changes |
| SessionRegistry.SessionManager.GetOrCreateUserSession | infrastructure/whatsapp/session_manager.go:190-198 | same outcome as CreateUserSession: the existing session unchanged, or one new session under that key only, so one user never gets two sessions |
| SessionRegistry.SessionManager.RemoveUserSession | infrastructure/whatsapp/session_manager.go:112-139 | a missing id is "session not found" and leaves the map alone; otherwise only that key is deleted, its client is disconnected and both stores are closed |
| SessionRegistry.SessionManager.ManualReconnectUser | infrastructure/whatsapp/session_manager.go:201-220 | not found / client not initialised errors without change; otherwise the error is Connect's, connected afterwards iff it was or Connect succeeded, logged in afterwards as a successful Connect reports (only with a stored identity), identity kept, map untouched |
| SessionRegistry.SessionManager.DisconnectUser | infrastructure/whatsapp/session_manager.go:223-237 | same two errors; otherwise the client is disconnected, login and identity kept, and the entry stays in the map |
| SessionRegistry.SessionManager.ReconnectAllLoggedInUsers | infrastructure/whatsapp/session_manager.go:240-269 | Connect is attempted on exactly the logged-in, not-connected sessions; the logged-in counter is the number of logged-in sessions; connected count <= logged-in count; the map never changes, and a client's login state changes only through its own successful reconnect |
| SessionRegistry.SessionManager.SweepInOrder | infrastructure/whatsapp/session_manager.go:247-266 | the sweep's loop over any iteration order: attempted set, counters and per-client effect (`Swept`) as above, stated against the status snapshot taken before the loop |
| SessionRegistry.SweepOne | infrastructure/whatsapp/session_manager.go:248-265 | one loop body: counts a logged-in client, attempts Connect only when logged in and not connected, counts it connected iff it ends connected, and changes its login state only through that Connect |
| SessionRegistry.SweepTotals | infrastructure/whatsapp/session_manager.go:247-268 | the attempted ids of a full pass are the logged-in-but-disconnected sessions, and the counter equals the number of logged-in sessions |
| SessionRegistry.CountLoggedInIsCardinality | infrastructure/whatsapp/session_manager.go:249-250 | counting logged-in sessions along a repetition-free order gives the size of the logged-in set |
| SessionRegistry.SessionManager.Snapshot | infrastructure/whatsapp/session_manager.go:247-249 | the status map read off the registry: its keys are the sessions', nil clients read as (false, false), and its logged-in and needs-reconnect sets are the registry's |
| SessionRegistry.UserKeysDBURI | infrastructure/whatsapp/session_manager.go:69-78 | the keys-store URI is empty iff the configured keys URI is empty |
| SessionRegistry.StoreURIInjective | infrastructure/whatsapp/session_manager.go:66-76 | two users never share a store URI of one kind in one directory |
| SessionRegistry.UserDBURIInjective | infrastructure/whatsapp/session_manager.go:66-67 | distinct users get distinct session-store URIs |
| SessionRegistry.UserDBURIBesideConfigured | infrastructure/whatsapp/session_manager.go:66-67 | a configured "file:./<dir>/<name>" puts every user's session store in "<dir>", the leading "./" cleaned away |
| SessionRegistry.UserKeysDBURIInjective | infrastructure/whatsapp/session_manager.go:70-77 | with keys configured, distinct users get distinct keys-store URIs, for the memory and the file configurations alike |
| SessionRegistry.SessionAndKeysStoresDiffer | infrastructure/whatsapp/session_manager.go:66-77 | no user's session store is ever any user's keys store |
| SessionRegistry.StoreURIKindChar | infrastructure/whatsapp/session_manager.go:66-76 | the store kind (`whatsapp` / `keys`) is recoverable at a fixed offset from the end of the URI |
| SessionRegistry.SameAffixes | infrastructure/whatsapp/session_manager.go:66-76 | a common prefix and suffix cancel, so a URI determines the text between them |
| SessionRegistry.BuildSession | infrastructure/whatsapp/session_manager.go:84-102 | a fresh session for (userID, username) whose stores are opened on the derived URIs (the keys store only when configured) and whose client is a fresh, disconnected, logged-out handle on them |
| SessionRegistry.OpenStore | infrastructure/whatsapp/session_manager.go:85-89 | a store is returned iff opening succeeds, and it is a fresh, open container on the given URI |
| SessionRegistry.StartClient | infrastructure/whatsapp/session_manager.go:92 | a client is returned iff it starts, fresh, disconnected and logged out, holding the stored device identity |
| Supervisors.Classify | ui/rest/helpers/common.go:64-75 | the four status labels partition the (connected, loggedIn) combinations, each label iff its combination |
| Supervisors.TallyCountsFlags | ui/rest/helpers/common.go:64-75 | the counters of the classification loop are (sessions, connected, logged in) counts, so each counter is at most the session count |
| Supervisors.TallySnoc | ui/rest/helpers/common.go:64-75 | counting one more status is one more step of the classification |
| Supervisors.TallyAlongSnoc | ui/rest/helpers/common.go:164-178 | the tally of one more session in iteration order is one more classification step |
| Supervisors.NumConnected | ui/rest/helpers/common.go:65-71 | the connected counter never exceeds the number of sessions seen |
| Supervisors.NumLoggedIn | ui/rest/helpers/common.go:65-74 | the logged-in counter never exceeds the number of sessions seen |
| Supervisors.DeviceInfo | ui/rest/helpers/common.go:77-80 | empty iff there is no device id; otherwise the fixed label around the first ten characters of the id (the id is at least ten long, so `[:10]` cannot panic) |
| Supervisors.Along | ui/rest/helpers/common.go:164-165 | the statuses read in iteration order, one per session |
| Supervisors.AlongLoggedIn | ui/rest/helpers/common.go:172-177 | the logged-in counter along an order equals the registry's logged-in count |
| Supervisors.AlongConnected | ui/rest/helpers/common.go:168-174 | the connected counter along a repetition-free order equals the number of connected sessions |
| Supervisors.SummaryCounts | ui/rest/helpers/common.go:161-188 | for every iteration order the summary is (number of sessions, number connected, number logged in): the printed totals do not depend on map order |
| Supervisors.SummarizeSessions | ui/rest/helpers/common.go:161-178 | the counting loop computes the tally of the statuses in the order visited |
| Supervisors.SummarizeOne | ui/rest/helpers/common.go:165-178 | one loop body adds the session's current status to the counters |
| Supervisors.SummarizeRegistry | ui/rest/helpers/common.go:145-188 | the summary of the whole registry: session count, connected count and logged-in count |
| Supervisors.RestartOne | ui/rest/helpers/common.go:197-224 | a non-nil client is disconnected then connected: it ends connected iff Connect succeeded, logged in as that Connect reports when it succeeded and as before otherwise, identity kept |
| Supervisors.RestartEverySession | ui/rest/helpers/common.go:194-225 | every session with a client is restarted regardless of login state, nil clients are skipped, the map does not change, each login state is what that client's own Connect left |
| Supervisors.RestartGlobal | ui/rest/helpers/common.go:152-157 | the empty-registry branch: the process-wide client is reconnected (as `Reconnect` does) and no session is touched |
| Supervisors.SetAutoConnectAfterBooting | ui/rest/helpers/common.go:135-228 | with no sessions only the global client is reconnected; otherwise the summary counts are those of the registry before the sweep, every session is restarted with its login state as its own Connect left it, the global client and the map are unchanged |
| Supervisors.ActiveIDs | ui/rest/helpers/common.go:46-53 | every active user's id is among the ids the boot sweep get-or-creates |
| Supervisors.ActiveIDsOnlyActive | ui/rest/helpers/common.go:46-50 | an id that belongs only to inactive users is never given a session by the sweep |
| Supervisors.ActiveStatuses | ui/rest/helpers/common.go:46-62 | the statuses the sweep counts are empty iff there is no active user |
| Supervisors.ActiveStep | ui/rest/helpers/common.go:46-75 | one more user adds its id and its status to the counted ones iff it is active |
| Supervisors.CreateActiveOne | ui/rest/helpers/common.go:53-75 | get-or-create for one active user: an existing entry kept, or exactly one fresh entry added; its status counted |
| Supervisors.CreateActiveStep | ui/rest/helpers/common.go:46-75 | one iteration of the user loop: skipped when inactive, otherwise as CreateActiveOne; earlier entries never change |
| Supervisors.CreateActiveSessions | ui/rest/helpers/common.go:42-83 | after the loop the registry holds its old sessions plus exactly the active users' ids, new sessions are fresh, and the counters are the tally of the active users' statuses |
| Supervisors.BootFromUsers | ui/rest/helpers/common.go:41-133 | from a user list: keys become old keys plus the active ids; with no active user only the global client is reconnected, otherwise every session is restarted; old entries are kept; new ones are fresh, and logged in only after their own restart connected and reported a login |
| Supervisors.SetAutoConnectAfterBootingWithUserManagement | ui/rest/helpers/common.go:16-133 | a failed user listing falls back to SetAutoConnectAfterBooting; an empty list or no active user reconnects the global client; otherwise as BootFromUsers |
| Supervisors.TickOne | ui/rest/helpers/common.go:240-247 | Connect is attempted iff the client exists and is not connected; identity kept, and login changed only by that Connect |
| Supervisors.ReconnectTick | ui/rest/helpers/common.go:237-248 | one tick attempts exactly the disconnected sessions, each ends connected iff it was or its Connect succeeded, and no entry is added or removed |
| AppUsecase.ClientFromContext | usecase/app.go:35-48 | a plain context yields the global client; an AppContext with user id 0 is ErrNotLoggedIn; a user without a client is ErrNotConnected; otherwise that user's own client |
| AppUsecase.UserContextResolvesOwnClient | usecase/app.go:35-48 | a resolved user context never hands out another user's client |
| AppUsecase.Dispatch | usecase/app.go:466-469 | the ...WithContext forms fall back to the plain-context operation exactly when the user id is 0 |
| AppUsecase.Reconnect | usecase/app.go:232-256 | context errors are returned unchanged; a nil client is ErrClientIsNil; otherwise the client is disconnected and connected, ends connected iff Connect succeeded, logged in as a successful Connect reports, and becomes the global client only on success |
| AppUsecase.ReconnectWithContext | usecase/app.go:466-491 | user id 0 behaves as Reconnect on the global client; a user without a client is ErrWaCLI; otherwise Disconnect then Connect on that user's client, returning Connect's error, login as Connect reports it, the global client untouched |
| AppUsecase.Logout | usecase/app.go:183-230 | the client's Logout error is ignored and cleanup always runs; the cleanup's error is returned and, on success, the cleanup's new client becomes the global one |
| AppUsecase.LogoutWithContext | usecase/app.go:436-464 | user id 0 delegates to Logout; a user without a client is ErrWaCLI; otherwise the remote logout error is ignored and the session is removed (client disconnected, stores closed, key deleted) |
| AppUsecase.QrLogin | usecase/app.go:50-144 | the QR-login decision on one client, taken on the login state re-read after Connect (91-92): a stored identity gives ErrAlreadyLoggedIn iff Connect leaves the client logged in and ErrSessionSaved otherwise; without one, a failed channel is ErrQrChannel, a failed Connect ErrReconnect, and the QR image is returned only when both succeed |
| AppUsecase.Login | usecase/app.go:50-144 | context errors returned; a nil client is ErrWaCLI; otherwise the QR decision for that client on its post-Connect login state, and that client becomes the global client exactly on success |
| AppUsecase.LoginWithContext | usecase/app.go:313-398 | user id 0 as Login on the process-wide client (314-316): ErrWaCLI without one, otherwise its QR decision, and it stays the process-wide client; for a user: ErrWaCLI without a client, otherwise the same QR decision on the user's own client and its login state re-read after Connect (350-351), global client untouched |
| AppUsecase.LoginWithCode | usecase/app.go:146-181 | an invalid phone fails first; context errors next; a nil client, which the source dereferences at line 157, is the NilDereference error; a stored identity is ErrAlreadyLoggedIn before any pairing; otherwise it reconnects (not logged in, as it has no identity) and returns the pairing code or the pairing error |
| AppUsecase.LoginWithCodeAndContext | usecase/app.go:400-434 | user id 0 as LoginWithCode on the process-wide client (401-403): NilDereference without one, ErrAlreadyLoggedIn with a stored identity, otherwise reconnected and the pairing result, the client staying the process-wide one; for a user, the same guards in the same order on the user's own client (405-418), ErrWaCLI without one |
| AppUsecase.DeviceName | usecase/app.go:273-277 | the push name when non-empty, else the business name; empty only when both are |
| AppUsecase.DeviceResponses | usecase/app.go:296-306 | one response per device, in order, each the device's id and chosen name |
| AppUsecase.FetchDevices | usecase/app.go:282-309 | context errors and a nil client fail first, a store error is returned, otherwise one entry per stored device in order |
| AppUsecase.FetchDevicesWithContext | usecase/app.go:524-558 | user id 0 as FetchDevices; a user without client or without store is ErrWaCLI; otherwise one entry per device in order |
| AppUsecase.FirstDevice | usecase/app.go:258-280 | context errors and a nil client fail first; otherwise the first device's entry or the store's error |
| AppUsecase.FirstDeviceWithContext | usecase/app.go:493-522 | the same per user: ErrWaCLI without client or store, otherwise the first device's entry or error |
| UserManagement.ValidateCreate | usecase/usermanagement.go:46-57 | the four checks in source order, each error exactly when the earlier checks pass and its own fails; lengths in bytes |
| UserManagement.ValidateUpdate | usecase/usermanagement.go:171-176 | an empty field means unchanged; a given username must be 3..50 bytes and a given password at least 6 |
| UserManagement.CreateRulesImplyUpdateRules | usecase/usermanagement.go:46-57 | every request CreateUser accepts passes UpdateUser's checks too |
| UserManagement.Response | usecase/usermanagement.go:83-91 | the response copies the user's id, name, active flag and times and the given connection flags |
| UserManagement.GlobalConnectionStatus | usecase/usermanagement.go:104 | the process-wide client's flags, or (false, false) without one |
| UserManagement.CreateUser | usecase/usermanagement.go:44-92 | validation errors first, then lookup failure, then "username already exists"; on success exactly one active row with the next id is appended and the response carries that user's own status |
| UserManagement.GetUser | usecase/usermanagement.go:94-115 | lookup failure, "user not found", or the user with the process-wide connection status |
| UserManagement.GetUserByUsername | usecase/usermanagement.go:117-139 | lookup failure, "user not found", or the user with that user's own session status |
| UserManagement.LookupsAgree | usecase/usermanagement.go:94-139 | both lookups of a stored user return the same account fields; only the connection flags may differ |
| UserManagement.SameIDSameRow | infrastructure/usermanagement/sqlite_repository.go:79-92 | ids are unique in the table, so a lookup by id is unambiguous |
| UserManagement.GetAllUsers | usecase/usermanagement.go:141-167 | one response per stored user, newest first, each with that user's own session status |
| UserManagement.UpdateChecks | usecase/usermanagement.go:171-196 | validation, then lookup, then "user not found", then the uniqueness check only when the username is given and differs |
| UserManagement.UpdateUser | usecase/usermanagement.go:169-222 | with the corrected UPDATE statement (see Findings): the checks' error, or "no fields", or the repository's error with the table unchanged; otherwise the row is rewritten and the read-back response is the updated user with its own status |
| UserManagement.WriteAndReadBack | usecase/usermanagement.go:198-207 | the repository update followed by the read-back of the same row |
| UserManagement.NoClashAfterChecks | usecase/usermanagement.go:187-196 | after the checks pass, the new username clashes with no other row |
| UserManagement.ReadBackIsUpdated | usecase/usermanagement.go:203-207 | reading the id back after the rewrite gives the updated row |
| UserManagement.DeleteUser | usecase/usermanagement.go:224-240 | a lookup failure or missing id errors and deletes nothing; otherwise exactly that id's row goes |
| UserManagement.ActiveUsernamesUnique | usecase/usermanagement.go:252-257 | active rows have distinct usernames, so the credentials map is well defined |
| UserManagement.CredentialsOf | usecase/usermanagement.go:252-257 | the loop's map has exactly the listed usernames, each mapped to its stored hash |
| UserManagement.GetActiveUserCredentials | usecase/usermanagement.go:246-260 | an empty map on repository error, otherwise exactly the active usernames each mapped to its hash |
| UserManagement.AdminPrecheck | usecase/usermanagement.go:267-282 | lookup failure, user not found, or "WhatsApp client not initialized" (NoGlobalClient) when there is no global client, in that order; passes otherwise |
| UserManagement.DisconnectWhatsAppSession | usecase/usermanagement.go:265-293 | precheck errors change nothing; otherwise the partial cleanup runs on the global client and its error is returned |
| UserManagement.ReconnectWhatsAppSession | usecase/usermanagement.go:296-325 | precheck errors change nothing; Connect on the global client only when it is not connected, its error returned, login as that Connect reports |
| UserManagement.ClearWhatsAppSession | usecase/usermanagement.go:329-369 | precheck errors change nothing; Logout only if logged in, its failure ignored; cleanup always runs and its error is returned |
| UserRepository.RequestedColumns | infrastructure/usermanagement/sqlite_repository.go:125-142 | a column is set iff its request field is given; updated_at is never among the requested ones |
| UserRepository.AlignedSnoc | infrastructure/usermanagement/sqlite_repository.go:125-142 | appending a set part with its argument keeps parts and arguments aligned |
| UserRepository.RequestedClauses | infrastructure/usermanagement/sqlite_repository.go:122-142 | a hashing failure for a given password is an error; otherwise the parts in order username, password, is_active, each aligned with its argument |
| UserRepository.SetClauses | infrastructure/usermanagement/sqlite_repository.go:122-150 | "no fields to update" iff nothing is requested; otherwise updated_at is last, and the args are one longer than the parts with the id last |
| UserRepository.QueryAsWritten | infrastructure/usermanagement/sqlite_repository.go:152-156 | the statement the source's loop builds: the WHERE clause after the first part, later parts after it |
| UserRepository.Query | infrastructure/usermanagement/sqlite_repository.go:152-156 | the corrected loop builds SET with all parts then WHERE |
| UserRepository.QueryBindsIdLast | infrastructure/usermanagement/sqlite_repository.go:148-156 | in the corrected statement the set parts hold the first n placeholders and the WHERE the last, matching args with the id last |
| UserRepository.AsWrittenMalformed | infrastructure/usermanagement/sqlite_repository.go:148-156 | with the always-present updated_at part, the statement as written continues the SET list after the WHERE clause (a syntax error in SQLite), puts the WHERE placeholder second, and differs from the intended one |
| UserRepository.AsWrittenExample | infrastructure/usermanagement/sqlite_repository.go:152-156 | a username-only update: the text as written vs the intended text |
| UserRepository.MarksJoin | infrastructure/usermanagement/sqlite_repository.go:152-156 | joining parts with one placeholder each gives one placeholder per part |
| UserRepository.Find | infrastructure/usermanagement/sqlite_repository.go:79-107 | the single-row lookup: none iff no row matches; otherwise a stored row that matches |
| UserRepository.FindID | infrastructure/usermanagement/sqlite_repository.go:79-92 | `Find` by id: no row iff no row has the id; otherwise a stored row with that id |
| UserRepository.FindUsername | infrastructure/usermanagement/sqlite_repository.go:94-107 | `Find` by username: no row iff no row has the username; otherwise a stored row with it |
| UserRepository.InsertByCreated | infrastructure/usermanagement/sqlite_repository.go:111 | inserting keeps newest-first order and adds exactly that row |
| UserRepository.SortNewestFirst | infrastructure/usermanagement/sqlite_repository.go:111 | ORDER BY created_at DESC: newest first, and a permutation of the rows |
| UserRepository.ActiveRows | infrastructure/usermanagement/sqlite_repository.go:178 | exactly the active rows |
| UserRepository.WithoutID | infrastructure/usermanagement/sqlite_repository.go:167 | exactly the rows without that id |
| UserRepository.Updated | infrastructure/usermanagement/sqlite_repository.go:125-149 | given fields replaced (the password by its hash), others kept, id and creation time kept, update time now |
| UserRepository.Rewritten | infrastructure/usermanagement/sqlite_repository.go:152-158 | the row with the id updated, every other row unchanged |
| UserRepository.RewriteKeepsWellFormed | infrastructure/usermanagement/sqlite_repository.go:121-164 | an update without a username clash keeps ids and usernames unique |
| UserRepository.WithoutKeepsWellFormed | infrastructure/usermanagement/sqlite_repository.go:166-174 | deleting keeps the table well formed |
| UserRepository.AppendKeepsWellFormed | infrastructure/usermanagement/sqlite_repository.go:57-73 | inserting a row with a new id and unused username keeps the table well formed |
| UserRepository.UserTable.GetByID | infrastructure/usermanagement/sqlite_repository.go:79-92 | a query failure is an error; (nil, nil) iff no row has the id; otherwise that row |
| UserRepository.UserTable.GetByUsername | infrastructure/usermanagement/sqlite_repository.go:94-107 | a query failure is an error; (nil, nil) iff no row has the username; otherwise that row |
| UserRepository.UserTable.GetAll | infrastructure/usermanagement/sqlite_repository.go:109-119 | all rows, newest first |
| UserRepository.UserTable.GetActiveUsers | infrastructure/usermanagement/sqlite_repository.go:176-186 | exactly the active rows |
| UserRepository.UserTable.ValidateCredentials | infrastructure/usermanagement/sqlite_repository.go:188-196 | true iff the query answers and an active row with that username matches the password; a lookup error, missing or inactive user fails before any comparison |
| UserRepository.UserTable.Create | infrastructure/usermanagement/sqlite_repository.go:51-77 | hashing or insert failure leaves the table alone; otherwise the next id is assigned, creation time equals update time, and the row with the hash is appended |
| UserRepository.UserTable.Update | infrastructure/usermanagement/sqlite_repository.go:121-164 | with the corrected statement (see Findings): no fields or hashing failure is an error without execution; otherwise the row is rewritten, unless the new username belongs to another row |
| UserRepository.UserTable.UpdateAsWritten | infrastructure/usermanagement/sqlite_repository.go:121-164 | the source's statement: no fields or a hashing failure as before; every other request fails at execution with "failed to update user", and no row ever changes |
| UserRepository.UserTable.Delete | infrastructure/usermanagement/sqlite_repository.go:166-174 | removes exactly that id's rows; a missing id is not an error |
| AdminAuth.ParseBasic | ui/rest/middleware/admin_auth.go:18-54 | each parse error exactly when its condition holds (empty, not "Basic ", undecodable, no ':'); on success the decoded text is user ":" password with no ':' in the user |
| AdminAuth.ParseBasicOfPair | ui/rest/middleware/admin_auth.go:45-54 | any user without ':' and any password, even one with colons, is recovered from a header carrying them |
| AdminAuth.NoColonInParsedUser | ui/rest/middleware/admin_auth.go:45-54 | a user-id with a colon never comes out of a header |
| AdminAuth.ParseFailure | ui/rest/middleware/admin_auth.go:18-52 | only a missing header is challenged with the realm; the message is "Authorization required", "Invalid authorization encoding" or "Invalid authorization format" |
| AdminAuth.AdminBasicAuth | ui/rest/middleware/admin_auth.go:15-70 | passes iff both configured credentials are non-empty and the header carries exactly them; parse failures as ParseFailure; otherwise "Invalid admin credentials" |
| AdminAuth.UnsetAdminRejectsAll | ui/rest/middleware/admin_auth.go:57-68 | with either admin credential empty nobody is admitted |
| AdminAuth.ColonAdminLockedOut | ui/rest/middleware/admin_auth.go:45-62 | an admin user-id containing ':' can never be admitted |
| AdminAuth.AdminAcceptsOwnHeader | ui/rest/middleware/admin_auth.go:28-62 | a header whose payload decodes to the configured credentials is admitted |
| AdminAuth.AdminAcceptsEncodedCredentials | ui/rest/middleware/admin_auth.go:36-62 | with the standard decoder, "Basic " plus the base64 of "user:password" admits the configured admin |
| AdminAuth.UserBasicAuth | ui/rest/middleware/admin_auth.go:73-139 | passes iff the header parses, the user exists and the table validates the password; then the locals hold exactly that user's id and username; an unknown user and a wrong password get the same answer |
| UserSessionMiddleware.SessionParseFailure | ui/rest/middleware/user_session.go:27-51 | no challenge; empty header and wrong scheme share "Authorization required"; encoding and format errors as in the Basic middlewares |
| UserSessionMiddleware.Identify | ui/rest/middleware/user_session.go:26-63 | parse failures as above; a known user-id identifies that user, anything else is "Invalid user credentials" |
| UserSessionMiddleware.PasswordNotChecked | ui/rest/middleware/user_session.go:53-63 | two headers with the same user-id are decided alike whatever their passwords |
| UserSessionMiddleware.IdentifiesWhatUserAuthAccepts | ui/rest/middleware/user_session.go:53-67 | every request the user Basic authentication passes is identified as the same user with the same locals |
| UserSessionMiddleware.SessionLocals | ui/rest/middleware/user_session.go:66-87 | a passed request carries exactly the three locals |
| UserSessionMiddleware.UserSessionHandler | ui/rest/middleware/user_session.go:23-93 | a refused request leaves the registry alone; a passed one stores the user's id, name and session, which is the registry's existing one or a fresh one registered under that id only |
| UserSessionMiddleware.RepeatedRequests | ui/rest/middleware/user_session.go:66-87 | two requests in a row for the same header are decided alike and handed the same session object |
| UserSessionMiddleware.GetUserIDFromContext | ui/rest/middleware/user_session.go:96-99 | ok iff the local is present and an int; otherwise (0, false) |
| UserSessionMiddleware.GetUsernameFromContext | ui/rest/middleware/user_session.go:102-105 | ok iff the local is present and a string; otherwise ("", false) |
| UserSessionMiddleware.GetUserSessionFromContext | ui/rest/middleware/user_session.go:108-111 | ok iff the local is present and a session; otherwise (nil, false) |
| UserSessionMiddleware.LocalsReadBack | ui/rest/middleware/user_session.go:66-111 | the getters read back what the middleware stored |
| UserSessionMiddleware.UserAuthStoresNoSession | ui/rest/middleware/admin_auth.go:126-127 | after the user Basic authentication alone the session getter finds nothing |
| GroupUsecase.ParticipantToJID | usecase/group.go:259-278 | context errors first; ErrUserNotRegistered iff some participant plus the user suffix is unregistered; otherwise the parsable JIDs in order |
| GroupUsecase.ParsedLength | usecase/group.go:266-275 | the JID list is never longer than the input, and as long exactly when every participant parses |
| GroupUsecase.ParsedMembers | usecase/group.go:266-275 | a JID is in the list iff some participant parses to it |
| GroupUsecase.ParsedAppend | usecase/group.go:266-275 | parsing a concatenation concatenates the results, so order is kept |
| GroupUsecase.ParticipantStatuses | usecase/group.go:166-180 | one row per participant in order; "error" / "Failed to add participant" iff code 403 with an add request, else "success" / "Action success" |
| GroupUsecase.ManageParticipant | usecase/group.go:140-183 | validation, client, group JID, participant and RPC errors in that order; on success the mapped rows |
| GroupUsecase.RequestStatuses | usecase/group.go:240-254 | one row per participant in order; "error" with action and code iff the code is non-zero, else "success" with the action |
| GroupUsecase.ActionMessagesDistinct | usecase/group.go:245-251 | distinct codes give distinct failure messages, and no failure message reads as success |
| GroupUsecase.ManageGroupRequestParticipants | usecase/group.go:215-257 | the same error chain; on success the request rows as RequestStatuses maps them |
| GroupUsecase.RequestEntries | usecase/group.go:205-210 | one entry per pending request, in order, with its JID and request time |
| GroupUsecase.GetGroupRequestParticipants | usecase/group.go:185-213 | validation, client and group JID errors, then the RPC's; on success one entry per request |
| GroupUsecase.GetGroupInfoFromLink | usecase/group.go:109-138 | on success the participant count is the number of participants, the description is the topic, and the other fields are copied |
| Base64.SextetChar | ui/rest/middleware/admin_auth.go:36 | each of the 64 alphabet characters decodes to its value (Table 1 of RFC 4648) |
| Base64.SextetCharOf | ui/rest/middleware/admin_auth.go:36 | each alphabet character is the encoding of its own value |
| Base64.DecodeLast | ui/rest/middleware/admin_auth.go:36 | a final quantum gives one to three bytes, fewer than three only with padding |
| Base64.DecodeQuanta | ui/rest/middleware/admin_auth.go:36 | only whole four-character quanta decode |
| Base64.WithoutLineBreaks | ui/rest/middleware/admin_auth.go:36 | carriage returns and line feeds are dropped before decoding |
| Base64.Sextets | ui/rest/middleware/admin_auth.go:36 | splitting three bytes into four sextets loses nothing |
| Base64.Encode | ui/rest/middleware/admin_auth.go:36 | the encoding contains no line breaks |
| Base64.DecodeEncode | ui/rest/middleware/admin_auth.go:36 | decoding the encoding of any bytes gives the bytes back |
| Base64.DecodeQuantaEncode | ui/rest/middleware/admin_auth.go:36 | the same round trip, quantum by quantum |
| Base64.NonCanonicalAccepted | ui/rest/middleware/admin_auth.go:36 | "QQ==" and "QR==" both decode to "A": the unused padding bits are not checked |
| Base64.UnpaddedRejected | ui/rest/middleware/admin_auth.go:36 | input without its padding is refused |
| Base64.DecodeText | ui/rest/middleware/admin_auth.go:36-45 | decodes iff the bytes decode, each byte becoming one character of the payload |
| Base64.DecodeEncodeText | ui/rest/middleware/admin_auth.go:36-45 | a text of byte-sized characters survives encoding and the standard decoder |
| Text.SplitAtFirst | ui/rest/middleware/admin_auth.go:45 | no split iff the separator is absent; otherwise the text is head, separator, rest, with no separator in the head |
| Text.SplitAtFirstOfJoin | ui/rest/middleware/admin_auth.go:45 | splitting "u:p" with no ':' in u gives (u, p) back |
| Text.ByteLen | usecase/usermanagement.go:49-55 | a string's byte length is between its character count and four times it |
| Text.NatToDecimal | infrastructure/whatsapp/session_manager.go:66-76 | the decimal rendering of an id is a non-empty digit string, with a leading zero only for zero |
| Text.DecimalRoundTrip | infrastructure/whatsapp/session_manager.go:66-76 | the decimal rendering reads back as the same number |
| Text.IntToDecimalInjective | infrastructure/whatsapp/session_manager.go:66-76 | distinct ids render distinctly |
| Text.Dir | infrastructure/whatsapp/session_manager.go:67 | `filepath.Dir`: "." without a slash; otherwise Clean of everything up to the last slash, rooted iff the path is |
| Text.LastIndexOf | infrastructure/whatsapp/session_manager.go:67 | the position of the last occurrence, none iff absent |
| Text.SplitAll | infrastructure/whatsapp/session_manager.go:67 | the elements of a path between its separators: at least one, none containing a separator |
| Text.JoinSplitAll | infrastructure/whatsapp/session_manager.go:67 | joining the elements with the separator gives the path back |
| Text.CleanElementsShape | infrastructure/whatsapp/session_manager.go:67 | the elements `filepath.Clean` keeps are non-empty names other than "."; ".." only at the front of a relative path, never in a rooted one |
| Text.Clean | infrastructure/whatsapp/session_manager.go:67 | `filepath.Clean`: never empty, and rooted iff the input is |
| Text.DirDropsDot | infrastructure/whatsapp/session_manager.go:67 | the directory of "./<dir>/<name>" is "<dir>" |
| Text.DirCollapsesSeparators | infrastructure/whatsapp/session_manager.go:67 | the directory of "x//y/<name>" is "x/y" |
| Text.SplitDoubleSeparator | infrastructure/whatsapp/session_manager.go:67 | a doubled separator leaves one empty element |
| Text.CleanElementsDoubleSeparator | infrastructure/whatsapp/session_manager.go:67 | that empty element is dropped |
| Outcomes.MapOrder | ui/rest/helpers/common.go:164 | Go's map iteration: some repetition-free order of exactly the keys |
| Outcomes.DistinctLength | ui/rest/helpers/common.go:164 | such an order visits as many entries as the map has |
| Handles.Client.Connect | infrastructure/whatsapp/session_manager.go:213 | the handle ends connected iff it was or Connect succeeded; a successful Connect sets the login state to what the remote side reports, which can be true only with a stored identity; a failed one keeps it; identity kept |
| Handles.LoginAfterConnect | usecase/app.go:91-92 | the login state re-read after Connect: logged in only with a stored identity when Connect succeeded, unchanged when it failed |
| Handles.Client.Disconnect | infrastructure/whatsapp/session_manager.go:234 | the handle ends disconnected, with login and identity kept |
| Handles.Client.Logout | usecase/usermanagement.go:352 | a successful logout disconnects, logs out and drops the identity; a failed one changes nothing |

## Left out

- The whatsmeow client is not part of this model: pairing, QR channel, encryption and the group RPCs. `Handles.Client` keeps only the three fields the core reads, and remote outcomes are parameters.
- The QR goroutine, its channel, the image file write and the sleeps in `Login`/`LoginWithContext` are left out (concurrency and file I/O). `AppUsecase.QrLogin` keeps only the decision on the channel's first outcome.
- The supervisors' start-up delay, five-minute sleep and goroutine are left out, as are `sync.Once` and the mutex. Each method is one atomic step and each tick is one loop body.
- Logging is left out. The status labels and device info are modelled because the counters and the `[:10]` slice depend on them.
- `InitWaDB`, `InitWaCLI`, `PerformCleanupAndUpdateGlobals`, `PerformPartialCleanupAndUpdateGlobals` and `GetAllDevices` are not part of this model. Their outcomes, and the client a cleanup installs, are parameters.
- `whatsapp.GetClientForUser` is not part of this model; it is taken to be the registry lookup `GetUserClient`. `whatsapp.GetConnectionStatus` is taken to read the process-wide client's flags.
- usecase/usermanagement.go:29-42 is an unused copy of `getClientFromContext`. It has the same branches as `AppUsecase.ClientFromContext`, as does group.go's copy (usecase/group.go:27-40).
- SQL execution is abstract: rows in insertion order plus the AUTOINCREMENT counter. Whether the database answers a query is a parameter. `GetActiveUsers` returns the rows in an unspecified order, and the model says only which rows they are.
- bcrypt is left out. A hash is passed in, with None when hashing fails, and comparison is a predicate parameter.
- The clock is a parameter.
- The configuration values (`DBURI`, `DBKeysURI`, the admin credentials, `WhatsappTypeUser`) are parameters.
- `utils.MustLogin` panics on a client that is not logged in; the model does not model the panic.
- The request validators, `ValidateJidWithLogin`, `IsOnWhatsapp` and `types.ParseJID` are parameters.
- `JID.String()` is modelled as an already-rendered value.
- The other group operations (join, leave, create, photo, name, topic, locked and announce settings) are one-call RPC wrappers and are left out.
- The REST and websocket handlers, the startup wiring, the user seeding script, newsletter and the domain definitions are left out. They only route, format or declare.
- `SetAutoConnectAfterBootingWithUserManagement` and `UserSessionHandler`: the model's `GetOrCreateUserSession` never fails, as in the source (`CreateUserSession` returns no error). The sweep's "failed to create session" skip and the 500 `SESSION_ERROR` answer (ui/rest/middleware/user_session.go:77-84) therefore cannot be reached and are not modelled.
- `SetAutoConnectAfterBootingWithUserManagement` does not repeat, at the top level, RestartEverySession's clause that a session whose restart failed keeps its login state. It states the connected flags, and the login state after each successful restart.
- Handles.Client.Disconnect: the login flag is taken to survive a disconnect, and so is the stored identity. How whatsmeow itself tracks `IsLoggedIn` across a disconnect is not part of this model. Every place where the source re-reads `IsLoggedIn` follows a Connect, and there the model takes the remote answer as a parameter (`Handles.LoginAfterConnect`).
- AppUsecase.LoginWithCode and AppUsecase.LoginWithCodeAndContext (user id 0): a nil process-wide client makes the source panic when it reads `client.Store.ID` (usecase/app.go:157). The model returns the `NilDereference` error instead and changes nothing.
- SessionRegistry.UserDBURI, SessionRegistry.UserKeysDBURI and the session builders require configured URIs long enough for the `[5:]` slices (`SliceableConfig`). On a shorter URI the source panics at infrastructure/whatsapp/session_manager.go:67 or :76, and the model leaves that panic out.
- Text.Clean and Text.Dir follow the Unix rules of `filepath.Clean` and `filepath.Dir`; Windows volume names and `\` separators are left out.
- `Supervisors.DeviceInfo`: Go slices bytes and Dafny slices characters. Device JIDs are ASCII, so the two agree.
- `Base64.DecodeText`: decoded bytes become characters one to one. A Go string of non-UTF-8 bytes and a Dafny string of the same code points are identified.
- `Base64.Decode`: Go skips '\r' and '\n' anywhere in the input; the model removes them before decoding. The results agree.
- `GetAllUsers` returns a nil slice for an empty table; the model returns an empty sequence.

## Findings

| source | as written | input that shows it | evidently intended | confidence | as-written member | corrected member |
|---|---|---|---|---|---|---|
| infrastructure/usermanagement/sqlite_repository.go:152-161 | the WHERE clause is placed after the first set part, and every later part is appended after the WHERE | an update of only the username: parts ["username = ?", "updated_at = ?"] give "UPDATE users SET username = ? WHERE id = ?, updated_at = ?", a syntax error at the comma, so Exec fails and Update returns "failed to update user" with no row changed | all parts in the SET clause, then "WHERE id = ?", so the id argument (last) binds to the WHERE placeholder | not executed | UserRepository.UserTable.UpdateAsWritten | UserRepository.UserTable.Update |

`UserRepository.AsWrittenMalformed` proves that every successful build is affected, since `updated_at = ?` is always appended. The as-written statement has a comma after its WHERE clause, which SQLite's UPDATE grammar does not allow after the `id = ?` expression. `UserRepository.UserTable.UpdateAsWritten` therefore refuses every request that gets past "no fields to update" with the execution error, and leaves the table unchanged. As written, `UpdateUser` (usecase/usermanagement.go:198-201) would then always answer with that error. `UserRepository.QueryAsWritten` builds the as-written text and `UserRepository.AsWrittenExample` shows it for a username-only update. `UserRepository.QueryBindsIdLast` proves that the corrected statement's placeholders match the argument list, with the id last. `UserRepository.UserTable.Update` and `UserManagement.UpdateUser` use the corrected statement (`UserRepository.Query`).
