/** The group operations of usecase/group.go, without the group RPCs
    themselves: turning phone numbers into JIDs before an RPC, and mapping
    the RPC's per-participant results into the response rows.  The client
    is resolved as in AppUsecase.ClientFromContext (group.go keeps its own
    copy of that function, with the same branches); the validators, the
    registration check, JID parsing and the RPCs are parameters. */
module GroupUsecase {
  import opened Outcomes
  import opened Text
  import opened Handles
  import opened SessionRegistry
  import opened AppUsecase

  /** A parsed JID: the user part and the server. */
  datatype JID = JID(user: string, server: string)

  datatype GroupError =
    | Invalid            // the request's validator refused it
    | NoClient(cause: AppError)
    | InvalidGroupJID    // ValidateJidWithLogin refused the group id
    | ErrUserNotRegistered
    | RpcFailed

  // ---------------------------------------------------------------------
  // participantToJID
  // ---------------------------------------------------------------------

  /** The JIDs of the participants whose suffixed number parses, in the
      participants' order. */
  function Parsed(participants: seq<string>, suffix: string, parse: string -> Option<JID>): seq<JID>
    decreases |participants|
  {
    if participants == [] then []
    else
      var last := participants[|participants| - 1];
      Parsed(participants[..|participants| - 1], suffix, parse)
        + (match parse(last + suffix) case Some(j) => [j] case None => [])
  }

  /** Parsing a concatenation parses each half in turn: the output keeps the
      input's order. */
  lemma {:induction false} ParsedAppend(a: seq<string>, b: seq<string>, suffix: string, parse: string -> Option<JID>)
    ensures Parsed(a + b, suffix, parse) == Parsed(a, suffix, parse) + Parsed(b, suffix, parse)
    decreases |b|
  {
    if b == [] {
      assert a + b == a;
    } else {
      var init := b[..|b| - 1];
      assert (a + b)[..|a + b| - 1] == a + init;
      assert (a + b)[|a + b| - 1] == b[|b| - 1];
      ParsedAppend(a, init, suffix, parse);
    }
  }

  /** No more JIDs than participants, and exactly as many iff every one
      parses. */
  lemma {:induction false} ParsedLength(participants: seq<string>, suffix: string, parse: string -> Option<JID>)
    ensures |Parsed(participants, suffix, parse)| <= |participants|
    ensures |Parsed(participants, suffix, parse)| == |participants| <==>
      forall i | 0 <= i < |participants| :: parse(participants[i] + suffix).Some?
    decreases |participants|
  {
    if participants != [] {
      var init := participants[..|participants| - 1];
      ParsedLength(init, suffix, parse);
      assert forall i | 0 <= i < |init| :: init[i] == participants[i];
    }
  }

  /** A JID is in the output iff some participant's suffixed number parses
      to it. */
  lemma {:induction false} ParsedMembers(participants: seq<string>, suffix: string, parse: string -> Option<JID>, j: JID)
    ensures j in Parsed(participants, suffix, parse) <==>
      exists i | 0 <= i < |participants| :: parse(participants[i] + suffix) == Some(j)
    decreases |participants|
  {
    if participants != [] {
      var n := |participants| - 1;
      var init := participants[..n];
      ParsedMembers(init, suffix, parse, j);
      assert forall i | 0 <= i < n :: init[i] == participants[i];
      if exists i | 0 <= i < |participants| :: parse(participants[i] + suffix) == Some(j) {
        var i :| 0 <= i < |participants| && parse(participants[i] + suffix) == Some(j);
        if i < n {
          assert parse(init[i] + suffix) == Some(j);
        }
      }
    }
  }

  /** `participantToJID`: fails at the first participant that is not on
      WhatsApp; otherwise the JIDs of those that parse, unparsable ones
      dropped. */
  method ParticipantToJID(sm: SessionManager, g: GlobalClient, ctx: Context, participants: seq<string>, suffix: string,
                          registered: string -> bool, parse: string -> Option<JID>)
    returns (r: Result<seq<JID>, GroupError>)
    requires sm.Keyed()
    ensures ClientFromContext(sm, g, ctx).Err? ==> r == Err(NoClient(ClientFromContext(sm, g, ctx).error))
    ensures ClientFromContext(sm, g, ctx).Ok? ==>
      && (r.Err? <==> exists i | 0 <= i < |participants| :: !registered(participants[i] + suffix))
      && (r.Err? ==> r.error == ErrUserNotRegistered)
      && (r.Ok? ==> r.value == Parsed(participants, suffix, parse))
  {
    var client := ClientFromContext(sm, g, ctx);
    if client.Err? {
      return Err(NoClient(client.error));
    }
    var jids: seq<JID> := [];
    for i := 0 to |participants|
      invariant forall k | 0 <= k < i :: registered(participants[k] + suffix)
      invariant jids == Parsed(participants[..i], suffix, parse)
    {
      var formatted := participants[i] + suffix;
      if !registered(formatted) {
        return Err(ErrUserNotRegistered);
      }
      assert participants[..i + 1] == participants[..i] + [participants[i]];
      ParsedAppend(participants[..i], [participants[i]], suffix, parse);
      assert Parsed([participants[i]], suffix, parse) == Parsed([], suffix, parse)
        + (match parse(formatted) case Some(j) => [j] case None => []);
      match parse(formatted)
      case Some(j) => jids := jids + [j];
      case None =>
    }
    assert participants[..|participants|] == participants;
    return Ok(jids);
  }

  // ---------------------------------------------------------------------
  // Result mapping
  // ---------------------------------------------------------------------

  /** One participant's result of UpdateGroupParticipants /
      UpdateGroupRequestParticipants: its JID (as text), the error code (0
      for none), and whether the server answered with an add request. */
  datatype ParticipantUpdate = ParticipantUpdate(jid: string, error: int, addRequest: bool)

  /** `ParticipantStatus`, one response row. */
  datatype ParticipantStatus = ParticipantStatus(participant: string, status: string, message: string)

  /** A pending join request: the requester's JID and when it asked. */
  datatype JoinRequest = JoinRequest(jid: string, requestedAt: int)

  /** `GetGroupRequestParticipantsResponse`, one response row. */
  datatype RequestEntry = RequestEntry(jid: string, requestedAt: int)

  const StatusError: string := "error"
  const StatusSuccess: string := "success"
  const MsgAddFailed: string := "Failed to add participant"
  const MsgActionSuccess: string := "Action success"

  /** An add that the participant's privacy settings turned into an
      invitation: code 403 with an add request attached. */
  predicate AddRefused(p: ParticipantUpdate) {
    p.error == 403 && p.addRequest
  }

  /** The result rows of `ManageParticipant`: one per returned participant,
      in order; only a refused add is an error, any other code -- even a
      non-zero one -- is reported as a success. */
  method ParticipantStatuses(updates: seq<ParticipantUpdate>) returns (result: seq<ParticipantStatus>)
    ensures |result| == |updates|
    ensures forall i | 0 <= i < |updates| ::
      && result[i].participant == updates[i].jid
      && (result[i].status == StatusError <==> AddRefused(updates[i]))
      && (result[i].status == StatusSuccess <==> !AddRefused(updates[i]))
      && result[i].message == (if AddRefused(updates[i]) then MsgAddFailed else MsgActionSuccess)
  {
    result := [];
    for i := 0 to |updates|
      invariant |result| == i
      invariant forall k | 0 <= k < i ::
        && result[k].participant == updates[k].jid
        && (result[k].status == StatusError <==> AddRefused(updates[k]))
        && (result[k].status == StatusSuccess <==> !AddRefused(updates[k]))
        && result[k].message == (if AddRefused(updates[k]) then MsgAddFailed else MsgActionSuccess)
    {
      var p := updates[i];
      if p.error == 403 && p.addRequest {
        result := result + [ParticipantStatus(p.jid, StatusError, MsgAddFailed)];
      } else {
        result := result + [ParticipantStatus(p.jid, StatusSuccess, MsgActionSuccess)];
      }
    }
  }

  function ActionFailed(action: string, code: int): string {
    "Action " + action + " failed (code " + IntToDecimal(code) + ")"
  }

  function ActionSucceeded(action: string): string {
    "Action " + action + " success"
  }

  /** The failure message names the code: two different codes for the same
      action never read alike, and no failure reads like the success. */
  lemma ActionMessagesDistinct(action: string, a: int, b: int)
    ensures ActionFailed(action, a) == ActionFailed(action, b) ==> a == b
    ensures ActionFailed(action, a) != ActionSucceeded(action)
  {
    var prefix := "Action " + action + " failed (code ";
    if ActionFailed(action, a) == ActionFailed(action, b) {
      var x := IntToDecimal(a) + ")";
      var y := IntToDecimal(b) + ")";
      assert ActionFailed(action, a) == prefix + x;
      assert ActionFailed(action, b) == prefix + y;
      assert x == (prefix + x)[|prefix|..];
      assert IntToDecimal(a) == x[..|x| - 1];
      IntToDecimalInjective(a, b);
    }
    var k := |"Action " + action + " "|;
    assert ActionFailed(action, a)[k] == 'f';
    assert ActionSucceeded(action)[k] == 's';
  }

  /** The result rows of `ManageGroupRequestParticipants`: one per returned
      participant, in order; any non-zero code is an error whose message
      names the action and the code. */
  method RequestStatuses(action: string, updates: seq<ParticipantUpdate>) returns (result: seq<ParticipantStatus>)
    ensures |result| == |updates|
    ensures forall i | 0 <= i < |updates| ::
      && result[i].participant == updates[i].jid
      && (result[i].status == StatusError <==> updates[i].error != 0)
      && (result[i].status == StatusSuccess <==> updates[i].error == 0)
      && result[i].message == (if updates[i].error != 0 then ActionFailed(action, updates[i].error)
                               else ActionSucceeded(action))
  {
    result := [];
    for i := 0 to |updates|
      invariant |result| == i
      invariant forall k | 0 <= k < i ::
        && result[k].participant == updates[k].jid
        && (result[k].status == StatusError <==> updates[k].error != 0)
        && (result[k].status == StatusSuccess <==> updates[k].error == 0)
        && result[k].message == (if updates[k].error != 0 then ActionFailed(action, updates[k].error)
                                 else ActionSucceeded(action))
    {
      var p := updates[i];
      if p.error != 0 {
        result := result + [ParticipantStatus(p.jid, StatusError, ActionFailed(action, p.error))];
      } else {
        result := result + [ParticipantStatus(p.jid, StatusSuccess, ActionSucceeded(action))];
      }
    }
  }

  /** The result rows of `GetGroupRequestParticipants`: each request's JID
      and time, in order. */
  method RequestEntries(requests: seq<JoinRequest>) returns (result: seq<RequestEntry>)
    ensures |result| == |requests|
    ensures forall i | 0 <= i < |requests| ::
      result[i].jid == requests[i].jid && result[i].requestedAt == requests[i].requestedAt
  {
    result := [];
    for i := 0 to |requests|
      invariant |result| == i
      invariant forall k | 0 <= k < i ::
        result[k].jid == requests[k].jid && result[k].requestedAt == requests[k].requestedAt
    {
      result := result + [RequestEntry(requests[i].jid, requests[i].requestedAt)];
    }
  }

  // ---------------------------------------------------------------------
  // The operations
  // ---------------------------------------------------------------------

  /** What the group RPCs answer: their result, or None for an error. */
  datatype Rpcs = Rpcs(
    updateParticipants: Option<seq<ParticipantUpdate>>,
    updateRequests: Option<seq<ParticipantUpdate>>,
    pendingRequests: Option<seq<JoinRequest>>,
    linkInfo: Option<GroupInfo>)

  /** `ManageParticipant`: validate, resolve the client, check the group id,
      turn the participants into JIDs, call the RPC, map its rows. */
  method ManageParticipant(sm: SessionManager, g: GlobalClient, ctx: Context, valid: bool, groupJIDValid: bool,
                           participants: seq<string>, suffix: string, registered: string -> bool,
                           parse: string -> Option<JID>, rpcs: Rpcs)
    returns (r: Result<seq<ParticipantStatus>, GroupError>)
    requires sm.Keyed()
    ensures !valid ==> r == Err(Invalid)
    ensures valid && ClientFromContext(sm, g, ctx).Err? ==> r == Err(NoClient(ClientFromContext(sm, g, ctx).error))
    ensures valid && ClientFromContext(sm, g, ctx).Ok? && !groupJIDValid ==> r == Err(InvalidGroupJID)
    ensures r.Ok? <==>
      && valid && ClientFromContext(sm, g, ctx).Ok? && groupJIDValid
      && (forall i | 0 <= i < |participants| :: registered(participants[i] + suffix))
      && rpcs.updateParticipants.Some?
    ensures r.Ok? ==>
      var updates := rpcs.updateParticipants.value;
      && |r.value| == |updates|
      && forall i | 0 <= i < |updates| ::
           r.value[i].participant == updates[i].jid && (r.value[i].status == StatusError <==> AddRefused(updates[i]))
  {
    if !valid {
      return Err(Invalid);
    }
    var client := ClientFromContext(sm, g, ctx);
    if client.Err? {
      return Err(NoClient(client.error));
    }
    if !groupJIDValid {
      return Err(InvalidGroupJID);
    }
    var jids := ParticipantToJID(sm, g, ctx, participants, suffix, registered, parse);
    if jids.Err? {
      return Err(jids.error);
    }
    if rpcs.updateParticipants.None? {
      return Err(RpcFailed);
    }
    var rows := ParticipantStatuses(rpcs.updateParticipants.value);
    return Ok(rows);
  }

  /** `ManageGroupRequestParticipants`: as ManageParticipant, over the
      pending-request RPC and its error-code mapping. */
  method ManageGroupRequestParticipants(sm: SessionManager, g: GlobalClient, ctx: Context, valid: bool,
                                        groupJIDValid: bool, action: string, participants: seq<string>,
                                        suffix: string, registered: string -> bool,
                                        parse: string -> Option<JID>, rpcs: Rpcs)
    returns (r: Result<seq<ParticipantStatus>, GroupError>)
    requires sm.Keyed()
    ensures !valid ==> r == Err(Invalid)
    ensures valid && ClientFromContext(sm, g, ctx).Err? ==> r == Err(NoClient(ClientFromContext(sm, g, ctx).error))
    ensures valid && ClientFromContext(sm, g, ctx).Ok? && !groupJIDValid ==> r == Err(InvalidGroupJID)
    ensures r.Ok? <==>
      && valid && ClientFromContext(sm, g, ctx).Ok? && groupJIDValid
      && (forall i | 0 <= i < |participants| :: registered(participants[i] + suffix))
      && rpcs.updateRequests.Some?
    ensures r.Ok? ==>
      var updates := rpcs.updateRequests.value;
      && |r.value| == |updates|
      && forall i | 0 <= i < |updates| ::
           && r.value[i].participant == updates[i].jid
           && (r.value[i].status == StatusError <==> updates[i].error != 0)
           && (updates[i].error != 0 ==> r.value[i].message == ActionFailed(action, updates[i].error))
  {
    if !valid {
      return Err(Invalid);
    }
    var client := ClientFromContext(sm, g, ctx);
    if client.Err? {
      return Err(NoClient(client.error));
    }
    if !groupJIDValid {
      return Err(InvalidGroupJID);
    }
    var jids := ParticipantToJID(sm, g, ctx, participants, suffix, registered, parse);
    if jids.Err? {
      return Err(jids.error);
    }
    if rpcs.updateRequests.None? {
      return Err(RpcFailed);
    }
    var rows := RequestStatuses(action, rpcs.updateRequests.value);
    return Ok(rows);
  }

  /** `GetGroupRequestParticipants`: validate, resolve the client, check the
      group id, list the pending requests. */
  method GetGroupRequestParticipants(sm: SessionManager, g: GlobalClient, ctx: Context, valid: bool,
                                     groupJIDValid: bool, rpcs: Rpcs)
    returns (r: Result<seq<RequestEntry>, GroupError>)
    requires sm.Keyed()
    ensures !valid ==> r == Err(Invalid)
    ensures valid && ClientFromContext(sm, g, ctx).Err? ==> r == Err(NoClient(ClientFromContext(sm, g, ctx).error))
    ensures r.Ok? <==> valid && ClientFromContext(sm, g, ctx).Ok? && groupJIDValid && rpcs.pendingRequests.Some?
    ensures r.Ok? ==>
      var requests := rpcs.pendingRequests.value;
      && |r.value| == |requests|
      && forall i | 0 <= i < |requests| ::
           r.value[i].jid == requests[i].jid && r.value[i].requestedAt == requests[i].requestedAt
  {
    if !valid {
      return Err(Invalid);
    }
    var client := ClientFromContext(sm, g, ctx);
    if client.Err? {
      return Err(NoClient(client.error));
    }
    if !groupJIDValid {
      return Err(InvalidGroupJID);
    }
    if rpcs.pendingRequests.None? {
      return Err(RpcFailed);
    }
    var rows := RequestEntries(rpcs.pendingRequests.value);
    return Ok(rows);
  }

  /** What GetGroupInfoFromLink's RPC reports about a group. */
  datatype GroupInfo = GroupInfo(
    jid: string, name: string, topic: string, created: int, participants: seq<string>,
    isLocked: bool, isAnnounce: bool, isEphemeral: bool)

  /** `GetGroupInfoFromLinkResponse`. */
  datatype GroupInfoResponse = GroupInfoResponse(
    groupID: string, name: string, topic: string, createdAt: int, participantCount: nat,
    isLocked: bool, isAnnounce: bool, isEphemeral: bool, description: string)

  /** `GetGroupInfoFromLink`: the group's fields, its participant count,
      and its topic doubling as the description. */
  function GetGroupInfoFromLink(sm: SessionManager, g: GlobalClient, ctx: Context, valid: bool, rpcs: Rpcs)
    : (r: Result<GroupInfoResponse, GroupError>)
    reads sm, g
    requires sm.Keyed()
    ensures !valid ==> r == Err(Invalid)
    ensures valid && ClientFromContext(sm, g, ctx).Err? ==> r == Err(NoClient(ClientFromContext(sm, g, ctx).error))
    ensures r.Ok? <==> valid && ClientFromContext(sm, g, ctx).Ok? && rpcs.linkInfo.Some?
    ensures r.Ok? ==>
      var info := rpcs.linkInfo.value;
      && r.value.participantCount == |info.participants|
      && r.value.description == r.value.topic == info.topic
      && r.value.groupID == info.jid && r.value.name == info.name && r.value.createdAt == info.created
      && r.value.isLocked == info.isLocked && r.value.isAnnounce == info.isAnnounce
      && r.value.isEphemeral == info.isEphemeral
  {
    if !valid then Err(Invalid)
    else
      var client := ClientFromContext(sm, g, ctx);
      if client.Err? then Err(NoClient(client.error))
      else if rpcs.linkInfo.None? then Err(RpcFailed)
      else
        var info := rpcs.linkInfo.value;
        Ok(GroupInfoResponse(info.jid, info.name, info.topic, info.created, |info.participants|,
                             info.isLocked, info.isAnnounce, info.isEphemeral, info.topic))
  }
}
