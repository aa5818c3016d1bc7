/**
 * `JoinVibeButton`: the state of a guest's request to join a party.  On mount it
 * asks the request route for the current status; pressing the button files a
 * request and reads the answer.  Network calls are inputs: `None` stands for a
 * `fetch` or `res.json()` that throws.
 */
module JoinButton {
  import opened Wrappers
  import opened Json
  import RequestRoute

  const NetworkError: string := "Ошибка сети"
  const GenericError: string := "Ошибка"

  datatype RequestStatus = Idle | Loading | Pending | Member | Rejected | Failed

  /** The status the mount check leaves, from the GET body. */
  function CheckedStatus(prior: RequestStatus, data: Json): (r: RequestStatus)
    ensures Truthy(Get(data, "is_member")) ==> r == Member
    ensures r != prior ==> r == Member || r == Pending || r == Rejected
  {
    var requestStatus := if Get(data, "request").Some? then Get(Get(data, "request").value, "status") else None;
    if Truthy(Get(data, "is_member")) then Member
    else if requestStatus == Some(JString("pending")) then Pending
    else if requestStatus == Some(JString("rejected")) then Rejected
    else prior
  }

  /**
   * The `try` block of `handleJoin` throws: `fetch` or `res.json()` throws, or the
   * body is `null` and the 409 or error branch reads a property of it.
   */
  predicate JoinThrows(reply: Option<HttpReply>) {
    reply.None? || reply.value.body.None? ||
    (reply.value.body.value.JNull? && (reply.value.status == 409 || !IsOkStatus(reply.value.status)))
  }

  /** The status and message a finished join attempt leaves. */
  function JoinResult(reply: Option<HttpReply>): (r: (RequestStatus, Option<string>))
    ensures JoinThrows(reply) ==> r == (Failed, Some(NetworkError))
    ensures r.0 == Failed <==> JoinThrows(reply) || (reply.value.status != 409 && !IsOkStatus(reply.value.status))
    ensures r.0 != Failed ==> r.1.None?
  {
    if JoinThrows(reply) then (Failed, Some(NetworkError))
    else
      var data := reply.value.body.value;
      if reply.value.status == 409 then
        if Get(data, "request_status") == Some(JString("pending")) then (Pending, None)
        else if Get(data, "error") == Some(JString(RequestRoute.AlreadyMember)) then (Member, None)
        else (Rejected, None)
      else if !IsOkStatus(reply.value.status) then (Failed, ErrorText(reply.value.body, GenericError))
      else (Pending, None)
  }

  class JoinVibeButton {
    const partyId: string
    const hostId: string
    const currentUserId: Option<string>
    var status: RequestStatus
    var errorMsg: Option<string>

    constructor(partyId: string, hostId: string, currentUserId: Option<string>)
      ensures this.partyId == partyId && this.hostId == hostId && this.currentUserId == currentUserId
      ensures status == Idle && errorMsg == None
    {
      this.partyId := partyId;
      this.hostId := hostId;
      this.currentUserId := currentUserId;
      status := Idle;
      errorMsg := None;
    }

    /** The mount effect asks for the status only for a signed-in guest. */
    predicate ChecksStatus()
      reads this
    {
      currentUserId.Some? && currentUserId.value != "" && currentUserId.value != hostId
    }

    /** The host sees nothing. */
    predicate Renders()
      reads this
    {
      currentUserId != Some(hostId)
    }

    /**
     * The mount effect with the GET's reply; failures are silent.  A `null` body throws
     * on `data.is_member` into the silent `catch`, which leaves the status as
     * `CheckedStatus` does when nothing in the body is set.
     */
    method CheckStatus(reply: Option<HttpReply>)
      modifies this
      ensures errorMsg == old(errorMsg)
      ensures status == if ChecksStatus() && reply.Some? && IsOkStatus(reply.value.status) && reply.value.body.Some?
                        then CheckedStatus(old(status), reply.value.body.value) else old(status)
    {
      if !ChecksStatus() {
        return;
      }
      if reply.None? || !IsOkStatus(reply.value.status) || reply.value.body.None? {
        return;
      }
      var data := reply.value.body.value;
      var request := Get(data, "request");
      var requestStatus := if request.Some? then Get(request.value, "status") else None;
      if Truthy(Get(data, "is_member")) {
        status := Member;
      } else if requestStatus == Some(JString("pending")) {
        status := Pending;
      } else if requestStatus == Some(JString("rejected")) {
        status := Rejected;
      }
    }

    /** `handleJoin` up to the request: loading, no message. */
    method BeginJoin() returns (body: Json)
      modifies this
      ensures status == Loading && errorMsg == None
      ensures Get(body, "party_id") == Some(JString(partyId))
    {
      status := Loading;
      errorMsg := None;
      body := JObject(map["party_id" := JString(partyId)]);
    }

    /** `handleJoin` after the POST answered (or threw); only a failure writes the message. */
    method CompleteJoin(reply: Option<HttpReply>)
      modifies this
      ensures status == JoinResult(reply).0
      ensures errorMsg == if JoinResult(reply).1.Some? then JoinResult(reply).1 else old(errorMsg)
    {
      if reply.None? || reply.value.body.None? {
        status := Failed;
        errorMsg := Some(NetworkError);
        return;
      }
      var data := reply.value.body.value;
      if reply.value.status == 409 {
        if data.JNull? {
          status := Failed;
          errorMsg := Some(NetworkError);
        } else if Get(data, "request_status") == Some(JString("pending")) {
          status := Pending;
        } else if Get(data, "error") == Some(JString(RequestRoute.AlreadyMember)) {
          status := Member;
        } else {
          status := Rejected;
        }
        return;
      }
      if !IsOkStatus(reply.value.status) {
        status := Failed;
        var text := ErrorText(reply.value.body, GenericError);
        errorMsg := if text.Some? then text else Some(NetworkError);
        return;
      }
      status := Pending;
    }
  }

  /** A whole press of the button: the message left is the one the result carries. */
  method Join(button: JoinVibeButton, reply: Option<HttpReply>) returns (body: Json)
    modifies button
    ensures (button.status, button.errorMsg) == JoinResult(reply)
    ensures Get(body, "party_id") == Some(JString(button.partyId))
  {
    body := button.BeginJoin();
    button.CompleteJoin(reply);
  }

  /**
   * A failed join shows the server's message when it sent one, the generic one when it
   * did not, and the network error when the body is `null`, whatever the status.
   */
  lemma FailureMessage(status: nat, data: Json)
    ensures status != 409 && !IsOkStatus(status) && AsString(Get(data, "error")).Some? && AsString(Get(data, "error")).value != "" ==>
      JoinResult(Some(HttpReply(status, Some(data)))) == (Failed, Some(AsString(Get(data, "error")).value))
    ensures status != 409 && !IsOkStatus(status) && !data.JNull? && !Truthy(Get(data, "error")) ==>
      JoinResult(Some(HttpReply(status, Some(data)))) == (Failed, Some(GenericError))
    ensures data.JNull? && (status == 409 || !IsOkStatus(status)) ==>
      JoinResult(Some(HttpReply(status, Some(data)))) == (Failed, Some(NetworkError))
    ensures data.JNull? && IsOkStatus(status) ==> JoinResult(Some(HttpReply(status, Some(data)))) == (Pending, None)
  {
  }

  /**
   * The button reads the route's conflicts as intended: a member becomes "member", a
   * pending request "pending", any other earlier request "rejected".
   */
  lemma ConflictsReadAsIntended(env: RequestRoute.PostEnv)
    requires env.user.Some? && env.body.Ok? && AsString(Get(env.body.value, "party_id")).Some?
    requires env.party.Some? && env.party.value.status == "active" && env.party.value.hostId != env.user.value
    requires env.member || env.existing.Some?
    ensures var resp := RequestRoute.Post(env).response;
      var result := JoinResult(Some(HttpReply(resp.status, Some(resp.body)))).0;
      (env.member ==> result == Member) &&
      (!env.member && env.existing.value.status == "pending" ==> result == Pending) &&
      (!env.member && env.existing.value.status != "pending" ==> result == Rejected)
  {
    RequestRoute.PostConflicts(env);
  }

  /** A request the route files leaves the button at "pending". */
  lemma FiledReadsPending(env: RequestRoute.PostEnv)
    requires RequestRoute.Post(env).attempted.Some? && env.insert.Ok?
    ensures var resp := RequestRoute.Post(env).response;
      JoinResult(Some(HttpReply(resp.status, Some(resp.body)))) == (Pending, None)
  {
  }

  /** The mount check on the route's GET answer: a member is shown as such whatever requests exist. */
  lemma StatusCheckReadsMembership(prior: RequestStatus, env: RequestRoute.GetEnv)
    requires env.user.Some? && env.partyId.Some? && env.partyId.value != "" && env.membership.Some?
    ensures CheckedStatus(prior, RequestRoute.Status(env).body) == Member
  {
    RequestRoute.StatusProjection(env);
  }
}
