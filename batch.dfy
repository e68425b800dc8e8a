/** The batch variant, `jit_access.py`: one `send_command` naming every
    resolved instance; any failure of that send ends the run. */
module BatchAccess {
  import opened Wrappers
  import opened Aws
  import opened TagQuery
  import opened JitConfig

  /** How a run of the batch script ends. */
  datatype Outcome = Exit1(reason: ExitReason) | Sent(commandId: string)

  /** The request of a batch dispatch: one target naming all instances. */
  function BatchRequest(documentName: string, instanceIds: seq<string>, username: string, comment: string): SendRequest {
    SendRequest(documentName, [Target("InstanceIds", instanceIds)], map["username" := [username]], comment)
  }

  /** What a batch dispatch ends in for a reply: the command id when the send
      was accepted, exit code 1 otherwise. A client or core error is reported
      by the dispatching function; any other exception reaches `main`'s handler. */
  function Conclude(reply: SendReply): (r: Outcome)
    ensures r.Sent? <==> reply.Accepted?
    ensures r.Sent? ==> r.commandId == reply.commandId
  {
    match reply
    case Accepted(commandId) => Sent(commandId)
    case ClientError(message) => Exit1(SendFailed(message))
    case CoreError(description) => Exit1(SendFailed(description))
    case OtherError(description) => Exit1(Unexpected(description))
  }

  /** `revoke_temp_access`: with no instances it exits and sends nothing;
      otherwise it sends one `RemoveLocalADUser` command naming every instance,
      for the one user, and yields its command id or exits. */
  function RevokeTempAccess(instanceIds: seq<string>, username: string, send: SendRequest -> SendReply)
    : (r: (Outcome, seq<SendRequest>))
    ensures instanceIds == [] ==> r == (Exit1(NoInstances), [])
    ensures instanceIds != [] ==> |r.1| == 1
    ensures instanceIds != [] ==>
      && r.1[0].documentName == "RemoveLocalADUser"
      && r.1[0].comment == "Revoking temporary SSH access for " + username
      && r.1[0].targets == [Target("InstanceIds", instanceIds)]
      && r.1[0].parameters == map["username" := [username]]
      && (r.0.Sent? <==> send(r.1[0]).Accepted?)
      && (r.0.Sent? ==> r.0.commandId == send(r.1[0]).commandId)
  {
    if instanceIds == [] then (Exit1(NoInstances), [])
    else
      var request := BatchRequest("RemoveLocalADUser", instanceIds, username, "Revoking temporary SSH access for " + username);
      (Conclude(send(request)), [request])
  }

  /** `grant_windows_ad_admin`: as `RevokeTempAccess`, with the document
      `AddLocalAdminADUser`. */
  function GrantWindowsAdAdmin(instanceIds: seq<string>, username: string, send: SendRequest -> SendReply)
    : (r: (Outcome, seq<SendRequest>))
    ensures instanceIds == [] ==> r == (Exit1(NoInstances), [])
    ensures instanceIds != [] ==> |r.1| == 1
    ensures instanceIds != [] ==>
      && r.1[0].documentName == "AddLocalAdminADUser"
      && r.1[0].comment == "Granting Windows local admin access to " + username
      && r.1[0].targets == [Target("InstanceIds", instanceIds)]
      && r.1[0].parameters == map["username" := [username]]
      && (r.0.Sent? <==> send(r.1[0]).Accepted?)
      && (r.0.Sent? ==> r.0.commandId == send(r.1[0]).commandId)
  {
    if instanceIds == [] then (Exit1(NoInstances), [])
    else
      var request := BatchRequest("AddLocalAdminADUser", instanceIds, username, "Granting Windows local admin access to " + username);
      (Conclude(send(request)), [request])
  }

  /** `main` of the batch script. `calls` lists the cloud calls made, in
      order; `resolved` is the instance list the query produced.
      - Missing configuration exits before any call.
      - The query always runs next, with the tag filter of the configuration; a fault of it exits.
      - An unknown mode exits without sending, even when no instance was found:
        the emptiness check belongs to the grant and revoke functions.
      - For `checkout` or `checkin` with no instance the run exits without sending.
      - Otherwise exactly one send names every resolved instance, and the run
        ends with its command id or exits. */
  method Run(env: Env, query: seq<Filter> -> QueryReply, send: SendRequest -> SendReply)
    returns (outcome: Outcome, calls: seq<Call>, ghost resolved: seq<string>)
    ensures !HasRequired(env) ==> outcome == Exit1(MissingConfiguration) && calls == []
    ensures HasRequired(env) ==>
      |calls| >= 1 && calls[0] == QueryCall([Filter("tag:" + env.tagKey.value, ParseTagValues(env.tagValues.value))])
    ensures HasRequired(env) && InventoryReply(env, query).QueryFault? ==>
      outcome == Exit1(QueryFailed(InventoryReply(env, query).description)) && |calls| == 1
    ensures HasRequired(env) && InventoryReply(env, query).Pages? ==>
      NoDuplicates(resolved) && forall id :: id in resolved <==> RunningIn(InventoryReply(env, query).pages, id)
    ensures HasRequired(env) && InventoryReply(env, query).Pages? && OperationFor(Mode(env)).None? ==>
      outcome == Exit1(UnknownMode(Mode(env))) && |calls| == 1
    ensures HasRequired(env) && InventoryReply(env, query).Pages? && OperationFor(Mode(env)).Some? && resolved == [] ==>
      outcome == Exit1(NoInstances) && |calls| == 1
    ensures HasRequired(env) && InventoryReply(env, query).Pages? && OperationFor(Mode(env)).Some? && resolved != [] ==>
      var op, user := OperationFor(Mode(env)).value, env.user.value;
      var request := BatchRequest(op.documentName, resolved, user, Comment(op, user));
      && calls[1..] == [SendCall(request)]
      && (outcome.Sent? <==> send(request).Accepted?)
      && (outcome.Sent? ==> outcome.commandId == send(request).commandId)
  {
    if !Truthy(env.tagKey) || !Truthy(env.tagValues) || !Truthy(env.user) {
      return Exit1(MissingConfiguration), [], [];
    }
    resolved := [];
    var tagKey, tagValues, user, mode := env.tagKey.value, env.tagValues.value, env.user.value, Mode(env);
    var lookup;
    lookup, calls := GetInstanceIdsByTagValues(tagKey, tagValues, query);
    match lookup
    case Failed(description) =>
      outcome := Exit1(QueryFailed(description));
    case Found(instanceIds) =>
      resolved := instanceIds;
      if mode == "checkout" {
        var (result, sent) := GrantWindowsAdAdmin(instanceIds, user, send);
        outcome := result;
        calls := calls + SendCalls(sent);
      } else if mode == "checkin" {
        var (result, sent) := RevokeTempAccess(instanceIds, user, send);
        outcome := result;
        calls := calls + SendCalls(sent);
      } else {
        outcome := Exit1(UnknownMode(mode));
      }
  }
}
