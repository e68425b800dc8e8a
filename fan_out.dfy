/** The fan-out variant, `jita_access_multithreaded.py`: one `send_command`
    per instance, every instance reported with its command id or an error
    text. The thread pool is modelled as a sequential loop; the contracts state
    only what holds in every completion order. */
module FanOutAccess {
  import opened Wrappers
  import opened Aws
  import opened TagQuery
  import opened JitConfig

  /** The request `send_ssm_command` makes: one target naming one instance. */
  function SingleTargetRequest(instanceId: string, documentName: string, parameters: map<string, seq<string>>, comment: string): SendRequest {
    SendRequest(documentName, [Target("InstanceIds", [instanceId])], parameters, comment)
  }

  function ErrorText(message: string): string {
    "[ERROR] " + message
  }

  /** How a reported result reads for a given reply: the command id, or the
      error text of whatever went wrong. */
  predicate Reports(text: string, reply: SendReply) {
    match reply
    case Accepted(commandId) => text == commandId
    case ClientError(message) => text == ErrorText(message)
    case CoreError(description) => text == ErrorText(description)
    case OtherError(description) => text == ErrorText(description)
  }

  /** What a call of `send_ssm_command` ends in: a returned `(id, text)` pair,
      or an exception it does not catch. */
  datatype Attempt = Returned(instanceId: string, text: string) | Raised(description: string)

  /** `send_ssm_command`: it sends to exactly the given instance and returns
      that instance's id with the command id, or with `[ERROR] ` and the message
      of a client or core error; any other exception escapes. */
  function SendSsmCommand(instanceId: string, documentName: string, parameters: map<string, seq<string>>, comment: string,
                          send: SendRequest -> SendReply): (r: Attempt)
    ensures var reply := send(SingleTargetRequest(instanceId, documentName, parameters, comment));
      && (r.Raised? <==> reply.OtherError?)
      && (r.Raised? ==> r.description == reply.description)
      && (r.Returned? ==> r.instanceId == instanceId && Reports(r.text, reply))
      && (r.Returned? ==> (reply.Accepted? && r.text == reply.commandId) || ErrorText("") <= r.text)
  {
    match send(SingleTargetRequest(instanceId, documentName, parameters, comment))
    case Accepted(commandId) => Returned(instanceId, commandId)
    case ClientError(message) => Returned(instanceId, ErrorText(message))
    case CoreError(description) => Returned(instanceId, ErrorText(description))
    case OtherError(description) => Raised(description)
  }

  /** The instance ids of a list of results, in the same order. */
  function ResultIds(results: seq<(string, string)>): seq<string> {
    seq(|results|, k requires 0 <= k < |results| => results[k].0)
  }

  /** `execute_multithreaded`: one `send_command` per instance, each naming that
      instance alone, submitted in list order; one result per instance, even
      when a send fails, each carrying the instance's id and what its reply
      reports. */
  method ExecuteMultithreaded(documentName: string, instanceIds: seq<string>, parameters: map<string, seq<string>>,
                              comment: string, send: SendRequest -> SendReply)
    returns (results: seq<(string, string)>, sent: seq<SendRequest>)
    ensures |sent| == |instanceIds|
    ensures forall k :: 0 <= k < |sent| ==> sent[k] == SingleTargetRequest(instanceIds[k], documentName, parameters, comment)
    ensures multiset(ResultIds(results)) == multiset(instanceIds)
    ensures forall k :: 0 <= k < |results| ==>
      Reports(results[k].1, send(SingleTargetRequest(results[k].0, documentName, parameters, comment)))
  {
    results, sent := [], [];
    var i := 0;
    while i < |instanceIds|
      invariant 0 <= i <= |instanceIds|
      invariant |sent| == i
      invariant forall k :: 0 <= k < i ==> sent[k] == SingleTargetRequest(instanceIds[k], documentName, parameters, comment)
      invariant ResultIds(results) == instanceIds[..i]
      invariant forall k :: 0 <= k < |results| ==>
        Reports(results[k].1, send(SingleTargetRequest(results[k].0, documentName, parameters, comment)))
    {
      var instanceId := instanceIds[i];
      sent := sent + [SingleTargetRequest(instanceId, documentName, parameters, comment)];
      match SendSsmCommand(instanceId, documentName, parameters, comment, send) {
        case Returned(inst, text) =>
          results := results + [(inst, text)];
        case Raised(description) =>
          results := results + [(instanceId, ErrorText(description))];
      }
      assert instanceIds[..i + 1] == instanceIds[..i] + [instanceId];
      i := i + 1;
    }
    assert instanceIds[..|instanceIds|] == instanceIds;
  }

  /** An element occurs at most once in a sequence without duplicates. */
  lemma {:induction false} DistinctOccursOnce(a: seq<string>, x: string)
    requires NoDuplicates(a)
    ensures multiset(a)[x] <= 1
  {
    if |a| > 0 {
      var init := a[..|a| - 1];
      assert a == init + [a[|a| - 1]];
      DistinctOccursOnce(init, x);
      if x == a[|a| - 1] {
        assert x !in init;
      }
    }
  }

  /** A reordering of a duplicate-free sequence is duplicate-free: the results
      of a fan-out over distinct instances name each instance exactly once,
      whatever order they complete in. */
  lemma PermutationKeepsDistinct(a: seq<string>, b: seq<string>)
    requires NoDuplicates(a) && multiset(a) == multiset(b)
    ensures NoDuplicates(b)
  {
    forall i, j | 0 <= i < j < |b| ensures b[i] != b[j] {
      if b[i] == b[j] {
        var x := b[i];
        assert b == b[..j] + b[j..];
        assert x in b[..j] && x in b[j..];
        assert multiset(b)[x] == multiset(b[..j])[x] + multiset(b[j..])[x];
        DistinctOccursOnce(a, x);
      }
    }
  }

  /** How a run of the fan-out script ends. */
  datatype Outcome = Exit1(reason: ExitReason) | Reported(results: seq<(string, string)>)

  /** The calls the fan-out makes after the query, for the resolved instances in order. */
  function FanOutCalls(op: Operation, instanceIds: seq<string>, user: string): (calls: seq<Call>)
    ensures |calls| == |instanceIds|
  {
    seq(|instanceIds|, k requires 0 <= k < |instanceIds| =>
      SendCall(SingleTargetRequest(instanceIds[k], op.documentName, Parameters(user), Comment(op, user))))
  }

  /** `main` of the fan-out script. `calls` lists the cloud calls made, in
      order; `resolved` is the instance list the query produced.
      - Missing configuration exits before any call.
      - The one query uses the tag filter of the configuration; a fault of it exits.
      - No running instance exits before the mode is looked at, so nothing is sent.
      - An unknown mode exits without sending.
      - `checkout` and `checkin` send once per resolved instance and report
        exactly one result per instance. */
  method Run(env: Env, query: seq<Filter> -> QueryReply, send: SendRequest -> SendReply)
    returns (outcome: Outcome, calls: seq<Call>, ghost resolved: seq<string>)
    ensures !HasRequired(env) ==> outcome == Exit1(MissingConfiguration) && calls == []
    ensures HasRequired(env) ==>
      |calls| >= 1 && calls[0] == QueryCall([Filter("tag:" + env.tagKey.value, ParseTagValues(env.tagValues.value))])
    ensures HasRequired(env) && InventoryReply(env, query).QueryFault? ==>
      outcome == Exit1(QueryFailed(InventoryReply(env, query).description)) && |calls| == 1
    ensures HasRequired(env) && InventoryReply(env, query).Pages? ==>
      NoDuplicates(resolved) && forall id :: id in resolved <==> RunningIn(InventoryReply(env, query).pages, id)
    ensures HasRequired(env) && InventoryReply(env, query).Pages? && resolved == [] ==>
      outcome == Exit1(NoInstances) && |calls| == 1
    ensures HasRequired(env) && InventoryReply(env, query).Pages? && resolved != [] && OperationFor(Mode(env)).None? ==>
      outcome == Exit1(UnknownMode(Mode(env))) && |calls| == 1
    ensures HasRequired(env) && InventoryReply(env, query).Pages? && resolved != [] && OperationFor(Mode(env)).Some? ==>
      var op, user := OperationFor(Mode(env)).value, env.user.value;
      && outcome.Reported?
      && calls[1..] == FanOutCalls(op, resolved, user)
      && multiset(ResultIds(outcome.results)) == multiset(resolved)
      && NoDuplicates(ResultIds(outcome.results))
      && forall k :: 0 <= k < |outcome.results| ==>
           Reports(outcome.results[k].1,
                   send(SingleTargetRequest(outcome.results[k].0, op.documentName, Parameters(user), Comment(op, user))))
  {
    if !Truthy(env.tagKey) || !Truthy(env.tagValues) || !Truthy(env.user) {
      return Exit1(MissingConfiguration), [], [];
    }
    resolved := [];
    var tagKey, tagValues, user, mode := env.tagKey.value, env.tagValues.value, env.user.value, Mode(env);
    var lookup;
    lookup, calls := GetInstanceIdsByTagValues(tagKey, tagValues, query);
    match lookup
    case Failed(description) =>
      outcome := Exit1(QueryFailed(description));
    case Found(instanceIds) =>
      resolved := instanceIds;
      if |instanceIds| == 0 {
        outcome := Exit1(NoInstances);
      } else if mode == "checkout" {
        var results, sent := ExecuteMultithreaded("AddLocalAdminADUser", instanceIds, Parameters(user),
                                                  "Granting Windows local admin access to " + user, send);
        calls := calls + SendCalls(sent);
        outcome := Reported(results);
        PermutationKeepsDistinct(instanceIds, ResultIds(results));
      } else if mode == "checkin" {
        var results, sent := ExecuteMultithreaded("RemoveLocalADUser", instanceIds, Parameters(user),
                                                  "Revoking temporary SSH access for " + user, send);
        calls := calls + SendCalls(sent);
        outcome := Reported(results);
        PermutationKeepsDistinct(instanceIds, ResultIds(results));
      } else {
        outcome := Exit1(UnknownMode(mode));
      }
  }
}
