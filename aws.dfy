/** The data exchanged with the two cloud services the access scripts call:
    the compute inventory (`ec2.describe_instances`, read page by page) and
    the remote command service (`ssm.send_command`). The services themselves
    are not modelled; callers receive them as functions from request to reply. */
module Aws {
  import opened Wrappers

  /** One instance record of a reservation. `stateName` is the `State.Name`
      field; it is `None` when the record has no `State` or the state has no
      `Name`. */
  datatype Instance = Instance(instanceId: string, stateName: Option<string>)

  /** A reservation; a missing `Instances` key is the empty sequence. */
  datatype Reservation = Reservation(instances: seq<Instance>)

  /** One page of `describe_instances`; a missing `Reservations` key is the empty sequence. */
  datatype Page = Page(reservations: seq<Reservation>)

  /** A `{"Name": ..., "Values": [...]}` query filter. */
  datatype Filter = Filter(name: string, values: seq<string>)

  /** What paging through `describe_instances` yields: every page, or a fault
      raised by the client library on some page. */
  datatype QueryReply = Pages(pages: seq<Page>) | QueryFault(description: string)

  /** A `{"Key": ..., "Values": [...]}` command target. */
  datatype Target = Target(key: string, values: seq<string>)

  /** The arguments of one `send_command` call. */
  datatype SendRequest = SendRequest(
    documentName: string,
    targets: seq<Target>,
    parameters: map<string, seq<string>>,
    comment: string)

  /** What one `send_command` call produces: the `Command.CommandId` of the
      reply, a `ClientError` carrying the service's `Error.Message`, a
      `BotoCoreError` with its description, or any other exception raised while
      sending or reading the reply (a reply without `Command.CommandId`, say). */
  datatype SendReply =
    | Accepted(commandId: string)
    | ClientError(message: string)
    | CoreError(description: string)
    | OtherError(description: string)

  /** One call made to a cloud service, in the order the script makes them. */
  datatype Call = QueryCall(filters: seq<Filter>) | SendCall(request: SendRequest)

  /** The trace entries of a sequence of `send_command` requests, in order. */
  function SendCalls(sent: seq<SendRequest>): seq<Call> {
    seq(|sent|, k requires 0 <= k < |sent| => SendCall(sent[k]))
  }
}
