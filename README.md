# Just-in-time EC2/SSM access, modelled in Dafny

This project models the EC2 Windows just-in-time access scripts of the
access-broker examples. A checkout adds a user to the local administrators of
every running instance that carries a tag. A checkin removes the user again.
There are two variants of the script:

- `jita_access_multithreaded.py` (module `FanOutAccess`) sends one SSM
  command per instance. It reports one `(instance id, command id or error)`
  pair per instance.
- `jit_access.py` (module `BatchAccess`) sends one SSM command that names
  every instance. Any failure of that send ends the run with exit code 1.

Both variants share the same `get_instance_ids_by_tag_values`. Its text in
`jit_access.py:11-27` is identical to `jita_access_multithreaded.py:12-28`,
so module `TagQuery` models it once and both `Run` methods use it. Module
`Text` models the Python `str.split` and `str.strip` it relies on. Module
`JitConfig` holds the environment check, the `grant` default for the action
flag and the two SSM operations.

The two cloud services are parameters and are not modelled:
`query: seq<Filter> -> QueryReply` stands for paging through
`describe_instances` to the end, and `send: SendRequest -> SendReply` stands
for one `send_command` call. Each `Run` (the scripts' `main`) returns
`calls`, the cloud calls it makes: the query first, then the sends, in the
order the script issues them (for the fan-out, the order it submits them to
its thread pool). This trace is how the contracts say "before any query" and
"nothing is sent".

Both scripts run the instance query before they look at the action flag
(`jita_access_multithreaded.py:71-99`, `jit_access.py:86-96`), so an unknown
flag is reported only after the query. There is no email-to-account
normalisation of the user and no JSON filter: the user name is passed through
as it is, and exactly one `tag:<key>` filter is built. Only `checkout` and
`checkin` are accepted, and the default `grant` is rejected like any other
flag.

## Model

| member | source | states |
|---|---|---|
| `Text.Strip` | EC2/Windows/permissions/MultiInstance/jita_access_multithreaded.py:14 | `v.strip()` leaves no whitespace (Python `str.isspace`) at either end of the result |
| `Text.StripInfix` | EC2/Windows/permissions/MultiInstance/jita_access_multithreaded.py:14 | the stripped value is a contiguous piece of the input, and everything removed on either side is whitespace |
| `Text.StripBlank` | EC2/Windows/permissions/MultiInstance/jita_access_multithreaded.py:14 | `v.strip()` is empty exactly when `v` is all whitespace, which is when the comprehension's `if v.strip()` drops the segment |
| `Text.StripStripped` | EC2/Windows/permissions/MultiInstance/jita_access_multithreaded.py:14 | stripping a value with no whitespace at its ends returns it unchanged |
| `Text.Split` | EC2/Windows/permissions/MultiInstance/jita_access_multithreaded.py:14 | `csv.split(",")` always gives at least one segment, and no segment contains a comma |
| `Text.JoinSplit` | EC2/Windows/permissions/MultiInstance/jita_access_multithreaded.py:14 | re-joining the segments with commas gives back the input, so splitting loses nothing |
| `Text.SplitJoin` | EC2/Windows/permissions/MultiInstance/jita_access_multithreaded.py:14 | splitting the comma-join of comma-free pieces gives back exactly those pieces |
| `TagQuery.ParseTagValues` | EC2/Windows/permissions/MultiInstance/jita_access_multithreaded.py:14 | every parsed tag value is non-empty, has no surrounding whitespace and contains no comma |
| `TagQuery.ParseTagValuesConcat` | EC2/Windows/permissions/MultiInstance/jita_access_multithreaded.py:14 | values are read in input order: parsing `a,b` gives the values of `a` followed by those of `b` |
| `TagQuery.ParseTagValuesSegment` | EC2/Windows/permissions/MultiInstance/jita_access_multithreaded.py:14 | one comma-free segment gives nothing when it is blank, and its stripped text otherwise |
| `TagQuery.ParseTagValuesJoin` | EC2/Windows/permissions/MultiInstance/jita_access_multithreaded.py:14 | any list of stripped, non-blank, comma-free values is recovered exactly from its comma-joined text |
| `TagQuery.RunningIdsMembers` | EC2/Windows/permissions/MultiInstance/jita_access_multithreaded.py:18-23 | an id is collected iff some instance of some reservation on some page has that id and state name `running`; a missing state or any other state is excluded |
| `TagQuery.CollectRunningIds` | EC2/Windows/permissions/MultiInstance/jita_access_multithreaded.py:16-23 | the triple loop over pages, reservations and instances appends exactly the running ids, in page, reservation and instance order |
| `TagQuery.Distinct` | EC2/Windows/permissions/MultiInstance/jita_access_multithreaded.py:25 | `list(set(ids))` has no duplicates and holds exactly the ids of its input; no order is promised |
| `TagQuery.GetInstanceIdsByTagValues` | EC2/Windows/permissions/MultiInstance/jita_access_multithreaded.py:12-28 | exactly one query is made, with the single filter `tag:<key>` whose values are the parsed list; an inventory fault fails with no partial result; otherwise the result is exactly the distinct running ids |
| `JitConfig.OperationFor` | EC2/Windows/permissions/MultiInstance/jita_access_multithreaded.py:77-99 | `checkout` selects `AddLocalAdminADUser`, `checkin` selects `RemoveLocalADUser`, and every other flag selects nothing |
| `JitConfig.DefaultModeSelectsNothing` | EC2/Windows/permissions/MultiInstance/jita_access_multithreaded.py:64 | with `JIT_ACTION` unset the mode is `grant`, which selects no operation |
| `FanOutAccess.SendSsmCommand` | EC2/Windows/permissions/MultiInstance/jita_access_multithreaded.py:30-42 | the request targets exactly the given instance; a returned pair carries that instance's id with the `CommandId` or `[ERROR] ` and the client or core error text; any other exception escapes |
| `FanOutAccess.ExecuteMultithreaded` | EC2/Windows/permissions/MultiInstance/jita_access_multithreaded.py:44-58 | one single-target send per instance, submitted in list order; the result ids are a permutation of the input ids, even when sends fail; each result reports its own instance's reply, with an escaped exception turned into `[ERROR] ` text |
| `FanOutAccess.PermutationKeepsDistinct` | EC2/Windows/permissions/MultiInstance/jita_access_multithreaded.py:51-57 | results collected in any completion order over distinct instances name each instance exactly once |
| `FanOutAccess.Run` | EC2/Windows/permissions/MultiInstance/jita_access_multithreaded.py:60-103 | missing `JIT_TAG_KEY`, `JIT_TAG_VALUES` or `USER` exits before any call; otherwise the tag query runs first; a query fault exits; no running instance exits with no send whatever the mode; an unknown mode (including `grant`) exits with no send; `checkout`/`checkin` send once per instance with `{"username": [user]}` and report one result per instance |
| `BatchAccess.Conclude` | EC2/Windows/permissions/MultiInstance/jit_access.py:61-73 | a batch send ends in its `CommandId` exactly when it was accepted; every error exits with code 1 and returns no partial result |
| `BatchAccess.RevokeTempAccess` | EC2/Windows/permissions/MultiInstance/jit_access.py:29-51 | no instances: exit 1 with no send; otherwise exactly one `RemoveLocalADUser` send whose single target names all ids, with a singleton `username` list; the command id on success, exit 1 on any error |
| `BatchAccess.GrantWindowsAdAdmin` | EC2/Windows/permissions/MultiInstance/jit_access.py:53-73 | no instances: exit 1 with no send; otherwise exactly one `AddLocalAdminADUser` send whose single target names all ids, with a singleton `username` list; the command id on success, exit 1 on any error |
| `BatchAccess.Run` | EC2/Windows/permissions/MultiInstance/jit_access.py:75-100 | missing configuration exits before any call; the query always runs next; an unknown mode (including `grant`) exits with no send even when no instance was found; for `checkout`/`checkin` with no instance it exits with no send; otherwise one send names all distinct running ids and the run ends with its command id or exit 1 |

## Left out

- Creating the boto3 clients and paginator, and the network calls themselves. The inventory is a function from filters to all pages or a fault. The command service is a function from request to reply.
- Paging is not modelled call by call. A fault on any page is one `QueryFault`, and no partial result is returned.
- A `ClientError` raised by `describe_instances` is not a `BotoCoreError`, so it reaches `main`'s generic handler rather than the lookup's. Both exit with code 1, and the model reports both as `QueryFailed`.
- The `ThreadPoolExecutor` worker cap of 10 and concurrent completion. The fan-out is a sequential loop, and its contract states only what holds in every completion order.
- The order in which the fan-out's `send_command` calls reach the service. Up to 10 worker threads run them, so only their submission is in list order; the call trace lists the sends in submission order.
- The order that Python's `set` iteration gives `list(set(...))`. `Distinct` keeps first occurrences, and its contract promises no order.
- The console messages and emoji. Only the `[ERROR] ` prefix of per-instance fan-out results is modelled. The `ExitReason` values stand for the exit-1 messages.
- A running instance record without `InstanceId` would raise `KeyError` and exit 1. The inventory always returns that key, so `Instance.instanceId` is a plain string.
- `os.getenv` is modelled as the `Env` record of optional strings, with the `grant` default applied by `JitConfig.Mode`.
- `auth0/permissions/manageClient/checkout.py` is a single foreign call with placeholder credentials, and it has no logic. The Google Workspace scripts are not part of this model.
