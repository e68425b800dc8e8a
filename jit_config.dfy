/** What both access scripts read from the environment at start-up, how they
    validate it, and the two SSM operations their action flag selects. */
module JitConfig {
  import opened Wrappers
  import opened Aws
  import TagQuery

  /** The environment variables `JIT_TAG_KEY`, `JIT_TAG_VALUES`, `USER` and
      `JIT_ACTION`; `None` is an unset variable. */
  datatype Env = Env(tagKey: Option<string>, tagValues: Option<string>, user: Option<string>, action: Option<string>)

  /** Python truthiness of `os.getenv(...)`: set and not empty. */
  predicate Truthy(v: Option<string>) {
    v.Some? && v.value != ""
  }

  /** The validation `not tag_key or not tag_values or not user` fails exactly when this is false. */
  predicate HasRequired(env: Env) {
    Truthy(env.tagKey) && Truthy(env.tagValues) && Truthy(env.user)
  }

  /** `os.getenv("JIT_ACTION", "grant")`. */
  function Mode(env: Env): string {
    env.action.GetOr("grant")
  }

  /** An SSM document and the text its comment starts with, before the user name. */
  datatype Operation = Operation(documentName: string, commentPrefix: string)

  const GrantAdmin := Operation("AddLocalAdminADUser", "Granting Windows local admin access to ")
  const RevokeAdmin := Operation("RemoveLocalADUser", "Revoking temporary SSH access for ")

  /** The operation an action flag selects: `checkout` grants, `checkin`
      revokes, and no other flag, the default `grant` included, selects one. */
  function OperationFor(mode: string): (r: Option<Operation>)
    ensures r == Some(GrantAdmin) <==> mode == "checkout"
    ensures r == Some(RevokeAdmin) <==> mode == "checkin"
    ensures r.None? <==> mode != "checkout" && mode != "checkin"
  {
    if mode == "checkout" then Some(GrantAdmin)
    else if mode == "checkin" then Some(RevokeAdmin)
    else None
  }

  /** With `JIT_ACTION` unset the mode is `grant`, which selects no operation. */
  lemma DefaultModeSelectsNothing(env: Env)
    requires env.action.None?
    ensures Mode(env) == "grant" && OperationFor(Mode(env)).None?
  {
  }

  /** `{"username": [user]}`. */
  function Parameters(user: string): map<string, seq<string>> {
    map["username" := [user]]
  }

  function Comment(op: Operation, user: string): string {
    op.commentPrefix + user
  }

  /** Why a run ends with exit code 1. */
  datatype ExitReason =
    | MissingConfiguration
    | QueryFailed(description: string)
    | NoInstances
    | UnknownMode(mode: string)
    | SendFailed(message: string)
    | Unexpected(description: string)

  /** The reply of the inventory to the one query a validated environment leads to. */
  function InventoryReply(env: Env, query: seq<Filter> -> QueryReply): QueryReply
    requires HasRequired(env)
  {
    query(TagQuery.TagFilters(env.tagKey.value, env.tagValues.value))
  }
}
