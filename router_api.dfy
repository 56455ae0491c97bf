/**
 * The values the `run` service handler of the Mikrotik component works with:
 * the service call's data, the records the RouterOS API returns, the remote
 * calls the handler issues and the way a request ends.
 *
 * The router itself, the regular-expression engine and the tokenisation done
 * by `re.findall` are not modelled; they enter as the total functions held by
 * `Externals`.
 */
module RouterApi {

  datatype Option<+T> = None | Some(value: T)

  /** A record returned by `api.path(...)`: field name to field value. */
  type Record = map<string, string>

  /**
   * Keyword arguments of a remote call. A value is `None` where Python would
   * pass `None` (the `.id` of a record that has no `.id` field).
   */
  type Args = map<string, Option<string>>

  /** The field RouterOS uses for record identifiers. */
  const IdKey: string := ".id"

  /** The path of the script table used by the run-script branch. */
  const ScriptPath: seq<string> := ["system", "script"]

  /** The verb that runs a script. */
  const RunVerb: string := "run"

  /** One `(key, op, value)` tuple found in the filter string. */
  datatype Predicate = Predicate(key: string, op: string, value: string)

  /** A remote call the handler issues. */
  datatype Call =
    | Invoke(path: seq<string>, verb: string, args: Args)  // cmd(verb, **args) on api.path(*path)
    | Listing(path: seq<string>)                           // list(api.path(*path))

  /**
   * The service call's data. `None` is a field the call does not carry
   * (`call.data.get` returns None); `Some(s)` a field it carries.
   */
  datatype Request = Request(
    name: Option<string>,
    command: Option<string>,
    find: Option<string>,
    findParams: Option<string>,
    add: Option<string>,
    remove: Option<string>,
    update: Option<string>,
    params: Option<string>)

  /** The operation an add/remove/update flag selects. */
  datatype Change = Add | Remove | Update

  /** How one invocation of the handler ends. */
  datatype Outcome =
    | Issued(calls: seq<Call>)   // these remote calls, in this order
    | InvalidCommand             // fewer than two words in the command
    | NotFound                   // a filter was given and matched no record
    | MissingParameters          // a change flag with empty parameters
    | Unimplemented(change: Change) // a change flag: only an error is logged
    | ApiError                   // an exception caught by the handler's catch-all
    | Ignored                    // neither a script name nor a command

  /**
   * What the handler obtains from outside its own code.
   * - `query(p)`: the records `api.path(*p)` yields.
   * - `search(pattern, text)`: whether `re.search(pattern, text)` finds a match.
   * - `predicateTokens(s)`: the tuples `re.findall` extracts from a filter string.
   * - `paramTokens(s)`: the pairs `re.findall` extracts from a parameter string.
   */
  datatype Externals = Externals(
    query: seq<string> -> seq<Record>,
    search: (string, string) -> bool,
    predicateTokens: string -> seq<Predicate>,
    paramTokens: string -> seq<(string, string)>)

  /** Python truthiness of an optional string field. */
  predicate Truthy(f: Option<string>)
  {
    f.Some? && f.value != ""
  }

  /** `item.get('.id')`. */
  function IdOf(item: Record): Option<string>
  {
    if IdKey in item then Some(item[IdKey]) else None
  }
}
