/**
 * The `run` service handler: from one service call to the ordered remote
 * calls it issues, or to the reason it stops before issuing any.
 *
 * `Plan` states the handler's decision as one function; `Run` follows the
 * handler step by step, with its early returns and its two loops, and is
 * proved to agree with `Plan`. The lemmas state what the handler promises.
 */
module Service {
  import opened RouterApi
  import opened Words
  import opened Filter
  import opened Params

  // ----- run-script branch -----

  /** A script record whose `name` is the requested name (`where(name == req_script)`). */
  predicate NamedScript(item: Record, name: string)
  {
    "name" in item && item["name"] == name
  }

  /** `select(.id)`: the record cut down to its `.id` field, when it has one. */
  function IdProjection(item: Record): (args: Args)
  {
    if IdKey in item then map[IdKey := Some(item[IdKey])] else map[]
  }

  /** One `run` call on the script table per script with the requested name, in table order. */
  function ScriptRuns(scripts: seq<Record>, name: string): (calls: seq<Call>)
    ensures |calls| <= |scripts|
    ensures forall k :: 0 <= k < |calls| ==>
      calls[k].Invoke? && calls[k].path == ScriptPath && calls[k].verb == RunVerb
  {
    if scripts == [] then []
    else
      var last := scripts[|scripts| - 1];
      ScriptRuns(scripts[..|scripts| - 1], name)
        + (if NamedScript(last, name) then [Invoke(ScriptPath, RunVerb, IdProjection(last))] else [])
  }

  /** Runs follow table order: the runs for a concatenation are those of each part in turn. */
  lemma {:induction false} ScriptRunsConcat(a: seq<Record>, b: seq<Record>, name: string)
    ensures ScriptRuns(a + b, name) == ScriptRuns(a, name) + ScriptRuns(b, name)
  {
    if b != [] {
      var b' := b[..|b| - 1];
      ScriptRunsConcat(a, b', name);
      assert (a + b)[..|a + b| - 1] == a + b';
      assert (a + b)[|a + b| - 1] == b[|b| - 1];
    } else {
      assert a + b == a;
    }
  }

  /** Every script with the requested name is run, with its own id. */
  lemma {:induction false} NamedScriptIsRun(scripts: seq<Record>, name: string, k: nat)
    requires k < |scripts| && NamedScript(scripts[k], name)
    ensures Invoke(ScriptPath, RunVerb, IdProjection(scripts[k])) in ScriptRuns(scripts, name)
  {
    if k < |scripts| - 1 {
      NamedScriptIsRun(scripts[..|scripts| - 1], name, k);
    }
  }

  /** Every run targets a script with the requested name. */
  lemma {:induction false} RunsOnlyNamedScripts(scripts: seq<Record>, name: string, call: Call)
    requires call in ScriptRuns(scripts, name)
    ensures exists k :: 0 <= k < |scripts| && NamedScript(scripts[k], name) && call.args == IdProjection(scripts[k])
  {
    var init := scripts[..|scripts| - 1];
    if call in ScriptRuns(init, name) {
      RunsOnlyNamedScripts(init, name, call);
      var k :| 0 <= k < |init| && NamedScript(init[k], name) && call.args == IdProjection(init[k]);
      assert scripts[k] == init[k];
    } else {
      assert NamedScript(scripts[|scripts| - 1], name);
    }
  }

  // ----- command branch -----

  /** Both `find` and `find_params` are given and non-empty, so the filter runs. */
  predicate Filtering(req: Request)
  {
    Truthy(req.find) && Truthy(req.findParams)
  }

  /** The ids the filter selects among the records of the `find` path. */
  function FilterIds(req: Request, ext: Externals): seq<Option<string>>
    requires Filtering(req)
  {
    MatchedIds(ext.query(Split(req.find.value)), ext.predicateTokens(req.findParams.value), ext.search)
  }

  /** One of the `add`, `remove`, `update` flags is set. */
  predicate ChangeRequested(req: Request)
  {
    Truthy(req.add) || Truthy(req.remove) || Truthy(req.update)
  }

  /** The flag that wins: add before remove before update. */
  function ChangeOf(req: Request): Change
    requires ChangeRequested(req)
  {
    if Truthy(req.add) then Add else if Truthy(req.remove) then Remove else Update
  }

  /** The remote path: every word of the command but the last. */
  function PathOf(command: seq<string>): seq<string>
    requires |command| >= 2
  {
    command[..|command| - 1]
  }

  /** The verb: the last word of the command. */
  function VerbOf(command: seq<string>): string
    requires |command| >= 2
  {
    command[|command| - 1]
  }

  /**
   * The branch taken once the ids are known and the parameters converted:
   * a change flag, the per-id calls, a single call with the parameters, or
   * a listing of the whole command path. `len(params)` on None ends in the
   * catch-all.
   */
  function Dispatch(req: Request, command: seq<string>, ids: seq<Option<string>>, params: ParamsValue): Outcome
    requires |command| >= 2
  {
    if ChangeRequested(req) then
      match params.Len()
      case None => ApiError
      case Some(n) => if n == 0 then MissingParameters else Unimplemented(ChangeOf(req))
    else if |ids| > 0 then
      Issued(PerIdCalls(PathOf(command), VerbOf(command), params, ids))
    else
      match params.Len()
      case None => ApiError
      case Some(n) =>
        if n > 0 then Issued([Invoke(PathOf(command), VerbOf(command), params.d)])
        else Issued([Listing(command)])
  }

  /** What one invocation of the handler does. */
  function Plan(req: Request, ext: Externals): Outcome
  {
    if req.name.Some? then
      Issued(ScriptRuns(ext.query(ScriptPath), req.name.value))
    else if req.command.None? then
      Ignored
    else
      var command := Split(req.command.value);
      if |command| < 2 then InvalidCommand
      else if Filtering(req) && FilterIds(req, ext) == [] then NotFound
      else
        var ids := if Filtering(req) then FilterIds(req, ext) else [];
        Dispatch(req, command, ids, ParseParams(req.params, ext.paramTokens))
  }

  /** The handler, step by step as it runs. */
  method Run(req: Request, ext: Externals) returns (outcome: Outcome)
    ensures outcome == Plan(req, ext)
  {
    if req.name.Some? {
      return Issued(ScriptRuns(ext.query(ScriptPath), req.name.value));
    }
    if req.command.None? {
      return Ignored;
    }
    var command := Split(req.command.value);
    if |command| < 2 {
      return InvalidCommand;
    }
    var ids := [];
    if Truthy(req.find) && Truthy(req.findParams) {
      var find := Split(req.find.value);
      var required := ext.predicateTokens(req.findParams.value);
      ids := FindIds(ext.query(find), required, ext.search);
      if |ids| == 0 {
        return NotFound;
      }
    }
    var params := ParseParams(req.params, ext.paramTokens);
    if !ChangeRequested(req) && |ids| > 0 {
      var calls := PlanPerId(PathOf(command), VerbOf(command), params, ids);
      return Issued(calls);
    }
    outcome := Dispatch(req, command, ids, params);
  }

  // ----- what the handler promises -----

  /**
   * A command handled without a script name stops as invalid exactly when it
   * has no space, that is fewer than two words; nothing is queried or called.
   */
  lemma ShortCommandStops(req: Request, ext: Externals)
    requires req.name.None? && req.command.Some?
    ensures Plan(req, ext) == InvalidCommand <==> ' ' !in req.command.value
  {
    SingleWordIffNoSpace(req.command.value);
  }

  /**
   * With a valid command, the handler stops on "not found" exactly when a
   * filter was requested and selected no record.
   */
  lemma NoMatchStops(req: Request, ext: Externals)
    requires req.name.None? && req.command.Some? && ' ' in req.command.value
    ensures Plan(req, ext) == NotFound <==> Filtering(req) && FilterIds(req, ext) == []
  {
    SingleWordIffNoSpace(req.command.value);
  }

  /** A filter string with no predicates in it selects nothing, so the handler stops. */
  lemma EmptyFilterStops(req: Request, ext: Externals)
    requires req.name.None? && req.command.Some? && ' ' in req.command.value
    requires Filtering(req) && ext.predicateTokens(req.findParams.value) == []
    ensures Plan(req, ext) == NotFound
  {
    SingleWordIffNoSpace(req.command.value);
    NoPredicatesMatchNothing(ext.query(Split(req.find.value)), ext.search);
  }

  /** Without both filter fields no record is read: the outcome does not depend on the router's records. */
  lemma NoFilterReadsNoRecords(req: Request, ext: Externals, query: seq<string> -> seq<Record>)
    requires req.name.None? && !Filtering(req)
    ensures Plan(req, ext) == Plan(req, ext.(query := query))
  {
  }

  /**
   * A change flag never issues a remote call: absent parameters raise, empty
   * ones stop with "missing parameters", any others only log that the change
   * is not implemented.
   */
  lemma ChangeIssuesNoCall(req: Request, ext: Externals)
    requires req.name.None? && req.command.Some? && ' ' in req.command.value
    requires ChangeRequested(req) && !(Filtering(req) && FilterIds(req, ext) == [])
    ensures !Plan(req, ext).Issued?
    ensures Plan(req, ext) == ApiError <==> req.params.None?
    ensures Plan(req, ext) == MissingParameters
        <==> req.params == Some("") || (Truthy(req.params) && ToDict(ext.paramTokens(req.params.value)) == map[])
    ensures Plan(req, ext).Unimplemented? ==> Plan(req, ext).change == ChangeOf(req)
    ensures Truthy(req.params) && ToDict(ext.paramTokens(req.params.value)) != map[]
        ==> Plan(req, ext) == Unimplemented(ChangeOf(req))
  {
    SingleWordIffNoSpace(req.command.value);
    if Truthy(req.params) {
      var d := ToDict(ext.paramTokens(req.params.value));
      assert |Lift(d)| == 0 <==> d == map[] by {
        assert Lift(d).Keys == d.Keys;
      }
    }
  }

  /**
   * With matched ids and no change flag, exactly one call per id is issued,
   * in id order, to the command's path and verb, each carrying the
   * parameters with that id merged over them. The path is every word of
   * the command but the last and the verb is the last word, so the two
   * joined again give back the command.
   */
  lemma PerIdCallsIssued(req: Request, ext: Externals)
    requires req.name.None? && req.command.Some? && ' ' in req.command.value
    requires Filtering(req) && FilterIds(req, ext) != [] && !ChangeRequested(req)
    ensures var ids := FilterIds(req, ext);
      var params := ParseParams(req.params, ext.paramTokens);
      var command := Split(req.command.value);
      && |command| >= 2
      && Plan(req, ext).Issued?
      && |Plan(req, ext).calls| == |ids|
      && forall k :: 0 <= k < |ids| ==>
        var call := Plan(req, ext).calls[k];
        && call.Invoke?
        && call.path == PathOf(command) && call.verb == VerbOf(command)
        && Join(call.path + [call.verb]) == req.command.value
        && call.args[IdKey] == ids[k]
        && call.args.Keys == params.Base().Keys + {IdKey}
        && forall key :: key in params.Base() && key != IdKey ==> call.args[key] == params.Base()[key]
  {
    var c := req.command.value;
    SingleWordIffNoSpace(c);
    JoinSplit(c);
    var command := Split(c);
    assert PathOf(command) + [VerbOf(command)] == command;
  }

  /** With no ids, no change flag and non-empty parsed parameters, exactly one call carries them verbatim. */
  lemma SingleCallWithParams(req: Request, ext: Externals)
    requires req.name.None? && req.command.Some? && ' ' in req.command.value
    requires !Filtering(req) && !ChangeRequested(req)
    requires Truthy(req.params) && ToDict(ext.paramTokens(req.params.value)) != map[]
    ensures var command := Split(req.command.value);
      && |command| >= 2
      && Plan(req, ext) == Issued([Invoke(PathOf(command), VerbOf(command), Lift(ToDict(ext.paramTokens(req.params.value))))])
  {
    SingleWordIffNoSpace(req.command.value);
    var d := ToDict(ext.paramTokens(req.params.value));
    assert Lift(d).Keys == d.Keys;
    assert d.Keys != {} by {
      var key :| key in d;
    }
  }

  /**
   * With no ids, no change flag and parameters that are empty or yield no
   * pair, the only call lists the whole command path; no verb is invoked.
   */
  lemma ListingWithoutParams(req: Request, ext: Externals)
    requires req.name.None? && req.command.Some? && ' ' in req.command.value
    requires !Filtering(req) && !ChangeRequested(req)
    requires req.params == Some("") || (Truthy(req.params) && ToDict(ext.paramTokens(req.params.value)) == map[])
    ensures Plan(req, ext) == Issued([Listing(Split(req.command.value))])
  {
    SingleWordIffNoSpace(req.command.value);
  }

  /** With no ids, no change flag and no `params` field, `len(None)` raises and the catch-all ends the call. */
  lemma AbsentParamsRaise(req: Request, ext: Externals)
    requires req.name.None? && req.command.Some? && ' ' in req.command.value
    requires !Filtering(req) && !ChangeRequested(req) && req.params.None?
    ensures Plan(req, ext) == ApiError
  {
    SingleWordIffNoSpace(req.command.value);
  }

  /**
   * A script name takes precedence over a command: the command fields are
   * ignored and one run call is issued per script with that name.
   */
  lemma ScriptNameTakesPrecedence(req: Request, ext: Externals, other: Request)
    requires req.name.Some? && other.name == req.name
    ensures Plan(req, ext) == Plan(other, ext)
    ensures Plan(req, ext).Issued?
    ensures forall call :: call in Plan(req, ext).calls ==>
      call.Invoke? && call.path == ScriptPath && call.verb == RunVerb
  {
  }
}
