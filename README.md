# Mikrotik `run` service handler — request planning model

This project models the `run` service handler of the Home Assistant Mikrotik
component (`custom_components/mikrotik/__init__.py`). The handler takes one
service call and ends in one of two ways. It issues an ordered list of
RouterOS API calls, or it stops before issuing any. The model covers:

- splitting `command` into words and rejecting commands of fewer than two;
- taking the `(key, op, value)` predicates that `re.findall` extracts from
  `find_params` and selecting the `.id` of every record of the `find` path
  that satisfies all of them, with the `param_counter` loop;
- stopping when a requested filter selects nothing;
- converting `params` into a dictionary;
- the add/remove/update guard;
- one call per matched id, with the id merged over the parameters;
- a single call with the parameters, or a listing of the whole path;
- the run-script branch: one `run` call per script with the requested name.

The router, the regular-expression engine and `re.findall` are outside the
model. They are the fields of `RouterApi.Externals`:

- `query(path)` is the record sequence `api.path(*path)` yields;
  the run-script query `select(id).where(name == req_script)` on
  `system script` is taken to be exact equality on the `name` field of
  `query(["system", "script"])` followed by a projection onto `.id`;
- `search(pattern, text)` is whether `re.search` succeeds;
- `predicateTokens` and `paramTokens` are the tuple lists `re.findall`
  returns for the patterns at lines 111-113 and 143.

The handler's result is a `RouterApi.Outcome`. `Issued(calls)` lists the
remote calls in the order they are made. The other outcomes name why the
handler stopped.

Files:

- `router_api.dfy`: the data model.
- `words.dfy`: Python's `str.split(' ')`.
- `filter.dfy`: predicate matching.
- `params.dfy`: the parameter dictionary and the per-id loop.
- `service.dfy`: the handler as a whole. `Plan` is its specification and
  `Run` follows its steps; the lemmas state the handler's promises.

Behaviour of the code worth noting:

- A filter string that yields no predicates stops the handler with
  "not found". The handler does not treat it as "no filter requested".
- With no ids and no `params` field, `len(None)` raises. The outcome is the
  catch-all `ApiError`, not a listing.
- `add`, `remove` and `update` issue no call; the code only logs that they
  are not implemented.
- `~` is `re.search` of the filter value in the field value.

## Model

| member | source | states |
|---|---|---|
| `Words.Split` | custom_components/mikrotik/__init__.py:92 | `split(' ')` always yields at least one word |
| `Words.JoinSplit` | custom_components/mikrotik/__init__.py:92 | joining the words of a string with single spaces gives the string back |
| `Words.WordsHaveNoSpace` | custom_components/mikrotik/__init__.py:92 | no word contains a space |
| `Words.SplitCount` | custom_components/mikrotik/__init__.py:92 | there is one word more than there are spaces |
| `Words.NoSpacesIffAbsent` | custom_components/mikrotik/__init__.py:92 | the space count is zero iff the string has no space |
| `Words.SingleWordIffNoSpace` | custom_components/mikrotik/__init__.py:92-103 | a command has fewer than two words iff it contains no space |
| `Filter.SatisfiedCount` | custom_components/mikrotik/__init__.py:120-130 | the counter never exceeds the number of predicates |
| `Filter.CountIsConjunction` | custom_components/mikrotik/__init__.py:120-132 | the counter equals the number of predicates iff every predicate holds: key present, and `=` equal or `~` found by search |
| `Filter.FindIds` | custom_components/mikrotik/__init__.py:119-134 | the counting loop appends exactly the ids of the records that satisfy all of at least one predicate, each at most once, in record order |
| `Filter.MatchedIdsConcat` | custom_components/mikrotik/__init__.py:119-134 | ids from earlier records come before ids from later records |
| `Filter.SelectedRecordContributes` | custom_components/mikrotik/__init__.py:119-134 | every record that satisfies all predicates contributes its `.id` |
| `Filter.MatchedIdsComeFromSelected` | custom_components/mikrotik/__init__.py:119-134 | every matched id is the `.id` of a record that satisfies all predicates |
| `Filter.AtMostOneIdPerRecord` | custom_components/mikrotik/__init__.py:119-134 | there are never more matched ids than records |
| `Filter.NoPredicatesMatchNothing` | custom_components/mikrotik/__init__.py:122-134 | with no predicates the inner loop never appends, so nothing matches |
| `Params.ToDictKeys` | custom_components/mikrotik/__init__.py:142-144 | the parameter dictionary has exactly the keys found in the string |
| `Params.ToDictLastWins` | custom_components/mikrotik/__init__.py:142-144 | a repeated key keeps the value of its last occurrence |
| `Params.ParsedParamsMeaning` | custom_components/mikrotik/__init__.py:141-144 | a non-empty `params` field becomes a dictionary with exactly the keys found, each holding the value of its last occurrence |
| `Params.PerIdCalls` | custom_components/mikrotik/__init__.py:166-176 | one call per id, in id order, to the given path and verb; its arguments are the parameters with `.id` set to that id and nothing of other ids |
| `Params.PlanPerId` | custom_components/mikrotik/__init__.py:168-176 | the loop that rebinds `params` to `{**params, **id}` (or to `id` when falsy) issues exactly those calls |
| `Params.MergeStep` | custom_components/mikrotik/__init__.py:169-173 | one rebinding leaves the original parameters with the new id over them, whatever id the previous iteration left |
| `Service.ScriptRuns` | custom_components/mikrotik/__init__.py:79-85 | every run call goes to `system script` with verb `run`, at most one per script |
| `Service.ScriptRunsConcat` | custom_components/mikrotik/__init__.py:79-85 | scripts are run in the order the table lists them |
| `Service.NamedScriptIsRun` | custom_components/mikrotik/__init__.py:79-85 | every script with the requested name is run with its own id |
| `Service.RunsOnlyNamedScripts` | custom_components/mikrotik/__init__.py:79-85 | every run call targets a script with the requested name |
| `Service.Run` | custom_components/mikrotik/__init__.py:63-187 | the step-by-step handler, with its early returns and its two loops, reaches the outcome `Plan` describes |
| `Service.ShortCommandStops` | custom_components/mikrotik/__init__.py:92-103 | without a script name, a command stops as invalid iff it has no space |
| `Service.NoMatchStops` | custom_components/mikrotik/__init__.py:106-138 | a valid command stops on "not found" iff both filter fields are given and the filter selects nothing |
| `Service.EmptyFilterStops` | custom_components/mikrotik/__init__.py:108-138 | a filter string that yields no predicates stops the handler before any call |
| `Service.NoFilterReadsNoRecords` | custom_components/mikrotik/__init__.py:106-108 | without both filter fields the outcome does not depend on the router's records |
| `Service.ChangeIssuesNoCall` | custom_components/mikrotik/__init__.py:141-164 | add/remove/update issue no call: absent params raise, empty ones stop with "missing parameters" (iff empty or unparseable), non-empty parsed ones end in logging that the winning flag's change is not implemented |
| `Service.PerIdCallsIssued` | custom_components/mikrotik/__init__.py:166-176 | with n matched ids exactly n calls, in id order, to `command[:-1]` and `command[-1]`, each with its id over the parameters |
| `Service.SingleCallWithParams` | custom_components/mikrotik/__init__.py:178-180 | with no ids and non-empty parsed parameters, exactly one call carries them verbatim |
| `Service.ListingWithoutParams` | custom_components/mikrotik/__init__.py:182-184 | with no ids and empty or unparseable parameters, the only call lists the whole command path |
| `Service.AbsentParamsRaise` | custom_components/mikrotik/__init__.py:178-187 | with no ids and no `params` field, `len(None)` raises and the catch-all ends the call |
| `Service.ScriptNameTakesPrecedence` | custom_components/mikrotik/__init__.py:70-90 | a script name makes the command fields irrelevant and yields only `run` calls on the script table |

## Left out

- Home Assistant setup, service registration and the `asyncio.coroutine` wrappers (lines 51-60, 194-199): host runtime plumbing.
- The voluptuous configuration and service schemas (lines 26-48): library validation; the model's `Request` admits every combination of fields.
- `connect` and all network I/O (lines 67-68, 79-85, 119, 175-176, 179-180, 184): the router is the `query` function and the calls are returned as descriptors, not executed. A remote error raised by a call, which aborts the remaining calls through the catch-all at line 186, is therefore not modelled, nor is the catch-all at line 87 of the run-script branch.
- The connection-error handler at lines 189-192 (which refers to the name `librouteros`; only `connect` and `Key` are imported from that library, so the name itself is never bound): connection failures are outside the model.
- The regular-expression engine: the tokens of `re.findall` (lines 111-113, 143) and the result of `re.search` (line 124) are inputs.
- `Filter.Satisfies`: `re.search` that raises (a `~` value that is not a valid pattern, such as `a(`) is not modelled; the source then ends in the catch-all at line 186 with nothing issued, while the model's `search` always answers and the handler goes on to `NotFound` or `Issued`.
- Record field values are taken to be strings; a non-string value returned by the router library would change `=` matching and could make `re.search` raise, and this is not modelled.
- Logging: only the outcome each log line accompanies is kept.
- The `.const` module is not part of this model; its names only select fields of the service call.
