/**
 * The `params` field: its conversion to a dictionary, the Python value the
 * handler's `params` variable holds afterwards, and the per-id loop that
 * merges each matched `.id` over it.
 */
module Params {
  import opened RouterApi

  /** `dict(pairs)`: later pairs override earlier ones with the same key. */
  function ToDict(pairs: seq<(string, string)>): map<string, string>
  {
    if pairs == [] then map[]
    else
      var last := pairs[|pairs| - 1];
      ToDict(pairs[..|pairs| - 1])[last.0 := last.1]
  }

  /** The keys that occur in a pair list. */
  function KeysOf(pairs: seq<(string, string)>): set<string>
  {
    set k | 0 <= k < |pairs| :: pairs[k].0
  }

  /** The dictionary has exactly the keys of the pair list. */
  lemma {:induction false} ToDictKeys(pairs: seq<(string, string)>)
    ensures ToDict(pairs).Keys == KeysOf(pairs)
  {
    if pairs != [] {
      var init := pairs[..|pairs| - 1];
      ToDictKeys(init);
      assert forall k :: 0 <= k < |init| ==> init[k] == pairs[k];
      assert KeysOf(pairs) == KeysOf(init) + {pairs[|pairs| - 1].0};
    }
  }

  /** A key maps to the value of its last occurrence in the pair list. */
  lemma {:induction false} ToDictLastWins(pairs: seq<(string, string)>, k: nat)
    requires k < |pairs|
    requires forall j :: k < j < |pairs| ==> pairs[j].0 != pairs[k].0
    ensures pairs[k].0 in ToDict(pairs) && ToDict(pairs)[pairs[k].0] == pairs[k].1
  {
    if k < |pairs| - 1 {
      ToDictLastWins(pairs[..|pairs| - 1], k);
    }
  }

  /** The string values of a parsed dictionary as keyword arguments. */
  function Lift(d: map<string, string>): (args: Args)
  {
    map key | key in d :: Some(d[key])
  }

  /**
   * What the handler's `params` variable holds after the conversion step:
   * None when the call has no `params` field, the empty string when the field
   * is empty (the conversion is skipped), otherwise the parsed dictionary.
   */
  datatype ParamsValue = Missing | EmptyText | Parsed(d: Args)
  {
    /** Python truthiness of the value. */
    predicate Truthy()
    {
      Parsed? && |d| > 0
    }

    /** `len(params)`; `None` where `len` raises (on Python's None). */
    function Len(): Option<nat>
    {
      match this
      case Missing => None
      case EmptyText => Some(0)
      case Parsed(d) => Some(|d|)
    }

    /** The arguments the value contributes to a per-id call. */
    function Base(): Args
    {
      if Truthy() then d else map[]
    }
  }

  /** The conversion step: `dict(re.findall(...))` applied to a non-empty field. */
  function ParseParams(field: Option<string>, tokens: string -> seq<(string, string)>): (pv: ParamsValue)
  {
    match field
    case None => Missing
    case Some(s) => if s == "" then EmptyText else Parsed(Lift(ToDict(tokens(s))))
  }

  /**
   * A non-empty `params` field becomes a dictionary whose keys are exactly
   * the keys `re.findall` found and in which every key holds, as a keyword
   * argument, the value of its last occurrence.
   */
  lemma ParsedParamsMeaning(field: Option<string>, tokens: string -> seq<(string, string)>)
    requires Truthy(field)
    ensures var pairs := tokens(field.value);
      var pv := ParseParams(field, tokens);
      && pv.Parsed?
      && pv.d.Keys == KeysOf(pairs)
      && forall k :: 0 <= k < |pairs| && (forall j :: k < j < |pairs| ==> pairs[j].0 != pairs[k].0) ==>
        pv.d[pairs[k].0] == Some(pairs[k].1)
  {
    var pairs := tokens(field.value);
    ToDictKeys(pairs);
    forall k | 0 <= k < |pairs| && (forall j :: k < j < |pairs| ==> pairs[j].0 != pairs[k].0)
      ensures ParseParams(field, tokens).d[pairs[k].0] == Some(pairs[k].1)
    {
      ToDictLastWins(pairs, k);
    }
  }

  /**
   * One call per matched id, in id order: each carries the parameters with
   * that id merged over them, and nothing of the other ids.
   */
  function PerIdCalls(path: seq<string>, verb: string, params: ParamsValue, ids: seq<Option<string>>): (calls: seq<Call>)
    ensures |calls| == |ids|
    ensures forall k :: 0 <= k < |ids| ==>
      && calls[k].Invoke? && calls[k].path == path && calls[k].verb == verb
      && calls[k].args.Keys == params.Base().Keys + {IdKey}
      && calls[k].args[IdKey] == ids[k]
    ensures forall k, key :: 0 <= k < |ids| && key in params.Base() && key != IdKey ==>
      calls[k].args[key] == params.Base()[key]
  {
    seq(|ids|, k requires 0 <= k < |ids| => Invoke(path, verb, params.Base() + map[IdKey := ids[k]]))
  }

  /**
   * The per-id loop: each iteration rebinds `params` to
   * `{**params, **id}` when it is truthy and to `id` otherwise, then issues
   * the call with it.
   */
  method PlanPerId(path: seq<string>, verb: string, params: ParamsValue, ids: seq<Option<string>>)
    returns (calls: seq<Call>)
    ensures calls == PerIdCalls(path, verb, params, ids)
  {
    calls := [];
    var current := params;
    for i := 0 to |ids|
      invariant |calls| == i
      invariant forall k :: 0 <= k < i ==> calls[k] == Invoke(path, verb, params.Base() + map[IdKey := ids[k]])
      invariant i == 0 ==> current == params
      invariant i > 0 ==> current == Parsed(params.Base() + map[IdKey := ids[i - 1]])
    {
      var id := map[IdKey := ids[i]];
      if current.Truthy() {
        current := Parsed(current.d + id);
      } else {
        current := Parsed(id);
      }
      MergeStep(params, if i == 0 then None else Some(ids[i - 1]), ids[i]);
      calls := calls + [Invoke(path, verb, current.d)];
    }
  }

  /** One iteration of the per-id loop leaves the parameters with the new id merged over them. */
  lemma MergeStep(params: ParamsValue, previous: Option<Option<string>>, id: Option<string>)
    ensures var current := if previous.None? then params else Parsed(params.Base() + map[IdKey := previous.value]);
      (if current.Truthy() then current.d + map[IdKey := id] else map[IdKey := id])
        == params.Base() + map[IdKey := id]
  {
  }
}
