/**
 * Record selection by the `find_params` filter: the handler walks the
 * records of the `find` path and keeps the `.id` of every record that
 * satisfies all filter predicates, counting satisfied predicates in
 * `param_counter`.
 */
module Filter {
  import opened RouterApi

  /**
   * One predicate holds of a record: the record has the key and either the
   * operator is `~` and the pattern is found in the field, or the operator is
   * `=` and the field equals the value exactly.
   */
  predicate Satisfies(item: Record, p: Predicate, search: (string, string) -> bool)
  {
    && p.key in item
    && ((p.op == "~" && search(p.value, item[p.key])) || (p.op == "=" && item[p.key] == p.value))
  }

  /** A record is selected when there is at least one predicate and it satisfies all of them. */
  predicate Selected(item: Record, preds: seq<Predicate>, search: (string, string) -> bool)
  {
    |preds| > 0 && forall k :: 0 <= k < |preds| ==> Satisfies(item, preds[k], search)
  }

  /** The number of predicates of `preds` that `item` satisfies. */
  function SatisfiedCount(item: Record, preds: seq<Predicate>, search: (string, string) -> bool): (n: nat)
    ensures n <= |preds|
  {
    if preds == [] then 0
    else
      SatisfiedCount(item, preds[..|preds| - 1], search)
        + (if Satisfies(item, preds[|preds| - 1], search) then 1 else 0)
  }

  /** The counter reaches the number of predicates exactly when every predicate holds. */
  lemma {:induction false} CountIsConjunction(item: Record, preds: seq<Predicate>, search: (string, string) -> bool)
    ensures SatisfiedCount(item, preds, search) == |preds|
        <==> forall k :: 0 <= k < |preds| ==> Satisfies(item, preds[k], search)
  {
    if preds != [] {
      var init := preds[..|preds| - 1];
      CountIsConjunction(item, init, search);
      assert forall k :: 0 <= k < |init| ==> init[k] == preds[k];
    }
  }

  /** The identifiers of the selected records, in the order the records came. */
  function MatchedIds(records: seq<Record>, preds: seq<Predicate>, search: (string, string) -> bool): seq<Option<string>>
  {
    if records == [] then []
    else
      var last := records[|records| - 1];
      MatchedIds(records[..|records| - 1], preds, search)
        + (if Selected(last, preds, search) then [IdOf(last)] else [])
  }

  /**
   * Selection is record by record: the identifiers matched in a concatenation
   * are those of the first part followed by those of the second part.
   */
  lemma {:induction false} MatchedIdsConcat(a: seq<Record>, b: seq<Record>, preds: seq<Predicate>, search: (string, string) -> bool)
    ensures MatchedIds(a + b, preds, search) == MatchedIds(a, preds, search) + MatchedIds(b, preds, search)
  {
    if b != [] {
      var b' := b[..|b| - 1];
      MatchedIdsConcat(a, b', preds, search);
      assert (a + b)[..|a + b| - 1] == a + b';
      assert (a + b)[|a + b| - 1] == b[|b| - 1];
    } else {
      assert a + b == a;
    }
  }

  /** Every selected record contributes its identifier. */
  lemma {:induction false} SelectedRecordContributes(records: seq<Record>, preds: seq<Predicate>, search: (string, string) -> bool, k: nat)
    requires k < |records| && Selected(records[k], preds, search)
    ensures IdOf(records[k]) in MatchedIds(records, preds, search)
  {
    if k < |records| - 1 {
      SelectedRecordContributes(records[..|records| - 1], preds, search, k);
    }
  }

  /** Every matched identifier comes from a selected record. */
  lemma {:induction false} MatchedIdsComeFromSelected(records: seq<Record>, preds: seq<Predicate>, search: (string, string) -> bool, id: Option<string>)
    requires id in MatchedIds(records, preds, search)
    ensures exists k :: 0 <= k < |records| && Selected(records[k], preds, search) && IdOf(records[k]) == id
  {
    var init := records[..|records| - 1];
    if id in MatchedIds(init, preds, search) {
      MatchedIdsComeFromSelected(init, preds, search, id);
      var k :| 0 <= k < |init| && Selected(init[k], preds, search) && IdOf(init[k]) == id;
      assert records[k] == init[k];
    } else {
      assert Selected(records[|records| - 1], preds, search);
    }
  }

  /** Each record contributes at most one identifier, so there are at most as many ids as records. */
  lemma {:induction false} AtMostOneIdPerRecord(records: seq<Record>, preds: seq<Predicate>, search: (string, string) -> bool)
    ensures |MatchedIds(records, preds, search)| <= |records|
  {
    if records != [] {
      AtMostOneIdPerRecord(records[..|records| - 1], preds, search);
    }
  }

  /** A filter string that yields no predicates selects nothing. */
  lemma {:induction false} NoPredicatesMatchNothing(records: seq<Record>, search: (string, string) -> bool)
    ensures MatchedIds(records, [], search) == []
  {
    if records != [] {
      NoPredicatesMatchNothing(records[..|records| - 1], search);
    }
  }

  /**
   * The matching loop: for each record, count the satisfied predicates and
   * append the record's id when the count reaches the number of predicates.
   * The check sits inside the inner loop, under the key-presence test.
   */
  method FindIds(records: seq<Record>, preds: seq<Predicate>, search: (string, string) -> bool)
    returns (ids: seq<Option<string>>)
    ensures ids == MatchedIds(records, preds, search)
  {
    ids := [];
    var i := 0;
    while i < |records|
      invariant 0 <= i <= |records|
      invariant ids == MatchedIds(records[..i], preds, search)
    {
      var item := records[i];
      ghost var before := ids;
      var counter := 0;
      var j := 0;
      while j < |preds|
        invariant 0 <= j <= |preds|
        invariant counter == SatisfiedCount(item, preds[..j], search)
        invariant ids == before + (if j > 0 && counter == |preds| then [IdOf(item)] else [])
      {
        var p := preds[j];
        assert preds[..j + 1][..j] == preds[..j];
        if p.key in item {
          if p.op == "~" && search(p.value, item[p.key]) {
            counter := counter + 1;
          } else if p.op == "=" && item[p.key] == p.value {
            counter := counter + 1;
          }
          if |preds| == counter {
            ids := ids + [IdOf(item)];
          }
        }
        j := j + 1;
      }
      assert preds[..j] == preds;
      CountIsConjunction(item, preds, search);
      assert records[..i + 1][..i] == records[..i];
      i := i + 1;
    }
    assert records[..i] == records;
  }
}
