/** The provisional decision: checked tally entries and the plurality outcome drawn from them. */
module DecisionProofs {
  import opened Outcomes

  datatype Entry = Entry(count: int, optionId: string)

  /** A tally result with one count for every option; the total is claimed separately. */
  datatype TallyResult = TallyResult(options: seq<Entry>, acceptedCount: int)

  datatype Outcome = Selected(optionId: string) | NoOutcome

  function Sum(entries: seq<Entry>): int
  {
    if entries == [] then 0 else Sum(entries[..|entries| - 1]) + entries[|entries| - 1].count
  }

  // ------------------------------------------------------------ tally entries

  function CheckOption(optionId: string, option: Entry): Result<Entry>
  {
    if option.optionId != optionId then Failure(TallyMismatch)
    else if option.count < 0 then Failure(NonCanonical)
    else Success(Entry(option.count, optionId))
  }

  /** `_tally_entries`: the counts in the order of the frozen option ids. */
  method TallyEntries(t: TallyResult, frozenIds: seq<string>) returns (r: Result<seq<Entry>>)
    ensures r.Success? <==> GoodTally(t, frozenIds)
    ensures r.Success? ==> r.value == t.options
    ensures r.Failure? ==> r.error == if NegativeFirst(t, frozenIds) then NonCanonical else TallyMismatch
  {
    if |t.options| != |frozenIds| {
      return Failure(TallyMismatch);
    }
    var entries: seq<Entry> := [];
    for n := 0 to |frozenIds|
      invariant entries == t.options[..n]
      invariant forall i | 0 <= i < n :: GoodAt(t, frozenIds, i)
    {
      match CheckOption(frozenIds[n], t.options[n]) {
        case Failure(e) =>
          assert !GoodAt(t, frozenIds, n);
          return Failure(e);
        case Success(entry) => entries := entries + [entry];
      }
    }
    assert entries == t.options;
    if Sum(entries) != t.acceptedCount {
      return Failure(TallyMismatch);
    }
    return Success(entries);
  }

  predicate GoodAt(t: TallyResult, frozenIds: seq<string>, i: nat)
    requires i < |t.options| == |frozenIds|
  {
    t.options[i].optionId == frozenIds[i] && t.options[i].count >= 0
  }

  /** The first option that is not in order has the right id and a negative count. */
  ghost predicate NegativeFirst(t: TallyResult, frozenIds: seq<string>)
  {
    && |t.options| == |frozenIds|
    && exists i :: 0 <= i < |t.options| && !GoodAt(t, frozenIds, i) && t.options[i].optionId == frozenIds[i]
                   && forall j | 0 <= j < i :: GoodAt(t, frozenIds, j)
  }

  /** Options in the frozen order, counts that are not negative, and a total that adds up. */
  ghost predicate GoodTally(t: TallyResult, frozenIds: seq<string>)
  {
    && |t.options| == |frozenIds|
    && (forall i | 0 <= i < |t.options| :: GoodAt(t, frozenIds, i))
    && Sum(t.options) == t.acceptedCount
  }

  // ------------------------------------------------------------------ outcome

  function Maximum(entries: seq<Entry>): (m: int)
    requires entries != []
    ensures forall i | 0 <= i < |entries| :: entries[i].count <= m
    ensures exists i :: 0 <= i < |entries| && entries[i].count == m
  {
    var last := entries[|entries| - 1].count;
    if |entries| == 1 then last
    else
      var m := Maximum(entries[..|entries| - 1]);
      if last > m then last else m
  }

  /** The ids of the entries with a given count, in order. */
  function WithCount(entries: seq<Entry>, count: int): seq<string>
  {
    if entries == [] then []
    else
      var last := entries[|entries| - 1];
      WithCount(entries[..|entries| - 1], count) + if last.count == count then [last.optionId] else []
  }

  /** `_outcome`, for the plurality rule with ties left open. */
  function OutcomeOf(entries: seq<Entry>): Outcome
    requires entries != []
  {
    var winners := WithCount(entries, Maximum(entries));
    if |winners| == 1 then Selected(winners[0]) else NoOutcome
  }

  /** How many entries have a given count. */
  lemma {:induction false} WithCountMeaning(entries: seq<Entry>, count: int)
    ensures WithCount(entries, count) == [] <==> forall i | 0 <= i < |entries| :: entries[i].count != count
    ensures |WithCount(entries, count)| == 1 <==> exists i :: Only(entries, count, i)
    ensures forall i | Only(entries, count, i) :: WithCount(entries, count) == [entries[i].optionId]
  {
    if entries != [] {
      var n := |entries| - 1;
      var front := entries[..n];
      WithCountMeaning(front, count);
      OnlyOfPrefix(entries, count);
      forall i | Only(entries, count, i) ensures WithCount(entries, count) == [entries[i].optionId] {
        if i < n {
          assert Only(front, count, i);
        }
      }
    }
  }

  predicate Only(entries: seq<Entry>, count: int, i: int)
  {
    && 0 <= i < |entries| && entries[i].count == count
    && forall j | 0 <= j < |entries| && j != i :: entries[j].count != count
  }

  lemma OnlyOfPrefix(entries: seq<Entry>, count: int)
    requires entries != []
    ensures var n := |entries| - 1; var front := entries[..n];
            (exists i :: Only(entries, count, i)) <==>
            if entries[n].count == count then forall i | 0 <= i < n :: front[i].count != count
            else exists i :: Only(front, count, i)
  {
    var n := |entries| - 1;
    var front := entries[..n];
    if entries[n].count == count {
      if forall i | 0 <= i < n :: front[i].count != count {
        assert forall i | 0 <= i < n :: front[i] == entries[i];
        assert Only(entries, count, n);
      }
    } else {
      if i :| Only(entries, count, i) {
        assert Only(front, count, i);
      }
      if i :| Only(front, count, i) {
        assert forall j | 0 <= j < n :: front[j] == entries[j];
        assert Only(entries, count, i);
      }
    }
  }

  /** The entry is strictly ahead of every other one. */
  predicate Ahead(entries: seq<Entry>, i: int)
  {
    0 <= i < |entries| && forall j | 0 <= j < |entries| && j != i :: entries[j].count < entries[i].count
  }

  /** An option is selected exactly when its count is strictly above every other count; otherwise, and
      only then, there is no outcome. */
  lemma OutcomeMeaning(entries: seq<Entry>, optionId: string)
    requires entries != []
    ensures OutcomeOf(entries) == Selected(optionId) <==> exists i :: Ahead(entries, i) && entries[i].optionId == optionId
    ensures OutcomeOf(entries) == NoOutcome <==> !exists i :: Ahead(entries, i)
  {
    var m := Maximum(entries);
    WithCountMeaning(entries, m);
    forall i ensures Ahead(entries, i) <==> Only(entries, m, i) {
      if Ahead(entries, i) {
        var k :| 0 <= k < |entries| && entries[k].count == m;
        assert k == i;
      }
    }
  }

  lemma {:induction false} SumBelow(entries: seq<Entry>, k: nat, i: int)
    requires Ahead(entries, i) && k <= |entries|
    ensures Sum(entries[..k]) <= k * (entries[i].count - 1) + if i < k then 1 else 0
  {
    if k > 0 {
      SumBelow(entries, k - 1, i);
      assert entries[..k][..k - 1] == entries[..k - 1];
    }
  }

  /** How large a selected count is at least, among `n` options of a checked tally. */
  lemma SelectedCountIsLarge(t: TallyResult, frozenIds: seq<string>, i: int)
    requires GoodTally(t, frozenIds) && Ahead(t.options, i)
    ensures |frozenIds| * t.options[i].count >= t.acceptedCount + |frozenIds| - 1
  {
    SumBelow(t.options, |t.options|, i);
    assert t.options[..|t.options|] == t.options;
  }
}
