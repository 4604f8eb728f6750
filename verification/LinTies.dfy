/** A call and a return at the same moment: how they are sorted can decide the verdict. */
module LinTies {
  import opened LinSearch
  import opened LinModel
  import opened KvModel
  import opened Operations

  /** A Put that returns at the moment at which a Get of the old value is called. */
  const TIED: seq<KvOperation> := [
    Operation(0, KvInput(Put, "k", "v"), 0, KvOutput(""), 1),
    Operation(1, KvInput(Get, "k", ""), 1, KvOutput(""), 2)]

  const CALL_FIRST: seq<Entry<KvInput, KvOutput>> :=
    [CallOf(TIED[0], 0), CallOf(TIED[1], 1), ReturnOf(TIED[0], 0), ReturnOf(TIED[1], 1)]

  const RETURN_FIRST: seq<Entry<KvInput, KvOutput>> :=
    [CallOf(TIED[0], 0), ReturnOf(TIED[0], 0), CallOf(TIED[1], 1), ReturnOf(TIED[1], 1)]

  lemma CallFirstSorted()
    ensures IsEntriesOf(CALL_FIRST, TIED)
  {
    assert CALL_FIRST[0] == EntryOf(TIED, 0, false) && CALL_FIRST[2] == EntryOf(TIED, 0, true);
    assert CALL_FIRST[1] == EntryOf(TIED, 1, false) && CALL_FIRST[3] == EntryOf(TIED, 1, true);
  }

  lemma ReturnFirstSorted()
    ensures IsEntriesOf(RETURN_FIRST, TIED)
  {
    assert RETURN_FIRST[0] == EntryOf(TIED, 0, false) && RETURN_FIRST[1] == EntryOf(TIED, 0, true);
    assert RETURN_FIRST[2] == EntryOf(TIED, 1, false) && RETURN_FIRST[3] == EntryOf(TIED, 1, true);
  }

  /** The Get may come first, since it overlaps the Put. */
  lemma GetFirst()
    ensures Linearizable(OpsProblem(SINGLE_KEY, TIED))
  {
    var p := OpsProblem(SINGLE_KEY, TIED);
    var order: seq<nat> := [1, 0];
    assert order[..1] == [1] && [1][..0] == [];
    assert After(p, []) == "";
    assert p.step("", 1) == (true, "") && p.step("", 0) == (true, "v");
    assert After(p, [1]) == "";
    assert Legal(p, order) by {
      forall k | 0 <= k < |order|
        ensures p.step(After(p, order[..k]), order[k]).0
      {
        assert k == 0 || k == 1;
      }
    }
    assert IsLinearization(p, order);
  }

  /** With the return sorted first the Get has to come second, where it finds the new value. */
  lemma GetSecond()
    requires WellFormed(RETURN_FIRST, 2) && Timed(ProblemOf(SINGLE_KEY, RETURN_FIRST, 2))
    ensures !Linearizable(ProblemOf(SINGLE_KEY, RETURN_FIRST, 2))
  {
    var p := ProblemOf(SINGLE_KEY, RETURN_FIRST, 2);
    PosIs(RETURN_FIRST, 2, 0);
    PosIs(RETURN_FIRST, 2, 1);
    PosIs(RETURN_FIRST, 2, 2);
    PosIs(RETURN_FIRST, 2, 3);
    assert p.ret[0] == 1 && p.call[1] == 2;
    forall order: seq<nat> | |order| == 2 && RespectsTime(p, order)
      ensures order == [0, 1]
    {
      assert order[0] != order[1] && !(p.ret[order[1]] < p.call[order[0]]);
    }
    var only: seq<nat> := [0, 1];
    assert only[..1] == [0] && [0][..0] == [];
    assert After(p, []) == "" && p.step("", 0) == (true, "v") && After(p, [0]) == "v";
    assert !p.step(After(p, only[..1]), only[1]).0;
    assert !Legal(p, only);
  }

  /** The history is linearizable; one order of sorting accepts it, and the other rejects it. */
  lemma TieDecides()
    ensures OpsOrdered(TIED) && IsEntriesOf(CALL_FIRST, TIED) && IsEntriesOf(RETURN_FIRST, TIED)
    ensures WellFormed(CALL_FIRST, 2) && Timed(ProblemOf(SINGLE_KEY, CALL_FIRST, 2))
    ensures WellFormed(RETURN_FIRST, 2) && Timed(ProblemOf(SINGLE_KEY, RETURN_FIRST, 2))
    ensures Linearizable(OpsProblem(SINGLE_KEY, TIED))
    ensures Linearizable(ProblemOf(SINGLE_KEY, CALL_FIRST, 2)) && !Linearizable(ProblemOf(SINGLE_KEY, RETURN_FIRST, 2))
  {
    hide Linearizable, WellFormed, Timed;
    CallFirstSorted();
    ReturnFirstSorted();
    EqualityRespected();
    EntriesSound(SINGLE_KEY, RETURN_FIRST, TIED);
    EntriesSameVerdict(SINGLE_KEY, CALL_FIRST, TIED);
    GetFirst();
    GetSecond();
  }
}
