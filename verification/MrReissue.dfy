/**
Handing a task out twice. Two workers with one map task append to the same intermediate file, and
the reduce function sees every value twice. Two workers with one reduce task open the same output
file, and the later one empties what the earlier one has written. This can happen as soon as there
are two workers, and never with one.
*/
module MrReissue {
  import opened MrTypes
  import opened KeyOrder
  import opened MrGroup
  import opened MrMaster
  import opened MrSystem
  import opened MrRefines
  import opened MrHands
  import opened MrDemo

  const RIGHT: Line := Line("k", "one")

  const WRONG: Line := Line("k", "more")

  const MERGED_ONCE: Merged := map["k" := ["v"]]

  const MERGED_TWICE: Merged := map["k" := ["v", "v"]]

  lemma MergesOnce()
    ensures AddRecords(map[], [RECORD]) == MERGED_ONCE && IsOutput(MERGED_ONCE, DEMO.reducef, [RIGHT])
  {
    var kva: Merged := map[];
    assert [RECORD][..0] == [] && AddRecords(kva, []) == kva && [] + ["v"] == ["v"];
    assert AddRecords(kva, [RECORD]) == AddRecord(kva, RECORD);
    assert [RIGHT][0].key == "k";
  }

  lemma MergesTwice()
    ensures AddRecords(map[], [RECORD, RECORD]) == MERGED_TWICE && IsOutput(MERGED_TWICE, DEMO.reducef, [WRONG])
  {
    var kva: Merged := map[];
    MergesOnce();
    assert [RECORD, RECORD][..1] == [RECORD] && ["v"] + ["v"] == ["v", "v"];
    assert AddRecords(kva, [RECORD, RECORD]) == AddRecord(MERGED_ONCE, RECORD);
    assert [WRONG][0].key == "k";
  }

  /** Worker 0 writes the map task. */
  lemma FirstMap() returns (t: Trace)
    ensures Reaches(t, At(Board(Doing, Todo, [RECORD], map[]), 0, WROTE, Boot)) && OneHanded(t)
  {
    hide Reaches, Goes, At, OneHanded;
    var b := Board(Todo, Todo, [], map[]);
    t := Begin();
    t := GetsMap(t, b, 0, Boot);
    var b1 := b.(maps := Doing);
    Appends(b1, 0, Boot);
    assert [] + [RECORD] == [RECORD];
    t := Take(t, At(b1, 0, Mapping(0, 1, [RECORD], false, false), Boot), AppendRecord(0),
        At(b1.(file := [RECORD]), 0, WROTE, Boot));
  }

  /** Worker 0 is then taken for failed; worker 1 gets the map task again and writes it. */
  lemma SecondMap() returns (t: Trace)
    ensures Reaches(t, At(Board(Finished, Todo, [RECORD, RECORD], map[]), 1, RdcAsk(false), WROTE))
  {
    hide Reaches, Goes, At, OneHanded;
    t := FirstMap();
    var b := Board(Doing, Todo, [RECORD], map[]);
    TakenBack(b, 0, WROTE, Boot);
    var b1 := b.(maps := Todo);
    t := Take(t, At(b, 0, WROTE, Boot), Late(0, {0}), At(b1, 0, WROTE, Boot));
    Swap(b1, WROTE, Boot);
    t := GetsMap(t, b1, 1, WROTE);
    Appends(b, 1, WROTE);
    assert [RECORD] + [RECORD] == [RECORD, RECORD];
    var b2 := b.(file := [RECORD, RECORD]);
    t := Take(t, At(b, 1, Mapping(0, 1, [RECORD], false, false), WROTE), AppendRecord(1), At(b2, 1, WROTE, WROTE));
    t := EndsMaps(t, b2, 1, WROTE);
  }

  /** It goes on to reduce what it finds. */
  lemma Duplicates() returns (t: Trace, last: State)
    ensures Reaches(t, last)
    ensures |last.workers| == 2 && AllFinished(last.books.reduces) && last.outputs == map[0 := [WRONG]]
  {
    last := At(Board(Finished, Finished, [], map[0 := [WRONG]]), 1, RdcHead(false), WROTE);
    hide Reaches, Goes, At, OneHanded, IsOutput, AddRecords;
    t := SecondMap();
    var b := Board(Finished, Todo, [RECORD, RECORD], map[]);
    AsksReduce(b, 1, WROTE);
    var b1 := b.(reduces := Doing);
    t := Take(t, At(b, 1, RdcAsk(false), WROTE), AskReduce(1), At(b1, 1, Opening(0, 1, false), WROTE));
    MergesTwice();
    assert map[][0 := [WRONG]] == map[0 := [WRONG]];
    t := DoesReduce(t, b1, 1, WROTE, MERGED_TWICE, WRONG);
  }

  /**
  Worker 0 ends the map task, gets the reduce task and is taken for failed before it opens the
  output; worker 1 does the reduce task. The files of both tasks pass through one hand.
  */
  lemma SecondReduce() returns (t: Trace)
    ensures OneHanded(t)
    ensures Reaches(t, At(Board(Finished, Finished, [], map[0 := [RIGHT]]), 1, RdcHead(false), Opening(0, 1, false)))
  {
    hide Reaches, Goes, At, OneHanded;
    t := FirstMap();
    var b := Board(Doing, Todo, [RECORD], map[]);
    t := EndsMaps(t, b, 0, Boot);
    var b1 := b.(maps := Finished);
    AsksReduce(b1, 0, Boot);
    var b2, x := b1.(reduces := Doing), Opening(0, 1, false);
    t := Take(t, At(b1, 0, RdcAsk(false), Boot), AskReduce(0), At(b2, 0, x, Boot));
    TakenBack(b2, 0, x, Boot);
    t := Take(t, At(b2, 0, x, Boot), Late(0, {0}), At(b1, 0, x, Boot));
    Swap(b1, x, Boot);
    Polls(b1, 1, Boot, x);
    t := Take(t, At(b1, 1, Boot, x), PollMaps(1), At(b1, 1, MapHead(true), x));
    t := LeavesMaps(t, b1, 1, x);
    AsksReduce(b1, 1, x);
    t := Take(t, At(b1, 1, RdcAsk(false), x), AskReduce(1), At(b2, 1, x, x));
    MergesOnce();
    assert map[][0 := [RIGHT]] == map[0 := [RIGHT]];
    t := DoesReduce(t, b2, 1, x, MERGED_ONCE, RIGHT);
  }

  /** There is a run with a reissued task in which files pass through one hand, and it ends right. */
  lemma ReissueMayBeHarmless() returns (t: Trace)
    ensures IsOneHandRun(DEMO, t.run, t.steps) && (exists i :: 0 <= i < |t.steps| && !Quiet(t.run[i], t.steps[i]))
    ensures AllFinished(t.run[|t.steps|].books.reduces) && OutputsComplete(DEMO, t.run[|t.steps|])
    ensures HasLine(DEMO, t.run[|t.steps|], 0, 0, RIGHT)
  {
    t := SecondReduce();
    var last := At(Board(Finished, Finished, [], map[0 := [RIGHT]]), 1, RdcHead(false), Opening(0, 1, false));
    assert t.run[|t.steps|] == last;
    assert AllFinished(last.books.reduces);
    assert HasLine(DEMO, last, 0, 0, RIGHT);
    FinalOutputs(DEMO, t.run, t.steps, |t.steps|);
    HeldButFinished(last);
    hide IsRun, OneHanded, OutputsComplete, Apart, Quiet;
    if forall i :: 0 <= i < |t.steps| ==> Quiet(t.run[i], t.steps[i]) {
      TaskTwice(t, last);
    }
  }

  lemma HeldButFinished(st: State)
    requires |st.workers| == 2 && st.workers[0] == Opening(0, 1, false) && st.books.reduces == [Finished]
    ensures !Apart(st)
  {
    assert !Unfinished(st.books, st.workers[0]);
  }

  /** Without reissue no two workers hold one task. */
  lemma TaskTwice(t: Trace, last: State)
    requires Reaches(t, last) && forall i :: 0 <= i < |t.steps| ==> Quiet(t.run[i], t.steps[i])
    ensures Apart(last)
  {
    ApartUpTo(DEMO, t.run, t.steps, |t.steps|);
  }

  /** Worker 0 goes on after that, and empties the output. */
  lemma Empties() returns (t: Trace, last: State)
    ensures Reaches(t, last) && AllFinished(last.books.reduces) && last.outputs == map[0 := []]
    ensures 0 < |t.steps| && t.run[|t.steps| - 1].outputs == map[0 := [RIGHT]]
    ensures AllFinished(t.run[|t.steps| - 1].books.reduces)
  {
    t := SecondReduce();
    var b, x := Board(Finished, Finished, [], map[0 := [RIGHT]]), Opening(0, 1, false);
    Swap(b, x, RdcHead(false));
    Opens(b, 0, RdcHead(false));
    assert b.output[0 := []] == map[0 := []];
    last := At(b.(output := map[0 := []]), 0, Reducing(0, 1, 0, map[], false), RdcHead(false));
    var before := At(b, 0, x, RdcHead(false));
    LastState(t, before);
    hide Goes, OneHanded, Reaches;
    t := Take(t, before, OpenOutput(0), last);
  }

  lemma LastState(t: Trace, last: State)
    requires Reaches(t, last)
    ensures |t.run| == |t.steps| + 1 && t.run[|t.steps|] == last
  {
  }

  /**
  A run in which two workers write the files of one task ends with a line that the sequential
  program does not write.
  */
  lemma ReissueDuplicates(lines: seq<Line>) returns (t: Trace)
    requires LinesFor(DEMO, lines, ALL_KEYS)
    ensures OrderFree(DEMO)
    ensures IsRun(DEMO, t.run, t.steps) && AllFinished(t.run[|t.steps|].books.reduces)
    ensures HasLine(DEMO, t.run[|t.steps|], 0, 0, WRONG) && WRONG !in lines
  {
    hide LinesFor, OrderFree;
    var last;
    t, last := Duplicates();
    OneValueOnly(lines);
    SizesAgree();
  }

  /** A run in which two workers open one output ends with the output empty, after all lines were there. */
  lemma ReissueEmpties() returns (t: Trace)
    ensures IsRun(DEMO, t.run, t.steps) && 0 < |t.steps|
    ensures var done, last := t.run[|t.steps| - 1], t.run[|t.steps|];
            && AllFinished(done.books.reduces) && HasLine(DEMO, done, 0, 0, RIGHT)
            && AllFinished(last.books.reduces) && last.outputs == map[0 := []]
    ensures !OutputsComplete(DEMO, t.run[|t.steps|])
  {
    var last;
    t, last := Empties();
    NoLineOfPair(last);
  }

  lemma NoLineOfPair(st: State)
    requires st.outputs == map[0 := []]
    ensures !OutputsComplete(DEMO, st)
  {
    if OutputsComplete(DEMO, st) {
      assert LinesFor(DEMO, st.outputs[0], KeysOfTask(DEMO, 0)) && "k" in KeysOfTask(DEMO, 0);
      PairHasValues();
    }
  }

  lemma PairHasValues()
    ensures TotalValues(DEMO, 1, "k") == multiset{"v"}
  {
    assert [PAIR][..0] == [];
    assert ValuesOf([PAIR], "k") == multiset{"v"};
    assert TotalValues(DEMO, 1, "k") == TotalValues(DEMO, 0, "k") + multiset{"v"};
  }

  lemma LineOfPair(line: Line)
    requires LineOk(DEMO, line) && line.key == "k"
    ensures line.output == "one"
  {
    PairHasValues();
    var vs :| vs != [] && multiset(vs) == TotalValues(DEMO, 1, "k") && line.output == DEMO.reducef("k", vs);
    assert |multiset(vs)| == |vs|;
  }

  lemma OneValueOnly(lines: seq<Line>)
    requires LinesFor(DEMO, lines, ALL_KEYS)
    ensures WRONG !in lines
  {
    forall x | 0 <= x < |lines|
      ensures lines[x] != WRONG
    {
      if lines[x].key == "k" {
        LineOfPair(lines[x]);
      }
    }
  }

  lemma SizesAgree()
    ensures OrderFree(DEMO)
  {
    forall k: string, vs: seq<string>, ws: seq<string> | multiset(vs) == multiset(ws)
      ensures DEMO.reducef(k, vs) == DEMO.reducef(k, ws)
    {
      assert |multiset(vs)| == |vs| && |multiset(ws)| == |ws|;
    }
  }

  // ---------- The exact condition ----------

  /** The same state with `k` more workers that have not begun. */
  function Padded(st: State, k: nat): State {
    st.(workers := st.workers + seq(k, _ => Boot))
  }

  lemma PaddedEnabled(job: Job, st: State, step: Step, k: nat)
    requires Enabled(job, st, step)
    ensures step.w < |st.workers| && Enabled(job, Padded(st, k), step)
  {
    hide IsSorting, IsOutput, HandOut;
  }

  /** The worker that moves is none of the new ones. */
  lemma PaddedWorker(st: State, w: nat, k: nat)
    requires w < |st.workers|
    ensures Padded(st, k).workers[w] == st.workers[w]
    ensures forall x :: Move(Padded(st, k), w, x) == Padded(Move(st, w, x), k)
  {
    forall x
      ensures Move(Padded(st, k), w, x) == Padded(Move(st, w, x), k)
    {
      assert Move(Padded(st, k), w, x).workers == Padded(Move(st, w, x), k).workers;
    }
  }

  lemma PaddedStep(job: Job, st: State, step: Step, k: nat)
    requires Enabled(job, st, step)
    ensures Enabled(job, Padded(st, k), step) && Do(job, Padded(st, k), step) == Padded(Do(job, st, step), k)
  {
    PaddedEnabled(job, st, step, k);
    hide IsSorting, IsOutput, GroupsFrom, AddRecords, HandOut, CheckLate, Bucket, Marked, AllFinished, Enabled;
    PaddedWorker(st, step.w, k);
    var a, b := Do(job, Padded(st, k), step), Padded(Do(job, st, step), k);
    assert a.workers == b.workers;
  }

  function PaddedRun(run: seq<State>, k: nat): (padded: seq<State>)
    ensures |padded| == |run| && forall i :: 0 <= i < |run| ==> padded[i] == Padded(run[i], k)
  {
    seq(|run|, i requires 0 <= i < |run| => Padded(run[i], k))
  }

  lemma PaddedIsRun(job: Job, run: seq<State>, steps: seq<Step>, k: nat)
    requires IsRun(job, run, steps)
    ensures IsRun(job, PaddedRun(run, k), steps)
  {
    hide Enabled, Do;
    var padded := PaddedRun(run, k);
    forall i | 0 <= i < |steps|
      ensures Enabled(job, padded[i], steps[i]) && padded[i + 1] == Do(job, padded[i], steps[i])
    {
      assert Enabled(job, run[i], steps[i]) && run[i + 1] == Do(job, run[i], steps[i]);
      PaddedStep(job, run[i], steps[i], k);
    }
  }

  /** However its tasks are handed out, the run ends with the lines of the keys in every output file. */
  ghost predicate EndsRight(job: Job, run: seq<State>) {
    forall i :: 0 <= i < |run| && AllFinished(run[i].books.reduces) ==> OutputsComplete(job, run[i])
  }

  /** With one worker every run ends right. */
  lemma OneWorkerEndsRight(job: Job, run: seq<State>, steps: seq<Step>)
    requires IsRun(job, run, steps) && |run[0].workers| <= 1
    ensures EndsRight(job, run)
  {
    OneHandSuffices(job, run, steps);
    hide IsRun, IsOneHandRun;
    forall i | 0 <= i < |run| && AllFinished(run[i].books.reduces)
      ensures OutputsComplete(job, run[i])
    {
      FinalOutputs(job, run, steps, i);
    }
  }

  /** With any larger number there is a run that does not, unless the files of each task pass through one hand. */
  lemma MoreWorkersMayNot(n: nat) returns (run: seq<State>, steps: seq<Step>)
    requires n >= 2
    ensures IsRun(DEMO, run, steps) && |run[0].workers| == n && !EndsRight(DEMO, run) && !IsOneHandRun(DEMO, run, steps)
  {
    var t, last := Duplicates();
    run, steps := PaddedRun(t.run, n - 2), t.steps;
    PaddedIsRun(DEMO, t.run, t.steps, n - 2);
    SameWorkersAtStart(t, last);
    hide IsRun, IsOneHandRun, EndsRight, LinesFor;
    assert run[|steps|] == Padded(last, n - 2);
    EndsWrong(run, |steps|);
    if IsOneHandRun(DEMO, run, steps) {
      OneHandEndsRight(DEMO, run, steps);
    }
  }

  /** The number of workers never changes. */
  lemma {:induction false} WorkersStay(job: Job, run: seq<State>, steps: seq<Step>, i: nat)
    requires IsRun(job, run, steps) && i < |run|
    ensures |run[i].workers| == |run[0].workers|
    decreases i
  {
    if i > 0 {
      hide Do, Enabled, Init;
      WorkersStay(job, run, steps, i - 1);
      assert Enabled(job, run[i - 1], steps[i - 1]) && run[i - 1 + 1] == Do(job, run[i - 1], steps[i - 1]);
      SameWorkers(job, run[i - 1], steps[i - 1]);
    }
  }

  lemma SameWorkersAtStart(t: Trace, last: State)
    requires Reaches(t, last) && |last.workers| == 2
    ensures |t.run[0].workers| == 2
  {
    WorkersStay(DEMO, t.run, t.steps, |t.steps|);
  }

  lemma EndsWrong(run: seq<State>, i: nat)
    requires i < |run| && AllFinished(run[i].books.reduces) && run[i].outputs == map[0 := [WRONG]]
    ensures !EndsRight(DEMO, run)
  {
    WrongOutput(run[i]);
  }

  lemma WrongOutput(st: State)
    requires st.outputs == map[0 := [WRONG]]
    ensures !OutputsComplete(DEMO, st)
  {
    if OutputsComplete(DEMO, st) {
      assert LinesFor(DEMO, st.outputs[0], KeysOfTask(DEMO, 0));
      assert LineOk(DEMO, st.outputs[0][0]);
      LineOfPair(WRONG);
    }
  }

  lemma OneHandEndsRight(job: Job, run: seq<State>, steps: seq<Step>)
    requires IsOneHandRun(job, run, steps)
    ensures EndsRight(job, run)
  {
    hide IsOneHandRun;
    forall i | 0 <= i < |run| && AllFinished(run[i].books.reduces)
      ensures OutputsComplete(job, run[i])
    {
      FinalOutputs(job, run, steps, i);
    }
  }

  /** Every run of every job with `n` workers ends right. */
  ghost predicate AlwaysEndsRight(n: nat) {
    forall job: Job, run: seq<State>, steps: seq<Step> :: IsRun(job, run, steps) && |run[0].workers| == n ==>
        EndsRight(job, run)
  }

  /** Reissued tasks are harmless without any condition exactly when there is no second worker. */
  lemma EndsRightExactly(n: nat)
    ensures AlwaysEndsRight(n) <==> n <= 1
    ensures forall job: Job, run, steps :: IsOneHandRun(job, run, steps) ==> EndsRight(job, run)
  {
    forall job: Job, run, steps | IsOneHandRun(job, run, steps)
      ensures EndsRight(job, run)
    {
      OneHandEndsRight(job, run, steps);
    }
    if n <= 1 {
      forall job: Job, run: seq<State>, steps: seq<Step> | IsRun(job, run, steps) && |run[0].workers| == n
        ensures EndsRight(job, run)
      {
        OneWorkerEndsRight(job, run, steps);
      }
    } else {
      var run, steps := MoreWorkersMayNot(n);
      assert IsRun(DEMO, run, steps) && !EndsRight(DEMO, run);
    }
  }
}
