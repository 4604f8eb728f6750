/** MapReduce against the sequential program. */
module MrRefines {
  import opened MrTypes
  import opened KeyOrder
  import opened MrGroup
  import opened MrMaster
  import opened MrSystem

  // ---------- The sequential program ----------

  /** Everything the map function emits for the first `n` files. */
  ghost function AllEmitted(job: Job, n: nat): seq<KeyValue>
    requires n <= |job.files|
  {
    if n == 0 then [] else AllEmitted(job, n - 1) + Emitted(job, n - 1)
  }

  lemma {:induction false} AllValues(job: Job, n: nat, k: string)
    requires n <= |job.files|
    ensures ValuesOf(AllEmitted(job, n), k) == TotalValues(job, n, k)
    decreases n
  {
    hide ValuesOf;
    if n == 0 {
      NoValues(k);
    } else {
      AllValues(job, n - 1, k);
      ValuesConcat(AllEmitted(job, n - 1), Emitted(job, n - 1), k);
    }
  }

  ghost const ALL_KEYS: iset<string> := iset k: string | true

  /** Accumulate, sort, group, reduce. */
  method Sequential(job: Job) returns (lines: seq<Line>)
    ensures LinesFor(job, lines, ALL_KEYS)
  {
    var intermediate: seq<KeyValue> := [];
    for m := 0 to |job.files|
      invariant intermediate == AllEmitted(job, m)
    {
      var kva := job.mapf(job.files[m], job.content(job.files[m]));
      intermediate := intermediate + kva;
    }
    var sorted := Sort(intermediate, (p: KeyValue) => p.key);
    SameSorting(intermediate, sorted, (p: KeyValue) => p.key, KeyOf());
    var records := Group(sorted);
    hide IsSorting, AllEmitted, LineOk;
    lines := [];
    for x := 0 to |records|
      invariant |lines| == x
      invariant forall y :: 0 <= y < x ==>
                  lines[y] == Line(records[y].key, job.reducef(records[y].key, records[y].values))
    {
      lines := lines + [Line(records[x].key, job.reducef(records[x].key, records[x].values))];
    }
    SequentialLines(job, intermediate, sorted, lines);
  }

  lemma SameSorting<T(!new)>(s: seq<T>, t: seq<T>, f: T -> string, g: T -> string)
    requires IsSorting(s, t, f) && forall x :: f(x) == g(x)
    ensures IsSorting(s, t, g)
  {
  }

  /** A group of distinct keys holds all values of its key. */
  lemma {:induction false} RecordOf(rs: seq<KeyValues>, x: nat)
    requires x < |rs| && KeysIncrease(rs)
    ensures RecordValues(rs, rs[x].key) == multiset(rs[x].values)
    decreases |rs|
  {
    hide RecordValues;
    var m, k := |rs| - 1, rs[x].key;
    assert rs == rs[..m] + [rs[m]];
    RecordsSnoc(rs[..m], rs[m], k);
    if x < m {
      BeforeTotal(k, rs[m].key);
      RecordOf(rs[..m], x);
    } else {
      forall y | 0 <= y < m
        ensures rs[y].key != k
      {
        BeforeTotal(rs[y].key, k);
      }
      NoRecordOf(rs[..m], k);
    }
  }

  lemma {:induction false} NoRecordOf(rs: seq<KeyValues>, k: string)
    requires forall y :: 0 <= y < |rs| ==> rs[y].key != k
    ensures RecordValues(rs, k) == multiset{}
    decreases |rs|
  {
    if rs != [] {
      NoRecordOf(rs[..|rs| - 1], k);
    }
  }

  lemma SequentialLines(job: Job, intermediate: seq<KeyValue>, sorted: seq<KeyValue>, lines: seq<Line>)
    requires intermediate == AllEmitted(job, |job.files|) && IsSorting(intermediate, sorted, KeyOf())
    requires var rs := GroupsFrom(sorted, 0);
             && |lines| == |rs|
             && forall x :: 0 <= x < |rs| ==> lines[x] == Line(rs[x].key, job.reducef(rs[x].key, rs[x].values))
    ensures LinesFor(job, lines, ALL_KEYS)
  {
    hide GroupsFrom, TotalValues, RecordValues, ValuesOf, AllEmitted, Before;
    var rs, n := GroupsFrom(sorted, 0), |job.files|;
    GroupsIncrease(sorted, 0);
    forall k
      ensures RecordValues(rs, k) == TotalValues(job, n, k)
    {
      GroupsKeepValues(sorted, 0, k);
      assert sorted[0..] == sorted;
      ValuesPermuted(intermediate, sorted, k);
      AllValues(job, n, k);
    }
    forall x | 0 <= x < |lines|
      ensures LineOk(job, lines[x])
    {
      RecordOf(rs, x);
    }
    forall k | TotalValues(job, n, k) != multiset{}
      ensures exists x :: 0 <= x < |lines| && lines[x].key == k
    {
      if forall y :: 0 <= y < |rs| ==> rs[y].key != k {
        NoRecordOf(rs, k);
      } else {
        var y :| 0 <= y < |rs| && rs[y].key == k;
        assert lines[y].key == k;
      }
    }
  }

  // ---------- The refinement ----------

  /** A worker that has left the map phase, or was told that it is over, is right; and so is a started reduce task. */
  ghost predicate PhasesOk(st: State) {
    && (forall w :: 0 <= w < |st.workers| ==> PhaseOk(st.books, st.workers[w]))
    && (forall r :: 0 <= r < |st.books.reduces| && st.books.reduces[r] != Todo ==> AllFinished(st.books.maps))
  }

  predicate PhaseOk(b: Books, w: Worker) {
    match w
    case Boot => true
    case MapHead(done) => done ==> AllFinished(b.maps)
    case MapAsk(done) => done ==> AllFinished(b.maps)
    case Mapping(_, _, _, _, done) => done ==> AllFinished(b.maps)
    case _ => AllFinished(b.maps)
  }

  lemma StepKeepsPhases(job: Job, st: State, step: Step)
    requires Enabled(job, st, step) && PhasesOk(st)
    ensures PhasesOk(Do(job, st, step))
  {
    hide IsSorting, IsOutput, GroupsFrom, AddRecords;
    var st' := Do(job, st, step);
    assert PhaseOk(st.books, st.workers[step.w]);
    assert AllFinished(st.books.maps) ==> AllFinished(st'.books.maps) by {
      if step.AskMap? {
        assert FirstTodo(st.books.maps, 0) < |st.books.maps| ==> !AllFinished(st.books.maps);
      }
    }
    forall w | 0 <= w < |st'.workers|
      ensures PhaseOk(st'.books, st'.workers[w])
    {
      assert PhaseOk(st.books, st.workers[w]);
    }
  }

  lemma {:induction false} RunKeepsPhases(job: Job, run: seq<State>, steps: seq<Step>, i: nat)
    requires IsRun(job, run, steps) && i < |run|
    ensures PhasesOk(run[i])
    decreases i
  {
    if i > 0 {
      hide Do, Enabled, PhasesOk;
      RunKeepsPhases(job, run, steps, i - 1);
      StepKeepsPhases(job, run[i - 1], steps[i - 1]);
      assert run[i - 1 + 1] == Do(job, run[i - 1], steps[i - 1]);
    }
  }

  /** Reduce tasks start only after all map tasks are finished, whatever is handed out again. */
  lemma ReduceAfterMap(job: Job, run: seq<State>, steps: seq<Step>, i: nat, r: nat)
    requires IsRun(job, run, steps) && i < |run| && r < |run[i].books.reduces|
    ensures run[i].books.reduces[r] != Todo ==> AllFinished(run[i].books.maps)
    ensures forall w :: 0 <= w < |run[i].workers| && run[i].workers[w].Reducing? ==> AllFinished(run[i].books.maps)
  {
    hide IsRun;
    RunKeepsPhases(job, run, steps, i);
    forall w | 0 <= w < |run[i].workers| && run[i].workers[w].Reducing?
      ensures AllFinished(run[i].books.maps)
    {
      assert PhaseOk(run[i].books, run[i].workers[w]);
    }
  }

  /** Line `y` of the output file of reduce task `r`. */
  ghost predicate HasLine(job: Job, st: State, r: nat, y: nat, line: Line) {
    r < job.nReduce && r in st.outputs && y < |st.outputs[r]| && st.outputs[r][y] == line
  }

  /** The two lines have the same key and reduce all values that were emitted for it, perhaps in different order. */
  ghost predicate SameValues(job: Job, a: Line, b: Line) {
    && a.key == b.key
    && exists vs, ws ::
         && vs != []
         && multiset(vs) == multiset(ws) == TotalValues(job, |job.files|, a.key)
         && a.output == job.reducef(a.key, vs)
         && b.output == job.reducef(b.key, ws)
  }

  /** Some output file holds a line for the key and values of `line`. */
  ghost predicate HasCounterpart(job: Job, st: State, line: Line) {
    exists r: nat, y: nat, other :: HasLine(job, st, r, y, other) && SameValues(job, line, other)
  }

  /** Every reduce task has written the lines of its keys. */
  ghost predicate OutputsComplete(job: Job, st: State) {
    && JobOk(job)
    && forall r :: 0 <= r < job.nReduce ==>
         r in st.outputs && LinesFor(job, st.outputs[r], KeysOfTask(job, r))
  }

  lemma LineHasValues(job: Job, line: Line)
    requires LineOk(job, line)
    ensures TotalValues(job, |job.files|, line.key) != multiset{}
  {
    var vs :|
      vs != [] && multiset(vs) == TotalValues(job, |job.files|, line.key) && line.output == job.reducef(line.key, vs);
    assert vs[0] in multiset(vs);
  }

  lemma SameKeySameValues(job: Job, a: Line, b: Line)
    requires LineOk(job, a) && LineOk(job, b) && a.key == b.key
    ensures SameValues(job, a, b)
  {
    var vs :| vs != [] && multiset(vs) == TotalValues(job, |job.files|, a.key) && a.output == job.reducef(a.key, vs);
    var ws :| ws != [] && multiset(ws) == TotalValues(job, |job.files|, b.key) && b.output == job.reducef(b.key, ws);
  }

  lemma CounterpartExists(job: Job, st: State, lines: seq<Line>, x: nat)
    requires OutputsComplete(job, st) && LinesFor(job, lines, ALL_KEYS) && x < |lines|
    ensures HasCounterpart(job, st, lines[x])
  {
    hide Before, TotalValues;
    var k := lines[x].key;
    var r := Bucket(job, k);
    LineHasValues(job, lines[x]);
    assert LinesFor(job, st.outputs[r], KeysOfTask(job, r)) && k in KeysOfTask(job, r);
    var y :| 0 <= y < |st.outputs[r]| && st.outputs[r][y].key == k;
    SameKeySameValues(job, lines[x], st.outputs[r][y]);
    assert HasLine(job, st, r, y, st.outputs[r][y]);
  }

  lemma NothingElse(job: Job, st: State, lines: seq<Line>, r: nat, y: nat, line: Line)
    requires OutputsComplete(job, st) && LinesFor(job, lines, ALL_KEYS) && HasLine(job, st, r, y, line)
    ensures exists x :: 0 <= x < |lines| && SameValues(job, lines[x], line)
  {
    hide Before, TotalValues, SameValues;
    assert LinesFor(job, st.outputs[r], KeysOfTask(job, r));
    LineHasValues(job, line);
    assert line.key in ALL_KEYS;
    var x :| 0 <= x < |lines| && lines[x].key == line.key;
    SameKeySameValues(job, lines[x], line);
  }

  lemma OneFile(job: Job, st: State, r: nat, y: nat, line: Line, r': nat, y': nat, line': Line)
    requires OutputsComplete(job, st) && HasLine(job, st, r, y, line) && HasLine(job, st, r', y', line')
    requires line.key == line'.key
    ensures r == r' && y == y'
  {
    assert LinesFor(job, st.outputs[r], KeysOfTask(job, r)) && LinesFor(job, st.outputs[r'], KeysOfTask(job, r'));
    assert line.key in KeysOfTask(job, r) && line'.key in KeysOfTask(job, r');
    BeforeTotal(line.key, line'.key);
  }

  /** A line stands in the output of the task that its key hashes to. */
  lemma InFileOfKey(job: Job, st: State, r: nat, y: nat, line: Line)
    requires OutputsComplete(job, st) && HasLine(job, st, r, y, line)
    ensures job.nReduce > 0 && r == job.hash(line.key) % job.nReduce
  {
    assert LinesFor(job, st.outputs[r], KeysOfTask(job, r));
  }

  lemma FinalOutputs(job: Job, run: seq<State>, steps: seq<Step>, i: nat)
    requires IsOneHandRun(job, run, steps) && i < |run| && AllFinished(run[i].books.reduces)
    ensures OutputsComplete(job, run[i])
  {
    hide IsOneHandRun, WorkerOk, FilesOk, LinesFor;
    RunKeepsInv(job, run, steps, i);
  }

  /**
  When the master is done, every line of the sequential output has a counterpart in the output
  files of the reduce tasks, with the same key and the reduce function applied to the same
  values; there are no other lines, no key has two, and each stands in the file that its key hashes to.
  */
  lemma MapReduceRefines(job: Job, run: seq<State>, steps: seq<Step>, i: nat, lines: seq<Line>)
    requires IsOneHandRun(job, run, steps) && i < |run| && AllFinished(run[i].books.reduces)
    requires LinesFor(job, lines, ALL_KEYS)
    ensures forall x :: 0 <= x < |lines| ==> HasCounterpart(job, run[i], lines[x])
    ensures forall r: nat, y: nat, line :: HasLine(job, run[i], r, y, line) ==>
              exists x :: 0 <= x < |lines| && SameValues(job, lines[x], line)
    ensures forall r: nat, y: nat, line, r': nat, y': nat, line' ::
              (HasLine(job, run[i], r, y, line) && HasLine(job, run[i], r', y', line') && line.key == line'.key) ==>
                  r == r' && y == y'
    ensures forall r: nat, y: nat, line :: HasLine(job, run[i], r, y, line) ==> r == job.hash(line.key) % job.nReduce
  {
    hide IsOneHandRun, OutputsComplete, LinesFor, HasLine, HasCounterpart, SameValues;
    var st := run[i];
    FinalOutputs(job, run, steps, i);
    forall x | 0 <= x < |lines|
      ensures HasCounterpart(job, st, lines[x])
    {
      CounterpartExists(job, st, lines, x);
    }
    forall r: nat, y: nat, line | HasLine(job, st, r, y, line)
      ensures exists x :: 0 <= x < |lines| && SameValues(job, lines[x], line)
    {
      NothingElse(job, st, lines, r, y, line);
    }
    forall r: nat, y: nat, line | HasLine(job, st, r, y, line)
      ensures job.nReduce > 0 && r == job.hash(line.key) % job.nReduce
    {
      InFileOfKey(job, st, r, y, line);
    }
    forall r: nat, y: nat, line, r': nat, y': nat, line' |
      HasLine(job, st, r, y, line) && HasLine(job, st, r', y', line') && line.key == line'.key
      ensures r == r' && y == y'
    {
      OneFile(job, st, r, y, line, r', y', line');
    }
  }

  /** The reduce function does not depend on the order of the values. */
  ghost predicate OrderFree(job: Job) {
    forall k, vs, ws :: multiset(vs) == multiset(ws) ==> job.reducef(k, vs) == job.reducef(k, ws)
  }

  lemma SameValuesSameLine(job: Job, a: Line, b: Line)
    requires OrderFree(job) && SameValues(job, a, b)
    ensures a == b
  {
  }

  /** For such reduce functions the output files hold exactly the lines of the sequential output. */
  lemma SameLines(job: Job, run: seq<State>, steps: seq<Step>, i: nat, lines: seq<Line>, line: Line)
    requires IsOneHandRun(job, run, steps) && i < |run| && AllFinished(run[i].books.reduces)
    requires LinesFor(job, lines, ALL_KEYS) && OrderFree(job)
    ensures line in lines <==> exists r: nat, y: nat :: HasLine(job, run[i], r, y, line)
  {
    hide IsOneHandRun, LinesFor, OrderFree, SameValues, HasLine, OutputsComplete;
    FinalOutputs(job, run, steps, i);
    if line in lines {
      var x :| 0 <= x < |lines| && lines[x] == line;
      CounterpartExists(job, run[i], lines, x);
      var r: nat, y: nat, other :| HasLine(job, run[i], r, y, other) && SameValues(job, line, other);
      SameValuesSameLine(job, line, other);
    }
    if r: nat, y: nat :| HasLine(job, run[i], r, y, line) {
      NothingElse(job, run[i], lines, r, y, line);
      var x :| 0 <= x < |lines| && SameValues(job, lines[x], line);
      SameValuesSameLine(job, lines[x], line);
    }
  }
}
