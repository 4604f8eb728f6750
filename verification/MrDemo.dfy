/** A small MapReduce job and the steps that two workers can take on it. */
module MrDemo {
  import opened MrTypes
  import opened KeyOrder
  import opened MrGroup
  import opened MrMaster
  import opened MrSystem

  const PAIR: KeyValue := KeyValue("k", "v")

  const RECORD: KeyValues := KeyValues("k", ["v"])

  /** One input file with one pair, one reduce task, and a reduce function that tells one value from more. */
  const DEMO: Job := Job(["f"], _ => "", (_, _) => [PAIR], (_, vs) => if |vs| == 1 then "one" else "more", _ => 0, 1)

  /** A worker that has written the whole map task. */
  const WROTE: Worker := Mapping(0, 1, [], true, false)

  /** The states of the two tasks, the intermediate file and the output file. */
  datatype Board = Board(maps: TaskState, reduces: TaskState, file: seq<KeyValues>, output: map<nat, seq<Line>>)

  /** Worker `w` is in state `x` and the other one in state `y`. */
  function At(b: Board, w: nat, x: Worker, y: Worker): State {
    State(
      Books(["f"], 1, [b.maps], [b.reduces]), if b.file == [] then map[] else map[(0, 0) := b.file], b.output,
      if w == 0 then [x, y] else [y, x])
  }

  datatype Trace = Trace(run: seq<State>, steps: seq<Step>)

  /** The trace is a run that ends in `last`. */
  ghost predicate Reaches(t: Trace, last: State) {
    IsRun(DEMO, t.run, t.steps) && t.run[|t.steps|] == last
  }

  ghost predicate OneHanded(t: Trace) {
    |t.run| == |t.steps| + 1
    && forall i :: 0 <= i < |t.steps| ==> Enabled(DEMO, t.run[i], t.steps[i]) && OneHand(DEMO, t.run[i], t.steps[i])
  }

  ghost predicate Goes(a: State, step: Step, b: State) {
    Enabled(DEMO, a, step) && b == Do(DEMO, a, step)
  }

  lemma Take(t: Trace, a: State, step: Step, b: State) returns (t': Trace)
    requires Reaches(t, a) && Goes(a, step, b)
    ensures Reaches(t', b) && t'.steps == t.steps + [step] && t'.run == t.run + [b]
    ensures OneHanded(t) && OneHand(DEMO, a, step) ==> OneHanded(t')
  {
    hide Enabled, Do, Init, OneHand;
    t' := Trace(t.run + [b], t.steps + [step]);
    forall i | 0 <= i < |t'.steps|
      ensures Enabled(DEMO, t'.run[i], t'.steps[i]) && t'.run[i + 1] == Do(DEMO, t'.run[i], t'.steps[i])
    {
      if i < |t.steps| {
        assert t'.run[i] == t.run[i] && t'.steps[i] == t.steps[i] && t'.run[i + 1] == t.run[i + 1];
      }
    }
  }

  lemma Begin() returns (t: Trace)
    ensures Reaches(t, At(Board(Todo, Todo, [], map[]), 0, Boot, Boot)) && OneHanded(t)
  {
    t := Trace([At(Board(Todo, Todo, [], map[]), 0, Boot, Boot)], []);
    var st := t.run[0];
    assert st.books.maps == seq(1, _ => Todo) && st.books.reduces == seq(1, _ => Todo);
  }

  // ---------- Single steps ----------

  lemma Polls(b: Board, w: nat, x: Worker, y: Worker)
    requires w < 2 && (x.Boot? || x == MapHead(false))
    ensures var done := b.maps == Finished;
            Goes(At(b, w, x, y), PollMaps(w), At(b, w, if x.Boot? then MapHead(done) else MapAsk(done), y))
  {
    assert AllFinished([b.maps]) <==> b.maps == Finished by { assert [b.maps][0] == b.maps; }
  }

  lemma PairGroups()
    ensures GroupsFrom([PAIR], 0) == [RECORD] && IsSorting([PAIR], [PAIR], KeyOf())
  {
    assert GroupEnd([PAIR], 1, "k") == 1;
    assert GroupsFrom([PAIR], 1) == [];
    assert [PAIR][0..1] == [PAIR];
    assert Values([PAIR]) == ["v"];
  }

  lemma Asks(b: Board, w: nat, y: Worker)
    requires w < 2 && b.maps == Todo
    ensures Goes(At(b, w, MapAsk(false), y), AskMap(w, [PAIR]),
              At(b.(maps := Doing), w, Mapping(0, 1, [RECORD], false, false), y))
  {
    hide IsSorting, GroupsFrom;
    PairGroups();
    assert FirstTodo([Todo], 0) == 0;
  }

  lemma AsksInVain(b: Board, w: nat, y: Worker)
    requires w < 2 && b.maps == Finished
    ensures Goes(At(b, w, MapAsk(true), y), AskMap(w, []), At(b, w, MapHead(true), y))
  {
    assert FirstTodo([Finished], 0) == 1;
  }

  lemma Appends(b: Board, w: nat, y: Worker)
    requires w < 2
    ensures Goes(At(b, w, Mapping(0, 1, [RECORD], false, false), y), AppendRecord(w),
              At(b.(file := b.file + [RECORD]), w, WROTE, y))
    ensures b.file == [] && b.maps != Finished ==>
              OneHand(DEMO, At(b, w, Mapping(0, 1, [RECORD], false, false), y), AppendRecord(w))
  {
    assert [RECORD][1..] == [];
  }

  lemma Ends(b: Board, w: nat, y: Worker)
    requires w < 2
    ensures Goes(At(b, w, WROTE, y), EndMap(w), At(b.(maps := Finished), w, MapHead(false), y))
  {
  }

  lemma Turns(b: Board, w: nat, y: Worker)
    requires w < 2 && b.reduces != Finished
    ensures Goes(At(b, w, MapHead(true), y), ToReduce(w), At(b, w, RdcHead(false), y))
    ensures Goes(At(b, w, RdcHead(false), y), PollReduces(w), At(b, w, RdcAsk(false), y))
  {
    assert ![b.reduces][0].Finished?;
  }

  lemma AsksReduce(b: Board, w: nat, y: Worker)
    requires w < 2 && b.reduces == Todo
    ensures Goes(At(b, w, RdcAsk(false), y), AskReduce(w), At(b.(reduces := Doing), w, Opening(0, 1, false), y))
  {
    assert FirstTodo([Todo], 0) == 0;
  }

  lemma Opens(b: Board, w: nat, y: Worker)
    requires w < 2
    ensures Goes(At(b, w, Opening(0, 1, false), y), OpenOutput(w),
              At(b.(output := b.output[0 := []]), w, Reducing(0, 1, 0, map[], false), y))
    ensures b.reduces != Finished && !y.Writing? ==> OneHand(DEMO, At(b, w, Opening(0, 1, false), y), OpenOutput(w))
  {
  }

  lemma Reads(b: Board, w: nat, y: Worker)
    requires w < 2 && b.file != []
    ensures Goes(At(b, w, Reducing(0, 1, 0, map[], false), y), ReadFile(w),
                 At(b.(file := []), w, Reducing(0, 1, 1, AddRecords(map[], b.file), false), y))
    ensures b.reduces != Finished && !y.Writing? && !y.Reducing? ==>
              OneHand(DEMO, At(b, w, Reducing(0, 1, 0, map[], false), y), ReadFile(w))
  {
    hide AddRecords;
  }

  lemma Reduces(b: Board, w: nat, y: Worker, kva: Merged, line: Line)
    requires w < 2 && IsOutput(kva, DEMO.reducef, [line])
    ensures Goes(At(b, w, Reducing(0, 1, 1, kva, false), y), ReduceKeys(w, [line]),
              At(b, w, Writing(0, [line], false), y))
  {
    hide IsOutput;
  }

  lemma Writes(b: Board, w: nat, y: Worker, line: Line)
    requires w < 2 && 0 in b.output && b.output[0] == []
    ensures Goes(At(b, w, Writing(0, [line], false), y), WriteLine(w),
                 At(b.(output := b.output[0 := [line]]), w, Writing(0, [], false), y))
  {
    assert [line][1..] == [] && [] + [line] == [line];
  }

  lemma EndsReduce(b: Board, w: nat, y: Worker)
    requires w < 2
    ensures Goes(At(b, w, Writing(0, [], false), y), EndReduce(w), At(b.(reduces := Finished), w, RdcHead(false), y))
  {
  }

  lemma TakenBack(b: Board, w: nat, x: Worker, y: Worker)
    requires w < 2
    requires (b.maps == Doing) || (b.maps == Finished && b.reduces == Doing)
    ensures Goes(At(b, w, x, y), Late(w, {0}),
              At(if b.maps == Doing then b.(maps := Todo) else b.(reduces := Todo), w, x, y))
  {
    assert AllFinished([b.maps]) <==> b.maps == Finished by { assert [b.maps][0] == b.maps; }
    assert Reissued([Doing], {0}) == [Todo];
  }

  /** It does not matter which worker is named first. */
  lemma Swap(b: Board, x: Worker, y: Worker)
    ensures At(b, 0, x, y) == At(b, 1, y, x)
  {
  }

  // ---------- Stages ----------

  /** A worker gets the map task. */
  lemma GetsMap(t: Trace, b: Board, w: nat, y: Worker) returns (t': Trace)
    requires w < 2 && b.maps == Todo && Reaches(t, At(b, w, Boot, y))
    ensures Reaches(t', At(b.(maps := Doing), w, Mapping(0, 1, [RECORD], false, false), y))
    ensures (OneHanded(t) ==> OneHanded(t'))
  {
    hide Reaches, Goes, At, OneHanded;
    Polls(b, w, Boot, y);
    Polls(b, w, MapHead(false), y);
    Asks(b, w, y);
    t' := Take(t, At(b, w, Boot, y), PollMaps(w), At(b, w, MapHead(false), y));
    t' := Take(t', At(b, w, MapHead(false), y), PollMaps(w), At(b, w, MapAsk(false), y));
    t' := Take(t', At(b, w, MapAsk(false), y), AskMap(w, [PAIR]),
        At(b.(maps := Doing), w, Mapping(0, 1, [RECORD], false, false), y));
  }

  /** A worker that has nothing to map goes on to the reduce phase. */
  lemma LeavesMaps(t: Trace, b: Board, w: nat, y: Worker) returns (t': Trace)
    requires w < 2 && b.maps == Finished && b.reduces != Finished && Reaches(t, At(b, w, MapHead(true), y))
    ensures Reaches(t', At(b, w, RdcAsk(false), y)) && (OneHanded(t) ==> OneHanded(t'))
  {
    hide Reaches, Goes, At, OneHanded;
    Turns(b, w, y);
    t' := Take(t, At(b, w, MapHead(true), y), ToReduce(w), At(b, w, RdcHead(false), y));
    t' := Take(t', At(b, w, RdcHead(false), y), PollReduces(w), At(b, w, RdcAsk(false), y));
  }

  /** A worker ends the map task and goes on to the reduce phase. */
  lemma EndsMaps(t: Trace, b: Board, w: nat, y: Worker) returns (t': Trace)
    requires w < 2 && b.reduces != Finished && Reaches(t, At(b, w, WROTE, y))
    ensures Reaches(t', At(b.(maps := Finished), w, RdcAsk(false), y)) && (OneHanded(t) ==> OneHanded(t'))
  {
    hide Reaches, Goes, At, OneHanded;
    var b' := b.(maps := Finished);
    Ends(b, w, y);
    Polls(b', w, MapHead(false), y);
    AsksInVain(b', w, y);
    t' := Take(t, At(b, w, WROTE, y), EndMap(w), At(b', w, MapHead(false), y));
    t' := Take(t', At(b', w, MapHead(false), y), PollMaps(w), At(b', w, MapAsk(true), y));
    t' := Take(t', At(b', w, MapAsk(true), y), AskMap(w, []), At(b', w, MapHead(true), y));
    t' := LeavesMaps(t', b', w, y);
  }

  /** A worker with the reduce task reads the file and writes the output. */
  lemma DoesReduce(t: Trace, b: Board, w: nat, y: Worker, kva: Merged, line: Line) returns (t': Trace)
    requires w < 2 && b.file != [] && b.reduces == Doing && Reaches(t, At(b, w, Opening(0, 1, false), y))
    requires kva == AddRecords(map[], b.file) && IsOutput(kva, DEMO.reducef, [line])
    ensures Reaches(t', At(Board(b.maps, Finished, [], b.output[0 := [line]]), w, RdcHead(false), y))
    ensures OneHanded(t) && !y.Writing? && !y.Reducing? ==> OneHanded(t')
  {
    hide Reaches, Goes, At, OneHanded, AddRecords, IsOutput;
    var b1 := b.(output := b.output[0 := []]);
    var b2 := b1.(file := []);
    var b3 := b2.(output := b.output[0 := [line]]);
    assert b2.output[0 := [line]] == b3.output;
    Opens(b, w, y);
    Reads(b1, w, y);
    Reduces(b2, w, y, kva, line);
    Writes(b2, w, y, line);
    EndsReduce(b3, w, y);
    t' := Take(t, At(b, w, Opening(0, 1, false), y), OpenOutput(w), At(b1, w, Reducing(0, 1, 0, map[], false), y));
    t' := Take(t', At(b1, w, Reducing(0, 1, 0, map[], false), y), ReadFile(w),
        At(b2, w, Reducing(0, 1, 1, kva, false), y));
    t' := Take(t', At(b2, w, Reducing(0, 1, 1, kva, false), y), ReduceKeys(w, [line]),
        At(b2, w, Writing(0, [line], false), y));
    t' := Take(t', At(b2, w, Writing(0, [line], false), y), WriteLine(w), At(b3, w, Writing(0, [], false), y));
    t' := Take(t', At(b3, w, Writing(0, [], false), y), EndReduce(w),
        At(b3.(reduces := Finished), w, RdcHead(false), y));
  }
}
