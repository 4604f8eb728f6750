/** Master and workers of MapReduce as a state machine, one step per call to the master or per file. */
module MrSystem {
  import opened MrTypes
  import opened KeyOrder
  import opened MrGroup
  import opened MrMaster

  /** The input files and the functions of an application; `hash` is `ihash`. */
  datatype Job = Job(
    files: seq<string>, content: string -> string, mapf: (string, string) -> seq<KeyValue>,
    reducef: Reducer, hash: string -> nat, nReduce: nat)

  /** File names are not empty, and there is a reduce task to hash to. */
  predicate JobOk(job: Job) {
    job.nReduce > 0 && forall m :: 0 <= m < |job.files| ==> job.files[m] != ""
  }

  function Bucket(job: Job, k: string): (r: nat)
    requires JobOk(job)
    ensures r < job.nReduce
  {
    job.hash(k) % job.nReduce
  }

  /** What the map function emits for file `m`. */
  function Emitted(job: Job, m: nat): seq<KeyValue>
    requires m < |job.files|
  {
    job.mapf(job.files[m], job.content(job.files[m]))
  }

  /**
  A worker; `done` is the last answer of TaskFinished, `nMap` and `nReduce` come from the reply that
  handed out its task, and `wrote` says whether it has appended to a file of its map task.
  */
  datatype Worker =
    | Boot
    | MapHead(done: bool)
    | MapAsk(done: bool)
    | Mapping(id: nat, nReduce: nat, todo: seq<KeyValues>, wrote: bool, done: bool)
    | RdcHead(done: bool)
    | RdcAsk(done: bool)
    | Opening(id: nat, nMap: nat, done: bool)
    | Reducing(id: nat, nMap: nat, next: nat, kva: Merged, done: bool)
    | Writing(id: nat, lines: seq<Line>, done: bool)

  /** `files` holds the intermediate files by map task and reduce task, `outputs` the output files. */
  datatype State = State(
    books: Books, files: map<(nat, nat), seq<KeyValues>>, outputs: map<nat, seq<Line>>, workers: seq<Worker>)

  datatype Step =
    | PollMaps(w: nat)
    | AskMap(w: nat, sorted: seq<KeyValue>)
    | AppendRecord(w: nat)
    | EndMap(w: nat)
    | ToReduce(w: nat)
    | PollReduces(w: nat)
    | AskReduce(w: nat)
    | OpenOutput(w: nat)
    | ReadFile(w: nat)
    | ReduceKeys(w: nat, lines: seq<Line>)
    | WriteLine(w: nat)
    | EndReduce(w: nat)
    | Late(w: nat, late: set<nat>)

  ghost predicate Init(job: Job, st: State) {
    && JobOk(job)
    && st.books == Books(job.files, job.nReduce, seq(|job.files|, _ => Todo), seq(job.nReduce, _ => Todo))
    && st.files == map[]
    && st.outputs == map[]
    && forall w :: 0 <= w < |st.workers| ==> st.workers[w] == Boot
  }

  /** A file that does not exist reads as empty. */
  function File(st: State, m: nat, r: nat): seq<KeyValues> {
    if (m, r) in st.files then st.files[(m, r)] else []
  }

  function Output(st: State, r: nat): seq<Line> {
    if r in st.outputs then st.outputs[r] else []
  }

  ghost predicate Enabled(job: Job, st: State, step: Step) {
    && JobOk(job)
    && BooksOk(st.books)
    && step.w < |st.workers|
    && var w := st.workers[step.w];
       match step
       case PollMaps(_) => w.Boot? || w == MapHead(false)
       case AskMap(_, sorted) =>
         && w.MapAsk?
         && var reply := HandOut(st.books, MapTask).1;
            reply.fileName != "" ==> IsSorting(job.mapf(reply.fileName, job.content(reply.fileName)), sorted, KeyOf())
       // hashing divides by the number of reduce tasks
       case AppendRecord(_) => w.Mapping? && w.todo != [] && w.nReduce > 0
       case EndMap(_) => w.Mapping? && w.todo == [] && w.id < |st.books.maps|
       case ToReduce(_) => w == MapHead(true)
       case PollReduces(_) => w == RdcHead(false)
       case AskReduce(_) => w.RdcAsk?
       case OpenOutput(_) => w.Opening?
       case ReadFile(_) => w.Reducing? && w.next < w.nMap
       case ReduceKeys(_, lines) =>
         w.Reducing? && w.next >= w.nMap && IsOutput(w.kva, job.reducef, lines)
       case WriteLine(_) => w.Writing? && w.lines != []
       case EndReduce(_) => w.Writing? && w.lines == [] && w.id < |st.books.reduces|
       case Late(_, _) => true
  }

  ghost function Do(job: Job, st: State, step: Step): State
    requires Enabled(job, st, step)
  {
    var w := st.workers[step.w];
    match step
    case PollMaps(_) =>
      var done := AllFinished(st.books.maps);
      Move(st, step.w, if w.Boot? then MapHead(done) else MapAsk(done))
    case AskMap(_, sorted) =>
      var (books, reply) := HandOut(st.books, MapTask);
      if reply.fileName == "" then Move(st, step.w, MapHead(w.done)).(books := books)
      else Move(st, step.w, Mapping(reply.id, reply.nReduce, GroupsFrom(sorted, 0), false, w.done)).(books := books)
    case AppendRecord(_) =>
      var r := job.hash(w.todo[0].key) % w.nReduce;
      var files := st.files[(w.id, r) := File(st, w.id, r) + [w.todo[0]]];
      Move(st, step.w, w.(todo := w.todo[1..], wrote := true)).(files := files)
    case EndMap(_) => Move(st, step.w, MapHead(w.done)).(books := Marked(st.books, MapTask, w.id, Finished))
    case ToReduce(_) => Move(st, step.w, RdcHead(AllFinished(st.books.reduces)))
    case PollReduces(_) => Move(st, step.w, RdcAsk(AllFinished(st.books.reduces)))
    case AskReduce(_) =>
      var (books, reply) := HandOut(st.books, ReduceTask);
      if reply.id >= reply.nReduce then Move(st, step.w, RdcHead(w.done)).(books := books)
      else Move(st, step.w, Opening(reply.id, reply.nMap, w.done)).(books := books)
    case OpenOutput(_) =>
      // the file is created, or made empty if it exists
      Move(st, step.w, Reducing(w.id, w.nMap, 0, map[], w.done)).(outputs := st.outputs[w.id := []])
    case ReadFile(_) =>
      Move(st, step.w, w.(next := w.next + 1, kva := AddRecords(w.kva, File(st, w.next, w.id)))).(
      files := st.files - {(w.next, w.id)})
    case ReduceKeys(_, lines) => Move(st, step.w, Writing(w.id, lines, w.done))
    case WriteLine(_) =>
      Move(st, step.w, w.(lines := w.lines[1..])).(outputs := st.outputs[w.id := Output(st, w.id) + [w.lines[0]]])
    case EndReduce(_) => Move(st, step.w, RdcHead(w.done)).(books := Marked(st.books, ReduceTask, w.id, Finished))
    case Late(_, late) => st.(books := CheckLate(st.books, late))
  }

  function Move(st: State, w: nat, worker: Worker): State
    requires w < |st.workers|
  {
    st.(workers := st.workers[w := worker])
  }

  ghost predicate IsRun(job: Job, run: seq<State>, steps: seq<Step>) {
    && |run| == |steps| + 1
    && Init(job, run[0])
    && forall i :: 0 <= i < |steps| ==> Enabled(job, run[i], steps[i]) && run[i + 1] == Do(job, run[i], steps[i])
  }

  /** No file of map task `m` exists. */
  ghost predicate NoFiles(st: State, m: nat, nReduce: nat) {
    forall r :: 0 <= r < nReduce ==> File(st, m, r) == []
  }

  /** The worker has read a file of reduce task `r`, or is about to write its output. */
  predicate HasRead(w: Worker, r: nat) {
    (w.Reducing? && w.id == r && w.next > 0) || (w.Writing? && w.id == r)
  }

  /** Reduce task `r` is not finished, and no worker but `w` has read its files. */
  ghost predicate Unread(st: State, r: nat, w: int) {
    && r < |st.books.reduces|
    && st.books.reduces[r] != Finished
    && forall v :: 0 <= v < |st.workers| && v != w ==> !HasRead(st.workers[v], r)
  }

  predicate Writes(w: Worker, r: nat) {
    w.Writing? && w.id == r
  }

  /** Reduce task `r` is not finished, and no worker but `w` writes its output. */
  ghost predicate Unwritten(st: State, r: nat, w: int) {
    && r < |st.books.reduces|
    && st.books.reduces[r] != Finished
    && forall v :: 0 <= v < |st.workers| && v != w ==> !Writes(st.workers[v], r)
  }

  /**
  The files of a task pass through the hands of one worker. The first record that a worker appends
  creates the files of an unfinished map task; the first file that it reads is one of an unfinished
  reduce task of which no other worker has read any; and it opens, and thereby empties, no output
  that another worker writes or has written. Tasks may be handed out again.
  */
  ghost predicate OneHand(job: Job, st: State, step: Step)
    requires Enabled(job, st, step)
  {
    var w := st.workers[step.w];
    && (step.AppendRecord? && !w.wrote ==>
          w.id < |st.books.maps| && st.books.maps[w.id] != Finished && NoFiles(st, w.id, job.nReduce))
    && (step.ReadFile? && w.next == 0 ==> Unread(st, w.id, step.w))
    && (step.OpenOutput? ==> Unwritten(st, w.id, step.w))
  }

  ghost predicate IsOneHandRun(job: Job, run: seq<State>, steps: seq<Step>) {
    IsRun(job, run, steps) && forall i :: 0 <= i < |steps| ==> OneHand(job, run[i], steps[i])
  }

  // ---------- What the output should be ----------

  /** The values that the map function emits for `k` in the first `n` files. */
  ghost function TotalValues(job: Job, n: nat, k: string): multiset<string>
    requires n <= |job.files|
  {
    if n == 0 then multiset{} else TotalValues(job, n - 1, k) + ValuesOf(Emitted(job, n - 1), k)
  }

  /** The line of a key: the reduce function applied to all values of the key, in some order. */
  ghost predicate LineOk(job: Job, line: Line) {
    exists vs ::
      vs != [] && multiset(vs) == TotalValues(job, |job.files|, line.key) && line.output == job.reducef(line.key, vs)
  }

  /** One line, in order, for each of the keys in `mine` that has values. */
  ghost predicate LinesFor(job: Job, lines: seq<Line>, mine: iset<string>) {
    && (forall x, y :: 0 <= x < y < |lines| ==> Before(lines[x].key, lines[y].key))
    && (forall x :: 0 <= x < |lines| ==> lines[x].key in mine && LineOk(job, lines[x]))
    && (forall k :: k in mine && TotalValues(job, |job.files|, k) != multiset{} ==>
          exists x :: 0 <= x < |lines| && lines[x].key == k)
  }

  ghost function KeysOfTask(job: Job, r: nat): iset<string>
    requires JobOk(job)
  {
    iset k | Bucket(job, k) == r
  }

  // ---------- The invariant ----------

  /** What file (m, r) should hold for `k` once map task `m` is finished. */
  ghost function Share(job: Job, m: nat, r: nat, k: string): multiset<string>
    requires JobOk(job) && m < |job.files|
  {
    if Bucket(job, k) == r then ValuesOf(Emitted(job, m), k) else multiset{}
  }

  ghost predicate FileOk(job: Job, file: seq<KeyValues>, m: nat, r: nat)
    requires JobOk(job) && m < |job.files|
  {
    forall k :: RecordValues(file, k) == Share(job, m, r, k)
  }

  /** What a map task under way has written and has still to write makes up its share. */
  ghost predicate PartOk(job: Job, file: seq<KeyValues>, todo: seq<KeyValues>, m: nat, r: nat)
    requires JobOk(job) && m < |job.files|
  {
    forall k ::
      RecordValues(file, k) + (if Bucket(job, k) == r then RecordValues(todo, k) else multiset{}) == Share(job, m, r, k)
  }

  /** What a reduce task has merged from the first `n` files. */
  ghost predicate MergedOk(job: Job, kva: Merged, n: nat, r: nat)
    requires JobOk(job) && n <= |job.files|
  {
    && NoEmptyKey(kva)
    && forall k :: multiset(Found(kva, k)) == if Bucket(job, k) == r then TotalValues(job, n, k) else multiset{}
  }

  ghost predicate BooksMatch(job: Job, b: Books) {
    JobOk(job) && BooksOk(b) && b.files == job.files && b.nReduce == job.nReduce
  }

  /** A whole map task is still to be written. */
  ghost predicate AllToDo(job: Job, todo: seq<KeyValues>, m: nat)
    requires m < |job.files|
  {
    forall k :: RecordValues(todo, k) == ValuesOf(Emitted(job, m), k)
  }

  ghost predicate Emits(job: Job, m: nat)
    requires m < |job.files|
  {
    exists k :: ValuesOf(Emitted(job, m), k) != multiset{}
  }

  ghost predicate NoEmptyRecord(rs: seq<KeyValues>) {
    forall x :: 0 <= x < |rs| ==> rs[x].values != []
  }

  /** What the worker that writes the files of a map task has done and has still to do. */
  ghost predicate WriterOk(job: Job, st: State, m: nat, todo: seq<KeyValues>)
    requires BooksMatch(job, st.books) && m < |job.files|
  {
    && st.books.maps[m] != Finished
    && Emits(job, m)
    && !NoFiles(st, m, job.nReduce)
    && forall r :: 0 <= r < job.nReduce ==> PartOk(job, File(st, m, r), todo, m, r)
  }

  /** The worker that reads the files of a reduce task has not reached those from `next` on. */
  ghost predicate ReaderOk(job: Job, st: State, r: nat, next: nat)
    requires BooksMatch(job, st.books) && r < job.nReduce
  {
    && st.books.reduces[r] != Finished
    && forall m :: next <= m < |job.files| ==> FileOk(job, File(st, m, r), m, r)
  }

  ghost predicate WorkerOk(job: Job, st: State, w: Worker)
    requires BooksMatch(job, st.books)
  {
    match w
    case Boot => true
    case MapHead(done) => done ==> AllFinished(st.books.maps)
    case MapAsk(done) => done ==> AllFinished(st.books.maps)
    case Mapping(id, nReduce, todo, wrote, done) =>
      && (done ==> AllFinished(st.books.maps))
      && nReduce == job.nReduce
      && id < |job.files|
      && NoEmptyRecord(todo)
      && (if wrote then WriterOk(job, st, id, todo) else AllToDo(job, todo, id))
    case RdcHead(_) => AllFinished(st.books.maps)
    case RdcAsk(_) => AllFinished(st.books.maps)
    case Opening(id, nMap, _) => AllFinished(st.books.maps) && id < job.nReduce && nMap == |job.files|
    case Reducing(id, nMap, next, kva, _) =>
      && nMap == |job.files|
      && AllFinished(st.books.maps)
      && id < job.nReduce
      && next <= |job.files|
      && id in st.outputs
      && MergedOk(job, kva, next, id)
      && (next > 0 ==> ReaderOk(job, st, id, next))
    case Writing(id, lines, _) =>
      && AllFinished(st.books.maps)
      && id < job.nReduce
      && id in st.outputs
      && LinesFor(job, Output(st, id) + lines, KeysOfTask(job, id))
      && (if job.files == [] then lines == [] else st.books.reduces[id] != Finished)
  }

  /** Two workers have both written, or both read, files of one task. */
  ghost predicate BothTouch(a: Worker, b: Worker) {
    || (a.Mapping? && b.Mapping? && a.id == b.id && a.wrote && b.wrote)
    || exists r :: HasRead(a, r) && HasRead(b, r)
  }

  ghost predicate HasWriter(st: State, m: nat) {
    exists w :: 0 <= w < |st.workers| && st.workers[w].Mapping? && st.workers[w].id == m && st.workers[w].wrote
  }

  ghost predicate FilesOk(job: Job, st: State)
    requires BooksMatch(job, st.books)
  {
    && (forall m :: 0 <= m < |job.files| && st.books.maps[m] != Finished ==>
          NoFiles(st, m, job.nReduce) || HasWriter(st, m))
    && (forall m, r :: 0 <= m < |job.files| && 0 <= r < job.nReduce ==>
          st.books.maps[m] == Finished && Unread(st, r, -1) ==> FileOk(job, File(st, m, r), m, r))
  }

  ghost predicate OutputsOk(job: Job, st: State)
    requires BooksMatch(job, st.books)
  {
    && (forall r :: 0 <= r < job.nReduce && st.books.reduces[r] == Finished ==>
          r in st.outputs && LinesFor(job, Output(st, r), KeysOfTask(job, r)))
    && (forall r :: 0 <= r < job.nReduce && (job.files == [] || Unwritten(st, r, -1)) ==> Output(st, r) == [])
  }

  ghost predicate Inv(job: Job, st: State) {
    && BooksMatch(job, st.books)
    && (forall w :: 0 <= w < |st.workers| ==> WorkerOk(job, st, st.workers[w]))
    && (job.files != [] ==> forall v, w :: 0 <= v < w < |st.workers| ==> !BothTouch(st.workers[v], st.workers[w]))
    && FilesOk(job, st)
    && OutputsOk(job, st)
  }

  lemma InitInv(job: Job, st: State)
    requires Init(job, st)
    ensures Inv(job, st)
  {
  }

  // ---------- Steps that touch no file ----------

  /** The same tasks are finished. */
  ghost predicate SameFinished(a: seq<TaskState>, b: seq<TaskState>) {
    |a| == |b| && forall i :: 0 <= i < |a| ==> (a[i] == Finished <==> b[i] == Finished)
  }

  /** The worker has touched no file of its task. */
  predicate Untouched(w: Worker) {
    (w.Mapping? ==> !w.wrote) && (w.Reducing? ==> w.next == 0) && !w.Writing?
  }

  /** A worker that has touched no file moves on, and tasks may be handed out or taken back. */
  lemma MoveKeepsInv(job: Job, st: State, w: nat, worker: Worker, books: Books)
    requires Inv(job, st) && w < |st.workers| && Untouched(st.workers[w]) && Untouched(worker)
    requires WorkerOk(job, st, worker)
    requires BooksMatch(job, books) && SameFinished(st.books.maps, books.maps)
    requires SameFinished(st.books.reduces, books.reduces)
    ensures Inv(job, Move(st, w, worker).(books := books))
  {
    hide PartOk, MergedOk, FileOk, LinesFor, AllToDo, Emits, NoEmptyRecord;
    var st' := Move(st, w, worker).(books := books);
    assert forall m: nat, r: nat :: File(st', m, r) == File(st, m, r);
    assert AllFinished(st.books.maps) <==> AllFinished(books.maps);
    forall v | 0 <= v < |st'.workers|
      ensures WorkerOk(job, st', st'.workers[v])
    {
      assert WorkerOk(job, st, st.workers[v]);
      SameView(job, st, st', st'.workers[v]);
    }
    forall m | 0 <= m < |job.files| && HasWriter(st, m)
      ensures HasWriter(st', m)
    {
      var v :| 0 <= v < |st.workers| && st.workers[v].Mapping? && st.workers[v].id == m && st.workers[v].wrote;
      assert st'.workers[v] == st.workers[v];
    }
    forall r | 0 <= r < job.nReduce
      ensures Unread(st', r, -1) ==> Unread(st, r, -1)
    {
      StillUnread(st, st', w, r);
    }
    assert FilesOk(job, st');
    SameOutputs(job, st, st', w);
    MovedReaders(job, st, st', w);
  }

  /** A worker that has touched no file shares none. */
  lemma MovedReaders(job: Job, st: State, st': State, w: nat)
    requires Inv(job, st) && w < |st.workers| && |st'.workers| == |st.workers| && Untouched(st'.workers[w])
    requires forall v :: 0 <= v < |st.workers| && v != w ==> st'.workers[v] == st.workers[v]
    ensures job.files != [] ==> forall v, u :: 0 <= v < u < |st'.workers| ==> !BothTouch(st'.workers[v], st'.workers[u])
  {
    hide WorkerOk, FilesOk, OutputsOk;
    if job.files != [] {
      forall v, u | 0 <= v < u < |st'.workers|
        ensures !BothTouch(st'.workers[v], st'.workers[u])
      {
        assert !BothTouch(st.workers[v], st.workers[u]);
      }
    }
  }

  /** Another worker can have read or written a task only if it had before or still does. */
  lemma StillUnread(st: State, st': State, w: nat, r: nat)
    requires |st'.workers| == |st.workers| && w < |st.workers| && |st'.books.reduces| == |st.books.reduces|
    requires forall v :: 0 <= v < |st.workers| && v != w ==> st'.workers[v] == st.workers[v]
    requires forall i :: 0 <= i < |st.books.reduces| && st.books.reduces[i] == Finished ==>
               st'.books.reduces[i] == Finished
    requires r < |st.books.reduces|
    requires HasRead(st.workers[w], r) ==> HasRead(st'.workers[w], r) || st'.books.reduces[r] == Finished
    requires Writes(st.workers[w], r) ==> Writes(st'.workers[w], r) || st'.books.reduces[r] == Finished
    ensures Unread(st', r, -1) ==> Unread(st, r, -1)
    ensures Unwritten(st', r, -1) ==> Unwritten(st, r, -1)
  {
    if Unread(st', r, -1) {
      forall v | 0 <= v < |st.workers|
        ensures !HasRead(st.workers[v], r)
      {
        assert !HasRead(st'.workers[v], r);
      }
    }
    if Unwritten(st', r, -1) {
      forall v | 0 <= v < |st.workers|
        ensures !Writes(st.workers[v], r)
      {
        assert !Writes(st'.workers[v], r);
      }
    }
  }

  lemma SameView(job: Job, st: State, st': State, w: Worker)
    requires BooksMatch(job, st.books) && BooksMatch(job, st'.books) && WorkerOk(job, st, w)
    requires SameFinished(st.books.maps, st'.books.maps) && SameFinished(st.books.reduces, st'.books.reduces)
    requires st'.files == st.files && st'.outputs == st.outputs
    ensures WorkerOk(job, st', w)
  {
    hide LinesFor, PartOk, MergedOk, FileOk, AllToDo, Emits, NoEmptyRecord;
    assert forall r: nat :: Output(st', r) == Output(st, r);
    assert forall m: nat, r: nat :: File(st', m, r) == File(st, m, r);
    assert w.Writing? ==> Output(st', w.id) + w.lines == Output(st, w.id) + w.lines;
  }

  /** No output changes, and whoever writes one goes on. */
  lemma SameOutputs(job: Job, st: State, st': State, w: nat)
    requires BooksMatch(job, st.books) && BooksMatch(job, st'.books) && OutputsOk(job, st)
    requires st'.outputs == st.outputs && SameFinished(st.books.reduces, st'.books.reduces)
    requires w < |st.workers| && |st'.workers| == |st.workers| && !st.workers[w].Writing?
    requires forall v :: 0 <= v < |st.workers| && v != w ==> st'.workers[v] == st.workers[v]
    ensures OutputsOk(job, st')
  {
    hide LinesFor;
    assert forall r: nat :: Output(st', r) == Output(st, r);
    forall r | 0 <= r < job.nReduce
      ensures Unwritten(st', r, -1) ==> Unwritten(st, r, -1)
    {
      if Unwritten(st', r, -1) {
        forall v | 0 <= v < |st.workers|
          ensures !Writes(st.workers[v], r)
        {
          assert !Writes(st'.workers[v], r);
        }
      }
    }
  }

  // ---------- Map tasks ----------

  lemma AskMapKeepsInv(job: Job, st: State, step: Step)
    requires Inv(job, st) && Enabled(job, st, step) && step.AskMap?
    ensures Inv(job, Do(job, st, step))
  {
    hide MergedOk, FileOk, LinesFor, PartOk, IsSorting, GroupsFrom, AllToDo, NoEmptyRecord;
    var st', t := Do(job, st, step), FirstTodo(st.books.maps, 0);
    var w := st.workers[step.w];
    assert WorkerOk(job, st, w);
    if t == |st.books.maps| {
      MoveKeepsInv(job, st, step.w, MapHead(w.done), st.books);
    } else {
      assert st.books.files[t] != "";
      NewTask(job, step.sorted, t);
      MoveKeepsInv(job, st, step.w, Mapping(t, job.nReduce, GroupsFrom(step.sorted, 0), false, w.done),
          st.books.(maps := st.books.maps[t := Doing]));
    }
  }

  /** Everything that was emitted is grouped. */
  lemma NewTask(job: Job, sorted: seq<KeyValue>, m: nat)
    requires m < |job.files| && IsSorting(Emitted(job, m), sorted, KeyOf())
    ensures AllToDo(job, GroupsFrom(sorted, 0), m) && NoEmptyRecord(GroupsFrom(sorted, 0))
  {
    hide RecordValues, ValuesOf, GroupsFrom;
    GroupsIncrease(sorted, 0);
    forall k
      ensures RecordValues(GroupsFrom(sorted, 0), k) == ValuesOf(Emitted(job, m), k)
    {
      GroupsKeepValues(sorted, 0, k);
      assert sorted[0..] == sorted;
      ValuesPermuted(Emitted(job, m), sorted, k);
    }
  }

  /** A worker may begin to write a task of which there is no file. */
  lemma BeginPart(job: Job, todo: seq<KeyValues>, m: nat, r: nat)
    requires JobOk(job) && m < |job.files| && AllToDo(job, todo, m)
    ensures PartOk(job, [], todo, m, r)
  {
    hide RecordValues, ValuesOf;
    forall k
      ensures RecordValues([], k) == multiset{}
    {
      NoValues(k);
    }
  }

  lemma FirstEmits(job: Job, todo: seq<KeyValues>, m: nat)
    requires m < |job.files| && AllToDo(job, todo, m) && todo != [] && NoEmptyRecord(todo)
    ensures Emits(job, m)
  {
    hide RecordValues, ValuesOf;
    var first, rest := todo[0], todo[1..];
    var k := first.key;
    assert todo == [first] + rest;
    RecordsConcat([first], rest, k);
    RecordsSnoc([], first, k);
    assert [] + [first] == [first];
    assert first.values[0] in multiset(first.values);
    assert first.values[0] in RecordValues(todo, k);
  }

  /** Before the step: the parts of the worker's task, whether it has begun or not. */
  lemma PartsBefore(job: Job, st: State, w: Worker)
    requires BooksMatch(job, st.books) && WorkerOk(job, st, w) && w.Mapping? && w.todo != []
    requires !w.wrote ==> st.books.maps[w.id] != Finished && NoFiles(st, w.id, job.nReduce)
    ensures st.books.maps[w.id] != Finished && Emits(job, w.id)
    ensures forall r :: 0 <= r < job.nReduce ==> PartOk(job, File(st, w.id, r), w.todo, w.id, r)
  {
    hide PartOk, AllToDo, Emits, NoEmptyRecord;
    if !w.wrote {
      FirstEmits(job, w.todo, w.id);
      forall r | 0 <= r < job.nReduce
        ensures PartOk(job, File(st, w.id, r), w.todo, w.id, r)
      {
        BeginPart(job, w.todo, w.id, r);
      }
    }
  }

  lemma AppendedTask(job: Job, st: State, step: Step)
    requires Inv(job, st) && Enabled(job, st, step) && step.AppendRecord? && OneHand(job, st, step)
    ensures WorkerOk(job, Do(job, st, step), Do(job, st, step).workers[step.w])
    ensures st.books.maps[st.workers[step.w].id] != Finished
  {
    hide PartOk, AllToDo, Emits, MergedOk, FileOk, LinesFor;
    var st', w := Do(job, st, step), st.workers[step.w];
    assert WorkerOk(job, st, w);
    PartsBefore(job, st, w);
    var r0, todo' := Bucket(job, w.todo[0].key), w.todo[1..];
    forall r | 0 <= r < job.nReduce
      ensures PartOk(job, File(st', w.id, r), todo', w.id, r)
    {
      PartMoves(job, File(st, w.id, r), w.todo, w.id, r);
    }
    assert File(st', w.id, r0) != [];
  }

  lemma AppendKeepsInv(job: Job, st: State, step: Step)
    requires Inv(job, st) && Enabled(job, st, step) && step.AppendRecord? && OneHand(job, st, step)
    ensures Inv(job, Do(job, st, step))
  {
    hide PartOk, AllToDo, Emits, MergedOk, FileOk, LinesFor, NoEmptyRecord;
    var st', w := Do(job, st, step), st.workers[step.w];
    assert WorkerOk(job, st, w);
    AppendedTask(job, st, step);
    assert !AllFinished(st.books.maps);
    assert forall m: nat, r: nat :: m != w.id ==> File(st', m, r) == File(st, m, r);
    forall v | 0 <= v < |st'.workers| && v != step.w
      ensures WorkerOk(job, st', st'.workers[v]) && !BothTouch(st'.workers[v], st'.workers[step.w])
    {
      assert WorkerOk(job, st, st.workers[v]);
      assert !BothTouch(st.workers[v], w);
    }
    assert FilesOk(job, st') by { AppendFiles(job, st, step); }
    assert OutputsOk(job, st') by { SameOutputs(job, st, st', step.w); }
  }

  lemma AppendFiles(job: Job, st: State, step: Step)
    requires Inv(job, st) && Enabled(job, st, step) && step.AppendRecord? && st.workers[step.w].id < |job.files|
    requires st.books.maps[st.workers[step.w].id] != Finished
    ensures FilesOk(job, Do(job, st, step))
  {
    hide PartOk, AllToDo, Emits, MergedOk, FileOk, LinesFor, NoEmptyRecord;
    var st', w := Do(job, st, step), st.workers[step.w];
    assert forall m: nat, r: nat :: m != w.id ==> File(st', m, r) == File(st, m, r);
    assert HasWriter(st', w.id) by { assert st'.workers[step.w].wrote; }
    forall m: nat | m < |job.files| && HasWriter(st, m)
      ensures HasWriter(st', m)
    {
      var v :| 0 <= v < |st.workers| && st.workers[v].Mapping? && st.workers[v].id == m && st.workers[v].wrote;
      assert st'.workers[v].Mapping? && st'.workers[v].id == m && st'.workers[v].wrote;
    }
    forall r | 0 <= r < job.nReduce
      ensures Unread(st', r, -1) ==> Unread(st, r, -1)
    {
      StillUnread(st, st', step.w, r);
    }
  }

  /** A record goes from the worker to the file of its key. */
  lemma PartMoves(job: Job, file: seq<KeyValues>, todo: seq<KeyValues>, m: nat, r: nat)
    requires JobOk(job) && m < |job.files| && todo != [] && PartOk(job, file, todo, m, r)
    ensures PartOk(job, if Bucket(job, todo[0].key) == r then file + [todo[0]] else file, todo[1..], m, r)
  {
    hide RecordValues, Share;
    var first, rest := todo[0], todo[1..];
    forall k
      ensures RecordValues(todo, k) == OneRecord(first, k) + RecordValues(rest, k)
      ensures RecordValues(file + [first], k) == RecordValues(file, k) + OneRecord(first, k)
    {
      assert todo == [first] + rest;
      RecordsConcat([first], rest, k);
      RecordsSnoc([], first, k);
      assert [] + [first] == [first];
      RecordsSnoc(file, first, k);
    }
  }

  /** When a map task ends its files are complete, and no other worker is writing them. */
  lemma MapComplete(job: Job, st: State, w: nat)
    requires Inv(job, st) && w < |st.workers| && st.workers[w].Mapping? && st.workers[w].todo == []
    ensures st.workers[w].id < |job.files|
    ensures forall v :: 0 <= v < |st.workers| && v != w && st.workers[v].Mapping? ==>
              st.workers[v].id == st.workers[w].id ==> !st.workers[v].wrote
    ensures st.books.maps[st.workers[w].id] != Finished ==>
              forall r :: 0 <= r < job.nReduce ==> FileOk(job, File(st, st.workers[w].id, r), st.workers[w].id, r)
  {
    hide PartOk, AllToDo, Emits, MergedOk, FileOk, LinesFor, NoEmptyRecord;
    var worker := st.workers[w];
    var m := worker.id;
    assert WorkerOk(job, st, worker);
    if !worker.wrote {
      NothingEmitted(job, m);
    }
    forall v | 0 <= v < |st.workers| && v != w && st.workers[v].Mapping? && st.workers[v].id == m
      ensures !st.workers[v].wrote
    {
      assert WorkerOk(job, st, st.workers[v]);
      assert !BothTouch(st.workers[v], worker);
    }
    if st.books.maps[m] != Finished {
      forall r | 0 <= r < job.nReduce
        ensures FileOk(job, File(st, m, r), m, r)
      {
        if worker.wrote {
          PartComplete(job, File(st, m, r), m, r);
        } else {
          assert NoFiles(st, m, job.nReduce) || HasWriter(st, m);
          NothingToFile(job, m, r);
        }
      }
    }
  }

  lemma NothingEmitted(job: Job, m: nat)
    requires m < |job.files| && AllToDo(job, [], m)
    ensures !Emits(job, m)
  {
    hide RecordValues, ValuesOf;
    forall k
      ensures ValuesOf(Emitted(job, m), k) == multiset{}
    {
      NoValues(k);
      assert RecordValues([], k) == ValuesOf(Emitted(job, m), k);
    }
  }

  lemma NothingToFile(job: Job, m: nat, r: nat)
    requires JobOk(job) && m < |job.files| && !Emits(job, m)
    ensures FileOk(job, [], m, r)
  {
    hide RecordValues, ValuesOf;
    forall k
      ensures RecordValues([], k) == multiset{}
    {
      NoValues(k);
    }
  }

  lemma PartComplete(job: Job, file: seq<KeyValues>, m: nat, r: nat)
    requires JobOk(job) && m < |job.files| && PartOk(job, file, [], m, r)
    ensures FileOk(job, file, m, r)
  {
    hide RecordValues, Share;
    forall k
      ensures RecordValues([], k) == multiset{}
    {
      NoValues(k);
    }
  }

  lemma EndMapKeepsInv(job: Job, st: State, step: Step)
    requires Inv(job, st) && Enabled(job, st, step) && step.EndMap?
    ensures Inv(job, Do(job, st, step))
  {
    hide MergedOk, FileOk, LinesFor, PartOk, AllToDo, Emits, NoEmptyRecord;
    var st', w := Do(job, st, step), st.workers[step.w];
    assert WorkerOk(job, st, w);
    MapComplete(job, st, step.w);
    assert forall m: nat, r: nat :: File(st', m, r) == File(st, m, r);
    assert AllFinished(st.books.maps) ==> AllFinished(st'.books.maps);
    forall v | 0 <= v < |st'.workers|
      ensures WorkerOk(job, st', st'.workers[v])
    {
      assert WorkerOk(job, st, st.workers[v]);
    }
    assert FilesOk(job, st') by { EndMapFiles(job, st, step); }
    assert OutputsOk(job, st') by { SameOutputs(job, st, st', step.w); }
  }

  lemma EndMapFiles(job: Job, st: State, step: Step)
    requires Inv(job, st) && Enabled(job, st, step) && step.EndMap? && st.workers[step.w].id < |job.files|
    requires var m := st.workers[step.w].id;
             st.books.maps[m] != Finished ==> forall r :: 0 <= r < job.nReduce ==> FileOk(job, File(st, m, r), m, r)
    ensures FilesOk(job, Do(job, st, step))
  {
    hide MergedOk, FileOk, LinesFor, PartOk, AllToDo, Emits, NoEmptyRecord;
    var st', w := Do(job, st, step), st.workers[step.w];
    assert forall m: nat, r: nat :: File(st', m, r) == File(st, m, r);
    forall m: nat | m < |job.files| && HasWriter(st, m) && m != w.id
      ensures HasWriter(st', m)
    {
      var v :| 0 <= v < |st.workers| && st.workers[v].Mapping? && st.workers[v].id == m && st.workers[v].wrote;
      assert st'.workers[v] == st.workers[v];
    }
    forall r | 0 <= r < job.nReduce
      ensures Unread(st', r, -1) ==> Unread(st, r, -1)
    {
      StillUnread(st, st', step.w, r);
    }
  }

  // ---------- Reduce tasks ----------

  lemma AskReduceKeepsInv(job: Job, st: State, step: Step)
    requires Inv(job, st) && Enabled(job, st, step) && step.AskReduce?
    ensures Inv(job, Do(job, st, step))
  {
    hide MergedOk, FileOk, LinesFor, PartOk;
    var st', t := Do(job, st, step), FirstTodo(st.books.reduces, 0);
    var w := st.workers[step.w];
    assert WorkerOk(job, st, w);
    if t == |st.books.reduces| {
      MoveKeepsInv(job, st, step.w, RdcHead(w.done), st.books);
    } else {
      MoveKeepsInv(job, st, step.w, Opening(t, |job.files|, w.done),
          st.books.(reduces := st.books.reduces[t := Doing]));
    }
  }

  lemma OpenKeepsInv(job: Job, st: State, step: Step)
    requires Inv(job, st) && Enabled(job, st, step) && step.OpenOutput? && OneHand(job, st, step)
    ensures Inv(job, Do(job, st, step))
  {
    hide MergedOk, FileOk, LinesFor, PartOk, AllToDo, Emits, NoEmptyRecord;
    var st', w := Do(job, st, step), st.workers[step.w];
    assert WorkerOk(job, st, w);
    NothingMerged(job, w.id);
    assert forall m: nat, r: nat :: File(st', m, r) == File(st, m, r);
    forall v | 0 <= v < |st'.workers|
      ensures WorkerOk(job, st', st'.workers[v])
    {
      assert WorkerOk(job, st, st.workers[v]);
      assert v != step.w ==> !Writes(st.workers[v], w.id);
    }
    forall r | 0 <= r < job.nReduce
      ensures Unread(st', r, -1) ==> Unread(st, r, -1)
      ensures Unwritten(st', r, -1) ==> Unwritten(st, r, -1)
    {
      StillUnread(st, st', step.w, r);
    }
    assert forall r: nat :: Output(st', r) == if r == w.id then [] else Output(st, r);
    assert FilesOk(job, st') && OutputsOk(job, st');
    SameReaders(job, st, st', step.w);
  }

  lemma NothingMerged(job: Job, r: nat)
    requires JobOk(job)
    ensures MergedOk(job, map[], 0, r)
  {
  }

  /** Before the step: no file from `next` on has been read. */
  lemma FilesAhead(job: Job, st: State, step: Step)
    requires Inv(job, st) && Enabled(job, st, step) && step.ReadFile? && OneHand(job, st, step)
    ensures var w := st.workers[step.w];
            w.id < job.nReduce && ReaderOk(job, st, w.id, w.next)
  {
    hide FileOk, MergedOk, LinesFor, PartOk;
    var w := st.workers[step.w];
    assert WorkerOk(job, st, w);
    if w.next == 0 {
      assert Unread(st, w.id, -1);
    }
  }

  lemma ReadKeepsInv(job: Job, st: State, step: Step)
    requires Inv(job, st) && Enabled(job, st, step) && step.ReadFile? && OneHand(job, st, step)
    ensures Inv(job, Do(job, st, step))
  {
    hide MergedOk, FileOk, LinesFor, PartOk, AddRecords, AllToDo, Emits, NoEmptyRecord;
    var st', w := Do(job, st, step), st.workers[step.w];
    assert WorkerOk(job, st, w);
    FilesAhead(job, st, step);
    assert forall m: nat, r: nat :: (m, r) != (w.next, w.id) ==> File(st', m, r) == File(st, m, r);
    assert forall r: nat :: Output(st', r) == Output(st, r);
    MergeOne(job, w.kva, File(st, w.next, w.id), w.next, w.id);
    forall v | 0 <= v < |st'.workers| && v != step.w
      ensures WorkerOk(job, st', st'.workers[v]) && !BothTouch(st'.workers[v], st'.workers[step.w])
    {
      var worker := st.workers[v];
      assert WorkerOk(job, st, worker);
      assert !HasRead(worker, w.id) by {
        if w.next > 0 {
          OneReader(job, st, v, step.w, w.id);
        }
      }
      assert worker.Writing? ==> Output(st', worker.id) + worker.lines == Output(st, worker.id) + worker.lines;
    }
    assert FilesOk(job, st') by { ReadFiles(job, st, step); }
    assert OutputsOk(job, st') by { SameOutputs(job, st, st', step.w); }
  }

  lemma ReadFiles(job: Job, st: State, step: Step)
    requires Inv(job, st) && Enabled(job, st, step) && step.ReadFile? && AllFinished(st.books.maps)
    ensures FilesOk(job, Do(job, st, step))
  {
    hide MergedOk, FileOk, LinesFor, PartOk, AddRecords, AllToDo, Emits, NoEmptyRecord;
    var st', w := Do(job, st, step), st.workers[step.w];
    assert forall m: nat, r: nat :: (m, r) != (w.next, w.id) ==> File(st', m, r) == File(st, m, r);
    forall r | 0 <= r < job.nReduce && Unread(st', r, -1)
      ensures r != w.id && Unread(st, r, -1)
    {
      assert !HasRead(st'.workers[step.w], r);
      StillUnread(st, st', step.w, r);
    }
  }

  lemma MergeOne(job: Job, kva: Merged, file: seq<KeyValues>, m: nat, r: nat)
    requires JobOk(job) && m < |job.files| && MergedOk(job, kva, m, r) && FileOk(job, file, m, r)
    ensures MergedOk(job, AddRecords(kva, file), m + 1, r)
  {
    hide AddRecords, RecordValues, ValuesOf;
    MergeKeepsValues(kva, file, "");
    forall k
      ensures multiset(Found(AddRecords(kva, file), k)) ==
              if Bucket(job, k) == r then TotalValues(job, m + 1, k) else multiset{}
    {
      MergeKeepsValues(kva, file, k);
      assert RecordValues(file, k) == Share(job, m, r, k);
    }
  }

  /** With input files no two workers have read one task. */
  lemma OneReader(job: Job, st: State, v: nat, w: nat, r: nat)
    requires Inv(job, st) && job.files != [] && v < |st.workers| && w < |st.workers| && v != w
    requires HasRead(st.workers[w], r)
    ensures !HasRead(st.workers[v], r)
  {
    hide WorkerOk, FilesOk, OutputsOk;
    if v < w {
      assert !BothTouch(st.workers[v], st.workers[w]);
    } else {
      assert !BothTouch(st.workers[w], st.workers[v]);
    }
  }

  /** The worker that has read all files begins to write an empty output. */
  lemma BeginsEmpty(job: Job, st: State, w: nat)
    requires Inv(job, st) && w < |st.workers| && st.workers[w].Reducing? && st.workers[w].next == |job.files|
    ensures Output(st, st.workers[w].id) == []
  {
    hide MergedOk, FileOk, LinesFor, PartOk, AllToDo, Emits, NoEmptyRecord;
    var worker := st.workers[w];
    assert WorkerOk(job, st, worker);
    if job.files != [] {
      assert HasRead(worker, worker.id);
      forall v | 0 <= v < |st.workers|
        ensures !Writes(st.workers[v], worker.id)
      {
        if v != w {
          OneReader(job, st, v, w, worker.id);
        }
      }
      assert Unwritten(st, worker.id, -1);
    }
  }

  lemma NoLines(job: Job, kva: Merged, r: nat, lines: seq<Line>)
    requires JobOk(job) && job.files == [] && MergedOk(job, kva, 0, r) && IsOutput(kva, job.reducef, lines)
    ensures lines == []
  {
    if lines != [] {
      NoKey(job, kva, r, lines[0].key);
    }
  }

  lemma NoKey(job: Job, kva: Merged, r: nat, k: string)
    requires JobOk(job) && MergedOk(job, kva, 0, r)
    ensures k !in kva
  {
    assert multiset(Found(kva, k)) == multiset{};
    assert |multiset(Found(kva, k))| == |Found(kva, k)|;
  }

  lemma ReduceKeepsInv(job: Job, st: State, step: Step)
    requires Inv(job, st) && Enabled(job, st, step) && step.ReduceKeys?
    ensures Inv(job, Do(job, st, step))
  {
    hide MergedOk, FileOk, LinesFor, PartOk, IsOutput, AllToDo, Emits, NoEmptyRecord;
    var st', w := Do(job, st, step), st.workers[step.w];
    assert WorkerOk(job, st, w);
    assert forall m: nat, r: nat :: File(st', m, r) == File(st, m, r);
    BeginsEmpty(job, st, step.w);
    OutputLines(job, w.kva, w.id, step.lines);
    assert [] + step.lines == step.lines;
    if job.files == [] {
      NoLines(job, w.kva, w.id, step.lines);
    }
    forall v | 0 <= v < |st'.workers|
      ensures WorkerOk(job, st', st'.workers[v])
    {
      assert WorkerOk(job, st, st.workers[v]);
    }
    SameReaders(job, st, st', step.w);
    assert FilesOk(job, st') by { ReadersKeepFiles(job, st, st', step.w); }
    assert OutputsOk(job, st') by { SameOutputs(job, st, st', step.w); }
  }

  /** Whoever has read a task goes on with it. */
  lemma SameReaders(job: Job, st: State, st': State, w: nat)
    requires Inv(job, st) && w < |st.workers| && |st'.workers| == |st.workers|
    requires forall v :: 0 <= v < |st.workers| && v != w ==> st'.workers[v] == st.workers[v]
    requires !st'.workers[w].Mapping?
    requires job.files != [] ==> forall r: nat :: HasRead(st'.workers[w], r) ==> HasRead(st.workers[w], r)
    ensures job.files != [] ==> forall v, u :: 0 <= v < u < |st'.workers| ==> !BothTouch(st'.workers[v], st'.workers[u])
  {
    hide WorkerOk, FilesOk, OutputsOk;
    if job.files != [] {
      forall v, u | 0 <= v < u < |st'.workers|
        ensures !BothTouch(st'.workers[v], st'.workers[u])
      {
        assert !BothTouch(st.workers[v], st.workers[u]);
      }
    }
  }

  lemma ReadersKeepFiles(job: Job, st: State, st': State, w: nat)
    requires Inv(job, st) && BooksMatch(job, st'.books) && AllFinished(st.books.maps) && st'.books.maps == st.books.maps
    requires w < |st.workers| && |st'.workers| == |st.workers| && st'.files == st.files
    requires forall v :: 0 <= v < |st.workers| && v != w ==> st'.workers[v] == st.workers[v]
    requires forall i :: 0 <= i < job.nReduce && st.books.reduces[i] == Finished ==> st'.books.reduces[i] == Finished
    requires forall r: nat :: r < job.nReduce && HasRead(st.workers[w], r) ==>
               HasRead(st'.workers[w], r) || st'.books.reduces[r] == Finished
    ensures FilesOk(job, st')
  {
    hide FileOk, WorkerOk, OutputsOk;
    forall m, r | 0 <= m < |job.files| && 0 <= r < job.nReduce && Unread(st', r, -1)
      ensures FileOk(job, File(st', m, r), m, r)
    {
      forall v | 0 <= v < |st.workers|
        ensures !HasRead(st.workers[v], r)
      {
        assert !HasRead(st'.workers[v], r);
      }
      assert Unread(st, r, -1);
    }
  }

  lemma WriteKeepsInv(job: Job, st: State, step: Step)
    requires Inv(job, st) && Enabled(job, st, step) && step.WriteLine?
    ensures Inv(job, Do(job, st, step))
  {
    hide MergedOk, FileOk, LinesFor, PartOk, AllToDo, Emits, NoEmptyRecord;
    var st', w := Do(job, st, step), st.workers[step.w];
    assert WorkerOk(job, st, w) && job.files != [];
    assert forall m: nat, r: nat :: File(st', m, r) == File(st, m, r);
    assert forall r: nat :: r != w.id ==> Output(st', r) == Output(st, r);
    assert Output(st, w.id) + w.lines == Output(st', w.id) + w.lines[1..];
    forall v | 0 <= v < |st'.workers|
      ensures WorkerOk(job, st', st'.workers[v])
    {
      assert WorkerOk(job, st, st.workers[v]);
      if v != step.w {
        OneReader(job, st, v, step.w, w.id);
      }
    }
    SameReaders(job, st, st', step.w);
    assert FilesOk(job, st') by { ReadersKeepFiles(job, st, st', step.w); }
    forall r | 0 <= r < job.nReduce
      ensures Unwritten(st', r, -1) ==> Unwritten(st, r, -1) && r != w.id
    {
      assert Writes(st'.workers[step.w], w.id);
      StillUnread(st, st', step.w, r);
    }
    assert OutputsOk(job, st');
  }

  lemma EndReduceKeepsInv(job: Job, st: State, step: Step)
    requires Inv(job, st) && Enabled(job, st, step) && step.EndReduce?
    ensures Inv(job, Do(job, st, step))
  {
    hide MergedOk, FileOk, LinesFor, PartOk, IsOutput, AllToDo, Emits, NoEmptyRecord;
    var st', w := Do(job, st, step), st.workers[step.w];
    assert WorkerOk(job, st, w);
    assert forall m: nat, r: nat :: File(st', m, r) == File(st, m, r);
    assert forall r: nat :: Output(st', r) == Output(st, r);
    assert Output(st, w.id) + w.lines == Output(st', w.id);
    forall v | 0 <= v < |st'.workers|
      ensures WorkerOk(job, st', st'.workers[v])
    {
      assert WorkerOk(job, st, st.workers[v]);
      if v != step.w && job.files != [] {
        OneReader(job, st, v, step.w, w.id);
      }
    }
    SameReaders(job, st, st', step.w);
    assert FilesOk(job, st') by { ReadersKeepFiles(job, st, st', step.w); }
    forall r | 0 <= r < job.nReduce
      ensures Unwritten(st', r, -1) ==> Unwritten(st, r, -1)
    {
      StillUnread(st, st', step.w, r);
    }
    assert OutputsOk(job, st');
  }

  lemma OutputLines(job: Job, kva: Merged, r: nat, lines: seq<Line>)
    requires JobOk(job) && MergedOk(job, kva, |job.files|, r) && IsOutput(kva, job.reducef, lines)
    ensures LinesFor(job, lines, KeysOfTask(job, r))
  {
    hide TotalValues, Before;
    var mine, n := KeysOfTask(job, r), |job.files|;
    forall x | 0 <= x < |lines|
      ensures lines[x].key in mine && LineOk(job, lines[x])
    {
      var k := lines[x].key;
      var vs := Found(kva, k);
      assert multiset(vs) != multiset{} by { assert vs[0] in multiset(vs); }
      assert multiset(vs) == TotalValues(job, n, k);
    }
    forall k | k in mine && TotalValues(job, n, k) != multiset{}
      ensures exists x :: 0 <= x < |lines| && lines[x].key == k
    {
      assert multiset(Found(kva, k)) == TotalValues(job, n, k);
      assert k in kva;
    }
  }

  // ---------- Every step, every run ----------

  lemma LateKeepsInv(job: Job, st: State, step: Step)
    requires Inv(job, st) && Enabled(job, st, step) && step.Late?
    ensures Inv(job, Do(job, st, step))
  {
    hide MergedOk, FileOk, LinesFor, PartOk, AllToDo, Emits, NoEmptyRecord;
    var st' := Do(job, st, step);
    assert SameFinished(st.books.maps, st'.books.maps) && SameFinished(st.books.reduces, st'.books.reduces);
    assert forall m: nat, r: nat :: File(st', m, r) == File(st, m, r);
    forall v | 0 <= v < |st'.workers|
      ensures WorkerOk(job, st', st'.workers[v])
    {
      SameView(job, st, st', st.workers[v]);
    }
    assert forall r: nat :: Output(st', r) == Output(st, r);
    assert forall r: nat, w: int :: Unread(st', r, w) <==> Unread(st, r, w);
    assert forall r: nat, w: int :: Unwritten(st', r, w) <==> Unwritten(st, r, w);
    assert FilesOk(job, st') && OutputsOk(job, st');
  }

  lemma StepKeepsInv(job: Job, st: State, step: Step)
    requires Inv(job, st) && Enabled(job, st, step) && OneHand(job, st, step)
    ensures Inv(job, Do(job, st, step))
  {
    hide FilesOk, OutputsOk;
    match step
    case Late(_, _) => LateKeepsInv(job, st, step);
    case PollMaps(w) =>
      var done := AllFinished(st.books.maps);
      MoveKeepsInv(job, st, w, if st.workers[w].Boot? then MapHead(done) else MapAsk(done), st.books);
    case AskMap(_, _) => AskMapKeepsInv(job, st, step);
    case AppendRecord(_) => AppendKeepsInv(job, st, step);
    case EndMap(_) => EndMapKeepsInv(job, st, step);
    case ToReduce(w) =>
      assert WorkerOk(job, st, st.workers[w]);
      MoveKeepsInv(job, st, w, RdcHead(AllFinished(st.books.reduces)), st.books);
    case PollReduces(w) =>
      assert WorkerOk(job, st, st.workers[w]);
      MoveKeepsInv(job, st, w, RdcAsk(AllFinished(st.books.reduces)), st.books);
    case AskReduce(_) => AskReduceKeepsInv(job, st, step);
    case ReadFile(_) => ReadKeepsInv(job, st, step);
    case OpenOutput(_) => OpenKeepsInv(job, st, step);
    case ReduceKeys(_, _) => ReduceKeepsInv(job, st, step);
    case WriteLine(_) => WriteKeepsInv(job, st, step);
    case EndReduce(_) => EndReduceKeepsInv(job, st, step);
  }

  lemma {:induction false} RunKeepsInv(job: Job, run: seq<State>, steps: seq<Step>, i: nat)
    requires IsOneHandRun(job, run, steps) && i < |run|
    ensures Inv(job, run[i])
  {
    hide Inv, Do, Enabled, OneHand;
    if i == 0 {
      InitInv(job, run[0]);
    } else {
      RunKeepsInv(job, run, steps, i - 1);
      StepKeepsInv(job, run[i - 1], steps[i - 1]);
      assert run[i - 1 + 1] == Do(job, run[i - 1], steps[i - 1]);
    }
  }
}
