/** The master of MapReduce: which task is handed out next, and when a phase is over. */
module MrMaster {

  datatype TaskState = Todo | Doing | Finished

  datatype TaskKind = MapTask | ReduceTask

  /** The master's books, without the clock. */
  datatype Books = Books(files: seq<string>, nReduce: nat, maps: seq<TaskState>, reduces: seq<TaskState>)

  datatype FileReply = FileReply(id: nat, fileName: string, nMap: nat, nReduce: nat)

  /** The first task to do, or the number of tasks. */
  function FirstTodo(states: seq<TaskState>, i: nat): (t: nat)
    requires i <= |states|
    ensures i <= t <= |states| && (t < |states| ==> states[t] == Todo)
    ensures forall x :: i <= x < t ==> states[x] != Todo
    decreases |states| - i
  {
    if i == |states| || states[i] == Todo then i else FirstTodo(states, i + 1)
  }

  predicate AllFinished(states: seq<TaskState>) {
    forall i :: 0 <= i < |states| ==> states[i] == Finished
  }

  /** No task is to do. */
  predicate AllTaken(states: seq<TaskState>) {
    forall i :: 0 <= i < |states| ==> states[i] != Todo
  }

  ghost predicate BooksOk(b: Books) {
    |b.maps| == |b.files| && |b.reduces| == b.nReduce
  }

  /** The reply to a request for a task, and the books after it. */
  function HandOut(b: Books, kind: TaskKind): (Books, FileReply)
    requires BooksOk(b)
  {
    match kind
    case MapTask =>
      var t := FirstTodo(b.maps, 0);
      if t < |b.maps| then (b.(maps := b.maps[t := Doing]), FileReply(t, b.files[t], 0, b.nReduce))
      else (b, FileReply(0, "", 0, 0))
    case ReduceTask =>
      var t := FirstTodo(b.reduces, 0);
      if t < |b.reduces| then (b.(reduces := b.reduces[t := Doing]), FileReply(t, "", |b.files|, b.nReduce))
      else (b, FileReply(b.nReduce, "", 0, 0))
  }

  function Marked(b: Books, kind: TaskKind, id: nat, state: TaskState): Books
    requires id < |if kind.MapTask? then b.maps else b.reduces|
  {
    match kind
    case MapTask => b.(maps := b.maps[id := state])
    case ReduceTask => b.(reduces := b.reduces[id := state])
  }

  /** Tasks under way for too long are to do again. */
  function Reissued(states: seq<TaskState>, late: set<nat>): (r: seq<TaskState>)
    ensures |r| == |states|
    ensures forall i :: 0 <= i < |states| ==> r[i] == if states[i] == Doing && i in late then Todo else states[i]
  {
    seq(|states|, i requires 0 <= i < |states| => if states[i] == Doing && i in late then Todo else states[i])
  }

  /** What `Done` does to the books: late maps are reissued before all maps are finished, late reduces after. */
  function CheckLate(b: Books, late: set<nat>): Books {
    if AllFinished(b.maps) then b.(reduces := Reissued(b.reduces, late)) else b.(maps := Reissued(b.maps, late))
  }

  /** Ten seconds. */
  const LIMIT: int := 10_000_000_000

  class Master {
    const Files: seq<string>
    const NReduce: nat
    const MapStates: array<TaskState>
    const RdcStates: array<TaskState>
    const TaskTime: array<int>

    ghost predicate Valid()
      reads this
    {
      && MapStates.Length == |Files|
      && RdcStates.Length == NReduce
      && MapStates != RdcStates
      && |Files| <= TaskTime.Length
      && NReduce <= TaskTime.Length
    }

    ghost function View(): Books
      reads this, MapStates, RdcStates
    {
      Books(Files, NReduce, MapStates[..], RdcStates[..])
    }

    /** The tasks that have been under way for too long. */
    ghost function Late(now: int): set<nat>
      reads this, TaskTime
    {
      set i: nat | i < TaskTime.Length && now - TaskTime[i] > LIMIT
    }

    constructor (files: seq<string>, nReduce: nat)
      ensures Valid() && fresh(MapStates) && fresh(RdcStates) && fresh(TaskTime)
      ensures View() == Books(files, nReduce, seq(|files|, _ => Todo), seq(nReduce, _ => Todo))
    {
      Files, NReduce := files, nReduce;
      MapStates := new TaskState[|files|](_ => Todo);
      RdcStates := new TaskState[nReduce](_ => Todo);
      TaskTime := new int[if |files| > nReduce then |files| else nReduce](_ => 0);
      new;
      assert MapStates[..] == seq(|files|, _ => Todo);
      assert RdcStates[..] == seq(nReduce, _ => Todo);
    }

    /** The loop of `GetFile`, for either kind of task. */
    method FindTodo(states: array<TaskState>) returns (i: nat)
      ensures i == FirstTodo(states[..], 0)
    {
      i := 0;
      while i < states.Length && states[i] != Todo
        invariant 0 <= i <= states.Length
        invariant FirstTodo(states[..], 0) == FirstTodo(states[..], i)
      {
        i := i + 1;
      }
    }

    method GetFile(kind: TaskKind, now: int) returns (reply: FileReply)
      requires Valid()
      modifies MapStates, RdcStates, TaskTime
      ensures Valid() && (View(), reply) == HandOut(old(View()), kind)
      // a task is handed out exactly if there is one to do, with all that the worker needs to know
      ensures kind.MapTask? && !AllTaken(old(MapStates[..])) ==>
                && reply.id < |Files| && old(MapStates[reply.id]) == Todo && MapStates[reply.id] == Doing
                && reply.fileName == Files[reply.id] && reply.nReduce == NReduce && TaskTime[reply.id] == now
      ensures kind.ReduceTask? && !AllTaken(old(RdcStates[..])) ==>
                && reply.id < NReduce && old(RdcStates[reply.id]) == Todo && RdcStates[reply.id] == Doing
                && reply.nMap == |Files| && reply.nReduce == NReduce && TaskTime[reply.id] == now
      ensures kind.MapTask? && AllTaken(old(MapStates[..])) ==>
                reply.fileName == "" && TaskTime[..] == old(TaskTime[..])
      ensures kind.ReduceTask? && AllTaken(old(RdcStates[..])) ==>
                reply.id >= reply.nReduce && TaskTime[..] == old(TaskTime[..])
      // and nothing else changes
      ensures kind.MapTask? ==> RdcStates[..] == old(RdcStates[..])
      ensures kind.ReduceTask? ==> MapStates[..] == old(MapStates[..])
      ensures forall i :: 0 <= i < MapStates.Length && i != reply.id ==> MapStates[i] == old(MapStates[i])
      ensures forall i :: 0 <= i < RdcStates.Length && i != reply.id ==> RdcStates[i] == old(RdcStates[i])
      ensures forall i :: 0 <= i < TaskTime.Length && i != reply.id ==> TaskTime[i] == old(TaskTime[i])
    {
      if kind == MapTask {
        var i := FindTodo(MapStates);
        if i < MapStates.Length {
          MapStates[i] := Doing;
          TaskTime[i] := now;
          reply := FileReply(i, Files[i], 0, NReduce);
        } else {
          reply := FileReply(0, "", 0, 0);
        }
      } else {
        var i := FindTodo(RdcStates);
        if i < RdcStates.Length {
          RdcStates[i] := Doing;
          TaskTime[i] := now;
          reply := FileReply(i, "", |Files|, NReduce);
        } else {
          reply := FileReply(NReduce, "", 0, 0);
        }
      }
    }

    method SetState(kind: TaskKind, id: nat, state: TaskState)
      requires Valid() && id < if kind.MapTask? then MapStates.Length else RdcStates.Length
      modifies MapStates, RdcStates
      ensures Valid() && View() == Marked(old(View()), kind, id, state)
    {
      if kind == MapTask {
        MapStates[id] := state;
      } else {
        RdcStates[id] := state;
      }
    }

    method CheckStates(states: array<TaskState>) returns (finished: bool)
      ensures finished <==> AllFinished(states[..])
    {
      var i := 0;
      while i < states.Length
        invariant 0 <= i <= states.Length && forall x :: 0 <= x < i ==> states[x] == Finished
      {
        if states[i] == Todo || states[i] == Doing {
          assert states[..][i] != Finished;
          return false;
        }
        i := i + 1;
      }
      return true;
    }

    method TaskFinished(kind: TaskKind) returns (finished: bool)
      requires Valid()
      ensures finished <==> AllFinished(if kind.MapTask? then View().maps else View().reduces)
    {
      if kind == MapTask {
        finished := CheckStates(MapStates);
      } else {
        finished := CheckStates(RdcStates);
      }
    }

    /** The last loops of `Done`. */
    method Reissue(states: array<TaskState>, now: int)
      requires Valid() && states.Length <= TaskTime.Length
      modifies states
      ensures states[..] == Reissued(old(states[..]), old(Late(now)))
    {
      var i := 0;
      while i < states.Length
        invariant 0 <= i <= states.Length
        invariant forall x :: 0 <= x < i ==> states[x] == Reissued(old(states[..]), Late(now))[x]
        invariant forall x :: i <= x < states.Length ==> states[x] == old(states[x])
      {
        if states[i] == Doing && now - TaskTime[i] > LIMIT {
          states[i] := Todo;
        }
        i := i + 1;
      }
    }

    method Done(now: int) returns (done: bool)
      requires Valid()
      modifies MapStates, RdcStates
      ensures Valid() && View() == CheckLate(old(View()), old(Late(now)))
      ensures done <==> AllFinished(old(View()).maps) && AllFinished(old(View()).reduces)
      // what has been under way for over ten seconds is to do again, reduce tasks only after all maps
      ensures forall i :: 0 <= i < MapStates.Length ==>
                var late := old(MapStates[i]) == Doing && now - TaskTime[i] > 10_000_000_000;
                MapStates[i] == if late then Todo else old(MapStates[i])
      ensures forall i :: 0 <= i < RdcStates.Length ==>
                var late := old(RdcStates[i]) == Doing && now - TaskTime[i] > 10_000_000_000;
                RdcStates[i] == if AllFinished(old(MapStates[..])) && late then Todo else old(RdcStates[i])
    {
      var mapFinished := CheckStates(MapStates);
      var reduceFinished := CheckStates(RdcStates);
      done := mapFinished && reduceFinished;
      if !mapFinished {
        Reissue(MapStates, now);
      } else {
        Reissue(RdcStates, now);
      }
    }
  }
}
