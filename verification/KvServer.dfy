/** The key/value server: what applying the committed commands in order does to it. */
module KvServer {
  import opened RaftTypes
  import KvModel

  /** An entry of the server's log: the applied command and whether it was a duplicate. */
  datatype LogOp = LogOp(op: Op, isDup: bool)

  datatype Replica = Replica(kv: KvModel.Store, log: seq<LogOp>, latest: map<int, int>)

  /** The zero value at index 0 of the log. */
  const ZERO_OP: Op := Op(Put, "", "", 0, 0)

  const FRESH: Replica := Replica(map[], [LogOp(ZERO_OP, false)], map[])

  /** `Op.equals`. */
  predicate SameCommand(a: Op, b: Op) {
    a.clerkId == b.clerkId && a.commandId == b.commandId
  }

  predicate Duplicate(r: Replica, op: Op) {
    op.clerkId in r.latest && r.latest[op.clerkId] >= op.commandId
  }

  /** The command as the log keeps it: a Get with the value it read. */
  function Logged(kv: KvModel.Store, op: Op): Op {
    if op.kind.Get? then op.(value := KvModel.Lookup(kv, op.key)) else op
  }

  function Written(kv: KvModel.Store, op: Op): KvModel.Store {
    match op.kind
    case Get => kv
    case Put => kv[op.key := op.value]
    case Append => kv[op.key := KvModel.Lookup(kv, op.key) + op.value]
  }

  /** One message from `applyCh`. */
  function Apply(r: Replica, op: Op): Replica {
    if Duplicate(r, op) then r.(log := r.log + [LogOp(op, true)])
    else Replica(Written(r.kv, op), r.log + [LogOp(Logged(r.kv, op), false)], r.latest[op.clerkId := op.commandId])
  }

  /** The server after the commands of `ops`. */
  function After(ops: seq<Op>): Replica {
    if ops == [] then FRESH else Apply(After(ops[..|ops| - 1]), ops[|ops| - 1])
  }

  // ---------- Exactly-once application ----------

  /** Command `i` is newer than every earlier command of its clerk. */
  ghost predicate IsNew(ops: seq<Op>, i: nat)
    requires i < |ops|
  {
    forall j :: 0 <= j < i && ops[j].clerkId == ops[i].clerkId ==> ops[j].commandId < ops[i].commandId
  }

  /** The store that the new commands alone produce. */
  ghost function StoreOf(ops: seq<Op>): KvModel.Store {
    if ops == [] then map[]
    else
      var m := |ops| - 1;
      if IsNew(ops, m) then Written(StoreOf(ops[..m]), ops[m]) else StoreOf(ops[..m])
  }

  /** `latest` holds the largest command id of every clerk that was applied. */
  ghost predicate LatestOk(ops: seq<Op>, latest: map<int, int>) {
    && (forall j :: 0 <= j < |ops| ==> ops[j].clerkId in latest && ops[j].commandId <= latest[ops[j].clerkId])
    && (forall c :: c in latest ==> exists j :: 0 <= j < |ops| && ops[j].clerkId == c && ops[j].commandId == latest[c])
  }

  lemma {:induction false} LatestIs(ops: seq<Op>)
    ensures LatestOk(ops, After(ops).latest)
    decreases |ops|
  {
    if ops != [] {
      var m := |ops| - 1;
      LatestIs(ops[..m]);
      var r, r' := After(ops[..m]), After(ops);
      forall c | c in r'.latest
        ensures exists j :: 0 <= j < |ops| && ops[j].clerkId == c && ops[j].commandId == r'.latest[c]
      {
        if c == ops[m].clerkId && !Duplicate(r, ops[m]) {
          assert ops[m].clerkId == c;
        } else {
          var j :| 0 <= j < m && ops[..m][j].clerkId == c && ops[..m][j].commandId == r.latest[c];
          assert ops[j].clerkId == c;
        }
      }
      forall j | 0 <= j < |ops|
        ensures ops[j].clerkId in r'.latest && ops[j].commandId <= r'.latest[ops[j].clerkId]
      {
        assert j < m ==> ops[..m][j] == ops[j];
      }
    }
  }

  /** A command is treated as a duplicate exactly when it is not newer than all earlier ones of its clerk. */
  lemma DuplicateIsOld(ops: seq<Op>, i: nat)
    requires i < |ops|
    ensures Duplicate(After(ops[..i]), ops[i]) <==> !IsNew(ops, i)
  {
    LatestIs(ops[..i]);
    var r := After(ops[..i]);
    if Duplicate(r, ops[i]) {
      var j :| 0 <= j < i && ops[..i][j].clerkId == ops[i].clerkId && ops[..i][j].commandId == r.latest[ops[i].clerkId];
      assert ops[j] == ops[..i][j];
    }
    if !IsNew(ops, i) {
      var j :| 0 <= j < i && ops[j].clerkId == ops[i].clerkId && ops[j].commandId >= ops[i].commandId;
      assert ops[..i][j] == ops[j];
    }
  }

  /** The server's map is the fold of its new commands: each takes effect once. */
  lemma {:induction false} ExactlyOnce(ops: seq<Op>)
    ensures After(ops).kv == StoreOf(ops)
    decreases |ops|
  {
    if ops != [] {
      var m := |ops| - 1;
      ExactlyOnce(ops[..m]);
      DuplicateIsOld(ops, m);
    }
  }

  // ---------- The log ----------

  lemma NewInPrefix(log: seq<Op>, len: nat, i: nat)
    requires i < len <= |log|
    ensures IsNew(log[..len], i) <==> IsNew(log, i)
  {
    var pre := log[..len];
    assert forall j :: 0 <= j <= i ==> pre[j] == log[j];
  }

  lemma {:induction false} LogIs(ops: seq<Op>, i: nat)
    requires i < |ops|
    ensures |After(ops).log| == |ops| + 1 && After(ops).log[0] == LogOp(ZERO_OP, false)
    ensures After(ops).log[i + 1] ==
            if IsNew(ops, i) then LogOp(Logged(StoreOf(ops[..i]), ops[i]), false) else LogOp(ops[i], true)
    decreases |ops|
  {
    hide StoreOf, IsNew;
    var m := |ops| - 1;
    LogSize(ops[..m]);
    if i < m {
      LogIs(ops[..m], i);
      assert ops[..m][..i] == ops[..i] && ops[..m][i] == ops[i];
      NewInPrefix(ops, m, i);
    } else {
      DuplicateIsOld(ops, i);
      ExactlyOnce(ops[..i]);
    }
  }

  lemma {:induction false} LogSize(ops: seq<Op>)
    ensures |After(ops).log| == |ops| + 1 && After(ops).log[0] == LogOp(ZERO_OP, false)
    decreases |ops|
  {
    if ops != [] {
      LogSize(ops[..|ops| - 1]);
    }
  }

  // ---------- Answers ----------

  /** The first entry of the log, from `i` on, with the same command; the code's loop. */
  function FindCommand(log: seq<LogOp>, i: nat, op: Op): string
    requires i <= |log|
    decreases |log| - i
  {
    if i == |log| then ""
    else if SameCommand(log[i].op, op) then log[i].op.value
    else FindCommand(log, i + 1, op)
  }

  /** What a handler that waits for `index` answers, or nothing if another command took its place. */
  function Answer(r: Replica, op: Op, index: nat): Option<string>
    requires index < |r.log|
  {
    var e := r.log[index];
    if !SameCommand(op, e.op) then None
    else if !e.isDup then Some(e.op.value)
    else Some(FindCommand(r.log, 0, e.op))
  }

  /** Entry `i` is the first one with the command. */
  ghost predicate IsFirst(log: seq<LogOp>, op: Op, i: int) {
    && 0 <= i < |log|
    && SameCommand(log[i].op, op)
    && forall j :: 0 <= j < i ==> !SameCommand(log[j].op, op)
  }

  // ---------- The server object ----------

  class Server {
    var kv: KvModel.Store
    var log: seq<LogOp>
    var lastApplied: nat
    var clerkLatestCmd: map<int, int>

    ghost function View(): Replica
      reads this
    {
      Replica(kv, log, clerkLatestCmd)
    }

    ghost predicate Valid()
      reads this
    {
      |log| == lastApplied + 1
    }

    constructor ()
      ensures Valid() && View() == FRESH == After([])
    {
      kv, log, lastApplied, clerkLatestCmd := map[], [LogOp(ZERO_OP, false)], 0, map[];
    }

    /** The body of `checkApply` for one message. */
    method ApplyMsg(command: Op, index: nat)
      requires Valid() && index == lastApplied + 1
      modifies this
      ensures Valid() && View() == Apply(old(View()), command) && lastApplied == index
    {
      var dup := false;
      if command.clerkId !in clerkLatestCmd {
        clerkLatestCmd := clerkLatestCmd[command.clerkId := command.commandId];
      } else if clerkLatestCmd[command.clerkId] >= command.commandId {
        dup := true;
      } else {
        clerkLatestCmd := clerkLatestCmd[command.clerkId := command.commandId];
      }
      log := log + [LogOp(command, dup)];
      if !dup {
        match command.kind
        case Get =>
          var value := if command.key in kv then kv[command.key] else "";
          log := log[index := LogOp(command.(value := value), false)];
          assert log == old(log) + [LogOp(command.(value := value), false)];
        case Put => kv := kv[command.key := command.value];
        case Append =>
          kv := kv[command.key := (if command.key in kv then kv[command.key] + command.value else command.value)];
      }
      assert "" + command.value == command.value;
      lastApplied := lastApplied + 1;
    }

    /** All messages of a sequence, from a fresh server. */
    method ApplyAll(commands: seq<Op>)
      requires Valid() && View() == FRESH && lastApplied == 0
      modifies this
      ensures Valid() && View() == After(commands) && lastApplied == |commands|
    {
      var i := 0;
      while i < |commands|
        invariant 0 <= i <= |commands| && Valid() && lastApplied == i && View() == After(commands[..i])
      {
        assert commands[..i + 1][..i] == commands[..i];
        ApplyMsg(commands[i], i + 1);
        i := i + 1;
      }
      assert commands[..i] == commands;
    }

    /** A Get handler whose command was started at `index` looks at the log once. */
    method TryGet(op: Op, index: nat) returns (done: bool, reply: Option<string>)
      requires Valid()
      ensures done <==> lastApplied >= index
      ensures done ==> reply == Answer(View(), op, index)
      ensures done ==> (reply.Some? <==> SameCommand(op, log[index].op))
      ensures done && reply.Some? && !log[index].isDup ==> reply.value == log[index].op.value
      ensures done && reply.Some? && log[index].isDup ==>
                exists i :: IsFirst(log, op, i) && reply.value == log[i].op.value
    {
      done, reply := false, None;
      if lastApplied >= index {
        done := true;
        var logOp := log[index];
        if !SameCommand(op, logOp.op) {
          reply := None;
        } else if !logOp.isDup {
          reply := Some(logOp.op.value);
        } else {
          var value := "";
          var i := 0;
          while i < |log| && !SameCommand(log[i].op, logOp.op)
            invariant 0 <= i <= |log| && forall j :: 0 <= j < i ==> !SameCommand(log[j].op, logOp.op)
            invariant FindCommand(log, 0, logOp.op) == FindCommand(log, i, logOp.op)
          {
            i := i + 1;
          }
          if i < |log| {
            value := log[i].op.value;
          }
          reply := Some(value);
          assert IsFirst(log, op, i);
        }
      }
    }

    /** A PutAppend handler whose command was started at `index` looks at the log once. */
    method TryPutAppend(op: Op, index: nat) returns (done: bool, ok: bool)
      requires Valid()
      ensures done <==> lastApplied >= index
      ensures done ==> (ok <==> Answer(View(), op, index).Some?) && (ok <==> SameCommand(op, log[index].op))
    {
      done, ok := false, false;
      if lastApplied >= index {
        done := true;
        ok := SameCommand(op, log[index].op);
      }
    }
  }
}
