/**
The replicated key/value service over a growing committed log: clerks invoke one command at a
time and retry it anywhere, servers answer from any applied prefix of the log.
*/
module KvService {
  import opened RaftTypes
  import opened KvServer
  import KvModel

  /** A command of a clerk with the moments of its call and, once it has returned, of its return. */
  datatype Record = Record(op: Op, call: nat, returned: bool, output: string, ret: nat)

  /** A handler that started `op` and waits for `index`. */
  datatype Waiting = Waiting(op: Op, index: nat)

  /** An OK answer to a command. */
  datatype Reply = Reply(clerkId: int, commandId: int, value: string)

  /**
  `log` is the committed log, `submitted` holds every command ever passed to Start, `records`
  the commands in the order of their calls, and `now` is a clock.
  */
  datatype Service = Service(
    log: seq<Op>, submitted: set<Op>, records: seq<Record>, waiting: set<Waiting>, replies: set<Reply>, now: nat)

  datatype Step =
    | Grow(more: seq<Op>)
    | Invoke(op: Op)
    | Request(x: nat, index: nat)
    | Respond(w: Waiting, applied: nat)
    | Complete(x: nat, value: string)
    | Idle

  ghost predicate Init(s: Service) {
    s == Service([], {}, [], {}, {}, 0)
  }

  /** How many commands the clerk has called. */
  function Calls(records: seq<Record>, clerkId: int): nat {
    if records == [] then 0
    else Calls(records[..|records| - 1], clerkId) + if records[|records| - 1].op.clerkId == clerkId then 1 else 0
  }

  ghost predicate Enabled(s: Service, step: Step) {
    match step
    // Raft commits commands that were submitted
    case Grow(more) => forall i :: 0 <= i < |more| ==> more[i] in s.submitted
    // a clerk, not 0, with no command under way calls its next one
    case Invoke(op) =>
      && op.clerkId != 0
      && op.commandId == Calls(s.records, op.clerkId)
      && forall x :: 0 <= x < |s.records| && s.records[x].op.clerkId == op.clerkId ==> s.records[x].returned
    // a request for a command, perhaps an old one, reaches some leader
    case Request(x, index) => x < |s.records| && index >= 1
    // a handler sees its index applied
    case Respond(w, applied) => w in s.waiting && w.index <= applied <= |s.log|
    // the clerk takes the first OK answer to the command under way
    case Complete(x, value) =>
      && x < |s.records|
      && !s.records[x].returned
      && Reply(s.records[x].op.clerkId, s.records[x].op.commandId, value) in s.replies
    case Idle => true
  }

  ghost function Do(s: Service, step: Step): Service
    requires Enabled(s, step)
  {
    match step
    case Grow(more) => s.(log := s.log + more)
    case Invoke(op) => s.(records := s.records + [Record(op, s.now, false, "", 0)], now := s.now + 1)
    case Request(x, index) =>
      s.(submitted := s.submitted + {s.records[x].op}, waiting := s.waiting + {Waiting(s.records[x].op, index)})
    case Respond(w, applied) =>
      LogSize(s.log[..applied]);
      var answer := Answer(After(s.log[..applied]), w.op, w.index);
      if answer.None? then s
      else s.(replies := s.replies + {Reply(w.op.clerkId, w.op.commandId, answer.value)})
    case Complete(x, value) =>
      var output := if s.records[x].op.kind.Get? then value else "";
      s.(records := s.records[x := s.records[x].(returned := true, output := output, ret := s.now)], now := s.now + 1)
    case Idle => s
  }

  ghost predicate IsRun(run: seq<Service>, steps: seq<Step>) {
    && |run| == |steps| + 1
    && Init(run[0])
    && forall i :: 0 <= i < |steps| ==> Enabled(run[i], steps[i]) && run[i + 1] == Do(run[i], steps[i])
  }

  // ---------- Positions in the log ----------

  ghost predicate Occurs(log: seq<Op>, op: Op) {
    exists i :: 0 <= i < |log| && SameCommand(log[i], op)
  }

  /** The first position of a command in the log. */
  ghost predicate FirstAt(log: seq<Op>, op: Op, i: nat) {
    && i < |log|
    && SameCommand(log[i], op)
    && forall j :: 0 <= j < i ==> !SameCommand(log[j], op)
  }

  lemma {:induction false} FirstExists(log: seq<Op>, op: Op, k: nat) returns (i: nat)
    requires k < |log| && SameCommand(log[k], op)
    ensures FirstAt(log, op, i) && i <= k
    decreases k
  {
    if exists j :: 0 <= j < k && SameCommand(log[j], op) {
      var j :| 0 <= j < k && SameCommand(log[j], op);
      i := FirstExists(log, op, j);
    } else {
      i := k;
    }
  }

  // ---------- The invariant ----------

  /** Commands of a clerk are numbered in the order of their calls, and each is called after the one before returned. */
  ghost predicate Numbered(records: seq<Record>) {
    && (forall x, y :: 0 <= x < y < |records| && records[x].op.clerkId == records[y].op.clerkId ==>
          && records[x].op.commandId < records[y].op.commandId
          && records[x].returned
          && records[x].ret < records[y].call)
    && (forall x :: 0 <= x < |records| ==>
          records[x].op.clerkId != 0 && 0 <= records[x].op.commandId < Calls(records, records[x].op.clerkId))
  }

  /** No call happens at the moment of another event, and nothing happens in the future. */
  ghost predicate Clocked(records: seq<Record>, now: nat) {
    && (forall x, y :: 0 <= x < y < |records| ==> records[x].call < records[y].call)
    && (forall x, y :: 0 <= x < |records| && 0 <= y < |records| && records[y].returned ==>
          records[x].call != records[y].ret)
    && (forall x :: 0 <= x < |records| ==>
          records[x].call < now && (records[x].returned ==> records[x].call < records[x].ret < now))
  }

  ghost predicate Known(s: Service, op: Op) {
    exists x :: 0 <= x < |s.records| && s.records[x].op == op
  }

  ghost predicate CommandsOk(s: Service) {
    && (forall op :: op in s.submitted ==> Known(s, op))
    && (forall i :: 0 <= i < |s.log| ==> s.log[i] in s.submitted)
    && (forall w :: w in s.waiting ==> w.index >= 1 && Known(s, w.op))
  }

  /** If `b` is in the log at all, `a` came into it before. */
  ghost predicate Ordered(log: seq<Op>, a: Op, b: Op) {
    forall i: nat :: FirstAt(log, b, i) ==> exists j: nat :: j < i && FirstAt(log, a, j)
  }

  predicate Precedes(a: Record, b: Record) {
    a.returned && a.ret < b.call
  }

  /** Whatever returned before another command was called comes before it in the log. */
  ghost predicate TimeOk(s: Service) {
    forall x, y :: 0 <= x < |s.records| && 0 <= y < |s.records| && Precedes(s.records[x], s.records[y]) ==>
      Ordered(s.log, s.records[x].op, s.records[y].op)
  }

  /** The value that a command at position `i` of the log finds at its key. */
  ghost function ValueAt(log: seq<Op>, i: nat): string
    requires i < |log|
  {
    KvModel.Lookup(StoreOf(log[..i]), log[i].key)
  }

  /** An answer to a Get is the value at its first position in the log. */
  ghost predicate Answers(log: seq<Op>, op: Op, value: string) {
    exists i: nat :: FirstAt(log, op, i) && log[i] == op && (op.kind.Get? ==> value == ValueAt(log, i))
  }

  ghost predicate RepliesOk(s: Service) {
    && (forall r, x :: r in s.replies && 0 <= x < |s.records| && Answered(r, s.records[x].op) ==>
          Answers(s.log, s.records[x].op, r.value))
    && (forall x :: 0 <= x < |s.records| && s.records[x].returned ==>
          Answers(s.log, s.records[x].op, s.records[x].output))
    && (forall r :: r in s.replies ==> exists x :: 0 <= x < |s.records| && Answered(r, s.records[x].op))
  }

  predicate Answered(r: Reply, op: Op) {
    r.clerkId == op.clerkId && r.commandId == op.commandId
  }

  ghost predicate Inv(s: Service) {
    Numbered(s.records) && Clocked(s.records, s.now) && CommandsOk(s) && TimeOk(s) && RepliesOk(s)
  }

  // ---------- Commands are known by clerk and number ----------

  lemma SameRecord(s: Service, x: nat, y: nat)
    requires Numbered(s.records) && x < |s.records| && y < |s.records| && SameCommand(s.records[x].op, s.records[y].op)
    ensures x == y
  {
  }

  lemma SameOp(s: Service, a: Op, b: Op)
    requires Numbered(s.records) && Known(s, a) && Known(s, b) && SameCommand(a, b)
    ensures a == b
  {
    var x :| 0 <= x < |s.records| && s.records[x].op == a;
    var y :| 0 <= y < |s.records| && s.records[y].op == b;
    SameRecord(s, x, y);
  }

  /** A command is newer than all earlier ones of its clerk exactly at its first position. */
  lemma FirstIsNew(s: Service, i: nat)
    requires Inv(s) && i < |s.log|
    ensures IsNew(s.log, i) <==> FirstAt(s.log, s.log[i], i)
  {
    if FirstAt(s.log, s.log[i], i) {
      forall j | 0 <= j < i && s.log[j].clerkId == s.log[i].clerkId
        ensures s.log[j].commandId < s.log[i].commandId
      {
        EarlierIsOlder(s, j, i);
      }
    }
  }

  lemma EarlierIsOlder(s: Service, j: nat, i: nat)
    requires Inv(s) && j < i < |s.log| && s.log[j].clerkId == s.log[i].clerkId && FirstAt(s.log, s.log[i], i)
    ensures s.log[j].commandId < s.log[i].commandId
  {
    hide RepliesOk;
    assert Known(s, s.log[j]) && Known(s, s.log[i]);
    var x :| 0 <= x < |s.records| && s.records[x].op == s.log[i];
    var y :| 0 <= y < |s.records| && s.records[y].op == s.log[j];
    assert x != y;
    if x < y {
      assert Ordered(s.log, s.records[x].op, s.records[y].op);
      var f := FirstExists(s.log, s.log[j], j);
    }
  }

  // ---------- Growing logs ----------

  lemma FirstStays(log: seq<Op>, more: seq<Op>, op: Op, i: nat)
    ensures FirstAt(log, op, i) ==> FirstAt(log + more, op, i)
    ensures i < |log| && FirstAt(log + more, op, i) ==> FirstAt(log, op, i)
  {
    assert forall j :: 0 <= j < |log| ==> (log + more)[j] == log[j];
  }

  lemma AnswersStay(log: seq<Op>, more: seq<Op>, op: Op, value: string)
    requires Answers(log, op, value)
    ensures Answers(log + more, op, value)
  {
    var i: nat :| FirstAt(log, op, i) && log[i] == op && (op.kind.Get? ==> value == ValueAt(log, i));
    FirstStays(log, more, op, i);
    assert (log + more)[..i] == log[..i];
  }

  lemma GrowStep(s: Service, step: Step)
    requires Inv(s) && Enabled(s, step) && step.Grow?
    ensures Inv(Do(s, step))
  {
    hide Numbered, Clocked, FirstAt;
    var s' := Do(s, step);
    assert forall op :: Known(s, op) <==> Known(s', op);
    forall x, y | 0 <= x < |s.records| && 0 <= y < |s.records| && Precedes(s.records[x], s.records[y])
      ensures Ordered(s'.log, s.records[x].op, s.records[y].op)
    {
      GrowOrdered(s, step.more, x, y);
    }
    forall op, value | Answers(s.log, op, value)
      ensures Answers(s'.log, op, value)
    {
      AnswersStay(s.log, step.more, op, value);
    }
  }

  lemma GrowOrdered(s: Service, more: seq<Op>, x: nat, y: nat)
    requires Inv(s) && x < |s.records| && y < |s.records| && s.records[x].returned
    requires s.records[x].ret < s.records[y].call
    ensures Ordered(s.log + more, s.records[x].op, s.records[y].op)
  {
    var a, b := s.records[x].op, s.records[y].op;
    assert Answers(s.log, a, s.records[x].output);
    var f: nat :| FirstAt(s.log, a, f);
    FirstStays(s.log, more, a, f);
    forall i: nat | FirstAt(s.log + more, b, i)
      ensures exists j: nat :: j < i && FirstAt(s.log + more, a, j)
    {
      if i < |s.log| {
        FirstStays(s.log, more, b, i);
        assert Ordered(s.log, a, b);
        var j: nat :| j < i && FirstAt(s.log, a, j);
        FirstStays(s.log, more, a, j);
      }
    }
  }

  // ---------- Calls ----------

  lemma CallsSnoc(records: seq<Record>, r: Record, c: int)
    ensures Calls(records + [r], c) == Calls(records, c) + if r.op.clerkId == c then 1 else 0
  {
    assert (records + [r])[..|records|] == records;
  }

  lemma {:induction false} CallsSame(a: seq<Record>, b: seq<Record>, c: int)
    requires |a| == |b| && forall x :: 0 <= x < |a| ==> a[x].op == b[x].op
    ensures Calls(a, c) == Calls(b, c)
    decreases |a|
  {
    if a != [] {
      CallsSame(a[..|a| - 1], b[..|b| - 1], c);
    }
  }

  lemma ClockedSnoc(records: seq<Record>, r: Record, now: nat)
    requires Clocked(records, now) && r.call == now && !r.returned
    ensures Clocked(records + [r], now + 1)
  {
  }

  lemma InvokeClerks(s: Service, step: Step)
    requires Inv(s) && Enabled(s, step) && step.Invoke?
    ensures Numbered(Do(s, step).records) && Clocked(Do(s, step).records, Do(s, step).now)
  {
    hide TimeOk, RepliesOk, CommandsOk, Calls;
    var s' := Do(s, step);
    var n := |s.records|;
    var r := s'.records[n];
    assert forall x :: 0 <= x < n ==> s'.records[x] == s.records[x];
    forall x | 0 <= x < |s'.records|
      ensures 0 <= s'.records[x].op.commandId < Calls(s'.records, s'.records[x].op.clerkId)
    {
      CallsSnoc(s.records, r, s'.records[x].op.clerkId);
    }
    assert Clocked(s'.records, s'.now) by { ClockedSnoc(s.records, r, s.now); }
  }

  /** A command that is called for the first time is not in the log and has no answers. */
  lemma InvokeFresh(s: Service, op: Op)
    requires Inv(s) && Enabled(s, Invoke(op))
    ensures forall i: nat :: !FirstAt(s.log, op, i)
    ensures forall r :: r in s.replies ==> !Answered(r, op)
  {
    forall i: nat | i < |s.log|
      ensures !SameCommand(s.log[i], op)
    {
      assert Known(s, s.log[i]);
      var x :| 0 <= x < |s.records| && s.records[x].op == s.log[i];
    }
    forall r | r in s.replies
      ensures !Answered(r, op)
    {
      var x :| 0 <= x < |s.records| && Answered(r, s.records[x].op);
    }
  }

  lemma InvokeStep(s: Service, step: Step)
    requires Inv(s) && Enabled(s, step) && step.Invoke?
    ensures Inv(Do(s, step))
  {
    hide Numbered, Clocked, Answers, FirstAt;
    var s' := Do(s, step);
    InvokeClerks(s, step);
    InvokeFresh(s, step.op);
    var n := |s.records|;
    assert forall x :: 0 <= x < n ==> s'.records[x] == s.records[x];
    forall op | Known(s, op)
      ensures Known(s', op)
    {
      var x :| 0 <= x < |s.records| && s.records[x].op == op;
      assert s'.records[x].op == op;
    }
    forall x, y | 0 <= x < |s'.records| && 0 <= y < |s'.records| && Precedes(s'.records[x], s'.records[y])
      ensures Ordered(s'.log, s'.records[x].op, s'.records[y].op)
    {
      assert x < n;
      if y < n {
        assert Ordered(s.log, s.records[x].op, s.records[y].op);
      }
    }
    forall r | r in s'.replies
      ensures exists x :: 0 <= x < |s'.records| && Answered(r, s'.records[x].op)
    {
      var x :| 0 <= x < |s.records| && Answered(r, s.records[x].op);
      assert Answered(r, s'.records[x].op);
    }
  }

  lemma RequestStep(s: Service, step: Step)
    requires Inv(s) && Enabled(s, step) && step.Request?
    ensures Inv(Do(s, step))
  {
    hide Numbered, Clocked, Answers, Ordered;
    var s' := Do(s, step);
    assert forall op :: Known(s, op) <==> Known(s', op);
    assert Known(s', s.records[step.x].op);
  }

  // ---------- Answers ----------

  lemma {:induction false} FindFirst(log: seq<LogOp>, i: nat, op: Op, f: nat)
    requires i <= f < |log| && SameCommand(log[f].op, op)
    requires forall j :: i <= j < f ==> !SameCommand(log[j].op, op)
    ensures FindCommand(log, i, op) == log[f].op.value
    decreases f - i
  {
    if i < f {
      FindFirst(log, i + 1, op, f);
    }
  }

  /**
  What any server answers to a command, from any applied prefix and any index, is the value at
  its first position.
  */
  lemma AnswerIs(s: Service, w: Waiting, applied: nat)
    requires Inv(s) && w in s.waiting && w.index <= applied <= |s.log|
    requires |After(s.log[..applied]).log| == applied + 1
    requires Answer(After(s.log[..applied]), w.op, w.index).Some?
    ensures Answers(s.log, w.op, Answer(After(s.log[..applied]), w.op, w.index).value)
  {
    hide TimeOk, RepliesOk, After, IsNew, Clocked;
    var c := s.log[..applied];
    var i := w.index - 1;
    LogIs(c, i);
    assert Known(s, w.op) && Known(s, s.log[i]);
    SameOp(s, w.op, s.log[i]);
    assert c[..i] == s.log[..i];
    NewInPrefix(s.log, applied, i);
    if IsNew(c, i) {
      FirstIsNew(s, i);
    } else {
      DuplicateAnswer(s, applied, i);
    }
  }

  /**
  A handler whose index is applied answers OK exactly when its command stands there, whether it is
  new or a duplicate.
  */
  lemma AnswerExactly(s: Service, w: Waiting, applied: nat)
    requires Inv(s) && w in s.waiting && w.index <= applied <= |s.log|
    requires |After(s.log[..applied]).log| == applied + 1
    ensures w.index >= 1
    ensures Answer(After(s.log[..applied]), w.op, w.index).Some? <==> SameCommand(s.log[w.index - 1], w.op)
  {
    hide TimeOk, RepliesOk, After, IsNew, Clocked;
    var c := s.log[..applied];
    LogIs(c, w.index - 1);
    assert After(c).log[w.index].op.clerkId == s.log[w.index - 1].clerkId;
    assert After(c).log[w.index].op.commandId == s.log[w.index - 1].commandId;
  }

  lemma DuplicateAnswer(s: Service, applied: nat, i: nat)
    requires Inv(s) && i < applied <= |s.log|
    requires |After(s.log[..applied]).log| == applied + 1
    ensures Answers(s.log, s.log[i], FindCommand(After(s.log[..applied]).log, 0, s.log[i]))
  {
    hide TimeOk, RepliesOk, Answers, After, IsNew, Clocked;
    var c := s.log[..applied];
    var op := s.log[i];
    var log := After(c).log;
    var f := FirstExists(s.log, op, i);
    FirstIsNew(s, f);
    assert Known(s, op) && Known(s, s.log[f]);
    SameOp(s, op, s.log[f]);
    NewInPrefix(s.log, applied, f);
    assert c[..f] == s.log[..f];
    LogIs(c, f);
    forall j | 0 <= j < f + 1
      ensures !SameCommand(log[j].op, op)
    {
      if j == 0 {
        LogSize(c);
        assert op.clerkId != 0;
      } else {
        LogIs(c, j - 1);
        assert !SameCommand(s.log[j - 1], op);
      }
    }
    FindFirst(log, 0, op, f + 1);
    assert Answers(s.log, op, log[f + 1].op.value) by { AnswerAt(s.log, op, f, log[f + 1].op.value); }
  }

  lemma AnswerAt(log: seq<Op>, op: Op, f: nat, value: string)
    requires FirstAt(log, op, f) && log[f] == op && (op.kind.Get? ==> value == ValueAt(log, f))
    ensures Answers(log, op, value)
  {
  }

  lemma RespondStep(s: Service, step: Step)
    requires Inv(s) && Enabled(s, step) && step.Respond?
    ensures Inv(Do(s, step))
  {
    hide Numbered, Clocked, Answers, Ordered, After, Answer;
    var s' := Do(s, step);
    var w := step.w;
    LogSize(s.log[..step.applied]);
    var answer := Answer(After(s.log[..step.applied]), w.op, w.index);
    assert forall op :: Known(s, op) <==> Known(s', op);
    if answer.Some? {
      AnswerIs(s, w, step.applied);
      var r' := Reply(w.op.clerkId, w.op.commandId, answer.value);
      assert Known(s, w.op);
      forall r, x | r in s'.replies && 0 <= x < |s'.records| && Answered(r, s'.records[x].op)
        ensures Answers(s'.log, s'.records[x].op, r.value)
      {
        if r == r' {
          assert Known(s, s.records[x].op);
          SameOp(s, s.records[x].op, w.op);
        }
      }
      assert exists x :: 0 <= x < |s'.records| && Answered(r', s'.records[x].op);
    }
  }

  lemma CompleteClerks(s: Service, step: Step)
    requires Inv(s) && Enabled(s, step) && step.Complete?
    ensures Numbered(Do(s, step).records) && Clocked(Do(s, step).records, Do(s, step).now)
  {
    hide TimeOk, RepliesOk, CommandsOk, Calls;
    var records, records' := s.records, Do(s, step).records;
    assert forall x :: 0 <= x < |records| ==> records'[x].op == records[x].op && records'[x].call == records[x].call;
    forall c
      ensures Calls(records', c) == Calls(records, c)
    {
      CallsSame(records, records', c);
    }
  }

  lemma CompleteTime(s: Service, step: Step)
    requires Inv(s) && Enabled(s, step) && step.Complete?
    ensures TimeOk(Do(s, step))
  {
    hide Numbered, RepliesOk, CommandsOk, Ordered;
    var records, records' := s.records, Do(s, step).records;
    assert forall x :: 0 <= x < |records| ==> records'[x].op == records[x].op && records'[x].call == records[x].call;
  }

  lemma CompleteStep(s: Service, step: Step)
    requires Inv(s) && Enabled(s, step) && step.Complete?
    ensures Inv(Do(s, step))
  {
    hide Numbered, Clocked, Answers, TimeOk;
    CompleteClerks(s, step);
    CompleteTime(s, step);
    var s' := Do(s, step);
    assert forall x :: 0 <= x < |s.records| ==> s'.records[x].op == s.records[x].op;
    forall op | Known(s, op)
      ensures Known(s', op)
    {
      var x :| 0 <= x < |s.records| && s.records[x].op == op;
      assert s'.records[x].op == op;
    }
    OutputAnswers(s.log, s.records[step.x].op, step.value);
    forall r | r in s'.replies
      ensures exists x :: 0 <= x < |s'.records| && Answered(r, s'.records[x].op)
    {
      var x :| 0 <= x < |s.records| && Answered(r, s.records[x].op);
      assert Answered(r, s'.records[x].op);
    }
  }

  lemma OutputAnswers(log: seq<Op>, op: Op, value: string)
    requires Answers(log, op, value)
    ensures Answers(log, op, if op.kind.Get? then value else "")
  {
    var i: nat :| FirstAt(log, op, i) && log[i] == op && (op.kind.Get? ==> value == ValueAt(log, i));
    AnswerAt(log, op, i, if op.kind.Get? then value else "");
  }

  lemma StepKeepsInv(s: Service, step: Step)
    requires Inv(s) && Enabled(s, step)
    ensures Inv(Do(s, step))
  {
    hide Inv, Do;
    match step
    case Grow(_) => GrowStep(s, step);
    case Invoke(_) => InvokeStep(s, step);
    case Request(_, _) => RequestStep(s, step);
    case Respond(_, _) => RespondStep(s, step);
    case Complete(_, _) => CompleteStep(s, step);
    case Idle => IdleStep(s, step);
  }

  lemma IdleStep(s: Service, step: Step)
    requires Inv(s) && Enabled(s, step) && step.Idle?
    ensures Inv(Do(s, step))
  {
  }

  lemma {:induction false} RunKeepsInv(run: seq<Service>, steps: seq<Step>, i: nat)
    requires IsRun(run, steps) && i < |run|
    ensures Inv(run[i])
  {
    if i > 0 {
      RunKeepsInv(run, steps, i - 1);
      StepKeepsInv(run[i - 1], steps[i - 1]);
      assert run[i - 1 + 1] == Do(run[i - 1], steps[i - 1]);
    }
  }
}
