/**
The key/value service on top of the Raft cluster: clerks, request handlers and replicas together
with every step of every peer, message loss and crashes included.
*/
module KvOnRaft {
  import opened RaftTypes
  import opened RaftCluster
  import opened RaftSafety
  import opened RaftGrowingLog
  import opened KvServer
  import opened KvService
  import KvLinearizable

  /** A Get or PutAppend handler of `server` that started `op` and was told `index`. */
  datatype Handler = Handler(server: nat, op: Op, index: nat)

  datatype System = System(
    cluster: Cluster, records: seq<Record>, handlers: set<Handler>, replies: set<Reply>, now: nat)

  datatype Action =
    | Raft(step: RaftCluster.Step)
    | Call(op: Op)
    | Serve(x: nat, s: nat)
    | Poll(h: Handler, applied: nat)
    | Return(x: nat, value: string)

  ghost predicate Starts(sys: System) {
    && RaftCluster.Init(sys.cluster)
    && sys.records == []
    && sys.handlers == {}
    && sys.replies == {}
    && sys.now == 0
  }

  /** The type assertion on an applied command. */
  function OpOfMsg(m: ApplyMsg): Op {
    match m.command
    case Submitted(op) => op
    case NoCommand => ZERO_OP
  }

  function OpsOfMsgs(ms: seq<ApplyMsg>): (ops: seq<Op>)
    ensures |ops| == |ms| && forall i :: 0 <= i < |ms| ==> ops[i] == OpOfMsg(ms[i])
  {
    seq(|ms|, i requires 0 <= i < |ms| => OpOfMsg(ms[i]))
  }

  /** The replica of a server that has taken `applied` messages from `applyCh`. */
  function ReplicaOf(node: Node, applied: nat): Replica
    requires applied <= |node.output|
  {
    After(OpsOfMsgs(node.output[..applied]))
  }

  ghost predicate Can(sys: System, a: Action) {
    match a
    // any step of a peer but Start, which only handlers call
    case Raft(step) => !step.Submit? && RaftCluster.Enabled(sys.cluster, step) && OnTime(sys.cluster, step)
    // a clerk, not 0, with no command under way calls its next one
    case Call(op) =>
      && op.clerkId != 0
      && op.commandId == Calls(sys.records, op.clerkId)
      && forall x :: 0 <= x < |sys.records| && sys.records[x].op.clerkId == op.clerkId ==> sys.records[x].returned
    // a request for any command ever called, perhaps repeated and late, reaches server `s`
    case Serve(x, s) => x < |sys.records| && s < |sys.cluster.nodes|
    // a handler finds its index applied at its server
    case Poll(h, applied) =>
      && h in sys.handlers
      && h.server < |sys.cluster.nodes|
      && h.index <= applied <= |sys.cluster.nodes[h.server].output|
    // the clerk takes an OK answer to the command under way
    case Return(x, value) =>
      && x < |sys.records|
      && !sys.records[x].returned
      && Reply(sys.records[x].op.clerkId, sys.records[x].op.commandId, value) in sys.replies
  }

  /** A crash ends the handlers of its server. */
  function Surviving(handlers: set<Handler>, step: RaftCluster.Step): set<Handler> {
    if step.Crash? || step.CrashInAppend? then set h | h in handlers && h.server != step.s else handlers
  }

  ghost function Act(sys: System, a: Action): System
    requires Can(sys, a)
  {
    match a
    case Raft(step) => sys.(cluster := RaftCluster.Do(sys.cluster, step), handlers := Surviving(sys.handlers, step))
    case Call(op) => sys.(records := sys.records + [Record(op, sys.now, false, "", 0)], now := sys.now + 1)
    case Serve(x, s) =>
      var op := sys.records[x].op;
      var p := sys.cluster.nodes[s].peer;
      sys.(cluster := RaftCluster.Do(sys.cluster, Submit(s, Submitted(op))),
      handlers := sys.handlers + if p.role == Leader then {Handler(s, op, |p.log|)} else {})
    case Poll(h, applied) =>
      var node := sys.cluster.nodes[h.server];
      LogSize(OpsOfMsgs(node.output[..applied]));
      var answer := Answer(ReplicaOf(node, applied), h.op, h.index);
      sys.(handlers := sys.handlers - {h},
      replies := sys.replies + if answer.None? then {} else {Reply(h.op.clerkId, h.op.commandId, answer.value)})
    case Return(x, value) =>
      var output := if sys.records[x].op.kind.Get? then value else "";
      sys.(records := sys.records[x := sys.records[x].(returned := true, output := output, ret := sys.now)],
          now := sys.now + 1)
  }

  ghost predicate IsSystemRun(run: seq<System>, actions: seq<Action>) {
    && |run| == |actions| + 1
    && Starts(run[0])
    && forall i :: 0 <= i < |actions| ==> Can(run[i], actions[i]) && run[i + 1] == Act(run[i], actions[i])
  }

  // ---------- Refinement of the service over one growing log ----------

  /** A run of the cluster that ends in the system's cluster, and the service it implements. */
  datatype Witness = Witness(
    run: seq<Cluster>, steps: seq<RaftCluster.Step>, logs: seq<seq<ApplyMsg>>, service: Service)

  ghost predicate RunOk(w: Witness) {
    IsTimelyRun(w.run, w.steps) && GrowingLogs(w.run, w.logs)
  }

  ghost function Final(w: Witness): seq<ApplyMsg>
    requires |w.logs| > 0
  {
    w.logs[|w.logs| - 1]
  }

  ghost predicate ServiceOk(sys: System, w: Witness) {
    && |w.logs| > 0
    && KvService.Inv(w.service)
    && w.service.log == OpsOfMsgs(Final(w))
    && w.service.records == sys.records
    && w.service.replies == sys.replies
    && w.service.now == sys.now
    && (forall h :: h in sys.handlers ==> KvService.Waiting.Waiting(h.op, h.index) in w.service.waiting)
  }

  /** Start was called with commands of the service only. */
  ghost predicate CommandsFrom(steps: seq<RaftCluster.Step>, submitted: set<Op>) {
    forall c :: c in SubmittedBy(steps, |steps|) ==> c.Submitted? && c.op in submitted
  }

  /** The system implements the service of the witness. */
  ghost predicate Implements(sys: System, w: Witness) {
    && RunOk(w)
    && |w.run| > 0
    && w.run[|w.run| - 1] == sys.cluster
    && ServiceOk(sys, w)
    && CommandsFrom(w.steps, w.service.submitted)
  }

  lemma StartImplements(sys: System) returns (w: Witness)
    requires Starts(sys)
    ensures Implements(sys, w)
  {
    hide RunOk, KvService.Inv;
    w := Witness([sys.cluster], [], [[]], Service([], {}, [], {}, {}, 0));
    StartRun(sys.cluster, w.service);
    StartService(w.service);
  }

  lemma StartRun(c: Cluster, service: Service)
    requires RaftCluster.Init(c)
    ensures RunOk(Witness([c], [], [[]], service))
  {
    hide RaftCluster.Init;
    assert IsTimelyRun([c], []);
    InitialOutputs(c);
  }

  lemma InitialOutputs(c: Cluster)
    requires RaftCluster.Init(c)
    ensures forall s :: 0 <= s < |c.nodes| ==> c.nodes[s].output == []
  {
  }

  lemma StartService(service: Service)
    requires KvService.Init(service)
    ensures KvService.Inv(service)
  {
  }

  lemma OneMoreStep(run: seq<Cluster>, steps: seq<RaftCluster.Step>, c: Cluster, step: RaftCluster.Step)
    requires IsTimelyRun(run, steps) && run[|run| - 1] == c && RaftCluster.Enabled(c, step) && OnTime(c, step)
    ensures IsTimelyRun(run + [RaftCluster.Do(c, step)], steps + [step])
  {
    hide RaftCluster.Do, RaftCluster.Enabled, OnTime, RaftCluster.Init;
    var run', steps' := run + [RaftCluster.Do(c, step)], steps + [step];
    forall i | 0 <= i < |steps'|
      ensures RaftCluster.Enabled(run'[i], steps'[i]) && run'[i + 1] == RaftCluster.Do(run'[i], steps'[i])
      ensures OnTime(run'[i], steps'[i])
    {
      if i < |steps| {
        assert run'[i] == run[i] && steps'[i] == steps[i] && run'[i + 1] == run[i + 1];
      }
    }
  }

  lemma {:induction false} SubmittedSnoc(steps: seq<RaftCluster.Step>, step: RaftCluster.Step, i: nat)
    requires i <= |steps|
    ensures SubmittedBy(steps + [step], i) == SubmittedBy(steps, i)
    decreases i
  {
    if i > 0 {
      SubmittedSnoc(steps, step, i - 1);
    }
  }

  /** One step of the cluster extends the run and its logs. */
  lemma ExtendRun(w: Witness, c: Cluster, step: RaftCluster.Step) returns (w': Witness)
    requires RunOk(w) && |w.run| > 0 && w.run[|w.run| - 1] == c && RaftCluster.Enabled(c, step) && OnTime(c, step)
    ensures RunOk(w') && |w'.run| > 0 && w'.run[|w'.run| - 1] == RaftCluster.Do(c, step) && w'.service == w.service
    ensures |w.logs| > 0 && |w'.logs| > 0 && Final(w) <= Final(w')
    ensures w'.steps == w.steps + [step]
    ensures SubmittedBy(w'.steps, |w'.steps|) == SubmittedBy(w.steps, |w.steps|) + NewCommands(step)
    ensures forall x :: 0 <= x < |Final(w')| ==> Final(w')[x].command in SubmittedBy(w'.steps, |w'.steps|)
  {
    hide RaftCluster.Do, RaftCluster.Enabled, OnTime, IsTimelyRun, IsOutput, WasApplied;
    RunSize(w.run, w.steps);
    OneMoreStep(w.run, w.steps, c, step);
    var c', steps' := RaftCluster.Do(c, step), w.steps + [step];
    var run' := w.run + [c'];
    var next := LongestOutput(c', Final(w), |c'.nodes|);
    assert run'[..|steps'|] == w.run;
    MoreLogs(run', steps', w.logs, next);
    w' := Witness(run', steps', w.logs + [next], w.service);
    assert w'.logs[|w.logs| - 1] <= w'.logs[|w.logs| - 1 + 1];
    SubmittedSnoc(w.steps, step, |w.steps|);
    forall x | 0 <= x < |next|
      ensures next[x].command in SubmittedBy(steps', |steps'|)
    {
      LogWasSubmitted(run', steps', w'.logs, |steps'|, x);
    }
  }

  /** The service follows a step of the cluster by growing its log. */
  lemma GrowTo(service: Service, prev: seq<ApplyMsg>, next: seq<ApplyMsg>) returns (service': Service)
    requires KvService.Inv(service) && service.log == OpsOfMsgs(prev) && prev <= next
    requires forall x :: 0 <= x < |next| ==> next[x].command.Submitted? && next[x].command.op in service.submitted
    ensures KvService.Inv(service') && service'.log == OpsOfMsgs(next)
    ensures service' == service.(log := service'.log)
  {
    hide KvService.Inv;
    var more := OpsOfMsgs(next)[|prev|..];
    assert service.log + more == OpsOfMsgs(next);
    KvService.StepKeepsInv(service, Grow(more));
    service' := KvService.Do(service, Grow(more));
  }

  lemma ClusterStep(sys: System, w: Witness, step: RaftCluster.Step) returns (w': Witness)
    requires RunOk(w) && |w.run| > 0 && w.run[|w.run| - 1] == sys.cluster && ServiceOk(sys, w)
    requires RaftCluster.Enabled(sys.cluster, step) && OnTime(sys.cluster, step)
    requires CommandsFrom(w.steps, w.service.submitted)
    requires forall c :: c in NewCommands(step) ==> c.Submitted? && c.op in w.service.submitted
    ensures Implements(sys.(cluster := RaftCluster.Do(sys.cluster, step)), w')
  {
    hide KvService.Inv, RaftCluster.Do, RaftCluster.Enabled, OnTime, RunOk, SubmittedBy;
    w' := ExtendRun(w, sys.cluster, step);
    var service' := GrowTo(w.service, Final(w), Final(w'));
    w' := w'.(service := service');
    assert RunOk(w') by { SameRun(w', w.service); }
  }

  lemma SameRun(w: Witness, service: Service)
    requires RunOk(w.(service := service))
    ensures RunOk(w)
  {
  }

  /** The service takes a step of its own and the cluster none. */
  lemma ServiceStep(sys: System, sys': System, w: Witness, step: KvService.Step) returns (w': Witness)
    requires Implements(sys, w) && KvService.Enabled(w.service, step) && sys'.cluster == sys.cluster
    requires var s' := KvService.Do(w.service, step);
             && s'.log == w.service.log
             && s'.records == sys'.records
             && s'.replies == sys'.replies
             && s'.now == sys'.now
             && w.service.submitted <= s'.submitted
             && (forall h :: h in sys'.handlers ==> KvService.Waiting.Waiting(h.op, h.index) in s'.waiting)
    ensures Implements(sys', w') && w' == w.(service := KvService.Do(w.service, step))
  {
    hide KvService.Inv, RunOk;
    KvService.StepKeepsInv(w.service, step);
    w' := w.(service := KvService.Do(w.service, step));
    assert RunOk(w') by { SameRun(w', w.service); }
  }

  lemma PeerAction(sys: System, w: Witness, step: RaftCluster.Step) returns (w': Witness)
    requires Implements(sys, w) && Can(sys, Raft(step))
    ensures Implements(Act(sys, Raft(step)), w')
  {
    hide KvService.Inv, RunOk, CommandsFrom;
    w' := ClusterStep(sys, w, step);
  }

  lemma ServeAction(sys: System, w: Witness, x: nat, s: nat) returns (w': Witness)
    requires Implements(sys, w) && Can(sys, Serve(x, s))
    ensures Implements(Act(sys, Serve(x, s)), w')
  {
    hide KvService.Inv, RunOk, CommandsFrom, RaftCluster.Do;
    var op := sys.records[x].op;
    var p := sys.cluster.nodes[s].peer;
    LogNotEmpty(w, s);
    var sys1 := sys.(handlers := Act(sys, Serve(x, s)).handlers);
    var w1 := ServiceStep(sys, sys1, w, Request(x, |p.log|));
    w' := ClusterStep(sys1, w1, Submit(s, Submitted(op)));
  }

  lemma LogNotEmpty(w: Witness, s: nat)
    requires RunOk(w) && |w.run| > 0 && s < |w.run[|w.run| - 1].nodes|
    ensures |w.run[|w.run| - 1].nodes[s].peer.log| >= 1
  {
    hide GrowingLogs, IsTimelyRun;
    IndicesInRange(w.run, w.steps, |w.run| - 1, s);
  }

  lemma PollAction(sys: System, w: Witness, h: Handler, applied: nat) returns (w': Witness)
    requires Implements(sys, w) && Can(sys, Poll(h, applied))
    ensures Implements(Act(sys, Poll(h, applied)), w')
  {
    hide KvService.Inv, RunOk, CommandsFrom;
    var node := sys.cluster.nodes[h.server];
    AppliedIsPrefix(w, h.server);
    assert OpsOfMsgs(node.output[..applied]) == w.service.log[..applied];
    w' := ServiceStep(sys, Act(sys, Poll(h, applied)), w, Respond(KvService.Waiting.Waiting(h.op, h.index), applied));
  }

  lemma AppliedIsPrefix(w: Witness, s: nat)
    requires RunOk(w) && |w.run| > 0 && s < |w.run[|w.run| - 1].nodes|
    ensures |w.logs| > 0 && w.run[|w.run| - 1].nodes[s].output <= Final(w)
  {
  }

  lemma ActionImplements(sys: System, w: Witness, a: Action) returns (w': Witness)
    requires Implements(sys, w) && Can(sys, a)
    ensures Implements(Act(sys, a), w')
  {
    match a
    case Raft(step) => w' := PeerAction(sys, w, step);
    case Call(op) => w' := CallAction(sys, w, op);
    case Serve(x, s) => w' := ServeAction(sys, w, x, s);
    case Poll(h, applied) => w' := PollAction(sys, w, h, applied);
    case Return(x, value) => w' := ReturnAction(sys, w, x, value);
  }

  lemma CallAction(sys: System, w: Witness, op: Op) returns (w': Witness)
    requires Implements(sys, w) && Can(sys, Call(op))
    ensures Implements(Act(sys, Call(op)), w')
  {
    hide KvService.Inv, RunOk, CommandsFrom;
    w' := ServiceStep(sys, Act(sys, Call(op)), w, Invoke(op));
  }

  lemma ReturnAction(sys: System, w: Witness, x: nat, value: string) returns (w': Witness)
    requires Implements(sys, w) && Can(sys, Return(x, value))
    ensures Implements(Act(sys, Return(x, value)), w')
  {
    hide KvService.Inv, RunOk, CommandsFrom;
    w' := ServiceStep(sys, Act(sys, Return(x, value)), w, Complete(x, value));
  }

  lemma {:induction false} RunImplements(run: seq<System>, actions: seq<Action>, i: nat) returns (w: Witness)
    requires IsSystemRun(run, actions) && i < |run|
    ensures Implements(run[i], w)
    decreases i
  {
    hide Implements, Act, Can;
    if i == 0 {
      w := StartImplements(run[0]);
    } else {
      var w0 := RunImplements(run, actions, i - 1);
      w := ActionImplements(run[i - 1], w0, actions[i - 1]);
      assert run[i - 1 + 1] == Act(run[i - 1], actions[i - 1]);
    }
  }

  // ---------- The guarantees of the whole system ----------

  /** In every state of every run the history that the clerks have seen is linearizable. */
  lemma SystemLinearizable(run: seq<System>, actions: seq<Action>, i: nat)
    requires IsSystemRun(run, actions) && i < |run|
    ensures KvLinearizable.HistoryLinearizable(run[i].records, run[i].now)
  {
    hide IsSystemRun, KvService.Inv, RunOk, CommandsFrom, KvLinearizable.HistoryLinearizable;
    var w := RunImplements(run, actions, i);
    KvLinearizable.InvLinearizable(w.service);
  }

  /** All OK answers to one Get carry the same value. */
  lemma SystemAnswersAgree(run: seq<System>, actions: seq<Action>, i: nat, a: Reply, b: Reply, x: nat)
    requires IsSystemRun(run, actions) && i < |run| && a in run[i].replies && b in run[i].replies
    requires x < |run[i].records| && run[i].records[x].op.kind.Get?
    requires Answered(a, run[i].records[x].op) && Answered(b, run[i].records[x].op)
    ensures a.value == b.value
  {
    hide IsSystemRun, KvService.Inv, RunOk, CommandsFrom;
    var w := RunImplements(run, actions, i);
    KvLinearizable.InvAnswersAgree(w.service, a, b, x);
  }

  /**
  A handler that finds its index applied answers OK exactly when its command stands there, also if
  it is a duplicate of an earlier one.
  */
  lemma SystemAnswersExactly(run: seq<System>, actions: seq<Action>, i: nat, h: Handler, applied: nat)
    requires IsSystemRun(run, actions) && i < |run| && Can(run[i], Poll(h, applied))
    ensures var node := run[i].cluster.nodes[h.server];
            && 1 <= h.index < |ReplicaOf(node, applied).log|
            && (Answer(ReplicaOf(node, applied), h.op, h.index).Some? <==>
                  SameCommand(OpOfMsg(node.output[h.index - 1]), h.op))
            && (SameCommand(OpOfMsg(node.output[h.index - 1]), h.op) ==>
                  exists r :: r in Act(run[i], Poll(h, applied)).replies && Answered(r, h.op))
  {
    hide IsSystemRun, RunOk, CommandsFrom, After;
    var w := RunImplements(run, actions, i);
    var node := run[i].cluster.nodes[h.server];
    AppliedIsPrefix(w, h.server);
    var ops := OpsOfMsgs(node.output[..applied]);
    assert ops == w.service.log[..applied];
    LogSize(ops);
    var waiting := KvService.Waiting.Waiting(h.op, h.index);
    assert waiting in w.service.waiting;
    AnswerExactly(w.service, waiting, applied);
    assert w.service.log[h.index - 1] == OpOfMsg(node.output[h.index - 1]);
    var answer := Answer(ReplicaOf(node, applied), h.op, h.index);
    if answer.Some? {
      assert Reply(h.op.clerkId, h.op.commandId, answer.value) in Act(run[i], Poll(h, applied)).replies;
    }
  }

  /** The type assertion on applied commands never fails, and replicas hold folds of called commands only. */
  lemma AppliedCommandsAreOps(run: seq<System>, actions: seq<Action>, i: nat, s: nat, k: nat)
    requires IsSystemRun(run, actions) && i < |run| && s < |run[i].cluster.nodes|
    requires k < |run[i].cluster.nodes[s].output|
    ensures var m := run[i].cluster.nodes[s].output[k];
            && m.command.Submitted?
            && exists x :: 0 <= x < |run[i].records| && run[i].records[x].op == m.command.op
  {
    hide IsSystemRun, GrowingLogs;
    var w := RunImplements(run, actions, i);
    RunSize(w.run, w.steps);
    var n := |w.steps|;
    AppliedWasSubmitted(w.run, w.steps, n);
    assert NodeFrom(run[i].cluster.nodes[s], SubmittedBy(w.steps, n));
    assert CommandsOk(w.service);
    assert Known(w.service, run[i].cluster.nodes[s].output[k].command.op);
  }
}
