/** The guarantees of the service are not empty: there is a run over Raft in which a command returns. */
module KvSampleRun {
  import opened RaftTypes
  import RaftCluster
  import RaftSampleRun
  import opened KvServer
  import opened KvService
  import opened KvOnRaft

  datatype Story = Story(run: seq<System>, actions: seq<Action>)

  ghost predicate Reaches(s: Story, last: System) {
    IsSystemRun(s.run, s.actions) && s.run[|s.actions|] == last
  }

  lemma Adds(s: Story, sys: System, a: Action) returns (s': Story)
    requires Reaches(s, sys) && Can(sys, a)
    ensures Reaches(s', Act(sys, a)) && s'.actions == s.actions + [a]
  {
    hide Can, Act, Starts;
    s' := Story(s.run + [Act(sys, a)], s.actions + [a]);
    forall i | 0 <= i < |s'.actions|
      ensures Can(s'.run[i], s'.actions[i]) && s'.run[i + 1] == Act(s'.run[i], s'.actions[i])
    {
      if i < |s.actions| {
        assert s'.run[i] == s.run[i] && s'.actions[i] == s.actions[i] && s'.run[i + 1] == s.run[i + 1];
      }
    }
  }

  /** The system takes steps `i` to `j` of a run of the cluster. */
  lemma {:induction false} Follows(s: Story, sys: System, t: RaftSampleRun.Trace, i: nat, j: nat) returns (s': Story)
    requires RaftSampleRun.Timely(t) && i <= j < |t.run| == |t.steps| + 1 && sys.cluster == t.run[i] && Reaches(s, sys)
    requires forall k :: i <= k < j ==> RaftSampleRun.PlainStep(t.steps[k])
    ensures Reaches(s', sys.(cluster := t.run[j]))
    decreases j - i
  {
    hide Reaches, RaftCluster.Do, RaftCluster.Enabled, RaftCluster.OnTime;
    if i == j {
      s' := s;
    } else {
      var step := t.steps[i];
      assert RaftSampleRun.PlainStep(step);
      assert RaftCluster.Enabled(t.run[i], t.steps[i]) && RaftCluster.OnTime(t.run[i], t.steps[i]);
      assert t.run[i + 1] == RaftCluster.Do(t.run[i], t.steps[i]);
      var s1 := Adds(s, sys, Raft(step));
      assert Act(sys, Raft(step)) == sys.(cluster := t.run[i + 1]);
      s' := Follows(s1, sys.(cluster := t.run[i + 1]), t, i + 1, j);
    }
  }

  /** The handlers of `k` requests for `op`. */
  function Handlers(op: Op, k: nat): (handlers: set<Handler>)
    ensures forall h :: h in handlers <==> h.server == 0 && h.op == op && 1 <= h.index <= k
  {
    if k == 0 then {} else Handlers(op, k - 1) + {Handler(0, op, k)}
  }

  /** The call of `op` and the requests for it. */
  function Asked(op: Op, c: RaftCluster.Cluster, k: nat): System {
    System(c, [Record(op, 0, false, "", 0)], Handlers(op, k), {}, 1)
  }

  lemma Called(op: Op, t: RaftSampleRun.Trace) returns (s: Story)
    requires op.clerkId != 0 && op.commandId == 0 && RaftSampleRun.Timely(t)
    ensures |t.run| > 0 && Reaches(s, Asked(op, t.run[0], 0))
  {
    var sys := System(t.run[0], [], {}, {}, 0);
    s := Story([sys], []);
    assert Reaches(s, sys);
    s := Adds(s, sys, Call(op));
    assert Act(sys, Call(op)) == Asked(op, t.run[0], 0);
  }

  /** A clerk calls `op`, and the leader of the sample run takes it `j` times. */
  lemma {:induction false} Taken(op: Op, t: RaftSampleRun.Trace, k: nat, j: nat) returns (s: Story)
    requires op.clerkId != 0 && op.commandId == 0 && j <= k
    requires RaftSampleRun.Timely(t) && RaftSampleRun.Plain(t, k) && RaftSampleRun.Submits(t, Submitted(op), k)
    ensures |t.run| == |t.steps| + 1 && RaftSampleRun.SUBMIT_AT + j < |t.run|
    ensures Reaches(s, Asked(op, t.run[RaftSampleRun.SUBMIT_AT + j], j))
    decreases j
  {
    RaftSampleRun.SizeOf(t);
    var i := RaftSampleRun.SUBMIT_AT + j;
    if j == 0 {
      s := NotYetTaken(op, t, k);
    } else {
      s := Taken(op, t, k, j - 1);
      SubmitStep(op, t, k, j - 1);
      hide Reaches, RaftSampleRun.Timely, RaftSampleRun.Plain, RaftSampleRun.Submits, Asked, Can, Act, RaftCluster.Do;
      Served(op, t.run[i - 1], j - 1);
      s := Adds(s, Asked(op, t.run[i - 1], j - 1), Serve(0, 0));
    }
  }

  lemma NotYetTaken(op: Op, t: RaftSampleRun.Trace, k: nat) returns (s: Story)
    requires op.clerkId != 0 && op.commandId == 0
    requires RaftSampleRun.Timely(t) && RaftSampleRun.Plain(t, k) && RaftSampleRun.SUBMIT_AT < |t.run| == |t.steps| + 1
    ensures Reaches(s, Asked(op, t.run[RaftSampleRun.SUBMIT_AT], 0))
  {
    hide RaftSampleRun.Timely, Reaches;
    s := Called(op, t);
    s := Follows(s, Asked(op, t.run[0], 0), t, 0, RaftSampleRun.SUBMIT_AT);
  }

  lemma SubmitStep(op: Op, t: RaftSampleRun.Trace, k: nat, j: nat)
    requires RaftSampleRun.Timely(t) && RaftSampleRun.Submits(t, Submitted(op), k) && j < k
    ensures var i := RaftSampleRun.SUBMIT_AT + j;
            && i + 1 < |t.run|
            && |t.run[i].nodes| > 0
            && t.run[i].nodes[0].peer.role == Leader
            && |t.run[i].nodes[0].peer.log| == j + 1
            && RaftCluster.Enabled(t.run[i], RaftCluster.Submit(0, Submitted(op)))
            && t.run[i + 1] == RaftCluster.Do(t.run[i], RaftCluster.Submit(0, Submitted(op)))
  {
    hide RaftCluster.Do;
    var i := RaftSampleRun.SUBMIT_AT + j;
    assert RaftSampleRun.SubmitsAt(t, Submitted(op), j);
    assert t.run[i + 1] == RaftCluster.Do(t.run[i], t.steps[i]);
  }

  /** The leader takes one more request. */
  lemma Served(op: Op, c: RaftCluster.Cluster, j: nat)
    requires |c.nodes| > 0 && c.nodes[0].peer.role == Leader && |c.nodes[0].peer.log| == j + 1
    ensures Can(Asked(op, c, j), Serve(0, 0))
    ensures RaftCluster.Enabled(c, RaftCluster.Submit(0, Submitted(op)))
    ensures Act(Asked(op, c, j), Serve(0, 0)) == Asked(op, RaftCluster.Do(c, RaftCluster.Submit(0, Submitted(op))),
              j + 1)
  {
    hide RaftCluster.Do;
    assert Handlers(op, j) + {Handler(0, op, j + 1)} == Handlers(op, j + 1);
  }

  /** The same command `k` times. */
  function Copies(op: Op, k: nat): (ops: seq<Op>)
    ensures |ops| == k && forall j :: 0 <= j < k ==> ops[j] == op
  {
    seq(k, _ => op)
  }

  function ValueOf(op: Op): string {
    if op.kind.Get? then "" else op.value
  }

  /** The answer at the last of `k` positions is the one at the first. */
  lemma LastAnswer(op: Op, k: nat)
    requires op.clerkId != 0 && k >= 1
    ensures |After(Copies(op, k)).log| == k + 1 && Answer(After(Copies(op, k)), op, k) == Some(ValueOf(op))
  {
    hide After;
    var ops := Copies(op, k);
    var log := After(ops).log;
    LogIs(ops, 0);
    LogIs(ops, k - 1);
    assert IsNew(ops, 0) && ops[..0] == [] && StoreOf([]) == map[];
    assert k > 1 ==> !IsNew(ops, k - 1) by {
      assert ops[0].commandId == ops[k - 1].commandId;
    }
    FindFirst(log, 0, op, 1);
  }

  /**
  For the first command of any clerk and any number of requests for it there is a run in which the
  command is committed that often, and the clerk takes the answer to the last request, whose
  position in the log is a duplicate if there are several.
  */
  lemma CommandReturns(op: Op, k: nat) returns (run: seq<System>, actions: seq<Action>)
    requires op.clerkId != 0 && op.commandId == 0 && k >= 1
    ensures IsSystemRun(run, actions) && |run| > 1
    ensures actions[|actions| - 1].Return? && |actions| > 1 && actions[|actions| - 2] == Poll(Handler(0, op, k), k)
    ensures run[|run| - 1].records == [Record(op, 0, true, "", 1)]
  {
    var t := RaftSampleRun.CommandIsApplied(Submitted(op), k);
    var s := Taken(op, t, k, k);
    var i, m := RaftSampleRun.SUBMIT_AT + k, |t.steps|;
    var h, r := Handler(0, op, k), Record(op, 0, false, "", 0);
    var sys := Asked(op, t.run[i], k);
    s := Follows(s, sys, t, i, m);
    var sys1 := sys.(cluster := t.run[m]);
    var node := sys1.cluster.nodes[0];
    hide Reaches, After, Answer;
    assert OpsOfMsgs(node.output[..k]) == Copies(op, k);
    LastAnswer(op, k);
    var sys2 := System(t.run[m], [r], sys1.handlers - {h}, {Reply(op.clerkId, 0, ValueOf(op))}, 1);
    s := Adds(s, sys1, Poll(h, k));
    assert Act(sys1, Poll(h, k)) == sys2;
    s := Adds(s, sys2, Return(0, ValueOf(op)));
    var sys3 := Act(sys2, Return(0, ValueOf(op)));
    assert sys3.records == [Record(op, 0, true, "", 1)];
    EndOf(s, sys3);
    run, actions := s.run, s.actions;
  }

  lemma EndOf(s: Story, last: System)
    requires Reaches(s, last)
    ensures IsSystemRun(s.run, s.actions) && |s.run| > 0 && s.run[|s.run| - 1] == last
  {
  }
}
