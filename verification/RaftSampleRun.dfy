/** The guarantees are not empty: there is a timely run in which a command is committed and applied on two servers. */
module RaftSampleRun {
  import opened RaftTypes
  import opened RaftPeer
  import opened RaftCluster

  datatype Trace = Trace(run: seq<Cluster>, steps: seq<Step>)

  ghost predicate Timely(t: Trace) {
    IsTimelyRun(t.run, t.steps)
  }

  ghost function End(t: Trace): Cluster
    requires |t.run| > 0
  {
    t.run[|t.run| - 1]
  }

  /** The step of the run at which the leader first takes the command. */
  const SUBMIT_AT: nat := 4

  predicate PlainStep(step: Step) {
    !step.Submit? && !step.Crash? && !step.CrashInAppend?
  }

  /** No crash, and no command but in the `k` steps from `SUBMIT_AT` on. */
  ghost predicate Plain(t: Trace, k: nat) {
    forall i :: 0 <= i < |t.steps| && !(SUBMIT_AT <= i < SUBMIT_AT + k) ==> PlainStep(t.steps[i])
  }

  /** In these steps the leader takes the command again and again. */
  ghost predicate Submits(t: Trace, command: Command, k: nat) {
    && SUBMIT_AT + k <= |t.steps| < |t.run|
    && forall j :: 0 <= j < k ==> SubmitsAt(t, command, j)
  }

  predicate SubmitsAt(t: Trace, command: Command, j: nat) {
    var i := SUBMIT_AT + j;
    && i < |t.steps| < |t.run|
    && t.steps[i] == Submit(0, command)
    && |t.run[i].nodes| > 0
    && t.run[i].nodes[0].peer.role == Leader
    && |t.run[i].nodes[0].peer.log| == 1 + j
  }

  lemma Take(t: Trace, step: Step) returns (t': Trace)
    requires Timely(t) && |t.run| > 0 && Enabled(End(t), step) && OnTime(End(t), step)
    ensures Timely(t') && |t'.run| > 0 && End(t') == Do(End(t), step) && |t'.steps| == |t.steps| + 1
    ensures t'.steps == t.steps + [step] && t'.run == t.run + [End(t')]
    ensures forall k: nat :: Plain(t, k) && (PlainStep(step) || SUBMIT_AT <= |t.steps| < SUBMIT_AT + k) ==> Plain(t', k)
    ensures forall command, k: nat :: Submits(t, command, k) ==> Submits(t', command, k)
    ensures t'.steps[|t.steps|] == step && |t'.run| == |t'.steps| + 1 && t'.run[|t.steps|] == End(t)
  {
    hide Enabled, OnTime, Do, Init;
    t' := Trace(t.run + [Do(End(t), step)], t.steps + [step]);
    forall i | 0 <= i < |t'.steps|
      ensures Enabled(t'.run[i], t'.steps[i]) && t'.run[i + 1] == Do(t'.run[i], t'.steps[i])
      ensures OnTime(t'.run[i], t'.steps[i])
    {
      if i < |t.steps| {
        assert t'.run[i] == t.run[i] && t'.steps[i] == t.steps[i] && t'.run[i + 1] == t.run[i + 1];
      }
    }
    forall command, k: nat | Submits(t, command, k)
      ensures Submits(t', command, k)
    {
      forall j: nat | j < k
        ensures SubmitsAt(t', command, j)
      {
        assert SubmitsAt(t, command, j);
      }
    }
  }

  /** A peer of a cluster of three that has applied nothing. */
  ghost predicate Looks(p: Peer, me: nat, role: Role, term: nat, log: Log, commit: nat) {
    && p.me == me
    && p.role == role
    && p.term == term
    && p.log == log
    && p.commitIndex == commit
    && p.lastApplied == 0
    && |p.nextIndex| == |p.matchIndex| == 3
  }

  lemma Fresh() returns (t: Trace)
    ensures Timely(t) && |t.run| > 0 && |t.steps| == 0 && Plain(t, 0)
    ensures |End(t).nodes| == 3
    ensures forall s :: 0 <= s < 3 ==> End(t).nodes[s] == Node(Boot(s, 3, None), [], [], [])
  {
    var c := Cluster(seq(3, s requires 0 <= s => Node(Boot(s, 3, None), [], [], [])), {});
    t := Trace([c], []);
  }

  /** Server 0 asks server 1 for its vote in term 1. */
  lemma Campaigns() returns (t: Trace)
    ensures Timely(t) && |t.run| > 0 && |t.steps| == 2 && Plain(t, 0)
    ensures var c := End(t);
            && |c.nodes| == 3
            && Looks(c.nodes[0].peer, 0, Candidate, 1, [SENTINEL], 0)
            && c.nodes[0].rounds == [VoteRound(1, {2}, map[1 := VoteArgs(1, 0, 0, 0)], {})]
            && VoteReq(1, VoteArgs(1, 0, 0, 0)) in c.net
            && c.nodes[0].beats == [] && c.nodes[0].output == []
            && c.nodes[1] == Node(Boot(1, 3, None), [], [], [])
  {
    hide Timely, Plain;
    t := Fresh();
    t := Take(t, Elect(0));
    var c := End(t);
    assert c.nodes[0].rounds == [VoteRound(1, {1, 2}, map[], {})] by { assert Others(3, 0) == {1, 2}; }
    t := Take(t, SendVote(0, 0, 1));
    assert {1, 2} - {1} == {2};
    assert VoteRequest(c.nodes[0].peer) == VoteArgs(1, 0, 0, 0);
  }

  /** Server 1 grants it, which makes server 0 leader. */
  lemma Elected() returns (t: Trace)
    ensures Timely(t) && |t.run| > 0 && |t.steps| == SUBMIT_AT && Plain(t, 0)
    ensures var c := End(t);
            && |c.nodes| == 3
            && Looks(c.nodes[0].peer, 0, Leader, 1, [SENTINEL], 0) && c.nodes[0].peer.nextIndex == [1, 1, 1]
            && Looks(c.nodes[1].peer, 1, Follower, 1, [SENTINEL], 0)
            && c.nodes[0].beats == [] && c.nodes[0].output == [] && c.nodes[1].output == []
  {
    hide Timely, Plain;
    t := Campaigns();
    var a := VoteArgs(1, 0, 0, 0);
    t := Take(t, GetVote(1, a));
    var c := End(t);
    assert VoteRep(1, a, VoteReply(1, true)) in c.net;
    assert c.nodes[0].rounds[0].waiting[1] == a;
    t := Take(t, EndVote(0, 0, 1, VoteReply(1, true)));
    assert |{} + {1}| == 1;
  }

  /** The sentinel and `k` entries with the command. */
  function LogOf(command: Command, k: nat): (log: Log)
    ensures |log| == k + 1 && log[0] == SENTINEL && forall j :: 1 <= j <= k ==> log[j] == LogEntry(command, 1)
  {
    [SENTINEL] + seq(k, _ => LogEntry(command, 1))
  }

  /** The leader has taken the command `k` times. */
  ghost predicate Took(c: Cluster, command: Command, k: nat) {
    && |c.nodes| == 3
    && Looks(c.nodes[0].peer, 0, Leader, 1, LogOf(command, k), 0) && c.nodes[0].peer.nextIndex == [1, 1, 1]
    && Looks(c.nodes[1].peer, 1, Follower, 1, [SENTINEL], 0)
    && c.nodes[0].beats == [] && c.nodes[0].output == [] && c.nodes[1].output == []
  }

  lemma {:induction false} Takes(command: Command, k: nat) returns (t: Trace)
    ensures Timely(t) && |t.run| > 0 && |t.steps| == SUBMIT_AT + k && Plain(t, k) && Submits(t, command, k)
    ensures Took(End(t), command, k)
    decreases k
  {
    if k == 0 {
      t := Elected();
      SizeOf(t);
      assert LogOf(command, 0) == [SENTINEL];
    } else {
      hide Timely;
      var t0 := Takes(command, k - 1);
      var c := End(t0);
      assert LogOf(command, k) == LogOf(command, k - 1) + [LogEntry(command, 1)];
      MorePlain(t0, k - 1);
      t := Take(t0, Submit(0, command));
      assert SubmitsAt(t, command, k - 1);
    }
  }

  lemma SizeOf(t: Trace)
    requires Timely(t)
    ensures |t.run| == |t.steps| + 1
  {
  }

  lemma MorePlain(t: Trace, k: nat)
    requires Plain(t, k)
    ensures Plain(t, k + 1)
  {
  }

  /** The request with all entries. */
  function Request(command: Command, k: nat): AppendArgs {
    AppendArgs(1, 0, 0, 0, LogOf(command, k)[1..], 0)
  }

  /** It sends them to server 1. */
  lemma Replicates(command: Command, k: nat) returns (t: Trace)
    requires k >= 1
    ensures Timely(t) && |t.run| > 0 && Plain(t, k) && Submits(t, command, k)
    ensures var c, a := End(t), Request(command, k);
            && |c.nodes| == 3
            && Looks(c.nodes[0].peer, 0, Leader, 1, LogOf(command, k), 0) && c.nodes[0].peer.nextIndex == [1, 1, 1]
            && Looks(c.nodes[1].peer, 1, Follower, 1, [SENTINEL], 0)
            && c.nodes[0].beats == [Beat(1, k + 1, true, 0, [Done, Waiting(a), Ready], {})]
            && AppReq(1, a) in c.net
            && c.nodes[0].output == [] && c.nodes[1].output == []
  {
    hide Timely, Plain, Submits;
    t := Takes(command, k);
    t := Take(t, StartBeat(0));
    var c := End(t);
    assert c.nodes[0].beats[0].tasks == [Done, Ready, Ready];
    assert c.nodes[0].beats == [Beat(1, k + 1, true, 0, [Done, Ready, Ready], {})];
    var a := Request(command, k);
    assert c.nodes[0].peer.log[1..k + 1] == LogOf(command, k)[1..];
    assert AppendRequest(c.nodes[0].peer, 1, k + 1, 0) == a;
    t := Take(t, SendAppend(0, 0, 1));
    assert [Done, Ready, Ready][1 := Waiting(a)] == [Done, Waiting(a), Ready];
    assert End(t).nodes[0].beats[0] == Beat(1, k + 1, true, 0, [Done, Waiting(a), Ready], {});
  }

  /** Server 1 accepts them, and the leader commits. */
  lemma Commits(command: Command, k: nat) returns (t: Trace)
    requires k >= 1
    ensures Timely(t) && |t.run| > 0 && Plain(t, k) && Submits(t, command, k)
    ensures var c := End(t);
            && |c.nodes| == 3
            && Looks(c.nodes[0].peer, 0, Leader, 1, LogOf(command, k), k) && c.nodes[0].peer.nextIndex[1] == k + 1
            && Looks(c.nodes[1].peer, 1, Follower, 1, LogOf(command, k), 0)
            && |c.nodes[0].beats| == 1
            && c.nodes[0].output == [] && c.nodes[1].output == []
  {
    hide Timely, Plain, Submits;
    t := Replicates(command, k);
    var a := Request(command, k);
    t := Take(t, GetAppend(1, a));
    var c := End(t);
    assert [SENTINEL][..1] + a.entries == LogOf(command, k);
    var rep := AppendReply(1, true, -1, 0, 0);
    assert AppRep(1, a, rep) in c.net;
    t := Take(t, EndAppend(0, 0, 1, rep));
    assert |{} + {1}| == 1;
  }

  /** The next heartbeat tells server 1. */
  lemma Announces(command: Command, k: nat) returns (t: Trace)
    requires k >= 1
    ensures Timely(t) && |t.run| > 0 && Plain(t, k) && Submits(t, command, k)
    ensures |End(t).nodes| == 3 && Applied(End(t), 0, command, k, 0) && Applied(End(t), 1, command, k, 0)
  {
    hide Timely, Plain, Submits;
    t := Commits(command, k);
    t := Take(t, StartBeat(0));
    var c := End(t);
    var a := AppendArgs(1, 0, k, 1, [], k);
    assert AppendRequest(c.nodes[0].peer, 1, k + 1, k) == a;
    assert c.nodes[0].beats[1].tasks[1] == Ready;
    t := Take(t, SendAppend(0, 1, 1));
    assert AppReq(1, a) in End(t).net;
    t := Take(t, GetAppend(1, a));
  }

  /** Server `s` has committed the `k` entries and applied the first `j`. */
  ghost predicate Applied(c: Cluster, s: nat, command: Command, k: nat, j: nat) {
    && s < |c.nodes|
    && var node := c.nodes[s];
       && node.peer.log == LogOf(command, k)
       && node.peer.commitIndex == k
       && node.peer.lastApplied == j == |node.output|
       && forall x :: 0 <= x < j ==> node.output[x] == ApplyMsg(x + 1, command)
  }

  lemma {:induction false} Applies(t: Trace, s: nat, command: Command, k: nat, j: nat) returns (t': Trace)
    requires Timely(t) && |t.run| > 0 && Plain(t, k) && Submits(t, command, k) && s < 2 && j <= k
    requires |End(t).nodes| == 3 && Applied(End(t), s, command, k, j)
    ensures Timely(t') && |t'.run| > 0 && Plain(t', k) && Submits(t', command, k)
    ensures |End(t').nodes| == 3 && Applied(End(t'), s, command, k, k)
    ensures forall x :: 0 <= x < 3 && x != s ==> End(t').nodes[x] == End(t).nodes[x]
    decreases k - j
  {
    hide Timely, Plain, Submits;
    if j == k {
      t' := t;
    } else {
      t' := Take(t, ApplyOne(s));
      t' := Applies(t', s, command, k, j + 1);
    }
  }

  /** Both apply the command as often as it was taken. */
  lemma CommandIsApplied(command: Command, k: nat) returns (t: Trace)
    requires k >= 1
    ensures Timely(t) && |t.run| > 0 && Plain(t, k) && Submits(t, command, k)
    ensures |End(t).nodes| == 3 && Applied(End(t), 0, command, k, k) && Applied(End(t), 1, command, k, k)
  {
    hide Timely, Plain, Submits;
    t := Announces(command, k);
    t := Applies(t, 0, command, k, 0);
    t := Applies(t, 1, command, k, 0);
  }
}
