/** Fast backup ends: a leader is rejected by a peer only boundedly often before its log matches. */
module RaftProgress {
  import opened RaftTypes
  import opened RaftPeer
  import opened RaftCluster
  import opened RaftSafety

  /** Server `s` leads in term `t`. */
  predicate Leads(c: Cluster, s: nat, t: nat) {
    s < |c.nodes| && c.nodes[s].peer.role == Leader && c.nodes[s].peer.term == t
  }

  /** The step makes the leader `s` process an answer of peer `x` to its latest probe. */
  predicate Processes(c: Cluster, step: Step, s: nat, x: nat) {
    && Enabled(c, step)
    && step.EndAppend?
    && step.s == s
    && step.i == x
    && var node := c.nodes[s];
       Current(node, node.beats[step.b]) && node.peer.nextIndex[x] == node.beats[step.b].tasks[x].args.prevLogIndex + 1
  }

  predicate Rejected(c: Cluster, step: Step, s: nat, x: nat) {
    Processes(c, step, s, x) && !step.areply.success
  }

  predicate Matched(c: Cluster, step: Step, s: nat, x: nat) {
    Processes(c, step, s, x) && step.areply.success
  }

  /** From state `i` to state `j` server `s` leads in term `t` without a crash, and peer `x` never matches. */
  ghost predicate Probing(run: seq<Cluster>, steps: seq<Step>, i: nat, j: nat, s: nat, t: nat, x: nat) {
    && i <= j < |run| == |steps| + 1
    && (forall k :: i <= k <= j ==> Leads(run[k], s, t))
    && (forall k :: i <= k < j ==> !Crashes(steps[k], s) && !Matched(run[k], steps[k], s, x))
  }

  /** How many answers processed between states `i` and `j` are rejections. */
  function Rejections(run: seq<Cluster>, steps: seq<Step>, i: nat, j: nat, s: nat, x: nat): nat
    requires i <= j < |run| == |steps| + 1
    decreases j
  {
    if i == j then 0
    else Rejections(run, steps, i, j - 1, s, x) + if Rejected(run[j - 1], steps[j - 1], s, x) then 1 else 0
  }

  /** A step of a leader that stays leader moves `nextIndex` only by processing an answer. */
  lemma NextIndexKept(c: Cluster, step: Step, s: nat, t: nat, x: nat)
    requires Enabled(c, step) && Leads(c, s, t) && Leads(Do(c, step), s, t) && !Crashes(step, s)
    requires x < |c.nodes[s].peer.nextIndex| && !Processes(c, step, s, x)
    ensures var next, next' := c.nodes[s].peer.nextIndex, Do(c, step).nodes[s].peer.nextIndex;
            |next'| == |next| && next'[x] == next[x]
  {
    hide Sent, FirstOfTerm, LastOfTerm, Merge;
  }

  lemma ProbeStep(run: seq<Cluster>, steps: seq<Step>, k: nat, s: nat, t: nat, x: nat)
    requires IsTimelyRun(run, steps) && k < |steps| && Leads(run[k], s, t) && Leads(run[k + 1], s, t)
    requires x < |run[k].nodes|
    requires !Crashes(steps[k], s) && !Matched(run[k], steps[k], s, x)
    ensures |run[k + 1].nodes| == |run[k].nodes|
    ensures |run[k].nodes[s].peer.nextIndex| == |run[k + 1].nodes[s].peer.nextIndex| == |run[k].nodes|
    ensures var next, next' := run[k].nodes[s].peer.nextIndex, run[k + 1].nodes[s].peer.nextIndex;
            next'[x] + (if Rejected(run[k], steps[k], s, x) then 1 else 0) <= next[x]
  {
    hide NodeAfter, Sent, IsTimelyRun;
    StepOf(run, steps, k);
    var c, step := run[k], steps[k];
    IndicesInRange(run, steps, k, s);
    IndicesInRange(run, steps, k + 1, s);
    if Processes(c, step, s, x) {
      RejectedInTerm(c, step);
      FastBackup(run, steps, k);
    } else {
      NextIndexKept(c, step, s, t, x);
    }
  }

  lemma StepOf(run: seq<Cluster>, steps: seq<Step>, k: nat)
    requires IsTimelyRun(run, steps) && k < |steps|
    ensures |run| == |steps| + 1 && Enabled(run[k], steps[k]) && run[k + 1] == Do(run[k], steps[k])
    ensures |run[k + 1].nodes| == |run[k].nodes|
  {
  }

  /** A rejection that tells of a later term ends the leadership. */
  lemma RejectedInTerm(c: Cluster, step: Step)
    requires Enabled(c, step) && step.EndAppend? && !step.areply.success
    requires Current(c.nodes[step.s], c.nodes[step.s].beats[step.b])
    requires c.nodes[step.s].peer.nextIndex[step.i] == c.nodes[step.s].beats[step.b].tasks[step.i].args.prevLogIndex + 1
    requires Do(c, step).nodes[step.s].peer.role == Leader
    ensures step.areply.term <= c.nodes[step.s].peer.term
  {
  }

  /**
  While a leader keeps its term and a peer has not matched, every rejection costs at least one
  index, so that there are fewer rejections than `nextIndex` at the start.
  */
  lemma {:induction false} RejectionsBounded(
    run: seq<Cluster>, steps: seq<Step>, i: nat, j: nat, s: nat, t: nat, x: nat)
    requires IsTimelyRun(run, steps) && Probing(run, steps, i, j, s, t, x) && x < |run[i].nodes|
    ensures |run[j].nodes| == |run[i].nodes|
    ensures |run[i].nodes[s].peer.nextIndex| == |run[j].nodes[s].peer.nextIndex| == |run[i].nodes|
    ensures Rejections(run, steps, i, j, s, x) + run[j].nodes[s].peer.nextIndex[x] <= run[i].nodes[s].peer.nextIndex[x]
    ensures Rejections(run, steps, i, j, s, x) < run[i].nodes[s].peer.nextIndex[x]
    decreases j
  {
    hide IsTimelyRun, Leads, Matched, Rejected;
    assert Leads(run[j], s, t);
    LeadsHere(run[j], s, t);
    IndicesInRange(run, steps, j, s);
    if i < j {
      RejectionsBounded(run, steps, i, j - 1, s, t, x);
      assert Leads(run[j - 1], s, t) && !Crashes(steps[j - 1], s) && !Matched(run[j - 1], steps[j - 1], s, x);
      ProbeStep(run, steps, j - 1, s, t, x);
    }
  }

  lemma LeadsHere(c: Cluster, s: nat, t: nat)
    requires Leads(c, s, t)
    ensures s < |c.nodes| && c.nodes[s].peer.role == Leader
  {
  }
}
