/**
What a service built on Raft may rely on: in every timely run there is one log that only grows,
every server has applied a prefix of it, and every command in it was submitted before.
*/
module RaftGrowingLog {
  import opened RaftTypes
  import opened RaftPeer
  import opened RaftCluster
  import opened RaftInvariant
  import opened RaftSafety

  // ---------- Applied commands were submitted ----------

  ghost predicate LogFrom(log: Log, from: set<Command>) {
    forall i :: 1 <= i < |log| ==> log[i].command in from
  }

  ghost predicate EntriesFrom(entries: Log, from: set<Command>) {
    forall i :: 0 <= i < |entries| ==> entries[i].command in from
  }

  ghost predicate NodeFrom(node: Node, from: set<Command>) {
    && LogFrom(node.peer.log, from)
    && LogFrom(Restored(node.peer.disk).log, from)
    && (forall i :: 0 <= i < |node.output| ==> node.output[i].command in from)
  }

  /** Every command in the cluster is one of `from`. */
  ghost predicate AllFrom(c: Cluster, from: set<Command>) {
    && (forall s :: 0 <= s < |c.nodes| ==> NodeFrom(c.nodes[s], from))
    && (forall m :: m in c.net && m.AppReq? ==> EntriesFrom(m.aargs.entries, from))
  }

  function NewCommands(step: Step): set<Command> {
    if step.Submit? then {step.command} else {}
  }

  lemma NodeStaysFrom(c: Cluster, step: Step, from: set<Command>)
    requires AllFrom(c, from) && Enabled(c, step)
    ensures NodeFrom(NodeAfter(c, step), from + NewCommands(step))
  {
    hide Merge, FirstOfTerm, LastOfTerm;
    var node := c.nodes[step.s];
    assert NodeFrom(node, from);
    if step.GetAppend? {
      assert EntriesFrom(AppReq(step.s, step.aargs).aargs.entries, from);
      AcceptedFrom(node, step.aargs, from);
    }
  }

  lemma AcceptedFrom(node: Node, a: AppendArgs, from: set<Command>)
    requires NodeFrom(node, from) && EntriesFrom(a.entries, from)
    ensures NodeFrom(node.(peer := AppendEntries(node.peer, a).0), from)
  {
    hide FirstOfTerm;
    var p' := AppendEntries(node.peer, a).0;
    assert LogFrom(p'.log, from);
  }

  lemma MessagesStayFrom(c: Cluster, step: Step, from: set<Command>)
    requires AllFrom(c, from) && Enabled(c, step)
    ensures forall m :: m in Sent(c, step) && m.AppReq? ==> EntriesFrom(m.aargs.entries, from)
  {
    var node := c.nodes[step.s];
    assert NodeFrom(node, from);
  }

  lemma StepStaysFrom(c: Cluster, step: Step, from: set<Command>)
    requires AllFrom(c, from) && Enabled(c, step)
    ensures AllFrom(Do(c, step), from + NewCommands(step))
  {
    hide NodeAfter, Sent;
    NodeStaysFrom(c, step, from);
    MessagesStayFrom(c, step, from);
    var from', c' := from + NewCommands(step), Do(c, step);
    forall s | 0 <= s < |c'.nodes|
      ensures NodeFrom(c'.nodes[s], from')
    {
      if s != step.s {
        assert NodeFrom(c.nodes[s], from);
      }
    }
  }

  /** The commands submitted by the first `i` steps. */
  ghost function SubmittedBy(steps: seq<Step>, i: nat): set<Command>
    requires i <= |steps|
  {
    if i == 0 then {} else SubmittedBy(steps, i - 1) + NewCommands(steps[i - 1])
  }

  /** Whatever a server has applied was submitted by an earlier step. */
  lemma {:induction false} AppliedWasSubmitted(run: seq<Cluster>, steps: seq<Step>, i: nat)
    requires IsRun(run, steps) && i < |run|
    ensures AllFrom(run[i], SubmittedBy(steps, i))
    decreases i
  {
    if i == 0 {
    } else {
      hide AllFrom, Do;
      AppliedWasSubmitted(run, steps, i - 1);
      StepStaysFrom(run[i - 1], steps[i - 1], SubmittedBy(steps, i - 1));
      assert run[i - 1 + 1] == Do(run[i - 1], steps[i - 1]);
    }
  }

  // ---------- One growing log ----------

  ghost predicate IsOutput(c: Cluster, log: seq<ApplyMsg>) {
    exists s :: 0 <= s < |c.nodes| && c.nodes[s].output == log
  }

  /** `log` is the longest of the given log and everything applied in `c`. */
  lemma {:induction false} LongestOutput(c: Cluster, base: seq<ApplyMsg>, n: nat) returns (log: seq<ApplyMsg>)
    requires n <= |c.nodes|
    ensures log == base || IsOutput(c, log)
    ensures |log| >= |base| && forall s :: 0 <= s < n ==> |c.nodes[s].output| <= |log|
    ensures |log| == |base| ==> log == base
    decreases n
  {
    if n == 0 {
      log := base;
    } else {
      log := LongestOutput(c, base, n - 1);
      if |c.nodes[n - 1].output| > |log| {
        log := c.nodes[n - 1].output;
      }
    }
  }

  /** The log was applied by some server in one of the first states of the run. */
  ghost predicate WasApplied(run: seq<Cluster>, i: nat, log: seq<ApplyMsg>)
    requires i < |run|
  {
    log == [] || exists j :: 0 <= j <= i && IsOutput(run[j], log)
  }

  lemma OutputsAgree(run: seq<Cluster>, steps: seq<Step>, i: nat, a: seq<ApplyMsg>, b: seq<ApplyMsg>)
    requires IsTimelyRun(run, steps) && i < |run| && WasApplied(run, i, a) && WasApplied(run, i, b) && |a| <= |b|
    ensures a <= b
  {
    if a != [] {
      var j :| 0 <= j <= i && IsOutput(run[j], a);
      var k :| 0 <= k <= i && IsOutput(run[k], b);
      var s :| 0 <= s < |run[j].nodes| && run[j].nodes[s].output == a;
      var t :| 0 <= t < |run[k].nodes| && run[k].nodes[t].output == b;
      forall x | 0 <= x < |a|
        ensures a[x] == b[x]
      {
        if j <= k {
          StateMachineSafety(run, steps, j, k, s, t, x);
        } else {
          StateMachineSafety(run, steps, k, j, t, s, x);
        }
      }
    }
  }

  /** The logs of the states of a run: each is a prefix of the later ones, and servers have applied prefixes of it. */
  ghost predicate GrowingLogs(run: seq<Cluster>, logs: seq<seq<ApplyMsg>>) {
    && |logs| == |run| > 0
    && logs[0] == []
    && (forall i :: 0 <= i < |run| - 1 ==> logs[i] <= logs[i + 1])
    && (forall i, s :: 0 <= i < |run| && 0 <= s < |run[i].nodes| ==> run[i].nodes[s].output <= logs[i])
    && (forall i :: 0 <= i < |run| ==> WasApplied(run, i, logs[i]))
    && (forall i :: 0 <= i < |run| - 1 ==> logs[i + 1] == logs[i] || IsOutput(run[i + 1], logs[i + 1]))
  }

  lemma {:induction false} LogGrows(run: seq<Cluster>, steps: seq<Step>) returns (logs: seq<seq<ApplyMsg>>)
    requires IsTimelyRun(run, steps)
    ensures GrowingLogs(run, logs)
    decreases |steps|
  {
    if |steps| == 0 {
      logs := [[]];
    } else {
      hide Do, Enabled, OnTime, Init;
      var m := |steps| - 1;
      assert IsTimelyRun(run[..m + 1], steps[..m]);
      var before := LogGrows(run[..m + 1], steps[..m]);
      var next := LongestOutput(run[m + 1], before[m], |run[m + 1].nodes|);
      logs := before + [next];
      MoreLogs(run, steps, before, next);
    }
  }

  lemma MoreLogs(run: seq<Cluster>, steps: seq<Step>, before: seq<seq<ApplyMsg>>, next: seq<ApplyMsg>)
    requires IsTimelyRun(run, steps) && |steps| > 0 && GrowingLogs(run[..|steps|], before)
    requires var m := |steps|;
             && (next == before[m - 1] || IsOutput(run[m], next))
             && |next| >= |before[m - 1]|
             && forall s :: 0 <= s < |run[m].nodes| ==> |run[m].nodes[s].output| <= |next|
    ensures GrowingLogs(run, before + [next])
  {
    hide IsTimelyRun, IsOutput;
    RunSize(run, steps);
    var m := |steps|;
    var pre, logs := run[..m], before + [next];
    forall i | 0 <= i < m
      ensures WasApplied(run, i, logs[i])
    {
      assert WasApplied(pre, i, before[i]);
      AppliedInPrefix(run, m, i, before[i]);
    }
    assert WasApplied(run, m - 1, before[m - 1]);
    AppliedLater(run, m - 1, m, before[m - 1]);
    assert WasApplied(run, m, next);
    OutputsAgree(run, steps, m, before[m - 1], next);
    forall i, s | 0 <= i < |run| && 0 <= s < |run[i].nodes|
      ensures run[i].nodes[s].output <= logs[i]
    {
      if i < m {
        assert pre[i].nodes[s].output <= before[i];
      } else {
        assert IsOutput(run[m], run[m].nodes[s].output) by { NodeOutput(run[m], s); }
        OutputsAgree(run, steps, m, run[m].nodes[s].output, next);
      }
    }
    forall i | 0 <= i < |run| - 1
      ensures logs[i] <= logs[i + 1]
      ensures logs[i + 1] == logs[i] || IsOutput(run[i + 1], logs[i + 1])
    {
      if i < m - 1 {
        assert before[i] <= before[i + 1];
        assert pre[i + 1] == run[i + 1];
      }
    }
  }

  lemma RunSize(run: seq<Cluster>, steps: seq<Step>)
    requires IsTimelyRun(run, steps)
    ensures |run| == |steps| + 1
  {
  }

  lemma NodeOutput(c: Cluster, s: nat)
    requires s < |c.nodes|
    ensures IsOutput(c, c.nodes[s].output)
  {
  }

  lemma AppliedInPrefix(run: seq<Cluster>, m: nat, i: nat, log: seq<ApplyMsg>)
    requires i < m <= |run| && WasApplied(run[..m], i, log)
    ensures WasApplied(run, i, log)
  {
    if log != [] {
      var j :| 0 <= j <= i && IsOutput(run[..m][j], log);
      assert IsOutput(run[j], log);
    }
  }

  lemma AppliedLater(run: seq<Cluster>, i: nat, j: nat, log: seq<ApplyMsg>)
    requires i <= j < |run| && WasApplied(run, i, log)
    ensures WasApplied(run, j, log)
  {
  }

  /** Every command of the growing log was submitted before it got there. */
  lemma LogWasSubmitted(run: seq<Cluster>, steps: seq<Step>, logs: seq<seq<ApplyMsg>>, i: nat, x: nat)
    requires IsTimelyRun(run, steps) && GrowingLogs(run, logs) && i < |run| && x < |logs[i]|
    ensures logs[i][x].command in SubmittedBy(steps, i)
  {
    assert WasApplied(run, i, logs[i]);
    var j :| 0 <= j <= i && IsOutput(run[j], logs[i]);
    var s :| 0 <= s < |run[j].nodes| && run[j].nodes[s].output == logs[i];
    AppliedWasSubmitted(run, steps, j);
    assert NodeFrom(run[j].nodes[s], SubmittedBy(steps, j));
    SubmittedGrows(steps, j, i);
  }

  lemma {:induction false} SubmittedGrows(steps: seq<Step>, i: nat, j: nat)
    requires i <= j <= |steps|
    ensures SubmittedBy(steps, i) <= SubmittedBy(steps, j)
    decreases j
  {
    if i < j {
      SubmittedGrows(steps, i, j - 1);
    }
  }
}
