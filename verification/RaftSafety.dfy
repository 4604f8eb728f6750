/** The guarantees of Raft for every timely run of a cluster of any size. */
module RaftSafety {
  import opened RaftTypes
  import opened RaftPeer
  import opened RaftCluster
  import opened RaftCore
  import opened RaftInvariant
  import opened RaftReplication

  // ---------- The invariant along a run ----------

  lemma InitInv(c: Cluster)
    requires Init(c)
    ensures Inv(c, History({}, {}, map[]))
  {
    var h := History({}, {}, map[]);
    forall q | 0 <= q < |c.nodes|
      ensures LogOk(h.reigns, CoreOf(c, h).log[q])
    {
    }
    forall s | 0 <= s < |c.nodes|
      ensures NodeOk(|c.nodes|, c.net, h, s, c.nodes[s])
    {
    }
  }

  lemma ExtendsTransitive(a: History, b: History, c: History)
    requires Extends(a, b) && Extends(b, c)
    ensures Extends(a, c)
  {
    forall t | t in a.reigns
      ensures ReignGrows(a, c, t)
    {
      assert ReignGrows(a, b, t) && ReignGrows(b, c, t);
    }
  }

  /** A history for every state of the run, each extending the ones before it. */
  lemma {:induction false} Histories(run: seq<Cluster>, steps: seq<Step>) returns (hs: seq<History>)
    requires IsTimelyRun(run, steps)
    ensures |hs| == |run|
    ensures forall i :: 0 <= i < |run| ==> Inv(run[i], hs[i])
    ensures forall i, j :: 0 <= i <= j < |run| ==> Extends(hs[i], hs[j])
    decreases |steps|
  {
    hide Inv, Extends, Do, Enabled, OnTime, Init;
    if |steps| == 0 {
      InitInv(run[0]);
      hs := [History({}, {}, map[])];
      assert Extends(hs[0], hs[0]) by { ExtendsItself(hs[0]); }
    } else {
      var m := |steps| - 1;
      assert IsTimelyRun(run[..m + 1], steps[..m]);
      var before := Histories(run[..m + 1], steps[..m]);
      assert Inv(run[..m + 1][m], before[m]);
      var h := StepKeepsInv(run[m], before[m], steps[m]);
      hs := before + [h];
      ExtendsItself(h);
      forall i | 0 <= i <= m
        ensures Extends(before[i], h)
      {
        ExtendsTransitive(before[i], before[m], h);
      }
    }
  }

  lemma ExtendsItself(h: History)
    ensures Extends(h, h)
  {
  }

  lemma SameSize(run: seq<Cluster>, steps: seq<Step>, i: nat)
    requires IsRun(run, steps) && i < |run|
    ensures |run[i].nodes| == |run[0].nodes|
  {
    if i > 0 {
      SameSize(run, steps, i - 1);
      assert run[i - 1 + 1] == Do(run[i - 1], steps[i - 1]);
    }
  }

  // ---------- Election safety ----------

  /** At most one server is ever leader of a term, in any two states of a run. */
  lemma ElectionSafety(run: seq<Cluster>, steps: seq<Step>, i: nat, j: nat, a: nat, b: nat)
    requires IsTimelyRun(run, steps) && i <= j < |run|
    requires a < |run[i].nodes| && b < |run[j].nodes|
    requires run[i].nodes[a].peer.role == Leader && run[j].nodes[b].peer.role == Leader
    requires run[i].nodes[a].peer.term == run[j].nodes[b].peer.term
    ensures a == b
  {
    hide CoreInv;
    var hs := Histories(run, steps);
    assert Inv(run[i], hs[i]) && Inv(run[j], hs[j]) && Extends(hs[i], hs[j]);
    assert RoleOk(hs[i], a, run[i].nodes[a].peer);
    assert RoleOk(hs[j], b, run[j].nodes[b].peer);
    assert ReignGrows(hs[i], hs[j], run[i].nodes[a].peer.term);
  }

  // ---------- Log matching ----------

  lemma LogStaysOk(h: History, h': History, log: Log)
    requires Extends(h, h') && LogOk(h.reigns, log)
    ensures LogOk(h'.reigns, log)
  {
    forall i | 0 < i < |log|
      ensures EntryOk(h'.reigns, log, i)
    {
      assert EntryOk(h.reigns, log, i);
      assert ReignGrows(h, h', log[i].term);
    }
  }

  /** Logs of any two servers at any two times that have the same term at an index agree up to it. */
  lemma LogMatchingHolds(run: seq<Cluster>, steps: seq<Step>, i: nat, j: nat, a: nat, b: nat, x: nat)
    requires IsTimelyRun(run, steps) && i <= j < |run|
    requires a < |run[i].nodes| && b < |run[j].nodes|
    requires x < |run[i].nodes[a].peer.log| && x < |run[j].nodes[b].peer.log|
    requires run[i].nodes[a].peer.log[x].term == run[j].nodes[b].peer.log[x].term
    ensures SamePrefix(run[i].nodes[a].peer.log, run[j].nodes[b].peer.log, x + 1)
  {
    hide NodeOk, MsgOk;
    var hs := Histories(run, steps);
    var la, lb := run[i].nodes[a].peer.log, run[j].nodes[b].peer.log;
    assert Inv(run[i], hs[i]) && Inv(run[j], hs[j]) && Extends(hs[i], hs[j]);
    assert LogOk(hs[i].reigns, CoreOf(run[i], hs[i]).log[a]);
    assert LogOk(hs[j].reigns, CoreOf(run[j], hs[j]).log[b]);
    LogStaysOk(hs[i], hs[j], la);
    LogMatching(hs[j].reigns, la, lb, x);
  }

  /** An AppendEntries message in flight agrees with every log that has its term at its previous index. */
  lemma MessageMatching(run: seq<Cluster>, steps: seq<Step>, i: nat, to: nat, m: AppendArgs, b: nat, x: nat)
    requires IsTimelyRun(run, steps) && i < |run| && AppReq(to, m) in run[i].net
    requires b < |run[i].nodes| && x < |m.entries|
    requires m.prevLogIndex + 1 + x < |run[i].nodes[b].peer.log|
    requires run[i].nodes[b].peer.log[m.prevLogIndex + 1 + x].term == m.entries[x].term
    ensures var log := run[i].nodes[b].peer.log;
            && log[m.prevLogIndex].term == m.prevLogTerm
            && forall y :: 0 <= y <= x ==> log[m.prevLogIndex + 1 + y] == m.entries[y]
  {
    hide NodeOk;
    var hs := Histories(run, steps);
    var h := hs[i];
    var log := run[i].nodes[b].peer.log;
    assert Inv(run[i], h);
    assert MsgOk(|run[i].nodes|, h, AppReq(to, m));
    LogsOfMessage(run[i], h, b, m.term);
    LogMatching(h.reigns, log, h.reigns[m.term].log, m.prevLogIndex + 1 + x);
  }

  /** Terms never decrease along a log, which starts with the sentinel. */
  lemma TermsNeverDecrease(run: seq<Cluster>, steps: seq<Step>, i: nat, a: nat, x: nat, y: nat)
    requires IsTimelyRun(run, steps) && i < |run| && a < |run[i].nodes|
    requires x <= y < |run[i].nodes[a].peer.log|
    ensures run[i].nodes[a].peer.log[x].term <= run[i].nodes[a].peer.log[y].term <= run[i].nodes[a].peer.term
    ensures run[i].nodes[a].peer.log[0] == SENTINEL
  {
    hide NodeOk, MsgOk;
    var hs := Histories(run, steps);
    var k := CoreOf(run[i], hs[i]);
    assert Inv(run[i], hs[i]);
    assert LogsOk(k);
    assert k.log[a] == run[i].nodes[a].peer.log && LogOk(k.reigns, k.log[a]) && TermsUpTo(k.log[a], k.term[a]);
    TermsSorted(k, k.log[a], x, y);
  }

  // ---------- Leader completeness ----------

  /**
  Whatever a server has committed at some point, every leader of a later term holds at any time,
  earlier ones included, and the leader of the same term holds from then on.
  */
  lemma LeaderCompleteness(run: seq<Cluster>, steps: seq<Step>, i: nat, j: nat, a: nat, b: nat)
    requires IsTimelyRun(run, steps) && i < |run| && j < |run|
    requires a < |run[i].nodes| && b < |run[j].nodes|
    requires run[j].nodes[b].peer.role == Leader
    requires var t, u := run[i].nodes[a].peer.term, run[j].nodes[b].peer.term; t < u || (t == u && i <= j)
    ensures SamePrefix(run[i].nodes[a].peer.log, run[j].nodes[b].peer.log, run[i].nodes[a].peer.commitIndex + 1)
  {
    hide CoreInv, MsgOk, RoundOk, BeatOk, Extends;
    var hs := Histories(run, steps);
    var p, q := run[i].nodes[a].peer, run[j].nodes[b].peer;
    SameSize(run, steps, i);
    SameSize(run, steps, j);
    assert Inv(run[i], hs[i]) && Inv(run[j], hs[j]);
    assert OutputOk(|run[i].nodes|, hs[i], run[i].nodes[a]);
    assert RoleOk(hs[j], b, q);
    LogOfServerOk(run[i], hs[i], a);
    if i <= j {
      CommittedGrows(|run[i].nodes|, hs[i], hs[j], p.log, p.log, p.term, p.term, p.commitIndex);
      CommittedShared(run[j], hs[j], p.log, p.term, p.commitIndex, q.term);
    } else {
      LedBefore(run[i], hs[j], hs[i], a, q.term);
    }
  }

  /** What is committed in an earlier term was in the log of the reign from its beginning. */
  lemma LedBefore(c: Cluster, h: History, h': History, a: nat, u: nat)
    requires Extends(h, h') && Inv(c, h') && a < |c.nodes| && u in h.reigns && c.nodes[a].peer.term < u
    requires Committed(|c.nodes|, h', c.nodes[a].peer.log, c.nodes[a].peer.term, c.nodes[a].peer.commitIndex)
    requires LogOk(h'.reigns, c.nodes[a].peer.log) && |h.reigns[u].log| > 0
    ensures SamePrefix(c.nodes[a].peer.log, h.reigns[u].log, c.nodes[a].peer.commitIndex + 1)
  {
    hide MsgOk, NodeOk;
    var p := c.nodes[a].peer;
    assert ReignGrows(h, h', u);
    CommittedShared(c, h', p.log, p.term, p.commitIndex, u);
    var k := CoreOf(c, h');
    assert LogsOk(k) && k.log[a] == p.log && TermsUpTo(p.log, p.term);
    assert p.log[p.commitIndex].term <= p.term;
    assert h'.reigns[u].log[p.commitIndex] == p.log[p.commitIndex];
  }

  lemma LogOfServerOk(c: Cluster, h: History, s: nat)
    requires Inv(c, h) && s < |c.nodes|
    ensures LogOk(h.reigns, c.nodes[s].peer.log)
  {
    var k := CoreOf(c, h);
    assert k.log[s] == c.nodes[s].peer.log;
    assert LogsOk(k);
  }

  // ---------- State machine safety ----------

  /** Two committed prefixes agree as far as both go. */
  lemma CommittedAgree(c: Cluster, h: History, a: Log, ta: nat, ia: nat, b: Log, tb: nat, ib: nat, x: nat)
    requires Inv(c, h) && Committed(|c.nodes|, h, a, ta, ia) && Committed(|c.nodes|, h, b, tb, ib)
    requires 0 < x <= ia && x <= ib
    ensures a[x] == b[x]
  {
    hide NodeOk, MsgOk, LogsOk, VotesOk, ReignsOk, AcksOk, AcksHeld, VotesInformed, Choosable;
    var k := CoreOf(c, h);
    var t: nat, m: nat :| CommittedBy(|c.nodes|, h, a, ta, ia, t, m);
    var u: nat, l: nat :| CommittedBy(|c.nodes|, h, b, tb, ib, u, l);
    ChosenIsChoosable(k, t, m);
    ChosenIsChoosable(k, u, l);
    assert t < u ==> SamePrefix(k.reigns[u].log, k.reigns[t].log, m + 1);
    assert u < t ==> SamePrefix(k.reigns[t].log, k.reigns[u].log, l + 1);
  }

  /**
  No two servers, at any two times and in any process lifetimes, send different commands on
  `applyCh` for the same index; and every process sends indices 1, 2, 3 and so on.
  */
  lemma StateMachineSafety(run: seq<Cluster>, steps: seq<Step>, i: nat, j: nat, a: nat, b: nat, x: nat)
    requires IsTimelyRun(run, steps) && i <= j < |run|
    requires a < |run[i].nodes| && b < |run[j].nodes|
    requires x < |run[i].nodes[a].output| && x < |run[j].nodes[b].output|
    ensures run[i].nodes[a].output[x] == run[j].nodes[b].output[x]
    ensures run[i].nodes[a].output[x].index == x + 1
  {
    hide CoreInv, MsgOk, RoundOk, BeatOk;
    var hs := Histories(run, steps);
    var p, q := run[i].nodes[a].peer, run[j].nodes[b].peer;
    var h, h' := hs[i], hs[j];
    SameSize(run, steps, i);
    SameSize(run, steps, j);
    var n := |run[i].nodes|;
    assert Inv(run[i], h) && Inv(run[j], h') && Extends(h, h');
    assert OutputOk(n, h, run[i].nodes[a]);
    assert OutputOk(n, h', run[j].nodes[b]);
    CommittedGrows(n, h, h', p.log, p.log, p.term, p.term, p.commitIndex);
    CommittedAgree(run[j], h', p.log, p.term, p.commitIndex, q.log, q.term, q.commitIndex, x + 1);
  }

  // ---------- Commit coverage and index safety ----------

  /** No heartbeat announces a commit index beyond the entries it covers. */
  lemma CommitCovered(run: seq<Cluster>, steps: seq<Step>, i: nat, to: nat, m: AppendArgs)
    requires IsTimelyRun(run, steps) && i < |run| && AppReq(to, m) in run[i].net
    ensures m.leaderCommit <= m.prevLogIndex + |m.entries|
  {
    hide NodeOk;
    var hs := Histories(run, steps);
    assert Inv(run[i], hs[i]);
    assert MsgOk(|run[i].nodes|, hs[i], AppReq(to, m));
  }

  /**
  A receiver that accepts a message then holds its entries, agrees with it at the previous
  index, and has committed exactly as far as the leader announced, or further before.
  */
  lemma AcceptedCommits(run: seq<Cluster>, steps: seq<Step>, i: nat)
    requires IsTimelyRun(run, steps) && i < |steps| && steps[i].GetAppend?
    requires AppendEntries(run[i].nodes[steps[i].s].peer, steps[i].aargs).1.success
    ensures |run[i + 1].nodes| == |run[i].nodes|
    ensures var a, p, p' := steps[i].aargs, run[i].nodes[steps[i].s].peer, run[i + 1].nodes[steps[i].s].peer;
            && p'.commitIndex == (if a.leaderCommit > p.commitIndex then a.leaderCommit else p.commitIndex)
            && a.prevLogIndex + |a.entries| < |p'.log| && p'.log[a.prevLogIndex].term == a.prevLogTerm
            && forall x :: 0 <= x < |a.entries| ==> p'.log[a.prevLogIndex + 1 + x] == a.entries[x]
  {
    hide CoreInv, RoundOk, BeatOk, RoleOk, BallotOk, Committed;
    var hs := Histories(run, steps);
    var c, h, s, a := run[i], hs[i], steps[i].s, steps[i].aargs;
    assert Inv(c, h);
    assert NodeOk(|c.nodes|, c.net, h, s, c.nodes[s]);
    assert MsgOk(|c.nodes|, h, AppReq(s, a));
    AcceptedLog(c, h, s, a);
    AcceptOutput(|c.nodes|, h, c.nodes[s], a);
    assert run[i + 1] == Do(c, steps[i]);
  }

  /** A goroutine that goes on to send reads existing entries only. */
  predicate SendSafe(node: Node, beat: Beat, i: nat) {
    Current(node, beat) ==> Sendable(node, beat, i)
  }

  /**
  The indices that the code reads exist: applied entries are committed, committed entries are
  in the log, and a leader's `nextIndex` lies within 1 and the length of its log.
  */
  lemma IndicesInRange(run: seq<Cluster>, steps: seq<Step>, i: nat, s: nat)
    requires IsTimelyRun(run, steps) && i < |run| && s < |run[i].nodes|
    ensures var p := run[i].nodes[s].peer;
            && p.lastApplied <= p.commitIndex < |p.log|
            && |p.nextIndex| == |p.matchIndex| == |run[i].nodes|
            && (p.role == Leader ==> forall x :: 0 <= x < |p.nextIndex| ==> 1 <= p.nextIndex[x] <= |p.log|)
    ensures var node := run[i].nodes[s];
            forall b, x | 0 <= b < |node.beats| && 0 <= x < |run[i].nodes| :: SendSafe(node, node.beats[b], x)
  {
    hide CoreInv, MsgOk, RoundOk, CommittedBy;
    var hs := Histories(run, steps);
    var node := run[i].nodes[s];
    assert Inv(run[i], hs[i]);
    assert NodeOk(|run[i].nodes|, run[i].net, hs[i], s, node);
    forall b, x | 0 <= b < |node.beats| && 0 <= x < |run[i].nodes|
      ensures SendSafe(node, node.beats[b], x)
    {
      assert BeatOk(|run[i].nodes|, hs[i], s, node.peer, node.beats[b]);
    }
  }

  predicate Crashes(step: Step, s: nat) {
    (step.Crash? || step.CrashInAppend?) && step.s == s
  }

  /** The node keeps what it committed and sent. */
  ghost predicate KeepsCommitted(node: Node, node': Node) {
    && node.peer.commitIndex <= node'.peer.commitIndex
    && SamePrefix(node.peer.log, node'.peer.log, node.peer.commitIndex + 1)
    && node.output <= node'.output
  }

  lemma LocalStepKeeps(c: Cluster, step: Step)
    requires Enabled(c, step) && !step.GetAppend? && !step.Crash? && !step.CrashInAppend?
    requires c.nodes[step.s].peer.commitIndex < |c.nodes[step.s].peer.log|
    ensures KeepsCommitted(c.nodes[step.s], NodeAfter(c, step))
  {
  }

  lemma GetAppendKeeps(c: Cluster, h: History, step: Step)
    requires Inv(c, h) && Enabled(c, step) && step.GetAppend?
    ensures KeepsCommitted(c.nodes[step.s], NodeAfter(c, step))
  {
    hide CoreInv, RoundOk, BeatOk, RoleOk, BallotOk;
    var s, a := step.s, step.aargs;
    var p := c.nodes[s].peer;
    assert NodeOk(|c.nodes|, c.net, h, s, c.nodes[s]);
    assert MsgOk(|c.nodes|, h, AppReq(s, a));
    if Truncates(p, a) {
      TruncateOutput(c, h, s, a);
    } else if Accepts(p, a) {
      AcceptedLog(c, h, s, a);
      AcceptOutput(|c.nodes|, h, c.nodes[s], a);
    }
  }

  /** Within a process lifetime `commitIndex` never decreases, and committed entries never change. */
  lemma CommitMonotone(run: seq<Cluster>, steps: seq<Step>, i: nat, s: nat)
    requires IsTimelyRun(run, steps) && i < |steps| && s < |run[i].nodes| && !Crashes(steps[i], s)
    ensures |run[i + 1].nodes| == |run[i].nodes|
    ensures KeepsCommitted(run[i].nodes[s], run[i + 1].nodes[s])
  {
    hide CoreInv, RoundOk, BeatOk, RoleOk, BallotOk, NodeAfter, Sent, MsgOk;
    var hs := Histories(run, steps);
    var c, h, step := run[i], hs[i], steps[i];
    assert Inv(c, h);
    assert OutputOk(|c.nodes|, h, c.nodes[s]);
    assert run[i + 1] == Do(c, step);
    if step.s == s {
      if step.GetAppend? {
        GetAppendKeeps(c, h, step);
      } else {
        LocalStepKeeps(c, step);
      }
    }
  }

  // ---------- Fast backup ----------

  predicate HasTerm(log: Log, x: int, term: nat) {
    0 <= x < |log| && log[x].term == term
  }

  /**
  Where the leader goes on: behind a log that is too short; at its own last entry of the
  conflicting term; or, if it has none, at the follower's first entry of that term.
  */
  ghost predicate BacksUp(log: Log, r: AppendReply, next: int) {
    && (r.xLen != -1 ==> next == r.xLen)
    && (r.xLen == -1 && (exists x :: HasTerm(log, x, r.xTerm)) ==>
          HasTerm(log, next, r.xTerm) && forall x :: HasTerm(log, x, r.xTerm) ==> x <= next)
    && (r.xLen == -1 && !(exists x :: HasTerm(log, x, r.xTerm)) ==> next == r.xIndex)
  }

  /**
  A rejection that a leader processes in the term of the request moves `nextIndex` to an index
  between 1 and the rejected PrevLogIndex, so that each rejection is followed by an earlier probe.
  */
  lemma FastBackup(run: seq<Cluster>, steps: seq<Step>, i: nat)
    requires IsTimelyRun(run, steps) && i < |steps| && steps[i].EndAppend?
    requires var step := steps[i];
             var node := run[i].nodes[step.s];
             && Current(node, node.beats[step.b])
             && node.peer.nextIndex[step.i] == node.beats[step.b].tasks[step.i].args.prevLogIndex + 1
             && !step.areply.success
             && step.areply.term <= node.peer.term
    ensures var step := steps[i];
            var p, p' := run[i].nodes[step.s].peer, run[i + 1].nodes[step.s].peer;
            && 1 <= p'.nextIndex[step.i] <= p.nextIndex[step.i] - 1
            && run[i + 1].nodes[step.s].beats[step.b].tasks[step.i].Ready?
            && BacksUp(p.log, step.areply, p'.nextIndex[step.i])
            && p' == p.(nextIndex := p.nextIndex[step.i := p'.nextIndex[step.i]])
  {
    hide CoreInv, RoundOk, BacksUp, Backup, LastOfTerm;
    var hs := Histories(run, steps);
    var c, h, step := run[i], hs[i], steps[i];
    var node := c.nodes[step.s];
    var beat := node.beats[step.b];
    var a := beat.tasks[step.i].args;
    assert Inv(c, h);
    assert NodeOk(|c.nodes|, c.net, h, step.s, node);
    assert BeatOk(|c.nodes|, h, step.s, node.peer, beat);
    assert TaskOk(|c.nodes|, h, step.s, beat, step.i, beat.tasks[step.i]);
    assert MsgOk(|c.nodes|, h, AppRep(step.i, a, step.areply));
    LogsOfMessage(c, h, step.s, a.term);
    BackupRetreats(h, node.peer.log, a, step.areply);
    BackupIs(node.peer.log, step.areply);
    assert run[i + 1] == Do(c, step);
  }

  lemma BackupIs(log: Log, r: AppendReply)
    ensures BacksUp(log, r, Backup(log, r))
  {
    if r.xLen == -1 {
      LastOfTermIs(log, |log| - 1, r.xTerm, r.xIndex);
    }
  }
}
