/** The steps of log replication keep the invariant. */
module RaftReplication {
  import opened RaftTypes
  import opened RaftPeer
  import opened RaftCluster
  import opened RaftCore
  import opened RaftInvariant
  import opened RaftSteps

  // ---------- What the receiver of an AppendEntries message does to its log ----------

  /** The index reported with a rejection is the first one that does not precede term `xTerm`. */
  lemma {:induction false} FirstOfTermIs(log: Log, i: int, xTerm: nat, at: nat)
    requires at < |log| && i < |log| && log[0].term < xTerm
    requires forall j :: at <= j <= i ==> log[j].term >= xTerm
    requires i >= 0
    ensures var x := FirstOfTerm(log, i, xTerm);
            && 1 <= x
            && (at <= i ==> x <= at)
            && x <= i + 1
            && log[x - 1].term < xTerm
            && forall j :: x <= j <= i ==> log[j].term >= xTerm
    decreases i
  {
    if log[i].term >= xTerm {
      FirstOfTermIs(log, i - 1, xTerm, at);
    }
  }

  /** Accepted entries leave a log that matches the leader's as far as the message goes. */
  lemma MergeMatches(reigns: map<nat, Reign>, log: Log, leaderLog: Log, a: AppendArgs)
    requires LogOk(reigns, log) && LogOk(reigns, leaderLog) && SliceOk(leaderLog, a)
    requires a.prevLogIndex < |log| && log[a.prevLogIndex].term == a.prevLogTerm
    ensures SamePrefix(Merge(log, a.prevLogIndex, a.entries), leaderLog, a.prevLogIndex + 1 + |a.entries|)
  {
    hide LogOk, SamePrefix, AlreadyHeld, SliceOk;
    var prev := a.prevLogIndex;
    SliceBounds(leaderLog, a);
    LogMatching(reigns, log, leaderLog, prev);
    if a.entries == [] {
    } else if prev + 1 + |a.entries| < |log| && AlreadyHeld(log, prev + 1, a.entries) {
      HeldMatches(log, leaderLog, a);
      LogMatching(reigns, log, leaderLog, prev + |a.entries|);
    } else {
      SpliceMatches(log, leaderLog, a);
    }
  }

  lemma SliceBounds(leaderLog: Log, a: AppendArgs)
    requires SliceOk(leaderLog, a)
    ensures a.prevLogIndex + 1 + |a.entries| <= |leaderLog| && a.prevLogTerm == leaderLog[a.prevLogIndex].term
  {
  }

  lemma HeldMatches(log: Log, leaderLog: Log, a: AppendArgs)
    requires SliceOk(leaderLog, a) && a.entries != []
    requires a.prevLogIndex + 1 + |a.entries| <= |log| && AlreadyHeld(log, a.prevLogIndex + 1, a.entries)
    ensures var last := a.prevLogIndex + |a.entries|;
            last < |leaderLog| && log[last].term == leaderLog[last].term
  {
    var x := |a.entries| - 1;
    assert log[a.prevLogIndex + 1 + x].term == a.entries[x].term;
  }

  lemma SpliceMatches(log: Log, leaderLog: Log, a: AppendArgs)
    requires SliceOk(leaderLog, a) && SamePrefix(log, leaderLog, a.prevLogIndex + 1)
    ensures SamePrefix(log[..a.prevLogIndex + 1] + a.entries, leaderLog, a.prevLogIndex + 1 + |a.entries|)
  {
    var log' := log[..a.prevLogIndex + 1] + a.entries;
    forall i | 0 <= i < |log'|
      ensures log'[i] == leaderLog[i]
    {
      if i > a.prevLogIndex {
        assert log'[i] == a.entries[i - a.prevLogIndex - 1];
      }
    }
  }

  /** Accepted entries never remove anything the log had in common with the leader's. */
  lemma MergeKeepsCommon(reigns: map<nat, Reign>, log: Log, leaderLog: Log, a: AppendArgs, len: nat)
    requires LogOk(reigns, log) && LogOk(reigns, leaderLog) && SliceOk(leaderLog, a)
    requires a.prevLogIndex < |log| && log[a.prevLogIndex].term == a.prevLogTerm
    requires SamePrefix(log, leaderLog, len)
    ensures SamePrefix(Merge(log, a.prevLogIndex, a.entries), leaderLog, len)
  {
    hide LogOk;
    var prev := a.prevLogIndex;
    var log' := Merge(log, prev, a.entries);
    MergeMatches(reigns, log, leaderLog, a);
    if log' != log && |log'| < |log| {
      assert !AlreadyHeld(log, prev + 1, a.entries);
      var j :| 0 <= j < |a.entries| && log[prev + 1 + j].term != a.entries[j].term;
      assert log[prev + 1 + j] != leaderLog[prev + 1 + j];
      assert len <= prev + 1 + j;
    }
  }

  /** The merged log is the old one or a prefix of the leader's. */
  lemma MergeShape(reigns: map<nat, Reign>, log: Log, leaderLog: Log, a: AppendArgs)
    requires LogOk(reigns, log) && LogOk(reigns, leaderLog) && SliceOk(leaderLog, a)
    requires a.prevLogIndex < |log| && log[a.prevLogIndex].term == a.prevLogTerm
    ensures var log' := Merge(log, a.prevLogIndex, a.entries);
            && |log'| > 0
            && (SamePrefix(log', log, |log'|) || SamePrefix(log', leaderLog, |log'|))
  {
    MergeMatches(reigns, log, leaderLog, a);
  }

  /** A server's committed entries are in the log of every leader of its term or a later one. */
  lemma CommittedShared(c: Cluster, h: History, log: Log, term: nat, index: nat, u: nat)
    requires Inv(c, h) && Committed(|c.nodes|, h, log, term, index)
    requires u in h.reigns && term <= u && |log| > 0 && log[0] == SENTINEL
    ensures SamePrefix(log, h.reigns[u].log, index + 1)
  {
    hide NodeOk, MsgOk;
    var k := CoreOf(c, h);
    assert LogOk(h.reigns, k.reigns[u].log);
    if index > 0 {
      var t: nat, m: nat :| CommittedBy(|c.nodes|, h, log, term, index, t, m);
      ChosenIsChoosable(k, t, m);
      assert t < u ==> SamePrefix(k.reigns[u].log, k.reigns[t].log, m + 1);
    }
  }

  lemma LogsOfMessage(c: Cluster, h: History, s: nat, t: nat)
    requires Inv(c, h) && s < |c.nodes| && t in h.reigns
    ensures LogOk(h.reigns, c.nodes[s].peer.log) && LogOk(h.reigns, h.reigns[t].log)
    ensures t > 0
  {
    var k := CoreOf(c, h);
    assert k.log[s] == c.nodes[s].peer.log;
    assert LogsOk(k);
  }

  /** The server's log after a message of the leader of `t` is one the protocol core accepts. */
  lemma AcceptedCore(c: Cluster, h: History, s: nat, node': Node, sent: set<Msg>, t: nat)
    requires Inv(c, h) && s < |c.nodes| && node'.peer.term == t
    requires CanAccept(CoreOf(c, h), s, t, node'.peer.log)
    ensures CoreInv(CoreOf(Place(c, s, node', sent), h))
  {
    hide CoreInv, NodeOk, MsgOk;
    Accept(CoreOf(c, h), s, t, node'.peer.log);
    CoreAfter(c, h, s, node', sent, h);
  }

  ghost function WithAck(h: History, a: Ack): History {
    h.(acks := h.acks + {a})
  }

  lemma WithAckExtends(h: History, a: Ack)
    ensures Extends(h, WithAck(h, a))
  {
    forall t | t in h.reigns
      ensures ReignGrows(h, WithAck(h, a), t)
    {
    }
  }

  // ---------- GetAppend ----------

  predicate Truncates(p: Peer, a: AppendArgs) {
    && a.term >= p.term
    && a.prevLogIndex < |p.log|
    && p.log[a.prevLogIndex].term != a.prevLogTerm
  }

  predicate Accepts(p: Peer, a: AppendArgs) {
    && a.term >= p.term
    && a.prevLogIndex < |p.log|
    && p.log[a.prevLogIndex].term == a.prevLogTerm
  }

  lemma IgnoreStep(c: Cluster, h: History, step: Step)
    requires Inv(c, h) && Enabled(c, step) && step.GetAppend?
    requires !Truncates(c.nodes[step.s].peer, step.aargs) && !Accepts(c.nodes[step.s].peer, step.aargs)
    ensures Inv(Do(c, step), h)
  {
    hide CoreInv;
    var n := |c.nodes|;
    var node, node' := c.nodes[step.s], NodeAfter(c, step);
    assert NodeOk(n, c.net, h, step.s, node);
    assert MsgOk(n, h, AppReq(step.s, step.aargs));
    assert Extends(h, h);
    LogNotEmpty(c, h, step.s);
    GoroutinesGrow(n, h, h, step.s, node, node'.peer);
    OutputGrows(n, h, h, node, node');
    QuietStep(c, h, step.s, node', Sent(c, step));
  }

  /** The peer as a receiver that becomes a follower in term `t` with log `log'`. */
  ghost predicate Follows(p: Peer, p': Peer, t: nat) {
    && p'.term == t >= p.term
    && p'.role == Follower
    && p'.votedFor == p.votedFor
    && p'.me == p.me
    && p'.nextIndex == p.nextIndex
    && p'.matchIndex == p.matchIndex
    && p'.disk == Some(Saved(Follower, t, p'.votedFor, p'.log))
  }

  lemma FollowerNode(n: nat, net: set<Msg>, sent: set<Msg>, h: History, h': History, s: nat, node: Node, node': Node)
    requires NodeOk(n, net, h, s, node) && Follows(node.peer, node'.peer, node'.peer.term)
    requires forall v :: v in h.votes && v.voter == s ==> v.term <= node.peer.term
    requires Extends(h, h') && h'.votes == h.votes
    requires forall m :: m in sent ==> !m.VoteReq?
    requires node'.rounds == node.rounds && node'.beats == node.beats
    requires OutputOk(n, h', node')
    ensures NodeOk(n, net + sent, h', s, node')
  {
    hide RoundOk, BeatOk, OutputOk;
    GoroutinesGrow(n, h, h', s, node, node'.peer);
    var p, p' := node.peer, node'.peer;
    forall v | v in h'.votes && v.cand == s
      ensures CampaignOk(p', v.term, v.lastIndex, v.lastTerm)
    {
      assert CampaignOk(p, v.term, v.lastIndex, v.lastTerm);
    }
    forall m | m in net + sent && m.VoteReq? && m.vargs.candidateId == s
      ensures CampaignOk(p', m.vargs.term, m.vargs.lastLogIndex, m.vargs.lastLogTerm)
    {
      assert CampaignOk(p, m.vargs.term, m.vargs.lastLogIndex, m.vargs.lastLogTerm);
    }
  }

  /** Truncation at a mismatch stays above everything committed. */
  lemma TruncateOutput(c: Cluster, h: History, s: nat, a: AppendArgs)
    requires Inv(c, h) && s < |c.nodes| && ArgsOk(|c.nodes|, h, a) && Truncates(c.nodes[s].peer, a)
    ensures 0 < a.prevLogIndex
    ensures c.nodes[s].peer.commitIndex < a.prevLogIndex
    ensures CanAccept(CoreOf(c, h), s, a.term, c.nodes[s].peer.log[..a.prevLogIndex])
  {
    hide CoreInv, MsgOk;
    var p := c.nodes[s].peer;
    assert NodeOk(|c.nodes|, c.net, h, s, c.nodes[s]);
    LogsOfMessage(c, h, s, a.term);
    CommittedShared(c, h, p.log, p.term, p.commitIndex, a.term);
  }

  lemma TruncateReply(c: Cluster, h: History, s: nat, a: AppendArgs)
    requires Inv(c, h) && s < |c.nodes| && ArgsOk(|c.nodes|, h, a) && Truncates(c.nodes[s].peer, a)
    requires a.prevLogIndex > 0
    ensures RejectionOk(h, a, AppendEntries(c.nodes[s].peer, a).1)
  {
    hide NodeOk, MsgOk;
    var log := c.nodes[s].peer.log;
    var k := CoreOf(c, h);
    LogsOfMessage(c, h, s, a.term);
    assert EntryOk(h.reigns, log, a.prevLogIndex);
    var xTerm := log[a.prevLogIndex].term;
    LogsOfMessage(c, h, s, xTerm);
    forall j | a.prevLogIndex <= j <= |log| - 1
      ensures log[j].term >= xTerm
    {
      TermsSorted(k, log, a.prevLogIndex, j);
    }
    FirstOfTermIs(log, |log| - 1, xTerm, a.prevLogIndex);
  }

  lemma TruncateStep(c: Cluster, h: History, step: Step)
    requires Inv(c, h) && Enabled(c, step) && step.GetAppend? && Truncates(c.nodes[step.s].peer, step.aargs)
    ensures Inv(Do(c, step), h)
  {
    hide CoreInv, RoundOk, BeatOk;
    var n := |c.nodes|;
    var s, a := step.s, step.aargs;
    var node, node' := c.nodes[s], NodeAfter(c, step);
    var p, p' := node.peer, node'.peer;
    var sent := Sent(c, step);
    assert NodeOk(n, c.net, h, s, node);
    assert MsgOk(n, h, AppReq(s, a));
    TruncateOutput(c, h, s, a);
    TruncateReply(c, h, s, a);
    AcceptedCore(c, h, s, node', sent, a.term);
    assert Extends(h, h);
    assert p'.log == p.log[..a.prevLogIndex];
    OutputGrows(n, h, h, node, node');
    VotesReached(c, h, s);
    FollowerNode(n, c.net, sent, h, h, s, node, node');
    Assemble(c, h, s, node', sent, h);
  }

  /** What an accepted message leaves in the log. */
  lemma AcceptedLog(c: Cluster, h: History, s: nat, a: AppendArgs)
    requires Inv(c, h) && s < |c.nodes| && ArgsOk(|c.nodes|, h, a) && Accepts(c.nodes[s].peer, a)
    ensures var p := c.nodes[s].peer;
            var log' := Merge(p.log, a.prevLogIndex, a.entries);
            && CanAccept(CoreOf(c, h), s, a.term, log')
            && SamePrefix(log', h.reigns[a.term].log, a.prevLogIndex + 1 + |a.entries|)
            && SamePrefix(p.log, log', p.commitIndex + 1)
  {
    hide CoreInv, MsgOk;
    var p := c.nodes[s].peer;
    var leaderLog := h.reigns[a.term].log;
    assert NodeOk(|c.nodes|, c.net, h, s, c.nodes[s]);
    LogsOfMessage(c, h, s, a.term);
    CommittedShared(c, h, p.log, p.term, p.commitIndex, a.term);
    MergeMatches(h.reigns, p.log, leaderLog, a);
    MergeShape(h.reigns, p.log, leaderLog, a);
    forall len: nat | SamePrefix(p.log, leaderLog, len)
      ensures SamePrefix(Merge(p.log, a.prevLogIndex, a.entries), leaderLog, len)
    {
      MergeKeepsCommon(h.reigns, p.log, leaderLog, a, len);
    }
    assert SamePrefix(Merge(p.log, a.prevLogIndex, a.entries), leaderLog, p.commitIndex + 1);
  }

  lemma AcceptOutput(n: nat, h: History, node: Node, a: AppendArgs)
    requires OutputOk(n, h, node) && ArgsOk(n, h, a) && Accepts(node.peer, a)
    requires var log' := Merge(node.peer.log, a.prevLogIndex, a.entries);
             && SamePrefix(log', h.reigns[a.term].log, a.prevLogIndex + 1 + |a.entries|)
             && SamePrefix(node.peer.log, log', node.peer.commitIndex + 1)
    ensures OutputOk(n, h, node.(peer := AppendEntries(node.peer, a).0))
    ensures AppendEntries(node.peer, a).0.commitIndex ==
            if a.leaderCommit > node.peer.commitIndex then a.leaderCommit else node.peer.commitIndex
  {
    var p := node.peer;
    var log' := Merge(p.log, a.prevLogIndex, a.entries);
    assert Extends(h, h);
    CommittedGrows(n, h, h, h.reigns[a.term].log, log', a.term, a.term, a.leaderCommit);
    CommittedGrows(n, h, h, p.log, log', p.term, a.term, p.commitIndex);
  }

  lemma AckedCore(c: Cluster, h: History, s: nat, node': Node, sent: set<Msg>, a: Ack)
    requires s < |c.nodes| && CoreInv(CoreOf(Place(c, s, node', sent), h))
    requires a.server == s && a.term == node'.peer.term && a.term in h.reigns
    requires SamePrefix(node'.peer.log, h.reigns[a.term].log, a.len)
    ensures CoreInv(CoreOf(Place(c, s, node', sent), WithAck(h, a)))
  {
    hide CoreInv;
    var k := CoreOf(Place(c, s, node', sent), h);
    Acknowledge(k, a);
    assert CoreOf(Place(c, s, node', sent), WithAck(h, a)) == k.(acks := k.acks + {a});
  }

  lemma AcceptStep(c: Cluster, h: History, step: Step) returns (h': History)
    requires Inv(c, h) && Enabled(c, step) && step.GetAppend? && Accepts(c.nodes[step.s].peer, step.aargs)
    ensures Extends(h, h') && Inv(Do(c, step), h')
  {
    hide CoreInv, RoundOk, BeatOk, RoleOk, BallotOk, Committed, SliceOk, FirstOfTerm;
    var n := |c.nodes|;
    var s, a := step.s, step.aargs;
    var node, node' := c.nodes[s], NodeAfter(c, step);
    var p, p' := node.peer, node'.peer;
    var sent := Sent(c, step);
    var ack := Ack(s, a.term, a.prevLogIndex + |a.entries| + 1);
    assert NodeOk(n, c.net, h, s, node);
    assert MsgOk(n, h, AppReq(s, a));
    AcceptedLog(c, h, s, a);
    AcceptedCore(c, h, s, node', sent, a.term);
    AckedCore(c, h, s, node', sent, ack);
    h' := WithAck(h, ack);
    WithAckExtends(h, ack);
    AcceptOutput(n, h, node, a);
    OutputGrows(n, h, h', node', node');
    VotesReached(c, h, s);
    FollowerNode(n, c.net, sent, h, h', s, node, node');
    ArgsGrow(n, h, h', a);
    Assemble(c, h, s, node', sent, h');
  }

  // ---------- EndAppend ----------

  lemma {:induction false} LastOfTermIs(log: Log, i: int, xTerm: nat, default: int)
    requires i < |log|
    ensures var j := LastOfTerm(log, i, xTerm, default);
            || (0 <= j <= i && log[j].term == xTerm && forall x :: j < x <= i ==> log[x].term != xTerm)
            || (j == default && forall x :: 0 <= x <= i ==> log[x].term != xTerm)
    decreases i + 1
  {
    if i >= 0 && log[i].term != xTerm {
      LastOfTermIs(log, i - 1, xTerm, default);
    }
  }

  /** After a rejection in its own term, the leader retreats to an index in 1..PrevLogIndex. */
  lemma BackupRetreats(h: History, log: Log, a: AppendArgs, r: AppendReply)
    requires LogOk(h.reigns, log) && SliceOk(log, a) && RejectionOk(h, a, r)
    ensures 1 <= Backup(log, r) <= a.prevLogIndex
  {
    if r.xLen == -1 {
      LastOfTermIs(log, |log| - 1, r.xTerm, r.xIndex);
      var j := Backup(log, r);
      assert j > a.prevLogIndex ==> EntryOk(h.reigns, log, j);
      assert j > 0 ==> j != a.prevLogIndex || j == r.xIndex;
      assert 0 <= j < |log| && log[j].term == r.xTerm ==> j > 0 && EntryOk(h.reigns, log, j);
    }
  }

  lemma AnsweredBeat(n: nat, h: History, s: nat, p: Peer, beat: Beat, i: nat)
    requires BeatOk(n, h, s, p, beat) && i < n && i != s && Acked(h.acks, i, beat.term, beat.logLen - 1)
    ensures BeatOk(n, h, s, p, beat.(tasks := beat.tasks[i := Done], acked := beat.acked + {i}))
  {
    var beat' := beat.(tasks := beat.tasks[i := Done], acked := beat.acked + {i});
    forall j | 0 <= j < n
      ensures TaskOk(n, h, s, beat', j, beat'.tasks[j])
    {
      assert TaskOk(n, h, s, beat, j, beat.tasks[j]);
    }
  }

  /** A majority of answers makes the last entry of the round chosen. */
  lemma MajorityChooses(c: Cluster, h: History, s: nat, beat: Beat)
    requires Inv(c, h) && s < |c.nodes| && BeatOk(|c.nodes|, h, s, c.nodes[s].peer, beat)
    requires beat.changeCommit && 2 * (1 + |beat.acked|) > |c.nodes|
    ensures Chosen(|c.nodes|, h.acks, h.reigns, beat.term, beat.logLen - 1)
  {
    hide NodeOk, MsgOk;
    var k := CoreOf(c, h);
    var m := beat.logLen - 1;
    assert Ack(s, beat.term, |k.reigns[beat.term].log|) in k.acks by {
      assert ReignsOk(k);
    }
    assert Acked(h.acks, s, beat.term, m);
    assert ChosenBy(|c.nodes|, h.acks, beat.term, m, beat.acked + {s});
  }

  lemma EndAppendQuiet(c: Cluster, h: History, step: Step)
    requires Inv(c, h) && Enabled(c, step) && step.EndAppend?
    requires var node := c.nodes[step.s];
             var a := node.beats[step.b].tasks[step.i].args;
             Current(node, node.beats[step.b]) && node.peer.nextIndex[step.i] == a.prevLogIndex + 1 ==>
               !step.areply.success && step.areply.term > node.peer.term
    ensures Inv(Do(c, step), h)
  {
    hide CoreInv;
    var n := |c.nodes|;
    var s, b, i := step.s, step.b, step.i;
    var node := c.nodes[s];
    var node' := AppendAnswered(node, b, i, step.areply, n);
    assert NodeOk(n, c.net, h, s, node);
    assert Extends(h, h);
    assert BeatOk(n, h, s, node.peer, node.beats[b]);
    SetTaskOk(n, h, s, node, b, i, Done, node'.peer);
    GoroutinesGrow(n, h, h, s, node, node'.peer);
    OutputGrows(n, h, h, node, node');
    QuietStep(c, h, s, node', {});
  }

  lemma RetreatStep(c: Cluster, h: History, step: Step)
    requires Inv(c, h) && Enabled(c, step) && step.EndAppend?
    requires var node := c.nodes[step.s];
             && Current(node, node.beats[step.b])
             && node.peer.nextIndex[step.i] == node.beats[step.b].tasks[step.i].args.prevLogIndex + 1
             && !step.areply.success
             && step.areply.term <= node.peer.term
    ensures Inv(Do(c, step), h)
  {
    hide CoreInv;
    var n := |c.nodes|;
    var s, b, i := step.s, step.b, step.i;
    var node := c.nodes[s];
    var beat := node.beats[b];
    var a := beat.tasks[i].args;
    var node' := AppendAnswered(node, b, i, step.areply, n);
    assert NodeOk(n, c.net, h, s, node);
    assert Extends(h, h);
    assert BeatOk(n, h, s, node.peer, beat);
    assert TaskOk(n, h, s, beat, i, beat.tasks[i]);
    assert MsgOk(n, h, AppRep(i, a, step.areply));
    LogsOfMessage(c, h, s, a.term);
    BackupRetreats(h, node.peer.log, a, step.areply);
    SetTaskOk(n, h, s, node, b, i, Ready, node'.peer);
    GoroutinesGrow(n, h, h, s, node, node'.peer);
    OutputGrows(n, h, h, node, node');
    QuietStep(c, h, s, node', {});
  }

  predicate Acknowledges(c: Cluster, step: Step)
    requires Enabled(c, step) && step.EndAppend?
  {
    var node := c.nodes[step.s];
    && Current(node, node.beats[step.b])
    && node.peer.nextIndex[step.i] == node.beats[step.b].tasks[step.i].args.prevLogIndex + 1
    && step.areply.success
  }

  lemma AdvanceStep(c: Cluster, h: History, step: Step)
    requires Inv(c, h) && Enabled(c, step) && step.EndAppend? && Acknowledges(c, step)
    ensures Inv(Do(c, step), h)
  {
    hide CoreInv, RoundOk;
    var n := |c.nodes|;
    var s, b, i := step.s, step.b, step.i;
    var node := c.nodes[s];
    var beat := node.beats[b];
    var a := beat.tasks[i].args;
    var node' := AppendAnswered(node, b, i, step.areply, n);
    assert NodeOk(n, c.net, h, s, node);
    assert BeatOk(n, h, s, node.peer, beat);
    assert TaskOk(n, h, s, beat, i, beat.tasks[i]);
    assert MsgOk(n, h, AppRep(i, a, step.areply));
    assert Acked(h.acks, i, beat.term, beat.logLen - 1);
    AnsweredBeat(n, h, s, node.peer, beat, i);
    var beat' := node'.beats[b];
    AdvanceOutput(c, h, s, node', beat');
    assert Extends(h, h);
    GoroutinesGrow(n, h, h, s, node.(beats := node'.beats), node'.peer);
    QuietStep(c, h, s, node', {});
  }

  lemma AdvanceOutput(c: Cluster, h: History, s: nat, node': Node, beat: Beat)
    requires Inv(c, h) && s < |c.nodes| && BeatOk(|c.nodes|, h, s, c.nodes[s].peer, beat)
    requires var node := c.nodes[s];
             var p, p' := node.peer, node'.peer;
             && Current(node, beat)
             && node'.output == node.output
             && p'.log == p.log && p'.term == p.term && p'.lastApplied == p.lastApplied
             && (p'.commitIndex != p.commitIndex ==>
                   && p'.commitIndex == beat.logLen - 1 > p.commitIndex
                   && beat.changeCommit
                   && 2 * (1 + |beat.acked|) > |c.nodes|)
    ensures OutputOk(|c.nodes|, h, node')
  {
    hide CoreInv, MsgOk, RoundOk;
    var n := |c.nodes|;
    var p, p' := c.nodes[s].peer, node'.peer;
    assert NodeOk(n, c.net, h, s, c.nodes[s]);
    if p'.commitIndex != p.commitIndex {
      MajorityChooses(c, h, s, beat);
      assert CommittedBy(n, h, p'.log, p'.term, p'.commitIndex, beat.term, beat.logLen - 1);
    }
  }

  lemma EndAppendStep(c: Cluster, h: History, step: Step)
    requires Inv(c, h) && Enabled(c, step) && step.EndAppend?
    ensures Inv(Do(c, step), h)
  {
    hide Inv;
    var node := c.nodes[step.s];
    var beat := node.beats[step.b];
    if !Current(node, beat) || node.peer.nextIndex[step.i] != beat.tasks[step.i].args.prevLogIndex + 1 {
      EndAppendQuiet(c, h, step);
    } else if step.areply.success {
      AdvanceStep(c, h, step);
    } else if step.areply.term > node.peer.term {
      EndAppendQuiet(c, h, step);
    } else {
      RetreatStep(c, h, step);
    }
  }

  // ---------- Submit ----------

  ghost function WithEntry(h: History, s: nat, t: nat, log: Log): History
    requires t in h.reigns
  {
    h.(acks := h.acks + {Ack(s, t, |log|)}, reigns := h.reigns[t := h.reigns[t].(log := log)])
  }

  lemma WithEntryExtends(h: History, s: nat, t: nat, e: LogEntry)
    requires t in h.reigns && e.term == t
    ensures Extends(h, WithEntry(h, s, t, h.reigns[t].log + [e]))
  {
    var h' := WithEntry(h, s, t, h.reigns[t].log + [e]);
    forall u | u in h.reigns
      ensures ReignGrows(h, h', u)
    {
    }
  }

  lemma SubmitCore(c: Cluster, h: History, s: nat, node': Node, e: LogEntry)
    requires Inv(c, h) && s < |c.nodes|
    requires var p := c.nodes[s].peer;
             && p.term in h.reigns
             && h.reigns[p.term].leader == s
             && h.reigns[p.term].log == p.log
             && e.term == p.term
             && node'.peer.term == p.term
             && node'.peer.log == p.log + [e]
    ensures CoreInv(CoreOf(Place(c, s, node', {}), WithEntry(h, s, e.term, node'.peer.log)))
  {
    hide CoreInv, NodeOk, MsgOk;
    var k := CoreOf(c, h);
    Lead(k, s, e);
    CoreAfter(c, h, s, node', {}, WithEntry(h, s, e.term, node'.peer.log));
    assert k.term[s := e.term] == k.term;
  }

  lemma SubmitNode(n: nat, net: set<Msg>, h: History, s: nat, node: Node, command: Command)
    requires NodeOk(n, net, h, s, node) && node.peer.role == Leader
    ensures var node' := node.(peer := Start(node.peer, command));
            NodeOk(n, net + {}, WithEntry(h, s, node.peer.term, node'.peer.log), s, node')
  {
    hide RoundOk, BeatOk;
    var node' := node.(peer := Start(node.peer, command));
    var p, p' := node.peer, node'.peer;
    var h' := WithEntry(h, s, p.term, p'.log);
    WithEntryExtends(h, s, p.term, LogEntry(command, p.term));
    GoroutinesGrow(n, h, h', s, node, p');
    OutputGrows(n, h, h', node, node');
    forall v | v in h'.votes && v.cand == s
      ensures CampaignOk(p', v.term, v.lastIndex, v.lastTerm)
    {
      assert CampaignOk(p, v.term, v.lastIndex, v.lastTerm);
    }
    assert BallotOk(net + {}, h', s, p');
  }

  lemma SubmitStep(c: Cluster, h: History, step: Step) returns (h': History)
    requires Inv(c, h) && Enabled(c, step) && step.Submit?
    ensures Extends(h, h') && Inv(Do(c, step), h')
  {
    hide CoreInv, MsgOk, RoundOk, BeatOk, OutputOk;
    var n := |c.nodes|;
    var s := step.s;
    var node, node' := c.nodes[s], NodeAfter(c, step);
    var p := node.peer;
    assert NodeOk(n, c.net, h, s, node);
    if p.role == Leader {
      var e := LogEntry(step.command, p.term);
      h' := WithEntry(h, s, p.term, p.log + [e]);
      WithEntryExtends(h, s, p.term, e);
      SubmitCore(c, h, s, node', e);
      SubmitNode(n, c.net, h, s, node, step.command);
      Assemble(c, h, s, node', {}, h');
    } else {
      h' := h;
      assert node' == node;
      QuietStep(c, h, s, node', {});
    }
  }

  // ---------- All steps ----------

  lemma StepKeepsInv(c: Cluster, h: History, step: Step) returns (h': History)
    requires Inv(c, h) && Enabled(c, step) && OnTime(c, step)
    ensures Extends(h, h') && Inv(Do(c, step), h')
  {
    hide Inv, Do;
    h' := h;
    match step
    case Elect(_) => h' := ElectStep(c, h, step);
    case SendVote(_, _, _) => SendVoteStep(c, h, step);
    case GetVote(_, a) =>
      if RequestVote(c.nodes[step.s].peer, a).1.granted {
        h' := GrantStep(c, h, step);
      } else {
        DenyStep(c, h, step);
      }
    case EndVote(_, _, _, _) =>
      if Wins(c, step) {
        h' := WinStep(c, h, step);
      } else {
        EndVoteStep(c, h, step);
      }
    case StartBeat(_) => StartBeatStep(c, h, step);
    case SendAppend(_, _, _) => SendAppendStep(c, h, step);
    case GetAppend(_, a) =>
      if Truncates(c.nodes[step.s].peer, a) {
        TruncateStep(c, h, step);
      } else if Accepts(c.nodes[step.s].peer, a) {
        h' := AcceptStep(c, h, step);
      } else {
        IgnoreStep(c, h, step);
      }
    case EndAppend(_, _, _, _) => EndAppendStep(c, h, step);
    case FailAppend(_, _, _) => FailAppendStep(c, h, step);
    case Submit(_, _) => h' := SubmitStep(c, h, step);
    case ApplyOne(_) => ApplyStep(c, h, step);
    case Crash(_) => CrashStep(c, h, step);
    case CrashInAppend(_, _) => CrashStep(c, h, step);
  }
}
