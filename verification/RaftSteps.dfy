/** Every step of the cluster keeps the invariant. */
module RaftSteps {
  import opened RaftTypes
  import opened RaftPeer
  import opened RaftCluster
  import opened RaftCore
  import opened RaftInvariant

  lemma CoreAfter(c: Cluster, h: History, s: nat, node': Node, sent: set<Msg>, h': History)
    requires s < |c.nodes|
    ensures var k := CoreOf(c, h);
            CoreOf(Place(c, s, node', sent), h') ==
            Core(k.term[s := node'.peer.term], k.log[s := node'.peer.log], h'.votes, h'.acks, h'.reigns)
  {
    var k, k' := CoreOf(c, h), CoreOf(Place(c, s, node', sent), h');
    assert k'.term == k.term[s := node'.peer.term];
    assert k'.log == k.log[s := node'.peer.log];
  }

  // ---------- Steps that leave the history alone ----------

  /** The peer keeps its log and its vote, and at most steps down or moves to a later term. */
  ghost predicate Quiet(p: Peer, p': Peer) {
    && p'.log == p.log
    && p'.votedFor == p.votedFor
    && p'.term >= p.term
    && (p'.role == Leader || p'.role == Candidate ==> p'.role == p.role && p'.term == p.term)
  }

  lemma QuietBallot(net: set<Msg>, sent: set<Msg>, h: History, s: nat, p: Peer, p': Peer)
    requires BallotOk(net, h, s, p) && Quiet(p, p') && p.me == s
    requires forall v :: v in h.votes && v.voter == s ==> v.term <= p.term
    requires forall m :: m in sent && m.VoteReq? ==> m.vargs == VoteRequest(p) && p' == p
    ensures BallotOk(net + sent, h, s, p')
  {
    forall m | m in net + sent && m.VoteReq? && m.vargs.candidateId == s
      ensures CampaignOk(p', m.vargs.term, m.vargs.lastLogIndex, m.vargs.lastLogTerm)
    {
      if m in net {
        assert CampaignOk(p, m.vargs.term, m.vargs.lastLogIndex, m.vargs.lastLogTerm);
      }
    }
    forall v | v in h.votes && v.cand == s
      ensures CampaignOk(p', v.term, v.lastIndex, v.lastTerm)
    {
      assert CampaignOk(p, v.term, v.lastIndex, v.lastTerm);
    }
  }

  /** No server has voted in a term it has not reached. */
  lemma VotesReached(c: Cluster, h: History, s: nat)
    requires Inv(c, h) && s < |c.nodes|
    ensures forall v :: v in h.votes && v.voter == s ==> v.term <= c.nodes[s].peer.term
  {
    assert VotesOk(CoreOf(c, h));
    forall v | v in h.votes && v.voter == s
      ensures v.term <= c.nodes[s].peer.term
    {
      assert v.term <= CoreOf(c, h).term[v.voter];
    }
  }

  lemma QuietCore(c: Cluster, h: History, s: nat, node': Node, sent: set<Msg>)
    requires Inv(c, h) && s < |c.nodes| && Quiet(c.nodes[s].peer, node'.peer)
    ensures CoreInv(CoreOf(Place(c, s, node', sent), h))
  {
    var k := CoreOf(c, h);
    CoreAfter(c, h, s, node', sent, h);
    Rise(k, s, node'.peer.term);
    assert k.log[s := node'.peer.log] == k.log;
  }

  lemma QuietStep(c: Cluster, h: History, s: nat, node': Node, sent: set<Msg>)
    requires Inv(c, h) && s < |c.nodes| && Quiet(c.nodes[s].peer, node'.peer)
    requires PeerOk(|c.nodes|, s, node'.peer)
    requires OutputOk(|c.nodes|, h, node')
    requires forall r :: 0 <= r < |node'.rounds| ==> RoundOk(|c.nodes|, h, s, node'.peer, node'.rounds[r])
    requires forall b :: 0 <= b < |node'.beats| ==> BeatOk(|c.nodes|, h, s, node'.peer, node'.beats[b])
    requires forall m :: m in sent ==> MsgOk(|c.nodes|, h, m)
    requires forall m :: m in sent && m.VoteReq? ==>
               m.vargs == VoteRequest(c.nodes[s].peer) && node'.peer == c.nodes[s].peer
    ensures Inv(Place(c, s, node', sent), h)
  {
    hide CoreInv;
    var p, p' := c.nodes[s].peer, node'.peer;
    assert NodeOk(|c.nodes|, c.net, h, s, c.nodes[s]);
    VotesReached(c, h, s);
    QuietBallot(c.net, sent, h, s, p, p');
    QuietCore(c, h, s, node', sent);
    assert NodeOk(|c.nodes|, c.net + sent, h, s, node');
    assert Extends(h, h);
    Assemble(c, h, s, node', sent, h);
  }

  lemma SendVoteStep(c: Cluster, h: History, step: Step)
    requires Inv(c, h) && Enabled(c, step) && step.SendVote?
    ensures Inv(Do(c, step), h)
  {
    hide CoreInv;
    var node := c.nodes[step.s];
    assert NodeOk(|c.nodes|, c.net, h, step.s, node);
    assert RoundOk(|c.nodes|, h, step.s, node.peer, node.rounds[step.r]);
    QuietStep(c, h, step.s, NodeAfter(c, step), Sent(c, step));
  }

  lemma StartBeatStep(c: Cluster, h: History, step: Step)
    requires Inv(c, h) && Enabled(c, step) && step.StartBeat?
    ensures Inv(Do(c, step), h)
  {
    hide CoreInv;
    var n := |c.nodes|;
    var node, node' := c.nodes[step.s], NodeAfter(c, step);
    var p := node.peer;
    assert NodeOk(n, c.net, h, step.s, node);
    var beat := node'.beats[|node.beats|];
    assert BeatOk(n, h, step.s, p, beat) by {
      assert RoleOk(h, step.s, p);
      forall i | 0 <= i < n
        ensures TaskOk(n, h, step.s, beat, i, beat.tasks[i])
      {
      }
    }
    QuietStep(c, h, step.s, NodeAfter(c, step), Sent(c, step));
  }

  lemma SetTaskOk(n: nat, h: History, s: nat, node: Node, b: nat, i: nat, task: Task, p': Peer)
    requires forall k :: 0 <= k < |node.beats| ==> BeatOk(n, h, s, node.peer, node.beats[k])
    requires b < |node.beats| && i < |node.beats[b].tasks| && node.peer.term <= p'.term
    requires TaskOk(n, h, s, node.beats[b], i, task)
    ensures forall k :: 0 <= k < |node.beats| ==> BeatOk(n, h, s, p', SetTask(node, b, i, task).beats[k])
  {
    assert Extends(h, h);
    var beat := node.beats[b];
    var beat' := SetTask(node, b, i, task).beats[b];
    forall k | 0 <= k < |node.beats|
      ensures BeatOk(n, h, s, p', node.beats[k])
    {
      BeatGrows(n, h, h, s, node.peer, p', node.beats[k]);
    }
    forall j | 0 <= j < n
      ensures TaskOk(n, h, s, beat', j, beat'.tasks[j])
    {
      assert TaskOk(n, h, s, beat, j, beat.tasks[j]);
    }
  }

  /** A current round sends a piece of the leader's log that covers everything it captured. */
  lemma RequestOk(n: nat, h: History, s: nat, node: Node, b: nat, i: nat)
    requires PeerOk(n, s, node.peer) && RoleOk(h, s, node.peer)
    requires b < |node.beats| && i < n && BeatOk(n, h, s, node.peer, node.beats[b])
    requires Current(node, node.beats[b])
    ensures Sendable(node, node.beats[b], i)
    ensures var beat := node.beats[b];
            var a := AppendRequest(node.peer, i, beat.logLen, beat.commit);
            ArgsOk(n, h, a) && a.term == beat.term && a.prevLogIndex + |a.entries| + 1 >= beat.logLen
  {
  }

  lemma SendAppendStep(c: Cluster, h: History, step: Step)
    requires Inv(c, h) && Enabled(c, step) && step.SendAppend?
    ensures Inv(Do(c, step), h)
  {
    hide CoreInv;
    var n := |c.nodes|;
    var node, node' := c.nodes[step.s], NodeAfter(c, step);
    assert NodeOk(n, c.net, h, step.s, node);
    var beat := node.beats[step.b];
    assert BeatOk(n, h, step.s, node.peer, beat);
    assert TaskOk(n, h, step.s, beat, step.i, beat.tasks[step.i]);
    if Current(node, beat) {
      RequestOk(n, h, step.s, node, step.b, step.i);
    }
    SetTaskOk(n, h, step.s, node, step.b, step.i, node'.beats[step.b].tasks[step.i], node.peer);
    QuietStep(c, h, step.s, NodeAfter(c, step), Sent(c, step));
  }

  lemma FailAppendStep(c: Cluster, h: History, step: Step)
    requires Inv(c, h) && Enabled(c, step) && step.FailAppend?
    ensures Inv(Do(c, step), h)
  {
    hide CoreInv;
    var n := |c.nodes|;
    var node, node' := c.nodes[step.s], NodeAfter(c, step);
    assert NodeOk(n, c.net, h, step.s, node);
    var beat := node.beats[step.b];
    assert BeatOk(n, h, step.s, node.peer, beat);
    assert TaskOk(n, h, step.s, beat, step.i, beat.tasks[step.i]);
    SetTaskOk(n, h, step.s, node, step.b, step.i, node'.beats[step.b].tasks[step.i], node.peer);
    QuietStep(c, h, step.s, NodeAfter(c, step), Sent(c, step));
  }

  lemma ApplyStep(c: Cluster, h: History, step: Step)
    requires Inv(c, h) && Enabled(c, step) && step.ApplyOne?
    ensures Inv(Do(c, step), h)
  {
    hide CoreInv;
    var n := |c.nodes|;
    var node, node' := c.nodes[step.s], NodeAfter(c, step);
    assert NodeOk(n, c.net, h, step.s, node);
    assert Extends(h, h);
    GoroutinesGrow(n, h, h, step.s, node, node'.peer);
    QuietStep(c, h, step.s, NodeAfter(c, step), Sent(c, step));
  }

  lemma CrashStep(c: Cluster, h: History, step: Step)
    requires Inv(c, h) && Enabled(c, step) && (step.Crash? || step.CrashInAppend?)
    ensures Inv(Do(c, step), h)
  {
    hide CoreInv;
    assert NodeOk(|c.nodes|, c.net, h, step.s, c.nodes[step.s]);
    LogNotEmpty(c, h, step.s);
    QuietStep(c, h, step.s, NodeAfter(c, step), Sent(c, step));
  }

  // ---------- Elections ----------

  /** A vote extends the history. */
  ghost function WithVote(h: History, v: Vote): History {
    h.(votes := h.votes + {v})
  }

  lemma WithVoteExtends(h: History, v: Vote)
    ensures Extends(h, WithVote(h, v))
  {
    forall t | t in h.reigns
      ensures ReignGrows(h, WithVote(h, v), t)
    {
    }
  }

  lemma ElectCore(c: Cluster, h: History, s: nat, node': Node, v: Vote)
    requires Inv(c, h) && s < |c.nodes|
    requires var p := c.nodes[s].peer;
             && v == Vote(s, p.term + 1, s, |p.log| - 1, LastTerm(p.log))
             && node'.peer.term == v.term
             && node'.peer.log == p.log
    ensures CoreInv(CoreOf(Place(c, s, node', {}), WithVote(h, v)))
  {
    hide NodeOk, MsgOk;
    var k := CoreOf(c, h);
    VotesReached(c, h, s);
    CastVote(k, v);
    CoreAfter(c, h, s, node', {}, WithVote(h, v));
    assert k.log[s := node'.peer.log] == k.log;
  }

  lemma ElectBallot(net: set<Msg>, h: History, s: nat, p: Peer, v: Vote)
    requires BallotOk(net, h, s, p) && p.me == s
    requires v == Vote(s, p.term + 1, s, |p.log| - 1, LastTerm(p.log))
    requires forall w :: w in h.votes && w.voter == s ==> w.term <= p.term
    ensures BallotOk(net + {}, WithVote(h, v), s, BecomeCandidate(p))
  {
    var p' := BecomeCandidate(p);
    forall w | w in WithVote(h, v).votes && w.cand == s
      ensures CampaignOk(p', w.term, w.lastIndex, w.lastTerm)
    {
      assert w == v || CampaignOk(p, w.term, w.lastIndex, w.lastTerm);
    }
    forall m | m in net && m.VoteReq? && m.vargs.candidateId == s
      ensures CampaignOk(p', m.vargs.term, m.vargs.lastLogIndex, m.vargs.lastLogTerm)
    {
      assert CampaignOk(p, m.vargs.term, m.vargs.lastLogIndex, m.vargs.lastLogTerm);
    }
  }

  lemma ElectStep(c: Cluster, h: History, step: Step) returns (h': History)
    requires Inv(c, h) && Enabled(c, step) && step.Elect?
    ensures Extends(h, h') && Inv(Do(c, step), h')
  {
    hide CoreInv;
    var n := |c.nodes|;
    var s := step.s;
    var node, node' := c.nodes[s], NodeAfter(c, step);
    var p, p' := node.peer, node'.peer;
    var v := Vote(s, p'.term, s, |p.log| - 1, LastTerm(p.log));
    h' := WithVote(h, v);
    WithVoteExtends(h, v);
    assert NodeOk(n, c.net, h, s, node);
    VotesReached(c, h, s);
    ElectCore(c, h, s, node', v);
    GoroutinesGrow(n, h, h', s, node, p');
    OutputGrows(n, h, h', node, node');
    NoFutureReign(CoreOf(c, h), s, p'.term);
    ElectBallot(c.net, h, s, p, v);
    assert NodeOk(n, c.net + {}, h', s, node');
    Assemble(c, h, s, node', {}, h');
  }

  /** Nobody leads a term that its leader has not reached. */
  lemma NoFutureReign(k: Core, s: nat, t: nat)
    requires CoreInv(k) && s < |k.term| && t > k.term[s]
    ensures !(t in k.reigns && k.reigns[t].leader == s)
  {
    assert t in k.reigns ==> Ack(k.reigns[t].leader, t, |k.reigns[t].log|) in k.acks;
  }

  /** What was applied stays committed while the log keeps it. */
  lemma OutputGrows(n: nat, h: History, h': History, node: Node, node': Node)
    requires Extends(h, h') && OutputOk(n, h, node) && node'.output == node.output
    requires var p, p' := node.peer, node'.peer;
             && p'.term >= p.term
             && p'.commitIndex == p.commitIndex
             && p'.lastApplied == p.lastApplied
             && SamePrefix(p.log, p'.log, p.commitIndex + 1)
    ensures OutputOk(n, h', node')
  {
    var p, p' := node.peer, node'.peer;
    CommittedGrows(n, h, h', p.log, p'.log, p.term, p'.term, p.commitIndex);
  }

  lemma GrantStep(c: Cluster, h: History, step: Step) returns (h': History)
    requires Inv(c, h) && Enabled(c, step) && step.GetVote?
    requires RequestVote(c.nodes[step.s].peer, step.vargs).1.granted
    ensures Extends(h, h') && Inv(Do(c, step), h')
  {
    hide CoreInv;
    var n := |c.nodes|;
    var s := step.s;
    var a := step.vargs;
    var node, node' := c.nodes[s], NodeAfter(c, step);
    var p, p' := node.peer, node'.peer;
    var k := CoreOf(c, h);
    var v := Vote(s, a.term, a.candidateId, a.lastLogIndex, a.lastLogTerm);
    h' := WithVote(h, v);
    WithVoteExtends(h, v);
    assert NodeOk(n, c.net, h, s, node);
    assert MsgOk(n, h, VoteReq(s, a));
    assert BallotOk(c.net, h, s, p);
    VotesReached(c, h, s);
    CastVote(k, v);
    CoreAfter(c, h, s, node', Sent(c, step), h');
    assert k.log[s := p'.log] == k.log;
    assert CoreInv(CoreOf(Do(c, step), h'));
    GoroutinesGrow(n, h, h', s, node, p');
    OutputGrows(n, h, h', node, node');
    GrantBallot(c, h, step, v);
    assert NodeOk(n, Do(c, step).net, h', s, node');
    forall t | 0 <= t < n && t != s
      ensures Harmless(c.net, Do(c, step).net, h, h', s, t, c.nodes[t].peer)
    {
      assert NodeOk(n, c.net, h, t, c.nodes[t]);
    }
    Assemble(c, h, s, node', Sent(c, step), h');
  }

  lemma GrantBallot(c: Cluster, h: History, step: Step, v: Vote)
    requires Inv(c, h) && Enabled(c, step) && step.GetVote?
    requires RequestVote(c.nodes[step.s].peer, step.vargs).1.granted
    requires var a := step.vargs; v == Vote(step.s, a.term, a.candidateId, a.lastLogIndex, a.lastLogTerm)
    ensures BallotOk(Do(c, step).net, WithVote(h, v), step.s, NodeAfter(c, step).peer)
  {
    hide CoreInv;
    var s := step.s;
    var p, p' := c.nodes[s].peer, NodeAfter(c, step).peer;
    assert NodeOk(|c.nodes|, c.net, h, s, c.nodes[s]);
    VotesReached(c, h, s);
    forall w | w in WithVote(h, v).votes && w.cand == s
      ensures CampaignOk(p', w.term, w.lastIndex, w.lastTerm)
    {
      assert w == v || CampaignOk(p, w.term, w.lastIndex, w.lastTerm);
    }
    forall m | m in Do(c, step).net && m.VoteReq? && m.vargs.candidateId == s
      ensures CampaignOk(p', m.vargs.term, m.vargs.lastLogIndex, m.vargs.lastLogTerm)
    {
      assert CampaignOk(p, m.vargs.term, m.vargs.lastLogIndex, m.vargs.lastLogTerm);
    }
  }

  lemma DenyStep(c: Cluster, h: History, step: Step)
    requires Inv(c, h) && Enabled(c, step) && step.GetVote?
    requires !RequestVote(c.nodes[step.s].peer, step.vargs).1.granted
    ensures Inv(Do(c, step), h)
  {
    hide CoreInv;
    assert NodeOk(|c.nodes|, c.net, h, step.s, c.nodes[step.s]);
    QuietStep(c, h, step.s, NodeAfter(c, step), Sent(c, step));
  }

  lemma AnsweredRounds(n: nat, h: History, s: nat, node: Node, r: nat, i: nat, rep: VoteReply, p': Peer)
    requires forall k :: 0 <= k < |node.rounds| ==> RoundOk(n, h, s, node.peer, node.rounds[k])
    requires r < |node.rounds| && i in node.rounds[r].waiting && node.peer.term <= p'.term
    requires MsgOk(n, h, VoteRep(i, node.rounds[r].waiting[i], rep))
    ensures var rounds' := VoteAnswered(node, r, i, rep, n).rounds;
            forall k :: 0 <= k < |rounds'| ==> RoundOk(n, h, s, p', rounds'[k])
  {
    hide MsgOk, RoundOk;
    var rounds' := VoteAnswered(node, r, i, rep, n).rounds;
    assert Extends(h, h);
    forall k | 0 <= k < |node.rounds|
      ensures RoundOk(n, h, s, p', node.rounds[k])
    {
      RoundGrows(n, h, h, s, node.peer, p', node.rounds[k]);
    }
    AnsweredRound(n, h, s, node, r, i, rep, p');
  }

  lemma AnsweredRound(n: nat, h: History, s: nat, node: Node, r: nat, i: nat, rep: VoteReply, p': Peer)
    requires r < |node.rounds| && i in node.rounds[r].waiting && node.peer.term <= p'.term
    requires RoundOk(n, h, s, node.peer, node.rounds[r]) && RoundOk(n, h, s, p', node.rounds[r])
    requires MsgOk(n, h, VoteRep(i, node.rounds[r].waiting[i], rep))
    ensures var rounds' := VoteAnswered(node, r, i, rep, n).rounds;
            && |rounds'| == |node.rounds|
            && RoundOk(n, h, s, p', rounds'[r])
            && forall k :: 0 <= k < |rounds'| && k != r ==> rounds'[k] == node.rounds[k]
  {
  }

  lemma EndVoteStep(c: Cluster, h: History, step: Step)
    requires Inv(c, h) && Enabled(c, step) && step.EndVote? && !Wins(c, step)
    ensures Inv(Do(c, step), h)
  {
    hide CoreInv;
    var n := |c.nodes|;
    var s := step.s;
    var node := c.nodes[s];
    var node' := VoteAnswered(node, step.r, step.i, step.vreply, n);
    assert NodeOk(n, c.net, h, s, node);
    assert Extends(h, h);
    AnsweredRounds(n, h, s, node, step.r, step.i, step.vreply, node'.peer);
    GoroutinesGrow(n, h, h, s, node, node'.peer);
    OutputGrows(n, h, h, node, node');
    QuietStep(c, h, s, node', {});
  }

  lemma WinCore(c: Cluster, h: History, s: nat, node': Node, voters: set<nat>)
    requires Inv(c, h) && s < |c.nodes| && CanCrown(CoreOf(c, h), s, voters)
    requires node'.peer.term == c.nodes[s].peer.term && node'.peer.log == c.nodes[s].peer.log
    ensures CoreInv(CoreOf(Place(c, s, node', {}), Enthroned(h, s, c.nodes[s].peer, voters)))
  {
    hide CoreInv, NodeOk, MsgOk;
    var k := CoreOf(c, h);
    var p := c.nodes[s].peer;
    Crown(k, s, voters);
    CoreAfter(c, h, s, node', {}, Enthroned(h, s, p, voters));
    assert k.log[s := p.log] == k.log && k.term[s := p.term] == k.term;
  }

  lemma WinNode(n: nat, net: set<Msg>, h: History, s: nat, node: Node, r: nat, i: nat, rep: VoteReply, voters: set<nat>)
    requires NodeOk(n, net, h, s, node) && |node.peer.log| > 0 && node.peer.term !in h.reigns
    requires r < |node.rounds| && i in node.rounds[r].waiting
    requires MsgOk(n, h, VoteRep(i, node.rounds[r].waiting[i], rep))
    requires VoteAnswered(node, r, i, rep, n).peer == BecomeLeader(node.peer)
    ensures NodeOk(n, net + {}, Enthroned(h, s, node.peer, voters), s, VoteAnswered(node, r, i, rep, n))
  {
    hide RoundOk, BeatOk, MsgOk;
    var h' := Enthroned(h, s, node.peer, voters);
    var node' := VoteAnswered(node, r, i, rep, n);
    EnthronedExtends(h, s, node.peer, voters);
    AnsweredRounds(n, h, s, node, r, i, rep, node.peer);
    GoroutinesGrow(n, h, h', s, node'.(peer := node.peer), node'.peer);
    OutputGrows(n, h, h', node, node');
    forall v | v in h'.votes && v.cand == s
      ensures CampaignOk(node'.peer, v.term, v.lastIndex, v.lastTerm)
    {
      assert CampaignOk(node.peer, v.term, v.lastIndex, v.lastTerm);
    }
    assert BallotOk(net + {}, h', s, node'.peer);
  }

  lemma WinStep(c: Cluster, h: History, step: Step) returns (h': History)
    requires Inv(c, h) && Enabled(c, step) && Wins(c, step) && OnTime(c, step)
    ensures Extends(h, h') && Inv(Do(c, step), h')
  {
    hide CoreInv, NodeOk, MsgOk;
    var n := |c.nodes|;
    var s := step.s;
    var node := c.nodes[s];
    var node' := VoteAnswered(node, step.r, step.i, step.vreply, n);
    var p := node.peer;
    var voters := node'.rounds[step.r].granted + {s};
    WinnerVotes(c, h, s, step.r, step.i, step.vreply, node'.rounds[step.r]);
    h' := Enthroned(h, s, p, voters);
    EnthronedExtends(h, s, p, voters);
    WinCore(c, h, s, node', voters);
    LogNotEmpty(c, h, s);
    WinNode(n, c.net, h, s, node, step.r, step.i, step.vreply, voters);
    Assemble(c, h, s, node', {}, h');
  }

  ghost function Enthroned(h: History, s: nat, p: Peer, voters: set<nat>): History {
    h.(acks := h.acks + {Ack(s, p.term, |p.log|)}, reigns := h.reigns[p.term := Reign(s, voters, p.log)])
  }

  lemma EnthronedExtends(h: History, s: nat, p: Peer, voters: set<nat>)
    requires p.term !in h.reigns
    ensures Extends(h, Enthroned(h, s, p, voters))
  {
    forall t | t in h.reigns
      ensures ReignGrows(h, Enthroned(h, s, p, voters), t)
    {
    }
  }

  lemma LogNotEmpty(c: Cluster, h: History, s: nat)
    requires Inv(c, h) && s < |c.nodes|
    ensures |c.nodes[s].peer.log| > 0
  {
    assert LogOk(h.reigns, CoreOf(c, h).log[s]);
  }

  /** The counted answers and the candidate's own vote are a majority for its current log. */
  lemma WinnerVotes(c: Cluster, h: History, s: nat, r: nat, i: nat, rep: VoteReply, round': VoteRound)
    requires Inv(c, h) && s < |c.nodes| && r < |c.nodes[s].rounds| && i in c.nodes[s].rounds[r].waiting
    requires VoteRep(i, c.nodes[s].rounds[r].waiting[i], rep) in c.net
    requires var node, n := c.nodes[s], |c.nodes|;
             var node' := VoteAnswered(node, r, i, rep, n);
             && node.peer.role == Candidate && node'.peer.role == Leader
             && (n > 2 ==> node.rounds[r].term == node.peer.term)
             && r < |node'.rounds| && round' == node'.rounds[r]
    ensures CanCrown(CoreOf(c, h), s, round'.granted + {s})
  {
    hide CoreInv, BeatOk, RoundOk, MsgOk, OutputOk, VoteAnswered;
    var n := |c.nodes|;
    var node := c.nodes[s];
    assert NodeOk(n, c.net, h, s, node);
    AnsweredRounds(n, h, s, node, r, i, rep, node.peer);
    VotesOfTerm(n, h, s, node, r, i, rep);
    CountedVotes(n, c.net, h, s, node.peer, round');
    CandidateUncrowned(CoreOf(c, h), s, round'.granted + {s});
  }

  /** What the winner counts are votes of its current term. */
  lemma VotesOfTerm(n: nat, h: History, s: nat, node: Node, r: nat, i: nat, rep: VoteReply)
    requires s < n && r < |node.rounds| && i in node.rounds[r].waiting && RoundOk(n, h, s, node.peer, node.rounds[r])
    requires MsgOk(n, h, VoteRep(i, node.rounds[r].waiting[i], rep))
    requires var node' := VoteAnswered(node, r, i, rep, n);
             && node.peer.role == Candidate && node'.peer.role == Leader
             && RoundOk(n, h, s, node.peer, node'.rounds[r])
             && (n > 2 ==> node.rounds[r].term == node.peer.term)
    ensures var granted := VoteAnswered(node, r, i, rep, n).rounds[r].granted;
            2 * (1 + |granted|) > n && forall x :: x in granted ==> VotedFor(h.votes, x, node.peer.term, s)
  {
    var p, round, round' := node.peer, node.rounds[r], VoteAnswered(node, r, i, rep, n).rounds[r];
    if n <= 2 {
      OnlyAnswer(n, h, s, p, round, i);
    }
    forall x | x in round'.granted
      ensures VotedFor(h.votes, x, p.term, s)
    {
      if n > 2 {
        assert VotedWithin(h.votes, x, p.term, p.term, s);
      }
    }
  }

  /** With two servers a round waits for one answer and has counted none before. */
  lemma OnlyAnswer(n: nat, h: History, s: nat, p: Peer, round: VoteRound, i: nat)
    requires n <= 2 && s < n && RoundOk(n, h, s, p, round) && i in round.waiting
    ensures round.granted == {}
  {
  }

  lemma CountedVotes(n: nat, net: set<Msg>, h: History, s: nat, p: Peer, round: VoteRound)
    requires s < n && p.role == Candidate && RoleOk(h, s, p) && BallotOk(net, h, s, p)
    requires RoundOk(n, h, s, p, round) && 2 * (1 + |round.granted|) > n
    requires forall x :: x in round.granted ==> VotedFor(h.votes, x, p.term, s)
    ensures IsQuorum(n, round.granted + {s})
    ensures forall x :: x in round.granted + {s} ==> Vote(x, p.term, s, |p.log| - 1, LastTerm(p.log)) in h.votes
  {
    forall x | x in round.granted + {s}
      ensures Vote(x, p.term, s, |p.log| - 1, LastTerm(p.log)) in h.votes
    {
      if x != s {
        var v :| v in h.votes && v.voter == x && v.term == p.term && v.cand == s;
        assert CampaignOk(p, v.term, v.lastIndex, v.lastTerm);
      }
    }
  }

  lemma CandidateUncrowned(k: Core, s: nat, voters: set<nat>)
    requires CoreInv(k) && s < |k.term| && IsQuorum(|k.term|, voters)
    requires forall x :: x in voters ==> Vote(x, k.term[s], s, |k.log[s]| - 1, LastTerm(k.log[s])) in k.votes
    requires !(k.term[s] in k.reigns && k.reigns[k.term[s]].leader == s)
    ensures k.term[s] !in k.reigns
  {
    if k.term[s] in k.reigns {
      forall x | x in voters
        ensures VotedFor(k.votes, x, k.term[s], s)
      {
        var v := Vote(x, k.term[s], s, |k.log[s]| - 1, LastTerm(k.log[s]));
        assert v in k.votes;
      }
      OneWinner(k, k.term[s], s, voters);
    }
  }
}
