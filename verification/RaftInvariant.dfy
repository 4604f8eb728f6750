/**
The invariant of the cluster. It is stated over a state and a history of what happened so far
(votes, acknowledgements and reigns); the history is found by the proof and is not part of the
state machine.
*/
module RaftInvariant {
  import opened RaftTypes
  import opened RaftPeer
  import opened RaftCluster
  import opened RaftCore

  datatype History = History(votes: set<Vote>, acks: set<Ack>, reigns: map<nat, Reign>)

  ghost function CoreOf(c: Cluster, h: History): (k: Core)
    ensures Shape(k) && |k.term| == |c.nodes|
  {
    Core(seq(|c.nodes|, s requires 0 <= s < |c.nodes| => c.nodes[s].peer.term),
         seq(|c.nodes|, s requires 0 <= s < |c.nodes| => c.nodes[s].peer.log),
         h.votes, h.acks, h.reigns)
  }

  /** Nothing is forgotten, and the log of a reign only grows, by entries of its own term. */
  ghost predicate Extends(h: History, h': History) {
    && h.votes <= h'.votes
    && h.acks <= h'.acks
    && forall t :: t in h.reigns ==> ReignGrows(h, h', t)
  }

  ghost predicate ReignGrows(h: History, h': History, t: nat)
    requires t in h.reigns
  {
    && t in h'.reigns
    && h'.reigns[t].leader == h.reigns[t].leader
    && h'.reigns[t].voters == h.reigns[t].voters
    && SamePrefix(h.reigns[t].log, h'.reigns[t].log, |h.reigns[t].log|)
    && forall x :: |h.reigns[t].log| <= x < |h'.reigns[t].log| ==> h'.reigns[t].log[x].term == t
  }

  // ---------- Committed prefixes ----------

  ghost predicate CommittedBy(n: nat, h: History, log: Log, term: nat, index: nat, t: nat, m: nat) {
    && t <= term
    && index <= m
    && Chosen(n, h.acks, h.reigns, t, m)
    && SamePrefix(log, h.reigns[t].log, index + 1)
  }

  /** Entries up to `index` of `log` are covered by an entry chosen in a term up to `term`. */
  ghost predicate Committed(n: nat, h: History, log: Log, term: nat, index: nat) {
    && index < |log|
    && (index > 0 ==> exists t, m :: CommittedBy(n, h, log, term, index, t, m))
  }

  // ---------- Messages ----------

  ghost predicate ArgsOk(n: nat, h: History, a: AppendArgs) {
    && a.term in h.reigns
    && h.reigns[a.term].leader == a.leaderId
    && SliceOk(h.reigns[a.term].log, a)
    && a.leaderCommit <= a.prevLogIndex + |a.entries|
    && Committed(n, h, h.reigns[a.term].log, a.term, a.leaderCommit)
  }

  /** The message carries a contiguous piece of the leader's log. */
  ghost predicate SliceOk(log: Log, a: AppendArgs) {
    && a.prevLogIndex + 1 + |a.entries| <= |log|
    && a.prevLogTerm == log[a.prevLogIndex].term
    && forall j :: 0 <= j < |a.entries| ==> a.entries[j] == log[a.prevLogIndex + 1 + j]
  }

  ghost predicate RejectionOk(h: History, a: AppendArgs, r: AppendReply) {
    if r.xLen != -1 then 1 <= r.xLen <= a.prevLogIndex
    else
      && 1 <= r.xIndex <= a.prevLogIndex
      && r.xTerm > 0
      && r.xTerm != a.prevLogTerm
      && r.xTerm in h.reigns
      && a.prevLogIndex < |h.reigns[r.xTerm].log|
      && h.reigns[r.xTerm].log[a.prevLogIndex].term == r.xTerm
  }

  ghost predicate MsgOk(n: nat, h: History, m: Msg) {
    match m
    case VoteReq(to, a) => a.candidateId < n
    case VoteRep(from, a, r) =>
      r.granted ==> Vote(from, a.term, a.candidateId, a.lastLogIndex, a.lastLogTerm) in h.votes
    case AppReq(to, a) => ArgsOk(n, h, a)
    case AppRep(from, a, r) =>
      && ArgsOk(n, h, a)
      && (r.success ==> Ack(from, a.term, a.prevLogIndex + |a.entries| + 1) in h.acks)
      && (!r.success && r.term <= a.term ==> RejectionOk(h, a, r))
  }

  // ---------- Nodes ----------

  ghost predicate PeerOk(n: nat, s: nat, p: Peer) {
    && p.me == s
    && Restored(p.disk) == Saved(p.role, p.term, p.votedFor, p.log)
    && |p.nextIndex| == |p.matchIndex| == n
    && (p.role == Leader ==> forall i :: 0 <= i < n ==> 1 <= p.nextIndex[i] <= |p.log|)
  }

  ghost predicate RoleOk(h: History, s: nat, p: Peer) {
    && (p.role == Leader ==> p.term in h.reigns && h.reigns[p.term].leader == s && h.reigns[p.term].log == p.log)
    && (p.role == Candidate ==>
          && p.term > 0
          && !(p.term in h.reigns && h.reigns[p.term].leader == s)
          && Vote(s, p.term, s, |p.log| - 1, LastTerm(p.log)) in h.votes)
  }

  /** A server never forgets a vote of its current term, and its campaign uses its current log. */
  ghost predicate BallotOk(net: set<Msg>, h: History, s: nat, p: Peer) {
    && (forall v :: v in h.votes && v.voter == s && v.term == p.term ==> p.votedFor == v.cand)
    && (forall v :: v in h.votes && v.cand == s ==> CampaignOk(p, v.term, v.lastIndex, v.lastTerm))
    && (forall m :: m in net && m.VoteReq? && m.vargs.candidateId == s ==>
          CampaignOk(p, m.vargs.term, m.vargs.lastLogIndex, m.vargs.lastLogTerm))
  }

  ghost predicate CampaignOk(p: Peer, term: nat, lastIndex: int, lastTerm: nat) {
    && term <= p.term
    && (term == p.term && p.role == Candidate ==> lastIndex == |p.log| - 1 && lastTerm == LastTerm(p.log))
  }

  ghost predicate RoundOk(n: nat, h: History, s: nat, p: Peer, r: VoteRound) {
    && r.term <= p.term
    && (forall i :: i in r.todo ==> i < n && i != s && i !in r.granted && i !in r.waiting)
    && (forall i :: i in r.waiting ==>
          i < n && i != s && i !in r.granted && r.waiting[i].term >= r.term && r.waiting[i].candidateId == s)
    && (forall i :: i in r.granted ==> i < n && i != s && VotedWithin(h.votes, i, r.term, p.term, s))
  }

  /** The server voted for the candidate in one of the terms from `first` to `last`. */
  ghost predicate VotedWithin(votes: set<Vote>, voter: nat, first: nat, last: nat, cand: nat) {
    exists v :: v in votes && v.voter == voter && first <= v.term <= last && v.cand == cand
  }

  ghost predicate BeatOk(n: nat, h: History, s: nat, p: Peer, b: Beat) {
    && b.term <= p.term
    && b.term in h.reigns
    && h.reigns[b.term].leader == s
    && 1 <= b.logLen <= |h.reigns[b.term].log|
    && (b.changeCommit <==> OwnEntry(h.reigns, b.term, b.logLen - 1))
    && b.commit < b.logLen
    && Committed(n, h, h.reigns[b.term].log, b.term, b.commit)
    && |b.tasks| == n
    && (forall i :: 0 <= i < n ==> TaskOk(n, h, s, b, i, b.tasks[i]))
    && (forall i :: i in b.acked ==> i < n && i != s && Acked(h.acks, i, b.term, b.logLen - 1))
  }

  ghost predicate TaskOk(n: nat, h: History, s: nat, b: Beat, i: nat, task: Task) {
    && (!task.Done? ==> i != s && i !in b.acked)
    && (task.Waiting? ==>
          && ArgsOk(n, h, task.args)
          && task.args.term == b.term
          && task.args.prevLogIndex + |task.args.entries| + 1 >= b.logLen)
  }

  ghost predicate OutputOk(n: nat, h: History, node: Node) {
    var p := node.peer;
    && p.lastApplied <= p.commitIndex
    && Committed(n, h, p.log, p.term, p.commitIndex)
    && |node.output| == p.lastApplied
    && forall i :: 0 <= i < |node.output| ==> node.output[i] == ApplyMsg(i + 1, p.log[i + 1].command)
  }

  ghost predicate NodeOk(n: nat, net: set<Msg>, h: History, s: nat, node: Node) {
    && PeerOk(n, s, node.peer)
    && RoleOk(h, s, node.peer)
    && BallotOk(net, h, s, node.peer)
    && (forall r :: 0 <= r < |node.rounds| ==> RoundOk(n, h, s, node.peer, node.rounds[r]))
    && (forall b :: 0 <= b < |node.beats| ==> BeatOk(n, h, s, node.peer, node.beats[b]))
    && OutputOk(n, h, node)
  }

  ghost predicate Inv(c: Cluster, h: History) {
    && CoreInv(CoreOf(c, h))
    && (forall v :: v in h.votes ==> v.cand < |c.nodes|)
    && (forall s :: 0 <= s < |c.nodes| ==> NodeOk(|c.nodes|, c.net, h, s, c.nodes[s]))
    && (forall m :: m in c.net ==> MsgOk(|c.nodes|, h, m))
  }

  // ---------- The invariant survives a growing history ----------

  lemma ChosenGrows(n: nat, h: History, h': History, t: nat, m: nat)
    requires Extends(h, h') && Chosen(n, h.acks, h.reigns, t, m)
    ensures Chosen(n, h'.acks, h'.reigns, t, m)
  {
    var qs :| ChosenBy(n, h.acks, t, m, qs);
    assert ReignGrows(h, h', t);
    forall q | q in qs
      ensures Acked(h'.acks, q, t, m)
    {
      AckedGrows(h, h', q, t, m);
    }
    assert ChosenBy(n, h'.acks, t, m, qs);
  }

  lemma AckedGrows(h: History, h': History, q: nat, t: nat, m: nat)
    requires Extends(h, h') && Acked(h.acks, q, t, m)
    ensures Acked(h'.acks, q, t, m)
  {
    var a :| a in h.acks && a.server == q && a.term == t && m < a.len;
    assert a in h'.acks;
  }

  /** A committed prefix stays committed in any log that still has it. */
  lemma CommittedGrows(n: nat, h: History, h': History, log: Log, log': Log, term: nat, term': nat, index: nat)
    requires Extends(h, h') && Committed(n, h, log, term, index)
    requires SamePrefix(log, log', index + 1) && term <= term'
    ensures Committed(n, h', log', term', index)
  {
    if index > 0 {
      var t, m :| CommittedBy(n, h, log, term, index, t, m);
      ChosenGrows(n, h, h', t, m);
      assert ReignGrows(h, h', t);
      assert CommittedBy(n, h', log', term', index, t, m);
    }
  }

  lemma ArgsGrow(n: nat, h: History, h': History, a: AppendArgs)
    requires Extends(h, h') && ArgsOk(n, h, a)
    ensures ArgsOk(n, h', a)
  {
    assert ReignGrows(h, h', a.term);
    CommittedGrows(n, h, h', h.reigns[a.term].log, h'.reigns[a.term].log, a.term, a.term, a.leaderCommit);
  }

  lemma MsgGrows(n: nat, h: History, h': History, m: Msg)
    requires Extends(h, h') && MsgOk(n, h, m)
    ensures MsgOk(n, h', m)
  {
    if m.AppReq? || m.AppRep? {
      ArgsGrow(n, h, h', m.aargs);
    }
    if m.AppRep? && m.areply.xTerm in h.reigns {
      assert ReignGrows(h, h', m.areply.xTerm);
    }
  }

  lemma RoundGrows(n: nat, h: History, h': History, s: nat, p: Peer, p': Peer, r: VoteRound)
    requires Extends(h, h') && RoundOk(n, h, s, p, r) && p.term <= p'.term
    ensures RoundOk(n, h', s, p', r)
  {
    forall i | i in r.granted
      ensures VotedWithin(h'.votes, i, r.term, p'.term, s)
    {
      var v :| v in h.votes && v.voter == i && r.term <= v.term <= p.term && v.cand == s;
      assert v in h'.votes;
    }
  }

  lemma BeatGrows(n: nat, h: History, h': History, s: nat, p: Peer, p': Peer, b: Beat)
    requires Extends(h, h') && BeatOk(n, h, s, p, b) && p.term <= p'.term
    ensures BeatOk(n, h', s, p', b)
  {
    assert ReignGrows(h, h', b.term);
    CommittedGrows(n, h, h', h.reigns[b.term].log, h'.reigns[b.term].log, b.term, b.term, b.commit);
    forall i | 0 <= i < n
      ensures TaskOk(n, h', s, b, i, b.tasks[i])
    {
      assert TaskOk(n, h, s, b, i, b.tasks[i]);
      if b.tasks[i].Waiting? {
        ArgsGrow(n, h, h', b.tasks[i].args);
      }
    }
    forall i | i in b.acked
      ensures Acked(h'.acks, i, b.term, b.logLen - 1)
    {
      AckedGrows(h, h', i, b.term, b.logLen - 1);
    }
  }

  /** The goroutines of a node stay consistent when its term and the history grow. */
  lemma GoroutinesGrow(n: nat, h: History, h': History, s: nat, node: Node, p': Peer)
    requires Extends(h, h') && node.peer.term <= p'.term
    requires forall r :: 0 <= r < |node.rounds| ==> RoundOk(n, h, s, node.peer, node.rounds[r])
    requires forall b :: 0 <= b < |node.beats| ==> BeatOk(n, h, s, node.peer, node.beats[b])
    ensures forall r :: 0 <= r < |node.rounds| ==> RoundOk(n, h', s, p', node.rounds[r])
    ensures forall b :: 0 <= b < |node.beats| ==> BeatOk(n, h', s, p', node.beats[b])
  {
    forall r | 0 <= r < |node.rounds|
      ensures RoundOk(n, h', s, p', node.rounds[r])
    {
      RoundGrows(n, h, h', s, node.peer, p', node.rounds[r]);
    }
    forall b | 0 <= b < |node.beats|
      ensures BeatOk(n, h', s, p', node.beats[b])
    {
      BeatGrows(n, h, h', s, node.peer, p', node.beats[b]);
    }
  }

  /** What a step of server `s` may do to the history and the network, as server `t` sees it. */
  ghost predicate Harmless(net: set<Msg>, net': set<Msg>, h: History, h': History, s: nat, t: nat, p: Peer) {
    && Extends(h, h')
    && (forall v :: v in h'.votes && v !in h.votes ==>
          v.voter == s && (v.cand == t ==> CampaignOk(p, v.term, v.lastIndex, v.lastTerm)))
    && (forall m :: m in net' && m !in net && m.VoteReq? ==> m.vargs.candidateId == s)
    && (forall u :: u in h'.reigns ==> h'.reigns[u].leader == s || (u in h.reigns && h'.reigns[u] == h.reigns[u]))
  }

  lemma OtherNode(n: nat, net: set<Msg>, net': set<Msg>, h: History, h': History, s: nat, t: nat, node: Node)
    requires s != t && NodeOk(n, net, h, t, node) && Harmless(net, net', h, h', s, t, node.peer)
    ensures NodeOk(n, net', h', t, node)
  {
    GoroutinesGrow(n, h, h', t, node, node.peer);
    var p := node.peer;
    CommittedGrows(n, h, h', p.log, p.log, p.term, p.term, p.commitIndex);
    if p.role == Leader {
      assert ReignGrows(h, h', p.term);
    }
  }

  /** A step of server `s` keeps the invariant if `s` itself and the messages it sends are in order. */
  lemma Assemble(c: Cluster, h: History, s: nat, node': Node, sent: set<Msg>, h': History)
    requires Inv(c, h) && s < |c.nodes|
    requires CoreInv(CoreOf(Place(c, s, node', sent), h'))
    requires forall v :: v in h'.votes ==> v.cand < |c.nodes|
    requires forall t :: 0 <= t < |c.nodes| && t != s ==>
               Harmless(c.net, c.net + sent, h, h', s, t, c.nodes[t].peer)
    requires Extends(h, h')
    requires NodeOk(|c.nodes|, c.net + sent, h', s, node')
    requires forall m :: m in sent ==> MsgOk(|c.nodes|, h', m)
    ensures Inv(Place(c, s, node', sent), h')
  {
    var c' := Place(c, s, node', sent);
    forall t | 0 <= t < |c.nodes|
      ensures NodeOk(|c.nodes|, c'.net, h', t, c'.nodes[t])
    {
      if t != s {
        OtherNode(|c.nodes|, c.net, c'.net, h, h', s, t, c.nodes[t]);
      }
    }
    forall m | m in c'.net
      ensures MsgOk(|c.nodes|, h', m)
    {
      if m in c.net {
        MsgGrows(|c.nodes|, h, h', m);
      }
    }
  }
}
