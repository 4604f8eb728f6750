/** What each server keeps by itself, in every run: its disk is current, and it votes once per term. */
module RaftBallots {
  import opened RaftTypes
  import opened RaftPeer
  import opened RaftCluster

  // ---------- The disk ----------

  /** What a restart would reload. */
  predicate DiskCurrent(p: Peer) {
    Restored(p.disk) == Saved(p.role, p.term, p.votedFor, p.log)
  }

  lemma StepKeepsDisk(c: Cluster, step: Step)
    requires Enabled(c, step) && DiskCurrent(c.nodes[step.s].peer)
    ensures DiskCurrent(NodeAfter(c, step).peer)
  {
    hide Merge, FirstOfTerm, LastOfTerm;
  }

  lemma {:induction false} DisksCurrent(run: seq<Cluster>, steps: seq<Step>, i: nat)
    requires IsRun(run, steps) && i < |run|
    ensures forall s :: 0 <= s < |run[i].nodes| ==> DiskCurrent(run[i].nodes[s].peer)
    decreases i
  {
    if i > 0 {
      hide NodeAfter, Sent, DiskCurrent;
      DisksCurrent(run, steps, i - 1);
      StepKeepsDisk(run[i - 1], steps[i - 1]);
      assert run[i - 1 + 1] == Do(run[i - 1], steps[i - 1]);
    }
  }

  // ---------- Votes ----------

  /** A vote that a server cast, for itself or in answer to a request. */
  datatype Ballot = Ballot(voter: nat, term: nat, cand: nat)

  function CastBy(c: Cluster, step: Step): set<Ballot>
    requires Enabled(c, step)
  {
    var p := c.nodes[step.s].peer;
    match step
    case Elect(s) => {Ballot(s, p.term + 1, p.me)}
    case GetVote(s, a) => if RequestVote(p, a).1.granted then {Ballot(s, a.term, a.candidateId)} else {}
    case _ => {}
  }

  /** All votes cast by the first `i` steps. */
  ghost function Ballots(run: seq<Cluster>, steps: seq<Step>, i: nat): set<Ballot>
    requires IsRun(run, steps) && i <= |steps|
  {
    if i == 0 then {} else Ballots(run, steps, i - 1) + CastBy(run[i - 1], steps[i - 1])
  }

  /** The peer has reached the terms of its votes and knows the one of its current term. */
  predicate Remembers(p: Peer, b: Ballot) {
    b.term <= p.term && (b.term == p.term ==> p.votedFor == b.cand)
  }

  ghost predicate VotesKept(c: Cluster, ballots: set<Ballot>) {
    && (forall b :: b in ballots ==> b.voter < |c.nodes| && Remembers(c.nodes[b.voter].peer, b))
    && (forall a, b :: a in ballots && b in ballots && a.voter == b.voter && a.term == b.term ==> a.cand == b.cand)
    && (forall m :: m in c.net && m.VoteRep? && m.vreply.granted ==>
          Ballot(m.from, m.vargs.term, m.vargs.candidateId) in ballots)
  }

  /** A peer never goes back to an earlier term, and changes its vote only in a new one. */
  lemma PeerRemembers(c: Cluster, step: Step, b: Ballot)
    requires Enabled(c, step) && DiskCurrent(c.nodes[step.s].peer) && Remembers(c.nodes[step.s].peer, b)
    requires b.voter == step.s
    ensures Remembers(NodeAfter(c, step).peer, b)
    ensures forall a :: a in CastBy(c, step) ==>
              a.voter == step.s && Remembers(NodeAfter(c, step).peer, a) && (a.term == b.term ==> a.cand == b.cand)
  {
    hide Merge, FirstOfTerm, LastOfTerm;
  }

  lemma CastRemembered(c: Cluster, step: Step)
    requires Enabled(c, step)
    ensures forall a :: a in CastBy(c, step) ==> a.voter == step.s && Remembers(NodeAfter(c, step).peer, a)
    ensures forall a, b :: a in CastBy(c, step) && b in CastBy(c, step) ==> a == b
    ensures forall m :: m in Sent(c, step) && m.VoteRep? && m.vreply.granted ==>
              Ballot(m.from, m.vargs.term, m.vargs.candidateId) in CastBy(c, step)
  {
    hide Merge, FirstOfTerm, LastOfTerm;
  }

  lemma StepKeepsVotes(c: Cluster, step: Step, ballots: set<Ballot>)
    requires Enabled(c, step) && VotesKept(c, ballots) && DiskCurrent(c.nodes[step.s].peer)
    ensures VotesKept(Do(c, step), ballots + CastBy(c, step))
  {
    hide NodeAfter, Sent, CastBy, DiskCurrent, Remembers;
    var c', cast := Do(c, step), CastBy(c, step);
    CastRemembered(c, step);
    forall b | b in ballots
      ensures b.voter < |c'.nodes| && Remembers(c'.nodes[b.voter].peer, b)
      ensures forall a :: a in cast && a.voter == b.voter && a.term == b.term ==> a.cand == b.cand
    {
      if b.voter == step.s {
        PeerRemembers(c, step, b);
      }
    }
  }

  lemma {:induction false} RunKeepsVotes(run: seq<Cluster>, steps: seq<Step>, i: nat)
    requires IsRun(run, steps) && i < |run|
    ensures VotesKept(run[i], Ballots(run, steps, i))
    decreases i
  {
    hide Do, CastBy, VotesKept, DiskCurrent, Init;
    if i > 0 {
      RunKeepsVotes(run, steps, i - 1);
      DisksCurrent(run, steps, i - 1);
      StepKeepsVotes(run[i - 1], steps[i - 1], Ballots(run, steps, i - 1));
      assert run[i - 1 + 1] == Do(run[i - 1], steps[i - 1]);
    } else {
      NoVotesYet(run[0]);
    }
  }

  lemma NoVotesYet(c: Cluster)
    requires Init(c)
    ensures VotesKept(c, {})
  {
    assert c.net == {};
  }

  // ---------- The guarantees ----------

  /** A server votes for one candidate per term, itself or another, whatever crashes in between. */
  lemma OneBallotPerTerm(run: seq<Cluster>, steps: seq<Step>, i: nat, a: Ballot, b: Ballot)
    requires IsRun(run, steps) && i < |run| && a in Ballots(run, steps, i) && b in Ballots(run, steps, i)
    requires a.voter == b.voter && a.term == b.term
    ensures a.cand == b.cand
  {
    hide IsRun;
    RunKeepsVotes(run, steps, i);
  }

  /** So do the answers in flight. */
  lemma OneVotePerTerm(
    run: seq<Cluster>, steps: seq<Step>, i: nat, a: VoteArgs, b: VoteArgs, voter: nat, ra: VoteReply, rb: VoteReply)
    requires IsRun(run, steps) && i < |run|
    requires VoteRep(voter, a, ra) in run[i].net && VoteRep(voter, b, rb) in run[i].net
    requires ra.granted && rb.granted && a.term == b.term
    ensures a.candidateId == b.candidateId
  {
    hide Do, Enabled, Init;
    RunKeepsVotes(run, steps, i);
    var m, k := VoteRep(voter, a, ra), VoteRep(voter, b, rb);
    assert Ballot(m.from, m.vargs.term, m.vargs.candidateId) in Ballots(run, steps, i);
    assert Ballot(k.from, k.vargs.term, k.vargs.candidateId) in Ballots(run, steps, i);
  }

  /**
  A crash loses nothing that the protocol relies on. One in the middle of AppendEntries, between
  the two times it persists, leaves a follower of the message's term with its old vote and log.
  */
  lemma RestartKeepsPersistentState(run: seq<Cluster>, steps: seq<Step>, i: nat)
    requires IsRun(run, steps) && i < |steps| && (steps[i].Crash? || steps[i].CrashInAppend?)
    ensures |run[i + 1].nodes| == |run[i].nodes| > steps[i].s
    ensures var p, p' := run[i].nodes[steps[i].s].peer, run[i + 1].nodes[steps[i].s].peer;
            && p'.votedFor == p.votedFor && p'.log == p.log
            && (steps[i].Crash? ==> p'.role == p.role && p'.term == p.term)
            && (steps[i].CrashInAppend? ==> p'.role == Follower && p'.term == steps[i].aargs.term >= p.term)
            && p'.commitIndex == p'.lastApplied == 0
            && |p'.nextIndex| == |p'.matchIndex| == |run[i].nodes|
            && (forall x :: 0 <= x < |p'.nextIndex| ==> p'.nextIndex[x] == |p.log| && p'.matchIndex[x] == 0)
            && run[i + 1].nodes[steps[i].s].output == []
  {
    DisksCurrent(run, steps, i);
    assert DiskCurrent(run[i].nodes[steps[i].s].peer);
    assert run[i + 1] == Do(run[i], steps[i]);
  }
}
