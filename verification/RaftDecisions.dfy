/**
What each critical section decides, said without its steps: who gets a vote, what a rejection
reports, what an answer changes, and when a leader commits.
*/
module RaftDecisions {
  import opened RaftTypes
  import opened RaftPeer
  import opened RaftCluster
  import opened RaftCore
  import opened RaftInvariant
  import opened RaftSafety
  import opened RaftReplication

  // ---------- The first start ----------

  /** A peer without a disk is a follower of term 0 that has not voted, with the sentinel in its log. */
  lemma FirstStart(me: nat, n: nat)
    ensures var p := Boot(me, n, None);
            && p.me == me && p.role == Follower && p.term == 0 && p.votedFor == -1 && p.log == [LogEntry(NoCommand, 0)]
            && p.commitIndex == p.lastApplied == 0
            && |p.nextIndex| == |p.matchIndex| == n
            && forall x :: 0 <= x < n ==> p.nextIndex[x] == 1 && p.matchIndex[x] == 0
  {
  }

  // ---------- Which log is up to date ----------

  /** A last entry of a later term is ahead of any log, one of an earlier term behind, and length decides a tie. */
  lemma UpToDateIs(lastLogIndex: int, lastLogTerm: nat, log: Log)
    ensures lastLogTerm > LastTerm(log) ==> UpToDate(lastLogIndex, lastLogTerm, log)
    ensures lastLogTerm < LastTerm(log) ==> !UpToDate(lastLogIndex, lastLogTerm, log)
    ensures lastLogTerm == LastTerm(log) ==> (UpToDate(lastLogIndex, lastLogTerm, log) <==> lastLogIndex + 1 >= |log|)
  {
  }

  /** `a` is up to date for a voter with log `b`. */
  predicate Ahead(a: Log, b: Log) {
    UpToDate(|a| - 1, LastTerm(a), b)
  }

  /** Of two logs one is up to date for the other, and the relation is transitive. */
  lemma AheadIsTotal(a: Log, b: Log, c: Log)
    ensures Ahead(a, b) || Ahead(b, a)
    ensures Ahead(a, b) && Ahead(b, c) ==> Ahead(a, c)
    ensures Ahead(a, b) && Ahead(b, a) ==> |a| == |b| && LastTerm(a) == LastTerm(b)
  {
  }

  /** Every log of a run is up to date for each of its nonempty prefixes. */
  lemma AheadOfPrefixes(run: seq<Cluster>, steps: seq<Step>, i: nat, s: nat, len: nat)
    requires IsTimelyRun(run, steps) && i < |run| && s < |run[i].nodes|
    requires 1 <= len <= |run[i].nodes[s].peer.log|
    ensures Ahead(run[i].nodes[s].peer.log, run[i].nodes[s].peer.log[..len])
  {
    hide IsTimelyRun;
    var log := run[i].nodes[s].peer.log;
    TermsNeverDecrease(run, steps, i, s, len - 1, |log| - 1);
  }

  /** Of any logs at some servers, one is up to date for all. */
  lemma {:induction false} SomeAhead(logs: seq<Log>, q: set<nat>) returns (s: nat)
    requires q != {} && forall v :: v in q ==> v < |logs|
    ensures s in q && forall v :: v in q ==> Ahead(logs[s], logs[v])
    decreases |q|
  {
    hide Ahead;
    var x :| x in q;
    AheadIsTotal(logs[x], logs[x], logs[x]);
    if q == {x} {
      s := x;
    } else {
      var rest := q - {x};
      assert |rest| < |q| && rest != {};
      var best := SomeAhead(logs, rest);
      AheadIsTotal(logs[x], logs[best], logs[best]);
      if Ahead(logs[best], logs[x]) {
        s := best;
      } else {
        s := x;
        forall v | v in rest
          ensures Ahead(logs[x], logs[v])
        {
          AheadIsTotal(logs[x], logs[best], logs[v]);
        }
      }
    }
  }

  // ---------- Votes ----------

  /** The vote is still free for the candidate in the term of the request. */
  predicate VoteFree(p: Peer, a: VoteArgs) {
    a.term > p.term || (a.term == p.term && (p.votedFor == -1 || p.votedFor == a.candidateId))
  }

  /** Who gets a vote, and what a voter answers and keeps. */
  lemma VoteDecision(p: Peer, a: VoteArgs)
    ensures var (p', r) := RequestVote(p, a);
            && (r.granted <==> VoteFree(p, a) && UpToDate(a.lastLogIndex, a.lastLogTerm, p.log))
            && r.term == p'.term
            && (if r.granted
                then
                  && p'.term == a.term && p'.votedFor == a.candidateId && p'.role == Follower
                  && p' == Persist(p.(term := p'.term, votedFor := p'.votedFor, role := p'.role))
                else p' == p)
  {
  }

  /** The request that a server would send if it campaigned in term `t`. */
  function Campaign(p: Peer, t: nat): VoteArgs {
    VoteArgs(t, p.me, |p.log| - 1, LastTerm(p.log))
  }

  /** Server `v` grants what server `s` asks in term `t`. */
  predicate Supports(c: Cluster, v: nat, s: nat, t: nat)
    requires v < |c.nodes| && s < |c.nodes|
  {
    RequestVote(c.nodes[v].peer, Campaign(c.nodes[s].peer, t)).1 == VoteReply(t, true)
  }

  /**
  In every state, every group of servers, and so every majority, has a member that gets the votes
  of all others in any term that none of them has reached.
  */
  lemma SomeoneIsElectable(run: seq<Cluster>, steps: seq<Step>, i: nat, q: set<nat>) returns (s: nat)
    requires IsTimelyRun(run, steps) && i < |run| && q != {} && forall v :: v in q ==> v < |run[i].nodes|
    ensures s in q
    ensures forall v, t: nat :: v in q && v != s && (forall u :: u in q ==> run[i].nodes[u].peer.term < t) ==>
              Supports(run[i], v, s, t)
  {
    hide IsTimelyRun, RequestVote, UpToDate;
    var c := run[i];
    var logs: seq<Log> := seq(|c.nodes|, v requires 0 <= v < |c.nodes| => c.nodes[v].peer.log);
    s := SomeAhead(logs, q);
    forall v, t: nat | v in q && v != s && (forall u :: u in q ==> c.nodes[u].peer.term < t)
      ensures Supports(c, v, s, t)
    {
      assert Ahead(logs[s], logs[v]);
      VoteDecision(c.nodes[v].peer, Campaign(c.nodes[s].peer, t));
    }
  }

  /** What a candidate does with an answer to its request `a` of round `r`. */
  lemma VoteAnswerDecision(node: Node, r: nat, i: nat, rep: VoteReply, n: nat)
    requires r < |node.rounds| && i in node.rounds[r].waiting
    ensures var a, p, round := node.rounds[r].waiting[i], node.peer, node.rounds[r];
            var node' := VoteAnswered(node, r, i, rep, n);
            var p' := node'.peer;
            && node'.beats == node.beats && node'.output == node.output && |node'.rounds| == |node.rounds|
            && (forall x :: 0 <= x < |node.rounds| && x != r ==> node'.rounds[x] == node.rounds[x])
            && node'.rounds[r].waiting == round.waiting - {i}
            // refused by a server that is behind: the odd role
            && (rep.term < a.term ==> p' == Persist(p.(role := Refused)))
            // an answer to a request of another term changes nothing
            && (rep.term >= a.term != p.term ==> p' == p)
            // a server ahead makes the candidate a follower of its term
            && (rep.term > a.term == p.term ==> p' == Persist(p.(term := rep.term, role := Follower)))
            // otherwise the vote counts for a candidate, and a majority makes it leader
            && (rep.term == a.term == p.term ==>
                  && (p.role == Candidate && rep.granted ==> node'.rounds[r].granted == round.granted + {i})
                  && (if p.role == Candidate && 2 * (1 + |node'.rounds[r].granted|) > n
                      then Enters(p, p') else p' == p))
            && (node'.rounds[r].granted != round.granted ==> rep.term == a.term == p.term && rep.granted)
  {
  }

  /** A new leader knows nothing of the others and probes at the end of its log. */
  predicate Enters(p: Peer, p': Peer) {
    && p'.role == Leader
    && p'.log == p.log
    && p'.term == p.term
    && p'.votedFor == p.votedFor
    && p'.commitIndex == p.commitIndex
    && p'.lastApplied == p.lastApplied
    && |p'.nextIndex| == |p.nextIndex|
    && |p'.matchIndex| == |p.matchIndex|
    && (forall x :: 0 <= x < |p'.nextIndex| ==> p'.nextIndex[x] == |p.log|)
    && (forall x :: 0 <= x < |p'.matchIndex| ==> p'.matchIndex[x] == 0)
  }

  // ---------- Replication: the follower ----------

  /** The entry before the message is the one that the leader means. */
  predicate MatchesBefore(log: Log, a: AppendArgs) {
    a.prevLogIndex < |log| && log[a.prevLogIndex].term == a.prevLogTerm
  }

  /** When a message is accepted, and what the receiver answers and keeps. */
  lemma AppendDecision(p: Peer, a: AppendArgs)
    ensures var (p', r) := AppendEntries(p, a);
            && (r.success <==> a.term >= p.term && MatchesBefore(p.log, a))
            && r.term == p'.term == (if a.term > p.term then a.term else p.term)
            && p'.votedFor == p.votedFor && p'.lastApplied == p.lastApplied && p'.me == p.me
            && p'.nextIndex == p.nextIndex && p'.matchIndex == p.matchIndex
            && (a.term < p.term ==> p' == p)
            && (a.term >= p.term ==> p'.role == Follower)
            && (a.term >= p.term ==> p'.disk == Some(Saved(Follower, a.term, p.votedFor, p'.log)))
            && (!r.success ==> p'.commitIndex == p.commitIndex)
            && (a.term >= p.term && a.prevLogIndex >= |p.log| ==> p'.log == p.log)
            && (a.term >= p.term && a.prevLogIndex < |p.log| && !r.success ==> p'.log == p.log[..a.prevLogIndex])
  {
    hide FirstOfTerm;
  }

  /**
  What a rejection in a run reports: the length of a log that is too short, or the term of the
  conflicting entry and the first index of that term.
  */
  lemma RejectionReports(run: seq<Cluster>, steps: seq<Step>, i: nat)
    requires IsTimelyRun(run, steps) && i < |steps| && steps[i].GetAppend?
    requires steps[i].aargs.term >= run[i].nodes[steps[i].s].peer.term
    ensures var p, a := run[i].nodes[steps[i].s].peer, steps[i].aargs;
            var r := AppendEntries(p, a).1;
            && (a.prevLogIndex >= |p.log| ==> !r.success && r.xLen == |p.log|)
            && (a.prevLogIndex < |p.log| && p.log[a.prevLogIndex].term != a.prevLogTerm ==>
                  && !r.success
                  && r.xLen == -1
                  && r.xTerm == p.log[a.prevLogIndex].term
                  && 1 <= r.xIndex <= a.prevLogIndex
                  && p.log[r.xIndex].term == r.xTerm
                  && forall x :: 0 <= x < r.xIndex ==> p.log[x].term < r.xTerm)
  {
    hide IsTimelyRun;
    StepOfRun(run, steps, i);
    var s, a := steps[i].s, steps[i].aargs;
    var p := run[i].nodes[s].peer;
    if a.prevLogIndex < |p.log| && p.log[a.prevLogIndex].term != a.prevLogTerm {
      var xTerm := p.log[a.prevLogIndex].term;
      SentinelDiffers(run, steps, i, s, a);
      TermsNeverDecrease(run, steps, i, s, 0, 0);
      forall j | a.prevLogIndex <= j < |p.log|
        ensures p.log[j].term >= xTerm
      {
        TermsNeverDecrease(run, steps, i, s, a.prevLogIndex, j);
      }
      FirstOfTermIs(p.log, |p.log| - 1, xTerm, a.prevLogIndex);
      var x := FirstOfTerm(p.log, |p.log| - 1, xTerm);
      TermsNeverDecrease(run, steps, i, s, x, a.prevLogIndex);
      forall y | 0 <= y < x
        ensures p.log[y].term < xTerm
      {
        TermsNeverDecrease(run, steps, i, s, y, x - 1);
      }
    }
  }

  lemma StepOfRun(run: seq<Cluster>, steps: seq<Step>, i: nat)
    requires IsTimelyRun(run, steps) && i < |steps|
    ensures |run| == |steps| + 1 && Enabled(run[i], steps[i]) && run[i + 1] == Do(run[i], steps[i])
  {
  }

  /** A conflict is not at the sentinel: messages and logs agree there. */
  lemma SentinelDiffers(run: seq<Cluster>, steps: seq<Step>, i: nat, s: nat, a: AppendArgs)
    requires IsTimelyRun(run, steps) && i < |run| && s < |run[i].nodes| && AppReq(s, a) in run[i].net
    requires a.prevLogIndex < |run[i].nodes[s].peer.log|
    requires run[i].nodes[s].peer.log[a.prevLogIndex].term != a.prevLogTerm
    ensures a.prevLogIndex > 0 && run[i].nodes[s].peer.log[a.prevLogIndex].term > 0
  {
    hide CoreInv, NodeOk;
    var hs := Histories(run, steps);
    assert Inv(run[i], hs[i]);
    assert MsgOk(|run[i].nodes|, hs[i], AppReq(s, a));
    LogsOfMessage(run[i], hs[i], s, a.term);
    var log := run[i].nodes[s].peer.log;
    if a.prevLogIndex > 0 {
      assert EntryOk(hs[i].reigns, log, a.prevLogIndex);
      LogsOfMessage(run[i], hs[i], s, log[a.prevLogIndex].term);
    }
  }

  // ---------- Replication: the leader ----------

  /** What a request carries: the captured end of the log from the probe on, and what stands before it. */
  lemma RequestCarries(p: Peer, i: nat, logLen: nat, commit: nat)
    requires i < |p.nextIndex| && 1 <= p.nextIndex[i] <= |p.log| && logLen <= |p.log|
    ensures var a, next := AppendRequest(p, i, logLen, commit), p.nextIndex[i];
            && a.term == p.term && a.leaderId == p.me && a.leaderCommit == commit
            && a.prevLogIndex == next - 1 && MatchesBefore(p.log, a)
            && p.log[..next] + a.entries == p.log[..if next < logLen then logLen else next]
  {
  }

  /** The answer is one to the latest probe of a leader that is still in the term of the round. */
  predicate Counts(node: Node, b: nat, i: nat)
    requires b < |node.beats| && i < |node.beats[b].tasks| && node.beats[b].tasks[i].Waiting?
    requires i < |node.peer.nextIndex|
  {
    Current(node, node.beats[b]) && node.peer.nextIndex[i] == node.beats[b].tasks[i].args.prevLogIndex + 1
  }

  /** Only the peer's task changes in the round, to `task`, and whoever counts as a replica. */
  predicate TaskEnds(node: Node, node': Node, b: nat, i: nat, task: Task, acked: set<nat>)
    requires b < |node.beats| && i < |node.beats[b].tasks|
  {
    node' == node.(peer := node'.peer, beats := node.beats[b := node.beats[b].(
                     tasks := node.beats[b].tasks[i := task], acked := acked)])
  }

  /** What a leader does with an answer. */
  lemma AppendAnswerDecision(node: Node, b: nat, i: nat, rep: AppendReply, n: nat)
    requires b < |node.beats| && i < |node.beats[b].tasks| && node.beats[b].tasks[i].Waiting?
    requires i < |node.peer.nextIndex| && i < |node.peer.matchIndex|
    ensures var p, beat, a := node.peer, node.beats[b], node.beats[b].tasks[i].args;
            var node' := AppendAnswered(node, b, i, rep, n);
            var p' := node'.peer;
            // an obsolete answer only ends the goroutine
            && (!Counts(node, b, i) ==> p' == p && TaskEnds(node, node', b, i, Done, beat.acked))
            // a receiver in a later term ends the leadership
            && (Counts(node, b, i) && !rep.success && rep.term > p.term ==>
                  p' == Persist(p.(term := rep.term, role := Follower)) &&
                      TaskEnds(node, node', b, i, Done, beat.acked))
            // a rejection moves the probe of this peer, and the goroutine goes on
            && (Counts(node, b, i) && !rep.success && rep.term <= p.term ==>
                  && TaskEnds(node, node', b, i, Ready, beat.acked)
                  && p' == p.(nextIndex := p.nextIndex[i := p'.nextIndex[i]])
                  && BacksUp(p.log, rep, p'.nextIndex[i]))
            // a success counts the peer, which is now known to match as far as the message went
            && (Counts(node, b, i) && rep.success ==>
                  && TaskEnds(node, node', b, i, Done, beat.acked + {i})
                  && p'.matchIndex == p.matchIndex[i := a.prevLogIndex + |a.entries|]
                  && p'.nextIndex == p.nextIndex[i := p'.matchIndex[i] + 1]
                  && p' == p.(matchIndex := p'.matchIndex, nextIndex := p'.nextIndex, commitIndex := p'.commitIndex)
                  && CommitsTo(beat, n, beat.acked + {i}, p.commitIndex, p'.commitIndex))
  {
    hide BacksUp, LastOfTerm;
    BackupIs(node.peer.log, rep);
  }

  /** The commit rule: the captured log, if it ends in the leader's term and a majority holds it. */
  predicate CommitsTo(beat: Beat, n: nat, acked: set<nat>, before: nat, after: nat) {
    var all := beat.logLen - 1;
    if beat.changeCommit && 2 * (1 + |acked|) > n && all > before then after == all else after == before
  }

  /** A failed call is tried again by a goroutine that is not obsolete. */
  lemma FailureDecision(node: Node, b: nat, i: nat)
    requires b < |node.beats| && i < |node.beats[b].tasks| && node.beats[b].tasks[i].Waiting?
    requires i < |node.peer.nextIndex|
    ensures var node' := AppendFailed(node, b, i);
            && node'.peer == node.peer
            && TaskEnds(node, node', b, i, if Counts(node, b, i) then Ready else Done, node.beats[b].acked)
  {
  }

  /** While the leader is in the term of a round, its log still begins with what the round captured. */
  lemma BeatCaptures(run: seq<Cluster>, steps: seq<Step>, i: nat, s: nat, b: nat)
    requires IsTimelyRun(run, steps) && i < |run| && s < |run[i].nodes| && b < |run[i].nodes[s].beats|
    requires Current(run[i].nodes[s], run[i].nodes[s].beats[b])
    ensures var p, beat := run[i].nodes[s].peer, run[i].nodes[s].beats[b];
            && 1 <= beat.logLen <= |p.log|
            && (beat.changeCommit <==> p.log[beat.logLen - 1].term == p.term)
            && s !in beat.acked && (forall q :: q in beat.acked ==> q < |run[i].nodes|)
            && |beat.tasks| == |run[i].nodes|
            && (forall q :: 0 <= q < |beat.tasks| && beat.tasks[q].Waiting? ==>
                  && q != s
                  && q !in beat.acked
                  && beat.tasks[q].args.prevLogIndex + |beat.tasks[q].args.entries| + 1 >= beat.logLen)
  {
    hide CoreInv, RoundOk, MsgOk, ArgsOk;
    var hs := Histories(run, steps);
    var c, h := run[i], hs[i];
    var node := c.nodes[s];
    assert Inv(c, h);
    assert NodeOk(|c.nodes|, c.net, h, s, node);
    assert BeatOk(|c.nodes|, h, s, node.peer, node.beats[b]);
    assert RoleOk(h, s, node.peer);
    forall q | 0 <= q < |node.beats[b].tasks|
      ensures TaskOk(|c.nodes|, h, s, node.beats[b], q, node.beats[b].tasks[q])
    {
    }
  }

  /** The leader has counted the answer of `x` in its round `b`. */
  ghost predicate FollowsRule(n: nat, s: nat, x: nat, beat: Beat, p: Peer, p': Peer) {
    var holders := beat.acked + {x, s};
    && 1 <= beat.logLen <= |p.log|
    && x < |p'.matchIndex|
    && p'.matchIndex[x] + 1 >= beat.logLen
    && (IsQuorum(n, holders) && p.log[beat.logLen - 1].term == p.term ==> p'.commitIndex >= beat.logLen - 1)
    && (p'.commitIndex != p.commitIndex ==>
          && IsQuorum(n, holders)
          && p'.commitIndex == beat.logLen - 1 > p.commitIndex
          && p.log[p'.commitIndex].term == p.term)
  }

  /**
  In a run a leader commits the captured log as soon as the peers that have answered the round and
  the leader itself are a majority, if the log ends in its term; the peer that answered then holds
  the whole captured log.
  */
  lemma CommitRule(run: seq<Cluster>, steps: seq<Step>, i: nat)
    requires IsTimelyRun(run, steps) && i < |steps| && steps[i].EndAppend? && steps[i].areply.success
    requires Counts(run[i].nodes[steps[i].s], steps[i].b, steps[i].i)
    ensures |run| == |steps| + 1 && |run[i + 1].nodes| == |run[i].nodes|
    ensures var s, step := steps[i].s, steps[i];
            FollowsRule(
              |run[i].nodes|, s, step.i, run[i].nodes[s].beats[step.b], run[i].nodes[s].peer, run[i + 1].nodes[s].peer)
  {
    StepOfRun(run, steps, i);
    hide AppendAnswered, IsTimelyRun;
    var c, step := run[i], steps[i];
    var node := c.nodes[step.s];
    var beat := node.beats[step.b];
    AppendAnswerDecision(node, step.b, step.i, step.areply, |c.nodes|);
    BeatCaptures(run, steps, i, step.s, step.b);
    var acked := beat.acked + {step.i};
    assert beat.acked + {step.i, step.s} == acked + {step.s};
    assert |acked + {step.s}| == 1 + |acked|;
  }
}
