/**
Why the scheduling assumption on elections is needed. A goroutine of an old election round that
runs in a later term compares the count of the old round with the majority. In every cluster of
three servers or more this can make a server leader with no vote but its own, next to the leader
of that term that a majority elected.
*/
module RaftLateVote {
  import opened RaftTypes
  import opened RaftPeer
  import opened RaftCluster
  import opened RaftSafety

  function Last(run: seq<Cluster>): Cluster
    requires |run| > 0
  {
    run[|run| - 1]
  }

  lemma TakeStep(run: seq<Cluster>, steps: seq<Step>, step: Step)
    requires IsRun(run, steps) && Enabled(Last(run), step)
    ensures IsRun(run + [Do(Last(run), step)], steps + [step])
  {
    hide Do, Enabled, Init;
    var run', steps' := run + [Do(Last(run), step)], steps + [step];
    forall i | 0 <= i < |steps'|
      ensures Enabled(run'[i], steps'[i]) && run'[i + 1] == Do(run'[i], steps'[i])
    {
      if i < |steps| {
        assert run'[i] == run[i] && steps'[i] == steps[i] && run'[i + 1] == run[i + 1];
      }
    }
  }

  /** A peer of a cluster of `n` with nothing in its log. */
  predicate FreshPeer(p: Peer, s: nat, n: nat) {
    p.me == s && p.log == [SENTINEL] && p.commitIndex == p.lastApplied == 0 && |p.nextIndex| == |p.matchIndex| == n
  }

  /** The process has sent no heartbeat and applied nothing. */
  predicate Idle(node: Node) {
    node.beats == [] && node.output == []
  }

  /** A server times out and starts an election round. */
  lemma TimeOut(run: seq<Cluster>, steps: seq<Step>, s: nat) returns (run': seq<Cluster>, steps': seq<Step>)
    requires IsRun(run, steps) && s < |Last(run).nodes| && Last(run).nodes[s].peer.role != Leader
    ensures IsRun(run', steps') && |run'| > 0
    ensures var c, c' := Last(run), Last(run');
            var node := c.nodes[s];
            && c'.nodes == c.nodes[s := node.(
                 peer := BecomeCandidate(node.peer),
                 rounds := node.rounds + [VoteRound(node.peer.term + 1, Others(|c.nodes|, node.peer.me), map[], {})])]
  {
    var step := Elect(s);
    TakeStep(run, steps, step);
    run', steps' := run + [Do(Last(run), step)], steps + [step];
  }

  /** The goroutine of round `r` for peer `i` asks for a vote, and `i` grants it for the current term. */
  lemma AskVote(
    run: seq<Cluster>, steps: seq<Step>, s: nat, r: nat, i: nat)
    returns (run': seq<Cluster>, steps': seq<Step>)
    requires IsRun(run, steps) && |run| > 0
    requires var c := Last(run);
             && s < |c.nodes| && i < |c.nodes| && s != i
             && r < |c.nodes[s].rounds| && i in c.nodes[s].rounds[r].todo
             && FreshPeer(c.nodes[s].peer, s, |c.nodes|) && FreshPeer(c.nodes[i].peer, i, |c.nodes|)
             && c.nodes[i].peer.term < c.nodes[s].peer.term
    ensures IsRun(run', steps') && |run'| > 0
    ensures var c, c' := Last(run), Last(run');
            var node, voter, round := c.nodes[s], c.nodes[i].peer, c.nodes[s].rounds[r];
            var round' := round.(todo := round.todo - {i}, waiting := round.waiting[i := VoteRequest(node.peer)]);
            var voter' := Persist(voter.(term := node.peer.term, votedFor := s, role := Follower));
            && c'.nodes == c.nodes[i := c.nodes[i].(peer := voter')][s := node.(rounds := node.rounds[r := round'])]
            && VoteRep(i, VoteRequest(node.peer), VoteReply(node.peer.term, true)) in c'.net
  {
    var c := Last(run);
    hide IsRun;
    var node := c.nodes[s];
    var a := VoteRequest(node.peer);
    var send, get := SendVote(s, r, i), GetVote(i, a);
    TakeStep(run, steps, send);
    var c1 := Do(c, send);
    var run1, steps1 := run + [c1], steps + [send];
    TakeStep(run1, steps1, get);
    var c2 := Do(c1, get);
    run', steps' := run1 + [c2], steps1 + [get];
    var voter' := Persist(c.nodes[i].peer.(term := node.peer.term, votedFor := s, role := Follower));
    assert c2.nodes[i] == c.nodes[i].(peer := voter');
    assert c2.nodes == c.nodes[i := c2.nodes[i]][s := c2.nodes[s]];
  }

  /** The same, and the answer is counted. */
  lemma CollectVote(
    run: seq<Cluster>, steps: seq<Step>, s: nat, r: nat, i: nat)
    returns (run': seq<Cluster>, steps': seq<Step>)
    requires IsRun(run, steps) && |run| > 0
    requires var c := Last(run);
             && s < |c.nodes| && i < |c.nodes| && s != i
             && r < |c.nodes[s].rounds| && i in c.nodes[s].rounds[r].todo && c.nodes[s].rounds[r].waiting == map[]
             && FreshPeer(c.nodes[s].peer, s, |c.nodes|) && FreshPeer(c.nodes[i].peer, i, |c.nodes|)
             && c.nodes[s].peer.role == Candidate && c.nodes[i].peer.term < c.nodes[s].peer.term
    ensures IsRun(run', steps') && |run'| > 0
    ensures var c, c' := Last(run), Last(run');
            var node, voter := c.nodes[s], c.nodes[i].peer;
            var round := node.rounds[r];
            var round' := VoteRound(round.term, round.todo - {i}, map[], round.granted + {i});
            var p' := if 2 * (1 + |round'.granted|) > |c.nodes| then BecomeLeader(node.peer) else node.peer;
            var voter' := Persist(voter.(term := node.peer.term, votedFor := s, role := Follower));
            var node' := node.(peer := p', rounds := node.rounds[r := round']);
            c'.nodes == c.nodes[i := c.nodes[i].(peer := voter')][s := node']
  {
    hide IsRun, RequestVote;
    var c := Last(run);
    var node := c.nodes[s];
    var a := VoteRequest(node.peer);
    run', steps' := AskVote(run, steps, s, r, i);
    var c2 := Last(run');
    var waiting := c2.nodes[s].rounds[r].waiting;
    assert waiting == map[i := a];
    assert waiting - {i} == map[];
    var end := EndVote(s, r, i, VoteReply(node.peer.term, true));
    TakeStep(run', steps', end);
    var c3 := Do(c2, end);
    run', steps' := run' + [c3], steps' + [end];
    var round := node.rounds[r];
    var round' := VoteRound(round.term, round.todo - {i}, map[], round.granted + {i});
    assert c3.nodes[s].rounds == node.rounds[r := round'];
    assert c3.nodes == c.nodes[i := c2.nodes[i]][s := c3.nodes[s]];
  }

  /** The votes that make a majority together with the candidate's own. */
  function Enough(n: nat): nat {
    n / 2
  }

  /** Server `s` asks servers 1 to `j` in round `r` and all grant their votes. */
  ghost predicate Collected(c: Cluster, c': Cluster, s: nat, r: nat, j: nat)
    requires s < |c.nodes| && r < |c.nodes[s].rounds|
  {
    && j < |c'.nodes| == |c.nodes|
    && |c'.nodes[s].rounds| == |c.nodes[s].rounds|
    && c'.nodes[s].beats == c.nodes[s].beats
    && c'.nodes[s].output == c.nodes[s].output
    && c'.nodes[s].peer == (if j == Enough(|c.nodes|) then BecomeLeader(c.nodes[s].peer) else c.nodes[s].peer)
    && (var round, round' := c.nodes[s].rounds[r], c'.nodes[s].rounds[r];
        && round'.waiting == map[]
        && (forall i :: i in round'.todo <==> i in round.todo && !(1 <= i <= j))
        && |round'.granted| == j
        && (forall i :: i in round'.granted ==> 1 <= i <= j))
    && (forall q :: 0 <= q < |c.nodes| && q != s && !(1 <= q <= j) ==> c'.nodes[q] == c.nodes[q])
    && (forall q :: 1 <= q <= j ==>
          FreshPeer(c'.nodes[q].peer, q, |c'.nodes|) && c'.nodes[q].peer.term == c.nodes[s].peer.term)
  }

  /** Server `s` can collect the votes of servers 1 to `Enough(n)` in round `r`. */
  ghost predicate Ready(c: Cluster, s: nat, r: nat) {
    var n := |c.nodes|;
    && n >= 3
    && s < n
    && !(1 <= s <= Enough(n))
    && r < |c.nodes[s].rounds|
    && c.nodes[s].rounds[r].waiting == map[]
    && c.nodes[s].rounds[r].granted == {}
    && c.nodes[s].peer.role == Candidate
    && FreshPeer(c.nodes[s].peer, s, |c.nodes|)
    && forall q :: 1 <= q <= Enough(n) ==>
      && q in c.nodes[s].rounds[r].todo
      && FreshPeer(c.nodes[q].peer, q, |c.nodes|)
      && c.nodes[q].peer.term < c.nodes[s].peer.term
  }

  lemma {:induction false} CollectVotes(
    run: seq<Cluster>, steps: seq<Step>, s: nat, r: nat, j: nat)
    returns (run': seq<Cluster>, steps': seq<Step>)
    requires IsRun(run, steps) && |run| > 0 && Ready(Last(run), s, r) && j <= Enough(|Last(run).nodes|)
    ensures IsRun(run', steps') && |run'| > 0 && Collected(Last(run), Last(run'), s, r, j)
    decreases j
  {
    hide IsRun, Do, Enabled, NodeAfter;
    if j == 0 {
      run', steps' := run, steps;
    } else {
      var run1, steps1 := CollectVotes(run, steps, s, r, j - 1);
      var c, c1 := Last(run), Last(run1);
      assert c1.nodes[j] == c.nodes[j];
      run', steps' := CollectVote(run1, steps1, s, r, j);
      OneMore(c, c1, Last(run'), s, r, j);
    }
  }

  lemma OneMore(c: Cluster, c1: Cluster, c2: Cluster, s: nat, r: nat, j: nat)
    requires Ready(c, s, r) && 1 <= j <= Enough(|c.nodes|) && Collected(c, c1, s, r, j - 1)
    requires var node, voter, n := c1.nodes[s], c1.nodes[j].peer, |c.nodes|;
             var round := node.rounds[r];
             var round' := VoteRound(round.term, round.todo - {j}, map[], round.granted + {j});
             var p' := if 2 * (1 + |round'.granted|) > n then BecomeLeader(node.peer) else node.peer;
             var voter' := Persist(voter.(term := node.peer.term, votedFor := s, role := Follower));
             var node' := node.(peer := p', rounds := node.rounds[r := round']);
             c2.nodes == c1.nodes[j := c1.nodes[j].(peer := voter')][s := node']
    ensures Collected(c, c2, s, r, j)
  {
    var granted := c1.nodes[s].rounds[r].granted;
    assert j !in granted && |granted + {j}| == j;
    assert c1.nodes[j] == c.nodes[j];
  }

  /** No server but the first and the last is beyond term 1, and those that voted in it have empty logs. */
  ghost predicate Bystanders(c: Cluster) {
    var n := |c.nodes|;
    && (forall q :: 1 <= q < n - 1 ==> c.nodes[q].peer.term <= 1)
    && (forall q :: 1 <= q <= Enough(n) && q < n ==> FreshPeer(c.nodes[q].peer, q, |c.nodes|))
  }

  /** Server 0 becomes leader of term 1. */
  lemma FirstLeader(n: nat) returns (run: seq<Cluster>, steps: seq<Step>)
    requires n >= 3
    ensures IsRun(run, steps) && |run| > 0
    ensures var c, z := Last(run), n - 1;
            && |c.nodes| == n
            && c.nodes[0].peer.role == Leader && c.nodes[0].peer.term == 1 && FreshPeer(c.nodes[0].peer, 0, |c.nodes|)
            && |c.nodes[0].rounds| > 0 && OldRound(c.nodes[0].rounds[0], n) && Idle(c.nodes[0])
            && c.nodes[z] == Node(Boot(z, n, None), [], [], [])
            && Bystanders(c)
  {
    hide IsRun, Do, Enabled, NodeAfter;
    run, steps := StartOfRun(n);
    run, steps := TimeOut(run, steps, 0);
    var c := Last(run);
    assert c.nodes[0].rounds[0] == VoteRound(1, Others(n, 0), map[], {});
    run, steps := CollectVotes(run, steps, 0, 0, Enough(n));
  }

  /** A round that has counted a majority and has a goroutine for the last server left. */
  ghost predicate OldRound(round: VoteRound, n: nat) {
    n >= 3 && round.waiting == map[] && n - 1 in round.todo && |round.granted| == Enough(n) && n - 1 !in round.granted
  }

  lemma StartOfRun(n: nat) returns (run: seq<Cluster>, steps: seq<Step>)
    ensures IsRun(run, steps) && |run| > 0 && |Last(run).nodes| == n
    ensures forall s :: 0 <= s < n ==> Last(run).nodes[s] == Node(Boot(s, n, None), [], [], [])
  {
    var c := Cluster(seq(n, s requires 0 <= s => Node(Boot(s, n, None), [], [], [])), {});
    run, steps := [c], [];
  }

  /** The last server makes server 0 step down, and both campaign in term 3. */
  lemma Rivals(n: nat) returns (run: seq<Cluster>, steps: seq<Step>)
    requires n >= 3
    ensures IsRun(run, steps) && |run| > 0
    ensures var c, z := Last(run), n - 1;
            && |c.nodes| == n
            && c.nodes[0].peer.role == Candidate && c.nodes[0].peer.term == 3
            && FreshPeer(c.nodes[0].peer, 0, |c.nodes|)
            && |c.nodes[0].rounds| > 0 && OldRound(c.nodes[0].rounds[0], n)
            && Idle(c.nodes[0]) && Idle(c.nodes[z])
            && c.nodes[z].peer.role == Candidate && c.nodes[z].peer.term == 3
            && FreshPeer(c.nodes[z].peer, z, |c.nodes|)
            && c.nodes[z].peer.votedFor == z
            && |c.nodes[z].rounds| == 3 && c.nodes[z].rounds[2] == VoteRound(3, Others(n, z), map[], {})
            && Bystanders(c)
  {
    hide IsRun, Do, Enabled, NodeAfter;
    var z := n - 1;
    run, steps := FirstLeader(n);
    run, steps := TimeOut(run, steps, z);
    run, steps := TimeOut(run, steps, z);
    assert Last(run).nodes[z].rounds[1] == VoteRound(2, Others(n, z), map[], {});
    run, steps := AskVote(run, steps, z, 1, 0);
    run, steps := TimeOut(run, steps, 0);
    run, steps := TimeOut(run, steps, z);
  }

  /** Server `s` leads in term 3 with nothing in its log. */
  ghost predicate NewLeader(c: Cluster, s: nat) {
    && s < |c.nodes|
    && Idle(c.nodes[s])
    && var p := c.nodes[s].peer;
       && p.role == Leader
       && p.term == 3
       && FreshPeer(p, s, |c.nodes|)
       && forall i :: 0 <= i < |c.nodes| ==> p.nextIndex[i] == 1
  }

  /** The late goroutine is refused by the rival, and the count of the old round makes server 0 leader. */
  lemma LateWinner(n: nat) returns (run: seq<Cluster>, steps: seq<Step>)
    requires n >= 3
    ensures IsRun(run, steps) && |run| > 0
    ensures var c, z := Last(run), n - 1;
            && |c.nodes| == n
            && NewLeader(c, 0)
            && c.nodes[z].peer.term == 3 && Idle(c.nodes[z])
            && |c.nodes[z].rounds| == 3 && Ready(c, z, 2)
            && forall q :: 1 <= q < n ==> !(c.nodes[q].peer.term == 3 && c.nodes[q].peer.votedFor == 0)
  {
    run, steps := Rivals(n);
    var c, z := Last(run), n - 1;
    hide IsRun;
    var a := VoteRequest(c.nodes[0].peer);
    var rep := VoteReply(3, false);
    var send, get, end := SendVote(0, 0, z), GetVote(z, a), EndVote(0, 0, z, rep);
    TakeStep(run, steps, send);
    var c1 := Do(c, send);
    run, steps := run + [c1], steps + [send];
    assert RequestVote(c1.nodes[z].peer, a) == (c.nodes[z].peer, rep);
    TakeStep(run, steps, get);
    var c2 := Do(c1, get);
    run, steps := run + [c2], steps + [get];
    assert c2.nodes[0].rounds[0].waiting[z] == a;
    TakeStep(run, steps, end);
    run, steps := run + [Do(c2, end)], steps + [end];
  }

  /**
  In every cluster of three servers or more there is a run with two leaders in one term. Server 0
  leads in term 1, loses its office and campaigns in term 3, where a goroutine of its first round
  is refused by the last server and nevertheless finds a majority in the old count. The last
  server then collects a majority of votes of term 3.
  */
  lemma TwoLeadersInOneTerm(n: nat) returns (run: seq<Cluster>, steps: seq<Step>)
    requires n >= 3
    ensures IsRun(run, steps) && |run| > 0
    ensures var c := Last(run);
            && |c.nodes| == n
            && NewLeader(c, 0)
            && NewLeader(c, n - 1)
            && forall q :: 1 <= q <= Enough(n) ==> FreshPeer(c.nodes[q].peer, q, n) && c.nodes[q].peer.term == 3
  {
    hide IsRun, Do, Enabled, NodeAfter;
    run, steps := LateWinner(n);
    run, steps := CollectVotes(run, steps, n - 1, 2, Enough(n));
  }

  // ---------- The exact condition ----------

  /** At most one server is ever leader of a term. */
  ghost predicate OneLeaderPerTerm(run: seq<Cluster>) {
    forall i, j, a, b :: 0 <= i <= j < |run| && LeaderAt(run[i], a) && LeaderAt(run[j], b) ==>
      run[i].nodes[a].peer.term != run[j].nodes[b].peer.term || a == b
  }

  ghost predicate LeaderAt(c: Cluster, a: int) {
    0 <= a < |c.nodes| && c.nodes[a].peer.role == Leader
  }

  /** No run of a cluster of `n` servers, however its goroutines are scheduled, has two leaders in one term. */
  ghost predicate AlwaysOneLeader(n: nat) {
    forall run: seq<Cluster>, steps: seq<Step> :: IsRun(run, steps) && |run[0].nodes| == n ==> OneLeaderPerTerm(run)
  }

  /** With three servers or more the round that elects must be one of the current term; with less nothing is assumed. */
  lemma ElectionSafetyExactly(n: nat)
    ensures AlwaysOneLeader(n) <==> n <= 2
    ensures forall run, steps :: IsTimelyRun(run, steps) ==> OneLeaderPerTerm(run)
  {
    forall run, steps | IsTimelyRun(run, steps)
      ensures OneLeaderPerTerm(run)
    {
      TimelyRunIsSafe(run, steps);
    }
    if n <= 2 {
      forall run: seq<Cluster>, steps: seq<Step> | IsRun(run, steps) && |run[0].nodes| == n
        ensures OneLeaderPerTerm(run)
      {
        SmallIsTimely(run, steps);
      }
    } else {
      var run, steps := TwoLeadersInOneTerm(n);
      UnsafeRun(run, steps, n);
    }
  }

  lemma TimelyRunIsSafe(run: seq<Cluster>, steps: seq<Step>)
    requires IsTimelyRun(run, steps)
    ensures OneLeaderPerTerm(run)
  {
    hide IsTimelyRun;
    forall i, j, a, b | 0 <= i <= j < |run| && LeaderAt(run[i], a) && LeaderAt(run[j], b)
      && run[i].nodes[a].peer.term == run[j].nodes[b].peer.term
      ensures a == b
    {
      ElectionSafety(run, steps, i, j, a, b);
    }
  }

  /** With two servers or less every run is timely. */
  lemma SmallIsTimely(run: seq<Cluster>, steps: seq<Step>)
    requires IsRun(run, steps) && |run[0].nodes| <= 2
    ensures IsTimelyRun(run, steps)
  {
    forall i | 0 <= i < |steps|
      ensures OnTime(run[i], steps[i])
    {
      SameSize(run, steps, i);
    }
  }

  lemma UnsafeRun(run: seq<Cluster>, steps: seq<Step>, n: nat)
    requires n >= 3 && IsRun(run, steps) && |run| > 0
    requires var c := Last(run);
             && |c.nodes| == n
             && c.nodes[0].peer.role == Leader
             && c.nodes[n - 1].peer.role == Leader
             && c.nodes[0].peer.term == c.nodes[n - 1].peer.term
    ensures !AlwaysOneLeader(n)
  {
    hide Do, Enabled, Init;
    var m := |run| - 1;
    SameSize(run, steps, m);
    assert LeaderAt(run[m], 0) && LeaderAt(run[m], n - 1);
    assert !OneLeaderPerTerm(run);
  }
}
