/**
What the scheduling assumption on elections protects. In every cluster of three servers or more,
two leaders of one term can both commit an entry at the same index through the same followers, and
servers then apply different commands.
*/
module RaftSplit {
  import opened RaftTypes
  import opened RaftPeer
  import opened RaftCluster
  import opened RaftSafety
  import opened RaftLateVote

  /** Servers 1 to `Enough(n)` are in term 3 and have at most one entry. */
  ghost predicate Followers(c: Cluster) {
    forall q :: 1 <= q <= Enough(|c.nodes|) && q < |c.nodes| ==> Follows(c.nodes[q].peer)
  }

  predicate Follows(p: Peer) {
    p.term == 3 && 1 <= |p.log| <= 2 && p.log[0] == SENTINEL
  }

  /** Only server `s` and the followers have moved. */
  ghost predicate OthersStay(c: Cluster, c': Cluster, s: nat) {
    && |c'.nodes| == |c.nodes|
    && forall q :: 0 <= q < |c.nodes| && q != s && !(1 <= q <= Enough(|c.nodes|)) ==> c'.nodes[q] == c.nodes[q]
  }

  function Entries(command: Command): Log {
    [LogEntry(command, 3)]
  }

  function Message(s: nat, command: Command): AppendArgs {
    AppendArgs(3, s, 0, 0, Entries(command), 0)
  }

  /** Leader `s` has spread its first entry to servers 1 to `j` in its first heartbeat round. */
  ghost predicate Spread(c: Cluster, s: nat, command: Command, j: nat) {
    var n := |c.nodes|;
    && n >= 3
    && s < n
    && !(1 <= s <= Enough(n))
    && j <= Enough(n)
    && c.nodes[s].output == []
    && PeerSpread(c.nodes[s].peer, s, n, command, j)
    && |c.nodes[s].beats| == 1
    && BeatSpread(c.nodes[s].beats[0], n, j)
    && Followers(c)
  }

  ghost predicate PeerSpread(p: Peer, s: nat, n: nat, command: Command, j: nat) {
    && p.me == s
    && p.role == Leader
    && p.term == 3
    && p.log == [SENTINEL] + Entries(command)
    && |p.nextIndex| == |p.matchIndex| == n
    && (forall q :: j < q < n ==> p.nextIndex[q] == 1)
    && p.commitIndex == (if j == Enough(n) then 1 else 0)
    && p.lastApplied == 0
  }

  ghost predicate BeatSpread(b: Beat, n: nat, j: nat) {
    && b.term == 3
    && b.logLen == 2
    && b.changeCommit
    && b.commit == 0
    && |b.tasks| == n
    && (forall q :: j < q <= Enough(n) ==> b.tasks[q] == Ready)
    && |b.acked| == j
    && (forall q :: q in b.acked ==> 1 <= q <= j)
  }

  // ---------- One follower ----------

  /** The goroutine for server `q` sends the entry. */
  lemma SendsTo(c: Cluster, s: nat, command: Command, q: nat)
    requires 1 <= q <= Enough(|c.nodes|) && Spread(c, s, command, q - 1)
    ensures var step := SendAppend(s, 0, q);
            && Enabled(c, step)
            && var c' := Do(c, step);
               && c'.nodes == c.nodes[s := SetTask(c.nodes[s], 0, q, Waiting(Message(s, command)))]
               && AppReq(q, Message(s, command)) in c'.net
  {
    var p, beat := c.nodes[s].peer, c.nodes[s].beats[0];
    assert p.nextIndex[q] == 1 && beat.tasks[q] == Ready;
    assert p.log[1..2] == Entries(command);
    assert AppendRequest(p, q, beat.logLen, beat.commit) == Message(s, command);
  }

  /** Server `q` takes the entry, in the place of another one of the same term if it has one. */
  lemma TakenBy(c: Cluster, s: nat, command: Command, q: nat)
    requires q < |c.nodes| && AppReq(q, Message(s, command)) in c.net && Follows(c.nodes[q].peer)
    ensures var step := GetAppend(q, Message(s, command));
            && Enabled(c, step)
            && var c' := Do(c, step);
               && |c'.nodes| == |c.nodes| && Follows(c'.nodes[q].peer)
               && (forall x :: 0 <= x < |c.nodes| && x != q ==> c'.nodes[x] == c.nodes[x])
               && AppRep(q, Message(s, command), AppendReply(3, true, -1, 0, 0)) in c'.net
  {
    hide FirstOfTerm;
    var p := c.nodes[q].peer;
    assert Merge(p.log, 0, Entries(command)) == p.log[..1] + Entries(command);
  }

  /** The leader counts the answer, and commits with the last one that it needs. */
  lemma Counted(c: Cluster, c2: Cluster, s: nat, command: Command, q: nat)
    requires 1 <= q <= Enough(|c.nodes|) && Spread(c, s, command, q - 1)
    requires |c2.nodes| == |c.nodes| && c2.nodes[s] == SetTask(c.nodes[s], 0, q, Waiting(Message(s, command)))
    requires Followers(c2)
    requires AppRep(q, Message(s, command), AppendReply(3, true, -1, 0, 0)) in c2.net
    ensures var step := EndAppend(s, 0, q, AppendReply(3, true, -1, 0, 0));
            && Enabled(c2, step)
            && Spread(Do(c2, step), s, command, q)
            && |Do(c2, step).nodes| == |c2.nodes|
            && forall x :: 0 <= x < |c2.nodes| && x != s ==> Do(c2, step).nodes[x] == c2.nodes[x]
  {
    var n, node, node2 := |c.nodes|, c.nodes[s], c2.nodes[s];
    var acked := node.beats[0].acked;
    assert node2.beats[0].tasks[q] == Waiting(Message(s, command)) && node2.beats[0].acked == acked;
    assert q !in acked && |acked + {q}| == q;
    assert node2.peer.nextIndex[q] == 1;
    assert 2 * (1 + q) > n <==> q == Enough(n);
  }

  lemma SpreadOne(
    run: seq<Cluster>, steps: seq<Step>, s: nat, command: Command, q: nat)
    returns (run': seq<Cluster>, steps': seq<Step>)
    requires IsRun(run, steps) && |run| > 0 && 1 <= q <= Enough(|Last(run).nodes|)
    requires Spread(Last(run), s, command, q - 1)
    ensures IsRun(run', steps') && |run'| > 0 && Spread(Last(run'), s, command, q)
    ensures OthersStay(Last(run), Last(run'), s)
  {
    hide IsRun, Do, Enabled, Message, PeerSpread, BeatSpread, Follows, SetTask;
    var c := Last(run);
    var a, rep := Message(s, command), AppendReply(3, true, -1, 0, 0);
    var send, get, end := SendAppend(s, 0, q), GetAppend(q, a), EndAppend(s, 0, q, rep);
    SendsTo(c, s, command, q);
    TakeStep(run, steps, send);
    var c1 := Do(c, send);
    run', steps' := run + [c1], steps + [send];
    TakenBy(c1, s, command, q);
    TakeStep(run', steps', get);
    var c2 := Do(c1, get);
    run', steps' := run' + [c2], steps' + [get];
    Counted(c, c2, s, command, q);
    TakeStep(run', steps', end);
    run', steps' := run' + [Do(c2, end)], steps' + [end];
  }

  lemma {:induction false} SpreadAll(
    run: seq<Cluster>, steps: seq<Step>, s: nat, command: Command, j: nat)
    returns (run': seq<Cluster>, steps': seq<Step>)
    requires IsRun(run, steps) && |run| > 0 && Spread(Last(run), s, command, 0) && j <= Enough(|Last(run).nodes|)
    ensures IsRun(run', steps') && |run'| > 0 && Spread(Last(run'), s, command, j)
    ensures OthersStay(Last(run), Last(run'), s)
    decreases j
  {
    hide IsRun, Spread;
    if j == 0 {
      run', steps' := run, steps;
    } else {
      var run1, steps1 := SpreadAll(run, steps, s, command, j - 1);
      run', steps' := SpreadOne(run1, steps1, s, command, j);
    }
  }

  // ---------- A leader ----------

  lemma StartsToSpread(c: Cluster, s: nat, command: Command)
    requires NewLeader(c, s) && |c.nodes| >= 3 && !(1 <= s <= Enough(|c.nodes|)) && Followers(c)
    ensures Enabled(c, Submit(s, command))
    ensures var c1 := Do(c, Submit(s, command));
            && Enabled(c1, StartBeat(s))
            && Spread(Do(c1, StartBeat(s)), s, command, 0) && OthersStay(c, Do(c1, StartBeat(s)), s)
  {
    var c1 := Do(c, Submit(s, command));
    assert c1.nodes[s].peer.log == [SENTINEL] + Entries(command);
    var c2 := Do(c1, StartBeat(s));
    assert |c2.nodes[s].beats| == 1;
  }

  lemma AppliesFirst(c: Cluster, s: nat, command: Command)
    requires Spread(c, s, command, Enough(|c.nodes|))
    ensures Enabled(c, ApplyOne(s))
    ensures var c' := Do(c, ApplyOne(s));
            && c'.nodes[s].output == [ApplyMsg(1, command)]
            && Followers(c') && OthersStay(c, c', s)
  {
  }

  /** A leader of term 3 takes a command, commits it with the votes of its followers and applies it. */
  lemma Applies(
    run: seq<Cluster>, steps: seq<Step>, s: nat, command: Command)
    returns (run': seq<Cluster>, steps': seq<Step>)
    requires IsRun(run, steps) && |run| > 0
    requires var c := Last(run); NewLeader(c, s) && |c.nodes| >= 3 && !(1 <= s <= Enough(|c.nodes|)) && Followers(c)
    ensures IsRun(run', steps') && |run'| > 0 && OthersStay(Last(run), Last(run'), s)
    ensures s < |Last(run').nodes| && Last(run').nodes[s].output == [ApplyMsg(1, command)] && Followers(Last(run'))
  {
    hide IsRun, Do, Enabled, Spread, Followers;
    var c := Last(run);
    StartsToSpread(c, s, command);
    TakeStep(run, steps, Submit(s, command));
    var c1 := Do(c, Submit(s, command));
    run', steps' := run + [c1], steps + [Submit(s, command)];
    TakeStep(run', steps', StartBeat(s));
    run', steps' := run' + [Do(c1, StartBeat(s))], steps' + [StartBeat(s)];
    run', steps' := SpreadAll(run', steps', s, command, Enough(|c.nodes|));
    var c3 := Last(run');
    AppliesFirst(c3, s, command);
    TakeStep(run', steps', ApplyOne(s));
    run', steps' := run' + [Do(c3, ApplyOne(s))], steps' + [ApplyOne(s)];
  }

  // ---------- The exact condition ----------

  /**
  In every cluster of three servers or more, for any two commands, a run in which they are
  applied at the same index.
  */
  lemma SplitBrain(n: nat, one: Command, other: Command) returns (run: seq<Cluster>, steps: seq<Step>)
    requires n >= 3
    ensures IsRun(run, steps) && |run| > 0
    ensures var c := Last(run);
            && |c.nodes| == n
            && c.nodes[0].output == [ApplyMsg(1, one)]
            && c.nodes[n - 1].output == [ApplyMsg(1, other)]
  {
    hide IsRun;
    run, steps := TwoLeadersInOneTerm(n);
    run, steps := Applies(run, steps, 0, one);
    run, steps := Applies(run, steps, n - 1, other);
  }

  /** No two servers, at any two times, apply different commands at one index. */
  ghost predicate Agree(run: seq<Cluster>) {
    forall i, j, a, b, x :: 0 <= i <= j < |run| && AppliedAt(run[i], a, x) && AppliedAt(run[j], b, x) ==>
      run[i].nodes[a].output[x] == run[j].nodes[b].output[x]
  }

  ghost predicate AppliedAt(c: Cluster, a: int, x: int) {
    0 <= a < |c.nodes| && 0 <= x < |c.nodes[a].output|
  }

  ghost predicate AlwaysAgree(n: nat) {
    forall run: seq<Cluster>, steps: seq<Step> :: IsRun(run, steps) && |run[0].nodes| == n ==> Agree(run)
  }

  /** Timely runs agree on what is applied; all runs of `n` servers do exactly when `n` is at most two. */
  lemma AgreementExactly(n: nat)
    ensures AlwaysAgree(n) <==> n <= 2
    ensures forall run, steps :: IsTimelyRun(run, steps) ==> Agree(run)
  {
    forall run, steps | IsTimelyRun(run, steps)
      ensures Agree(run)
    {
      TimelyRunAgrees(run, steps);
    }
    if n <= 2 {
      forall run: seq<Cluster>, steps: seq<Step> | IsRun(run, steps) && |run[0].nodes| == n
        ensures Agree(run)
      {
        SmallIsTimely(run, steps);
      }
    } else {
      var op := Op(Get, "", "", 0, 0);
      var run, steps := SplitBrain(n, NoCommand, Submitted(op));
      Disagrees(run, steps, n, NoCommand, Submitted(op));
    }
  }

  lemma TimelyRunAgrees(run: seq<Cluster>, steps: seq<Step>)
    requires IsTimelyRun(run, steps)
    ensures Agree(run)
  {
    hide IsTimelyRun;
    forall i, j, a, b, x | 0 <= i <= j < |run| && AppliedAt(run[i], a, x) && AppliedAt(run[j], b, x)
      ensures run[i].nodes[a].output[x] == run[j].nodes[b].output[x]
    {
      StateMachineSafety(run, steps, i, j, a, b, x);
    }
  }

  lemma Disagrees(run: seq<Cluster>, steps: seq<Step>, n: nat, one: Command, other: Command)
    requires n >= 3 && IsRun(run, steps) && |run| > 0 && one != other
    requires var c := Last(run);
             |c.nodes| == n && c.nodes[0].output == [ApplyMsg(1, one)] && c.nodes[n - 1].output == [ApplyMsg(1, other)]
    ensures !AlwaysAgree(n)
  {
    hide Do, Enabled, Init;
    var m := |run| - 1;
    SameSize(run, steps, m);
    assert AppliedAt(run[m], 0, 0) && AppliedAt(run[m], n - 1, 0);
    assert !Agree(run);
  }
}
