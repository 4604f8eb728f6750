/**
A cluster of Raft peers as a state machine with one step per critical section of a peer's
lock. Messages are never removed from the network, so that each may be delivered late, out of
order, several times or not at all. A crash discards everything but the disk.
*/
module RaftCluster {
  import opened RaftTypes
  import opened RaftPeer

  /** One election round: goroutines not yet run, requests without an answer, votes counted. */
  datatype VoteRound = VoteRound(term: nat, todo: set<nat>, waiting: map<nat, VoteArgs>, granted: set<nat>)

  /** The goroutine of a heartbeat round that serves one peer. */
  datatype Task = Ready | Waiting(args: AppendArgs) | Done

  /** One heartbeat round with what it captured at its start. */
  datatype Beat = Beat(term: nat, logLen: nat, changeCommit: bool, commit: nat, tasks: seq<Task>, acked: set<nat>)

  /** A running process: its peer, its goroutines, and what it has sent on `applyCh`. */
  datatype Node = Node(peer: Peer, rounds: seq<VoteRound>, beats: seq<Beat>, output: seq<ApplyMsg>)

  datatype Msg =
    | VoteReq(to: nat, vargs: VoteArgs)
    | VoteRep(from: nat, vargs: VoteArgs, vreply: VoteReply)
    | AppReq(to: nat, aargs: AppendArgs)
    | AppRep(from: nat, aargs: AppendArgs, areply: AppendReply)

  datatype Cluster = Cluster(nodes: seq<Node>, net: set<Msg>)

  datatype Step =
    | Elect(s: nat)
    | SendVote(s: nat, r: nat, i: nat)
    | GetVote(s: nat, vargs: VoteArgs)
    | EndVote(s: nat, r: nat, i: nat, vreply: VoteReply)
    | StartBeat(s: nat)
    | SendAppend(s: nat, b: nat, i: nat)
    | GetAppend(s: nat, aargs: AppendArgs)
    | EndAppend(s: nat, b: nat, i: nat, areply: AppendReply)
    | FailAppend(s: nat, b: nat, i: nat)
    | Submit(s: nat, command: Command)
    | ApplyOne(s: nat)
    | Crash(s: nat)
    | CrashInAppend(s: nat, aargs: AppendArgs)

  ghost predicate Init(c: Cluster) {
    && c.net == {}
    && forall s :: 0 <= s < |c.nodes| ==> c.nodes[s] == Node(Boot(s, |c.nodes|, None), [], [], [])
  }

  predicate Enabled(c: Cluster, step: Step) {
    && step.s < |c.nodes|
    && var node := c.nodes[step.s];
       match step
       case Elect(_) => node.peer.role != Leader
       case SendVote(_, r, i) => r < |node.rounds| && i in node.rounds[r].todo
       case GetVote(s, a) => VoteReq(s, a) in c.net
       case EndVote(_, r, i, rep) =>
         && r < |node.rounds|
         && i in node.rounds[r].waiting
         && VoteRep(i, node.rounds[r].waiting[i], rep) in c.net
       case StartBeat(_) => node.peer.role == Leader && |node.peer.log| > 0
       case SendAppend(_, b, i) =>
         && b < |node.beats|
         && i < |node.beats[b].tasks|
         && node.beats[b].tasks[i].Ready?
         && (Current(node, node.beats[b]) ==> Sendable(node, node.beats[b], i))
       case GetAppend(s, a) => AppReq(s, a) in c.net
       case EndAppend(_, b, i, rep) =>
         && b < |node.beats|
         && i < |node.beats[b].tasks|
         && i < |node.peer.nextIndex|
         && i < |node.peer.matchIndex|
         && node.beats[b].tasks[i].Waiting?
         && AppRep(i, node.beats[b].tasks[i].args, rep) in c.net
       case FailAppend(_, b, i) =>
         && b < |node.beats|
         && i < |node.beats[b].tasks|
         && i < |node.peer.nextIndex|
         && node.beats[b].tasks[i].Waiting?
       case Submit(_, _) => true
       case ApplyOne(_) => node.peer.lastApplied < node.peer.commitIndex && node.peer.lastApplied + 1 < |node.peer.log|
       case Crash(_) => true
       case CrashInAppend(s, a) => AppReq(s, a) in c.net && a.term >= node.peer.term
  }

  /** The leader is still in the term of the heartbeat round. */
  predicate Current(node: Node, beat: Beat) {
    node.peer.role == Leader && beat.term == node.peer.term
  }

  /** The indices that the sending goroutine reads exist. */
  predicate Sendable(node: Node, beat: Beat, i: nat) {
    && i < |node.peer.nextIndex|
    && 1 <= node.peer.nextIndex[i] <= |node.peer.log|
    && beat.logLen <= |node.peer.log|
  }


  /** Every server of the cluster but `me`. */
  function Others(n: nat, me: nat): (others: set<nat>)
    ensures forall i :: i in others <==> 0 <= i < n && i != me
  {
    if n == 0 then {}
    else if n - 1 == me then Others(n - 1, me)
    else Others(n - 1, me) + {n - 1}
  }

  /** The node that takes the step, afterwards. */
  function NodeAfter(c: Cluster, step: Step): Node
    requires Enabled(c, step)
  {
    var node := c.nodes[step.s];
    var p := node.peer;
    match step
    case Elect(s) =>
      var round := VoteRound(p.term + 1, Others(|c.nodes|, p.me), map[], {});
      node.(peer := BecomeCandidate(p), rounds := node.rounds + [round])
    case SendVote(s, r, i) =>
      var round := node.rounds[r];
      node.(rounds := node.rounds[r := round.(todo := round.todo - {i}, waiting := round.waiting[i := VoteRequest(p)])])
    case GetVote(s, a) => node.(peer := RequestVote(p, a).0)
    case EndVote(s, r, i, rep) => VoteAnswered(node, r, i, rep, |c.nodes|)
    case StartBeat(s) => node.(beats := node.beats + [NewBeat(p, |c.nodes|)])
    case SendAppend(s, b, i) =>
      var beat := node.beats[b];
      if Current(node, beat)
      then SetTask(node, b, i, Waiting(AppendRequest(p, i, beat.logLen, beat.commit)))
      else SetTask(node, b, i, Done)
    case GetAppend(s, a) => node.(peer := AppendEntries(p, a).0)
    case EndAppend(s, b, i, rep) => AppendAnswered(node, b, i, rep, |c.nodes|)
    case FailAppend(s, b, i) => AppendFailed(node, b, i)
    case Submit(s, command) => node.(peer := Start(p, command))
    case ApplyOne(s) =>
      var k := p.lastApplied + 1;
      node.(peer := p.(lastApplied := k), output := node.output + [ApplyMsg(k, p.log[k].command)])
    case Crash(s) => Node(Boot(p.me, |c.nodes|, p.disk), [], [], [])
    case CrashInAppend(s, a) => Node(Boot(p.me, |c.nodes|, AdoptTerm(p, a.term).disk), [], [], [])
  }

  /** The answer makes the candidate leader. */
  predicate Wins(c: Cluster, step: Step)
    requires Enabled(c, step)
  {
    step.EndVote? && c.nodes[step.s].peer.role == Candidate && NodeAfter(c, step).peer.role == Leader
  }

  /**
  The scheduling assumption on elections: with three servers or more, the round whose count makes
  a candidate leader is a round of the candidate's current term.
  */
  predicate OnTime(c: Cluster, step: Step)
    requires Enabled(c, step)
  {
    Wins(c, step) && |c.nodes| > 2 ==> c.nodes[step.s].rounds[step.r].term == c.nodes[step.s].peer.term
  }

  /** What a heartbeat round captures at its start. */
  function NewBeat(p: Peer, n: nat): Beat {
    Beat(p.term, |p.log|, LastTerm(p.log) == p.term, p.commitIndex, seq(n, i => if i == p.me then Done else Ready), {})
  }

  function SetTask(node: Node, b: nat, i: nat, task: Task): Node
    requires b < |node.beats| && i < |node.beats[b].tasks|
  {
    node.(beats := node.beats[b := node.beats[b].(tasks := node.beats[b].tasks[i := task])])
  }

  /** A goroutine of an election round handles the answer of peer `i`. */
  function VoteAnswered(node: Node, r: nat, i: nat, rep: VoteReply, n: nat): Node
    requires r < |node.rounds| && i in node.rounds[r].waiting
  {
    var p := node.peer;
    var round := node.rounds[r];
    var a := round.waiting[i];
    var round1 := round.(waiting := round.waiting - {i});
    var node1 := node.(rounds := node.rounds[r := round1]);
    if rep.term < a.term then node1.(peer := BeRefused(p))
    else if a.term != p.term then node1
    else if rep.term > p.term then node1.(peer := StepDown(p, rep.term))
    else
      var round2 := if p.role == Candidate && rep.granted then round1.(granted := round1.granted + {i}) else round1;
      var node2 := node.(rounds := node.rounds[r := round2]);
      if 2 * (1 + |round2.granted|) > n && p.role == Candidate
      then node2.(peer := BecomeLeader(p))
      else node2
  }

  /** A goroutine of a heartbeat round handles the answer of peer `i`. */
  function AppendAnswered(node: Node, b: nat, i: nat, rep: AppendReply, n: nat): Node
    requires b < |node.beats| && i < |node.beats[b].tasks| && node.beats[b].tasks[i].Waiting?
    requires i < |node.peer.nextIndex| && i < |node.peer.matchIndex|
  {
    var p := node.peer;
    var beat := node.beats[b];
    var a := beat.tasks[i].args;
    if !Current(node, beat) || p.nextIndex[i] != a.prevLogIndex + 1 then SetTask(node, b, i, Done)
    else if !rep.success && rep.term > p.term then SetTask(node, b, i, Done).(peer := StepDown(p, rep.term))
    else if !rep.success then SetTask(node, b, i, Ready).(peer := Retreat(p, i, rep))
    else
      var acked := beat.acked + {i};
      var p1 := Advance(p, i, a);
      var majority := 2 * (1 + |acked|) > n;
      var p2 := if beat.changeCommit && majority && beat.logLen > 0 then Commit(p1, beat.logLen - 1) else p1;
      node.(beats := node.beats[b := beat.(tasks := beat.tasks[i := Done], acked := acked)], peer := p2)
  }

  /** A goroutine of a heartbeat round learns that its call failed, and tries again unless it is obsolete. */
  function AppendFailed(node: Node, b: nat, i: nat): Node
    requires b < |node.beats| && i < |node.beats[b].tasks| && node.beats[b].tasks[i].Waiting?
    requires i < |node.peer.nextIndex|
  {
    if Current(node, node.beats[b]) && node.peer.nextIndex[i] == node.beats[b].tasks[i].args.prevLogIndex + 1
    then SetTask(node, b, i, Ready)
    else SetTask(node, b, i, Done)
  }

  /** The messages that the step sends. */
  function Sent(c: Cluster, step: Step): set<Msg>
    requires Enabled(c, step)
  {
    var p := c.nodes[step.s].peer;
    match step
    case SendVote(s, r, i) => {VoteReq(i, VoteRequest(p))}
    case GetVote(s, a) => {VoteRep(s, a, RequestVote(p, a).1)}
    case SendAppend(s, b, i) =>
      var beat := c.nodes[s].beats[b];
      if Current(c.nodes[s], beat) then {AppReq(i, AppendRequest(p, i, beat.logLen, beat.commit))} else {}
    case GetAppend(s, a) => {AppRep(s, a, AppendEntries(p, a).1)}
    case _ => {}
  }

  /** Server `s` moves to `node` and sends `sent`. */
  function Place(c: Cluster, s: nat, node: Node, sent: set<Msg>): Cluster
    requires s < |c.nodes|
  {
    Cluster(c.nodes[s := node], c.net + sent)
  }

  function Do(c: Cluster, step: Step): Cluster
    requires Enabled(c, step)
  {
    Place(c, step.s, NodeAfter(c, step), Sent(c, step))
  }

  /** `run` starts in an initial state and takes the given steps. */
  ghost predicate IsRun(run: seq<Cluster>, steps: seq<Step>) {
    && |run| == |steps| + 1
    && Init(run[0])
    && forall i :: 0 <= i < |steps| ==> Enabled(run[i], steps[i]) && run[i + 1] == Do(run[i], steps[i])
  }

  /** A run in which every step meets the scheduling assumption. */
  ghost predicate IsTimelyRun(run: seq<Cluster>, steps: seq<Step>) {
    && IsRun(run, steps)
    && forall i :: 0 <= i < |steps| ==> OnTime(run[i], steps[i])
  }
}
