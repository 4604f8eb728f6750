/** What each critical section of a Raft peer computes, as functions on the peer's state. */
module RaftPeer {
  import opened RaftTypes

  function Persist(p: Peer): Peer {
    p.(disk := Some(Saved(p.role, p.term, p.votedFor, p.log)))
  }

  /** The state that `Make` builds for a peer with the given disk. */
  function Boot(me: nat, n: nat, disk: Option<Saved>): Peer {
    var s := Restored(disk);
    Peer(me, s.role, s.term, s.votedFor, s.log, 0, 0, Filled(n, |s.log|), Filled(n, 0), disk)
  }

  function Filled(n: nat, x: int): (s: seq<int>)
    ensures |s| == n && forall i :: 0 <= i < n ==> s[i] == x
  {
    seq(n, _ => x)
  }

  function Restored(disk: Option<Saved>): Saved {
    match disk
    case None => Saved(Follower, 0, -1, [SENTINEL])
    case Some(s) => s
  }

  // ---------- AppendEntries ----------

  function AdoptTerm(p: Peer, t: nat): Peer {
    Persist(p.(term := t, role := Follower))
  }

  /** Scanning down from `i`: one past the first entry met whose term is below `xTerm`. */
  function FirstOfTerm(log: Log, i: int, xTerm: nat): nat
    requires i < |log|
    decreases i + 1
  {
    if i < 0 then 0
    else if log[i].term < xTerm then i + 1
    else FirstOfTerm(log, i - 1, xTerm)
  }

  /** No entry of the message disagrees in term with the log from index `at`. */
  predicate AlreadyHeld(log: Log, at: nat, entries: Log)
    requires at + |entries| <= |log|
  {
    forall i :: 0 <= i < |entries| ==> log[at + i].term == entries[i].term
  }

  function Merge(log: Log, prev: nat, entries: Log): Log
    requires prev < |log|
  {
    if entries == [] then log
    else if prev + 1 + |entries| < |log| && AlreadyHeld(log, prev + 1, entries) then log
    else log[..prev + 1] + entries
  }

  function Min(x: int, y: int): int {
    if x > y then y else x
  }

  function AppendEntries(p: Peer, a: AppendArgs): (Peer, AppendReply) {
    if a.term < p.term then (p, AppendReply(p.term, false, 0, 0, 0))
    else
      var p1 := AdoptTerm(p, a.term);
      if |p1.log| - 1 < a.prevLogIndex then
        (p1, AppendReply(a.term, false, |p1.log|, 0, 0))
      else if p1.log[a.prevLogIndex].term != a.prevLogTerm then
        var xTerm := p1.log[a.prevLogIndex].term;
        var xIndex := FirstOfTerm(p1.log, |p1.log| - 1, xTerm);
        (Persist(p1.(log := p1.log[..a.prevLogIndex])), AppendReply(a.term, false, -1, xTerm, xIndex))
      else
        var p2 := Persist(p1.(log := Merge(p1.log, a.prevLogIndex, a.entries)));
        var p3 := if a.leaderCommit > p2.commitIndex
                  then p2.(commitIndex := Min(a.leaderCommit, |p2.log| - 1))
                  else p2;
        (p3, AppendReply(a.term, true, -1, 0, 0))
  }

  // ---------- RequestVote ----------

  function RequestVote(p: Peer, a: VoteArgs): (Peer, VoteReply) {
    if a.term < p.term then (p, VoteReply(p.term, false))
    else if p.term == a.term && p.votedFor != -1 && p.votedFor != a.candidateId then
      (p, VoteReply(p.term, false))
    else if UpToDate(a.lastLogIndex, a.lastLogTerm, p.log) then
      (Persist(p.(term := a.term, votedFor := a.candidateId, role := Follower)), VoteReply(a.term, true))
    else (p, VoteReply(p.term, false))
  }

  // ---------- Elections ----------

  function BecomeCandidate(p: Peer): Peer {
    Persist(p.(role := Candidate, term := p.term + 1, votedFor := p.me))
  }

  function VoteRequest(p: Peer): VoteArgs {
    VoteArgs(p.term, p.me, |p.log| - 1, LastTerm(p.log))
  }

  function StepDown(p: Peer, t: nat): Peer {
    Persist(p.(term := t, role := Follower))
  }

  function BeRefused(p: Peer): Peer {
    Persist(p.(role := Refused))
  }

  function BecomeLeader(p: Peer): Peer {
    Persist(p.(role := Leader)).(
    nextIndex := Filled(|p.nextIndex|, |p.log|),
    matchIndex := Filled(|p.matchIndex|, 0))
  }

  // ---------- Replication ----------

  function Start(p: Peer, command: Command): Peer {
    if p.role == Leader then Persist(p.(log := p.log + [LogEntry(command, p.term)])) else p
  }

  /** The arguments for peer `i` in a heartbeat round that captured `logLen` and `commit`. */
  function AppendRequest(p: Peer, i: nat, logLen: nat, commit: nat): AppendArgs
    requires i < |p.nextIndex| && 1 <= p.nextIndex[i] <= |p.log| && logLen <= |p.log|
  {
    var next := p.nextIndex[i];
    AppendArgs(p.term, p.me, next - 1, p.log[next - 1].term,
               if next < logLen then p.log[next..logLen] else [], commit)
  }

  /** Scanning down from `i`: the last entry of term `xTerm`, or `default`. */
  function LastOfTerm(log: Log, i: int, xTerm: nat, default: int): int
    requires i < |log|
    decreases i + 1
  {
    if i < 0 then default
    else if log[i].term == xTerm then i
    else LastOfTerm(log, i - 1, xTerm, default)
  }

  /** Where the leader resumes after a rejection. */
  function Backup(log: Log, r: AppendReply): int {
    if r.xLen != -1 then r.xLen else LastOfTerm(log, |log| - 1, r.xTerm, r.xIndex)
  }

  function Retreat(p: Peer, i: nat, r: AppendReply): Peer
    requires i < |p.nextIndex|
  {
    p.(nextIndex := p.nextIndex[i := Backup(p.log, r)])
  }

  function Advance(p: Peer, i: nat, a: AppendArgs): Peer
    requires i < |p.nextIndex| && i < |p.matchIndex|
  {
    var matched := a.prevLogIndex + |a.entries|;
    p.(matchIndex := p.matchIndex[i := matched], nextIndex := p.nextIndex[i := matched + 1])
  }

  function Commit(p: Peer, index: nat): Peer {
    if p.commitIndex < index then p.(commitIndex := index) else p
  }
}
