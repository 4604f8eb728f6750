/**
The Raft peer as the object it is in the program. Each method is one critical section of the
peer's lock and is proved to do to the fields what the functions of `RaftPeer` and the steps of
`RaftCluster` say.
*/
module RaftServer {
  import opened RaftTypes
  import opened RaftPeer
  import opened RaftCluster

  /** Stable storage. Encoding is the identity on the saved fields. */
  class Persister {
    var raftState: Option<Saved>

    constructor ()
      ensures raftState == None
    {
      raftState := None;
    }

    method SaveRaftState(state: Saved)
      modifies this
      ensures raftState == Some(state)
    {
      raftState := Some(state);
    }

    method Copy() returns (copy: Persister)
      ensures fresh(copy) && copy.raftState == raftState
    {
      copy := new Persister();
      copy.raftState := raftState;
    }
  }

  class Raft {
    const me: nat
    const n: nat
    const persister: Persister
    var role: Role
    var currentTerm: nat
    var votedFor: int
    var log: Log
    var commitIndex: nat
    var lastApplied: nat
    var nextIndex: seq<int>
    var matchIndex: seq<int>

    /** The peer's state as a value. */
    ghost function View(): Peer
      reads this, persister
    {
      Peer(me, role, currentTerm, votedFor, log, commitIndex, lastApplied, nextIndex, matchIndex, persister.raftState)
    }

    ghost predicate Valid()
      reads this
    {
      |log| > 0 && |nextIndex| == |matchIndex| == n
    }

    /** `Make`: initial values, overwritten by what the persister holds. */
    constructor (n: nat, me: nat, persister: Persister)
      requires Restored(persister.raftState).log != []
      ensures this.n == n && this.me == me && this.persister == persister
      ensures View() == Boot(me, n, persister.raftState)
      ensures Valid()
    {
      this.n := n;
      this.me := me;
      this.persister := persister;
      role := Follower;
      currentTerm := 0;
      votedFor := -1;
      log := [SENTINEL];
      commitIndex := 0;
      lastApplied := 0;
      nextIndex := Filled(n, 0);
      matchIndex := Filled(n, 0);
      new;
      if persister.raftState.Some? {
        var saved := persister.raftState.value;
        role, currentTerm, votedFor, log := saved.role, saved.term, saved.votedFor, saved.log;
      }
      var j := n - 1;
      while j >= 0
        invariant -1 <= j < n && |nextIndex| == |matchIndex| == n
        invariant forall x :: j < x < n ==> nextIndex[x] == |log| && matchIndex[x] == 0
        invariant Restored(persister.raftState) == Saved(role, currentTerm, votedFor, log)
        invariant commitIndex == lastApplied == 0
      {
        nextIndex := nextIndex[j := |log|];
        matchIndex := matchIndex[j := 0];
        j := j - 1;
      }
    }

    method Persist()
      modifies persister
      ensures View() == RaftPeer.Persist(old(View()))
    {
      persister.SaveRaftState(Saved(role, currentTerm, votedFor, log));
    }

    method GetState() returns (term: nat, isLeader: bool)
      ensures term == View().term && isLeader == (View().role == Leader)
    {
      term, isLeader := currentTerm, role == Leader;
    }

    method AppendEntries(args: AppendArgs) returns (reply: AppendReply)
      requires Valid()
      modifies this, persister
      ensures (View(), reply) == RaftPeer.AppendEntries(old(View()), args)
      ensures old(log)[0].term == args.prevLogTerm || args.prevLogIndex > 0 ==> Valid()
    {
      if args.term < currentTerm {
        return AppendReply(currentTerm, false, 0, 0, 0);
      }
      currentTerm := args.term;
      if role != Follower {
        role := Follower;
      }
      Persist();
      if |log| - 1 < args.prevLogIndex {
        return AppendReply(args.term, false, |log|, 0, 0);
      }
      if log[args.prevLogIndex].term != args.prevLogTerm {
        reply := Reject(args);
      } else {
        Accept(args);
        reply := AppendReply(args.term, true, -1, 0, 0);
      }
    }

    /** The previous entry conflicts: the log is cut before it. */
    method Reject(args: AppendArgs) returns (reply: AppendReply)
      requires args.prevLogIndex < |log|
      modifies this`log, persister
      ensures View() == RaftPeer.Persist(old(View()).(log := old(log)[..args.prevLogIndex]))
      ensures var xTerm := old(log)[args.prevLogIndex].term;
              reply == AppendReply(args.term, false, -1, xTerm, FirstOfTerm(old(log), |old(log)| - 1, xTerm))
    {
      var xTerm := log[args.prevLogIndex].term;
      var xIndex := ScanBack(xTerm);
      log := log[..args.prevLogIndex];
      Persist();
      reply := AppendReply(args.term, false, -1, xTerm, xIndex);
    }

    /** The previous entry matches: entries are merged and the commit index may advance. */
    method Accept(args: AppendArgs)
      requires args.prevLogIndex < |log|
      modifies this`log, this`commitIndex, persister
      ensures var p := RaftPeer.Persist(old(View()).(log := Merge(old(log), args.prevLogIndex, args.entries)));
              View() == if args.leaderCommit > p.commitIndex
                        then p.(commitIndex := Min(args.leaderCommit, |p.log| - 1))
                        else p
    {
      MergeEntries(args.prevLogIndex, args.entries);
      Persist();
      if args.leaderCommit > commitIndex {
        commitIndex := if args.leaderCommit > |log| - 1 then |log| - 1 else args.leaderCommit;
      }
    }

    /** The loop that looks for the start of the conflicting term. */
    method ScanBack(xTerm: nat) returns (xIndex: nat)
      ensures xIndex == FirstOfTerm(log, |log| - 1, xTerm)
    {
      xIndex := 0;
      var i := |log| - 1;
      while i >= 0
        invariant -1 <= i < |log|
        invariant FirstOfTerm(log, i, xTerm) == FirstOfTerm(log, |log| - 1, xTerm)
      {
        if log[i].term < xTerm {
          xIndex := i + 1;
          return;
        }
        i := i - 1;
      }
    }

    /** Appending the received entries unless they are all present in a longer log. */
    method MergeEntries(prev: nat, entries: Log)
      requires prev < |log|
      modifies this`log
      ensures log == Merge(old(log), prev, entries)
    {
      if entries != [] {
        if prev + 1 + |entries| < |log| {
          var conflict := false;
          var i := 0;
          while i < |entries| && !conflict
            invariant 0 <= i <= |entries| && prev + 1 + |entries| < |log|
            invariant !conflict ==> AlreadyHeld(log, prev + 1, entries[..i])
            invariant conflict ==> !AlreadyHeld(log, prev + 1, entries)
            decreases |entries| - i, !conflict
          {
            if log[prev + 1 + i].term != entries[i].term {
              conflict := true;
            } else {
              i := i + 1;
            }
          }
          assert !conflict ==> entries[..i] == entries;
          if conflict {
            log := log[..prev + 1] + entries;
          }
        } else {
          log := log[..prev + 1] + entries;
        }
      }
    }

    method RequestVote(args: VoteArgs) returns (reply: VoteReply)
      requires Valid()
      modifies this, persister
      ensures (View(), reply) == RaftPeer.RequestVote(old(View()), args)
      ensures Valid()
    {
      if args.term < currentTerm {
        return VoteReply(currentTerm, false);
      }
      if currentTerm == args.term && votedFor != -1 && votedFor != args.candidateId {
        return VoteReply(currentTerm, false);
      }
      var last := log[|log| - 1].term;
      if args.lastLogTerm > last || (args.lastLogTerm == last && args.lastLogIndex >= |log| - 1) {
        currentTerm := args.term;
        votedFor := args.candidateId;
        role := Follower;
        Persist();
        reply := VoteReply(args.term, true);
      } else {
        reply := VoteReply(currentTerm, false);
      }
    }

    method Start(command: Command) returns (index: int, term: int, isLeader: bool)
      requires Valid()
      modifies this, persister
      ensures View() == RaftPeer.Start(old(View()), command) && Valid()
      ensures isLeader == (old(role) == Leader) && term == old(currentTerm)
      ensures index == if isLeader then |old(log)| else -1
    {
      index, term, isLeader := -1, currentTerm, false;
      if role == Leader {
        isLeader := true;
        index := |log|;
        log := log + [LogEntry(command, currentTerm)];
        Persist();
      }
    }

    /** The election timer fires. */
    method StartElection()
      requires Valid() && role != Leader
      modifies this, persister
      ensures View() == BecomeCandidate(old(View())) && Valid()
    {
      role := Candidate;
      currentTerm := currentTerm + 1;
      votedFor := me;
      Persist();
    }

    /** A goroutine of the election round reads what it sends. */
    method BuildVoteRequest() returns (args: VoteArgs)
      requires Valid()
      ensures args == VoteRequest(View())
    {
      args := VoteArgs(currentTerm, me, |log| - 1, log[|log| - 1].term);
    }

    /** A goroutine of election round `round` handles the answer of peer `i`, with the shared counter. */
    method EndVote(ghost round: VoteRound, i: nat, args: VoteArgs, reply: VoteReply, grantedCnt: nat) returns (cnt: nat)
      requires Valid() && grantedCnt == 1 + |round.granted|
      requires i in round.waiting && round.waiting[i] == args && i !in round.granted
      modifies this, persister
      ensures Valid()
      ensures var node' := VoteAnswered(Node(old(View()), [round], [], []), 0, i, reply, n);
              View() == node'.peer && cnt == 1 + |node'.rounds[0].granted|
    {
      cnt := grantedCnt;
      if reply.term < args.term {
        role := Refused;
        Persist();
        return;
      }
      if args.term != currentTerm {
        return;
      }
      if reply.term > currentTerm {
        currentTerm := reply.term;
        role := Follower;
        Persist();
        return;
      }
      if role == Candidate && reply.granted {
        cnt := cnt + 1;
      }
      if 2 * cnt > n {
        if role != Candidate {
          return;
        }
        role := Leader;
        Persist();
        ResetProgress();
      }
    }

    /** A new leader assumes that every peer is up to date and has confirmed nothing. */
    method ResetProgress()
      requires |nextIndex| == |matchIndex| == n
      modifies this`nextIndex, this`matchIndex
      ensures nextIndex == Filled(n, |log|) && matchIndex == Filled(n, 0)
    {
      var j := n - 1;
      while j >= 0
        invariant -1 <= j < n && |nextIndex| == |matchIndex| == n
        invariant forall x :: j < x < n ==> nextIndex[x] == |log| && matchIndex[x] == 0
      {
        nextIndex := nextIndex[j := |log|];
        matchIndex := matchIndex[j := 0];
        j := j - 1;
      }
    }

    /** The leader captures what a heartbeat round works with. */
    method StartBeat() returns (beat: Beat)
      requires Valid() && role == Leader && me < n
      ensures beat.term == currentTerm && beat.logLen == |log| && beat.commit == commitIndex && beat.acked == {}
      ensures beat.changeCommit == (LastTerm(log) == currentTerm)
      ensures |beat.tasks| == n && forall i :: 0 <= i < n ==> beat.tasks[i] == if i == me then Done else Ready
      ensures beat == NewBeat(View(), n)
    {
      var tasks: seq<Task> := [];
      var i := 0;
      while i < n
        invariant 0 <= i <= n && |tasks| == i
        invariant forall x :: 0 <= x < i ==> tasks[x] == if x == me then Done else Ready
      {
        tasks := tasks + [if i == me then Done else Ready];
        i := i + 1;
      }
      beat := Beat(currentTerm, |log|, log[|log| - 1].term == currentTerm, commitIndex, tasks, {});
    }

    /** The goroutine for peer `i` builds its message. */
    method BuildAppend(i: nat, beat: Beat) returns (args: AppendArgs)
      requires Valid() && i < n && 1 <= nextIndex[i] <= |log| && beat.logLen <= |log| && beat.term == currentTerm
      ensures args == AppendRequest(View(), i, beat.logLen, beat.commit)
    {
      var next := nextIndex[i];
      var entries := [];
      if next < beat.logLen {
        entries := log[next..beat.logLen];
      }
      args := AppendArgs(beat.term, me, next - 1, log[next - 1].term, entries, beat.commit);
    }

    /**
    The call to peer `i` has returned, `ok` if with an answer; `replCount` is the round's shared
    counter, and a task that is ready again goes on with the next turn of its loop.
    */
    method EndAppend(
      beat: Beat, i: nat, args: AppendArgs, ok: bool, reply: AppendReply, replCount: nat)
      returns (cnt: nat, task: Task)
      requires Valid() && i < n && i < |beat.tasks| && beat.tasks[i] == Waiting(args) && beat.logLen > 0
      requires i !in beat.acked && replCount == 1 + |beat.acked|
      modifies this, persister
      ensures Valid()
      ensures var node := Node(old(View()), [], [beat], []);
              var node' := if ok then AppendAnswered(node, 0, i, reply, n) else AppendFailed(node, 0, i);
              View() == node'.peer && cnt == 1 + |node'.beats[0].acked| && task == node'.beats[0].tasks[i]
    {
      cnt, task := replCount, Done;
      if role != Leader || beat.term != currentTerm {
        return;
      }
      if nextIndex[i] != args.prevLogIndex + 1 {
        return;
      }
      if !ok {
        task := Ready;
        return;
      }
      if !reply.success {
        if reply.term > currentTerm {
          currentTerm := reply.term;
          role := Follower;
          Persist();
          return;
        }
        task := Ready;
        if reply.xLen != -1 {
          nextIndex := nextIndex[i := reply.xLen];
        } else {
          var j := FindTerm(reply.xTerm, reply.xIndex);
          nextIndex := nextIndex[i := j];
        }
      } else {
        matchIndex := matchIndex[i := args.prevLogIndex + |args.entries|];
        nextIndex := nextIndex[i := matchIndex[i] + 1];
        cnt := cnt + 1;
        var next := beat.logLen - 1;
        if beat.changeCommit && 2 * cnt > n && commitIndex < next {
          commitIndex := next;
        }
      }
    }

    /** The loop that looks for the leader's last entry of the conflicting term. */
    method FindTerm(xTerm: nat, default: int) returns (index: int)
      ensures index == LastOfTerm(log, |log| - 1, xTerm, default)
    {
      index := default;
      var j := |log| - 1;
      while j >= 0
        invariant -1 <= j < |log|
        invariant LastOfTerm(log, j, xTerm, default) == LastOfTerm(log, |log| - 1, xTerm, default)
      {
        if log[j].term == xTerm {
          index := j;
          return;
        }
        j := j - 1;
      }
    }

    /** `checkApply`: everything committed and not yet applied is sent, in order. */
    method Apply() returns (sent: seq<ApplyMsg>)
      requires Valid() && lastApplied <= commitIndex < |log|
      modifies this`lastApplied
      ensures View() == old(View()).(lastApplied := commitIndex)
      ensures |sent| == commitIndex - old(lastApplied)
      ensures forall x :: 0 <= x < |sent| ==>
                sent[x] == ApplyMsg(old(lastApplied) + 1 + x, log[old(lastApplied) + 1 + x].command)
    {
      sent := [];
      while lastApplied < commitIndex
        invariant old(lastApplied) <= lastApplied <= commitIndex && |sent| == lastApplied - old(lastApplied)
        invariant forall x :: 0 <= x < |sent| ==>
                    sent[x] == ApplyMsg(old(lastApplied) + 1 + x, log[old(lastApplied) + 1 + x].command)
      {
        lastApplied := lastApplied + 1;
        sent := sent + [ApplyMsg(lastApplied, log[lastApplied].command)];
      }
    }
  }
}
