/** The values that a Raft peer stores, sends and receives. */
module RaftTypes {

  datatype Option<+T> = None | Some(value: T)

  /** A key/value operation, the only type of command the services in this repository submit. */
  datatype Op = Op(kind: OpKind, key: string, value: string, clerkId: int, commandId: int)

  datatype OpKind = Get | Put | Append

  /** The payload of a log entry; the entry at index 0 carries none. */
  datatype Command = NoCommand | Submitted(op: Op)

  datatype LogEntry = LogEntry(command: Command, term: nat)

  type Log = seq<LogEntry>

  /** The four values of the field `state`. `Refused` is the value -1. */
  datatype Role = Leader | Follower | Candidate | Refused

  /** What `persist` writes and `readPersist` reads back. */
  datatype Saved = Saved(role: Role, term: nat, votedFor: int, log: Log)

  datatype Peer = Peer(
    me: nat, role: Role, term: nat, votedFor: int, log: Log,
    commitIndex: nat, lastApplied: nat, nextIndex: seq<int>, matchIndex: seq<int>,
    disk: Option<Saved>)

  datatype AppendArgs = AppendArgs(
    term: nat, leaderId: nat, prevLogIndex: nat, prevLogTerm: nat, entries: Log, leaderCommit: nat)

  datatype AppendReply = AppendReply(term: nat, success: bool, xLen: int, xTerm: nat, xIndex: nat)

  datatype VoteArgs = VoteArgs(term: nat, candidateId: nat, lastLogIndex: int, lastLogTerm: nat)

  datatype VoteReply = VoteReply(term: nat, granted: bool)

  datatype ApplyMsg = ApplyMsg(index: nat, command: Command)

  const SENTINEL: LogEntry := LogEntry(NoCommand, 0)

  /** The first `len` entries of both logs exist and are the same. */
  ghost predicate SamePrefix(a: Log, b: Log, len: nat) {
    && len <= |a|
    && len <= |b|
    && forall i :: 0 <= i < len ==> a[i] == b[i]
  }

  function LastTerm(log: Log): nat {
    if |log| == 0 then 0 else log[|log| - 1].term
  }

  /** The voter's test of section 5.4.1: the last entry (index, term) is not behind `log`. */
  predicate UpToDate(lastLogIndex: int, lastLogTerm: nat, log: Log) {
    lastLogTerm > LastTerm(log) || (lastLogTerm == LastTerm(log) && lastLogIndex >= |log| - 1)
  }

  /** Distinct servers that form a strict majority of `n`. */
  ghost predicate IsQuorum(n: nat, q: set<nat>) {
    && (forall x :: x in q ==> x < n)
    && 2 * |q| > n
  }

  lemma SubsetOfRange(n: nat, s: set<nat>)
    requires forall x :: x in s ==> x < n
    ensures |s| <= n
  {
    if n == 0 {
      assert s == {};
    } else {
      SubsetOfRange(n - 1, s - {n - 1});
      assert |s| <= |s - {n - 1}| + 1;
    }
  }

  /** Two majorities of the same cluster share a server. */
  lemma QuorumsMeet(n: nat, a: set<nat>, b: set<nat>) returns (x: nat)
    requires IsQuorum(n, a) && IsQuorum(n, b)
    ensures x in a && x in b && x < n
  {
    SubsetOfRange(n, a + b);
    assert |a + b| + |a * b| == |a| + |b|;
    x :| x in a * b;
  }
}
