/** The checker against the service: no history that the key/value service produces is rejected. */
module KvChecked {
  import opened LinModel
  import opened KvModel
  import opened KvService
  import opened KvLinearizable
  import opened KvOnRaft
  import LinSearch
  import Operations
  import Partition
  import CheckParallel

  /** The operation that a test records for a command that has returned. */
  function Recorded(r: Record): KvOperation {
    Operation(r.op.clerkId, KvLinearizable.InputOf(r.op), r.call, KvOutput(r.output), r.ret)
  }

  function RecordedOps(records: seq<Record>): (ops: seq<KvOperation>)
    ensures |ops| == |records| && forall x :: 0 <= x < |records| ==> ops[x] == Recorded(records[x])
  {
    seq(|records|, x requires 0 <= x < |records| => Recorded(records[x]))
  }

  ghost predicate AllReturned(records: seq<Record>) {
    forall x :: 0 <= x < |records| ==> records[x].returned
  }

  lemma {:induction false} AtLeast(idx: seq<nat>, k: nat)
    requires k < |idx| && forall j, k :: 0 <= j < k < |idx| ==> idx[j] < idx[k]
    ensures idx[k] >= k
    decreases k
  {
    if k > 0 {
      AtLeast(idx, k - 1);
    }
  }

  /** Increasing indices below `n` among which every one below `m` occurs start with 0, 1, 2, ... */
  lemma {:induction false} NoGaps(idx: seq<nat>, n: nat, m: nat)
    requires m <= n && forall k :: 0 <= k < |idx| ==> idx[k] < n
    requires forall j, k :: 0 <= j < k < |idx| ==> idx[j] < idx[k]
    requires forall x :: 0 <= x < n ==> x in idx
    ensures m <= |idx| && forall k :: 0 <= k < m ==> idx[k] == k
    decreases m
  {
    if m > 0 {
      NoGaps(idx, n, m - 1);
      assert m - 1 in idx;
      var k :| 0 <= k < |idx| && idx[k] == m - 1;
      AtLeast(idx, k);
    }
  }

  /** The only completion of a history without commands under way is the history itself. */
  lemma CompletionIsHistory(records: seq<Record>, now: nat, idx: seq<nat>, ops: seq<KvOperation>)
    requires AllReturned(records) && IsCompletion(records, now, idx, ops)
    ensures ops == RecordedOps(records)
  {
    var n := |records|;
    NoGaps(idx, n, n);
    if idx != [] {
      AtLeast(idx, |idx| - 1);
    }
    forall x | 0 <= x < n
      ensures ops[x] == Recorded(records[x])
    {
      assert Completes(ops[x], records[idx[x]], now);
    }
  }

  /** A history without commands under way is linearizable as it was recorded. */
  lemma RecordedLinearizable(records: seq<Record>, now: nat)
    requires AllReturned(records) && HistoryLinearizable(records, now)
    ensures Operations.OpsTimed(RecordedOps(records))
    ensures LinSearch.Linearizable(Operations.OpsProblem(ALL_KEYS, RecordedOps(records)))
  {
    hide LinSearch.Linearizable, Operations.OpsTimed, IsCompletion;
    var idx, ops :| IsCompletion(records, now, idx, ops) && Operations.OpsTimed(ops)
      && LinSearch.Linearizable(Operations.OpsProblem(ALL_KEYS, ops));
    CompletionIsHistory(records, now, idx, ops);
  }

  /**
  In every run of the service over Raft, once the commands called so far have returned, no
  interleaving of `checkParallel` on the recorded history ends with Illegal, and every one that
  is not stopped by the timeout ends with Ok. The recorded times are always as the checker needs
  them (`RecordedLinearizable`).
  */
  lemma CheckerAcceptsService(
    run: seq<System>, actions: seq<Action>, i: nat,
    parts: seq<seq<KvOperation>>, keys: seq<string>,
    job: CheckParallel.Job, check: seq<CheckParallel.Checker>, steps: seq<CheckParallel.Step>, j: nat)
    requires IsSystemRun(run, actions) && i < |run| && AllReturned(run[i].records)
    requires Operations.OpsTimed(RecordedOps(run[i].records))
    requires Partition.IsPartition(RecordedOps(run[i].records), parts, keys)
    requires CheckParallel.JobOf(job, RecordedOps(run[i].records), parts, keys)
    requires CheckParallel.IsRun(job, check, steps) && j < |check| && !check[j].looping
    ensures CheckParallel.VerdictOf(check[j]) != CheckParallel.Illegal
    ensures !check[j].timedOut ==> CheckParallel.VerdictOf(check[j]) == CheckParallel.Ok
  {
    hide IsSystemRun, HistoryLinearizable, LinSearch.Linearizable, Operations.OpsTimed, CheckParallel.IsRun;
    SystemLinearizable(run, actions, i);
    RecordedLinearizable(run[i].records, run[i].now);
    CheckParallel.OperationsVerdict(RecordedOps(run[i].records), parts, keys, job, check, steps, j);
  }
}
