/**
`checkParallel`: one search per partition runs concurrently with a loop that collects their
answers, gives up when the time is over, and tells the searches to stop when it needs no more.
*/
module CheckParallel {
  import opened LinSearch
  import opened LinModel
  import opened KvModel
  import opened Operations
  import opened Partition
  import opened Locality
  import CheckSingle

  datatype Verdict = Unknown | Ok | Illegal

  /** An answer in the channel: partition and result. */
  datatype Answer = Answer(part: nat, result: bool)

  /**
  The shared flag, the partitions whose search has ended, the channel, and the variables of the
  collecting loop; `looping` is false after the loop was left.
  */
  datatype Checker = Checker(
    kill: bool, ended: set<nat>, channel: seq<Answer>,
    received: seq<Answer>, ok: bool, timedOut: bool, looping: bool, drained: nat)

  /** The call: which partitions are linearizable, and whether all answers are wanted. */
  datatype Job = Job(truth: seq<bool>, computeInfo: bool, hasTimeout: bool)

  datatype Step =
    | End(part: nat, result: bool)
    | Receive
    | TimeOut
    | Drain

  const INITIAL: Checker := Checker(false, {}, [], [], true, false, true, 0)

  /**
  A search that ends before the flag is set answers correctly; one that sees the flag answers
  false. `SearchPart` below shows that the searches do so.
  */
  predicate Enabled(job: Job, c: Checker, step: Step) {
    match step
    case End(i, r) => i < |job.truth| && i !in c.ended && (r == job.truth[i] || (c.kill && !r))
    case Receive => c.looping && c.channel != []
    case TimeOut => c.looping && job.hasTimeout
    case Drain => !c.looping && job.computeInfo && |c.received| + c.drained < |job.truth| && c.channel != []
  }

  function Do(job: Job, c: Checker, step: Step): Checker
    requires Enabled(job, c, step)
  {
    match step
    case End(i, r) => c.(ended := c.ended + {i}, channel := c.channel + [Answer(i, r)])
    case Receive =>
      var received := c.received + [c.channel[0]];
      var c1 := c.(channel := c.channel[1..], received := received, ok := c.ok && c.channel[0].result);
      if !c1.ok && !job.computeInfo then c1.(kill := true, looping := false)
      else if |received| >= |job.truth| then c1.(looping := false)
      else c1
    case TimeOut => c.(timedOut := true, kill := true, looping := false)
    case Drain => c.(channel := c.channel[1..], drained := c.drained + 1)
  }

  function VerdictOf(c: Checker): Verdict {
    if !c.ok then Illegal else if c.timedOut then Unknown else Ok
  }

  ghost predicate IsRun(job: Job, run: seq<Checker>, steps: seq<Step>) {
    && |run| == |steps| + 1
    && run[0] == INITIAL
    && forall i :: 0 <= i < |steps| ==> Enabled(job, run[i], steps[i]) && run[i + 1] == Do(job, run[i], steps[i])
  }

  // ---------- What every interleaving keeps ----------

  ghost predicate Truthful(job: Job, answers: seq<Answer>) {
    forall k :: 0 <= k < |answers| ==> answers[k].part < |job.truth| && answers[k].result == job.truth[answers[k].part]
  }

  ghost predicate Distinct(answers: seq<Answer>) {
    forall j, k :: 0 <= j < k < |answers| ==> answers[j].part != answers[k].part
  }

  ghost predicate Inv(job: Job, c: Checker) {
    && Truthful(job, c.received)
    && (c.looping ==> Truthful(job, c.channel) && !c.kill && !c.timedOut)
    && (forall k :: 0 <= k < |c.received| ==> c.received[k].part in c.ended)
    && (forall k :: 0 <= k < |c.channel| ==> c.channel[k].part in c.ended)
    && Distinct(c.received)
    && Distinct(c.channel)
    && (c.looping ==> Distinct(c.received + c.channel))
    && (c.ok <==> forall k :: 0 <= k < |c.received| ==> c.received[k].result)
    && (!c.looping ==> c.timedOut || (!c.ok && !job.computeInfo) || (|c.received| >= |job.truth| && |job.truth| > 0))
    && (c.timedOut ==> job.hasTimeout)
  }

  lemma ReceiveKeepsInv(job: Job, c: Checker)
    requires Inv(job, c) && Enabled(job, c, Receive)
    ensures Inv(job, Do(job, c, Receive))
  {
    var front, all := c.channel[0], c.received + c.channel;
    assert all[|c.received|] == front;
    assert c.received + [front] + c.channel[1..] == all;
    assert forall j :: 0 <= j < |c.received| ==> all[j] == c.received[j];
    assert Distinct(c.received + [front]);
  }

  lemma EndKeepsInv(job: Job, c: Checker, part: nat, result: bool)
    requires Inv(job, c) && Enabled(job, c, End(part, result))
    ensures Inv(job, Do(job, c, End(part, result)))
  {
    var channel', all := c.channel + [Answer(part, result)], c.received + c.channel;
    assert c.received + channel' == all + [Answer(part, result)];
    assert forall k :: 0 <= k < |all| ==> all[k].part in c.ended;
  }

  lemma StepKeepsInv(job: Job, c: Checker, step: Step)
    requires Inv(job, c) && Enabled(job, c, step)
    ensures Inv(job, Do(job, c, step))
  {
    match step
    case End(part, result) => EndKeepsInv(job, c, part, result);
    case Receive => ReceiveKeepsInv(job, c);
    case TimeOut =>
    case Drain =>
  }

  lemma {:induction false} RunKeepsInv(job: Job, run: seq<Checker>, steps: seq<Step>, i: nat)
    requires IsRun(job, run, steps) && i < |run|
    ensures Inv(job, run[i])
  {
    if i > 0 {
      RunKeepsInv(job, run, steps, i - 1);
      StepKeepsInv(job, run[i - 1], steps[i - 1]);
      assert run[i - 1 + 1] == Do(job, run[i - 1], steps[i - 1]);
    }
  }

  /** As many distinct answers as partitions are answers of all partitions. */
  lemma AllReceived(job: Job, received: seq<Answer>, i: nat)
    requires Truthful(job, received) && Distinct(received) && |received| >= |job.truth| && i < |job.truth|
    ensures exists k :: 0 <= k < |received| && received[k].part == i
  {
    var n := |job.truth|;
    var parts: seq<nat> := seq(n, k requires 0 <= k < n => received[k].part);
    AllOperations(parts, n);
    assert i in parts;
    var k :| 0 <= k < |parts| && parts[k] == i;
    assert received[k].part == i;
  }

  /**
  Whatever the order of answers, timeout and searches told to stop: once the loop is left, the
  verdict is Illegal only if some partition is not linearizable, Ok only if all are, and Unknown
  only after a timeout. Without a timeout the verdict is decided, and a violation that was received
  is reported also after one.
  */
  lemma VerdictCorrect(job: Job, run: seq<Checker>, steps: seq<Step>, i: nat)
    requires IsRun(job, run, steps) && i < |run| && !run[i].looping
    ensures VerdictOf(run[i]) == Illegal ==> exists x :: 0 <= x < |job.truth| && !job.truth[x]
    ensures VerdictOf(run[i]) == Ok ==> forall x :: 0 <= x < |job.truth| ==> job.truth[x]
    ensures VerdictOf(run[i]) == Unknown ==> run[i].timedOut && job.hasTimeout
    ensures !run[i].timedOut ==> (VerdictOf(run[i]) == Ok <==> forall x :: 0 <= x < |job.truth| ==> job.truth[x])
    ensures VerdictOf(run[i]) == Illegal <==> exists k :: 0 <= k < |run[i].received| && !run[i].received[k].result
    ensures VerdictOf(run[i]) == Unknown <==>
            run[i].timedOut && forall k :: 0 <= k < |run[i].received| ==> run[i].received[k].result
  {
    var c := run[i];
    RunKeepsInv(job, run, steps, i);
    if !c.ok {
      var k :| 0 <= k < |c.received| && !c.received[k].result;
      assert !job.truth[c.received[k].part];
    } else if !c.timedOut {
      forall x | 0 <= x < |job.truth|
        ensures job.truth[x]
      {
        AllReceived(job, c.received, x);
        var k :| 0 <= k < |c.received| && c.received[k].part == x;
      }
    }
  }

  /** With no partition at all the loop is left by a timeout only, and the verdict is Unknown. */
  lemma NoPartitions(job: Job, run: seq<Checker>, steps: seq<Step>, i: nat)
    requires IsRun(job, run, steps) && i < |run| && |job.truth| == 0 && !run[i].looping
    ensures job.hasTimeout && VerdictOf(run[i]) == Unknown
  {
    var c := run[i];
    RunKeepsInv(job, run, steps, i);
    assert |c.received| == 0 || c.received[0].part < |job.truth|;
  }

  /** No search is told to stop, and the loop is not left, before the verdict is decided or the time is over. */
  ghost predicate Needed(job: Job, c: Checker) {
    && (c.kill <==> c.timedOut || (!c.ok && !job.computeInfo))
    && (!c.looping <==> c.kill || (|c.received| >= |job.truth| && |c.received| > 0))
    && (c.drained > 0 ==> !c.looping && job.computeInfo)
  }

  /**
  The searches are told to stop exactly when the time is over or a violation was received and is
  all that is wanted.
  */
  lemma {:induction false} StopsExactly(job: Job, run: seq<Checker>, steps: seq<Step>, i: nat)
    requires IsRun(job, run, steps) && i < |run|
    ensures Needed(job, run[i])
    decreases i
  {
    if i > 0 {
      StopsExactly(job, run, steps, i - 1);
      assert run[i - 1 + 1] == Do(job, run[i - 1], steps[i - 1]);
    }
  }

  // ---------- Progress ----------

  /** Every search that ended has an answer received or in the channel, and the loop waits for one more. */
  ghost predicate Pending(job: Job, c: Checker) {
    && (forall i :: i in c.ended ==> i < |job.truth|)
    && |c.received| + c.drained + |c.channel| == |c.ended|
    && (c.looping ==> c.drained == 0)
    && (c.looping && |job.truth| > 0 ==> |c.received| < |job.truth|)
    && (c.timedOut ==> !c.looping)
  }

  lemma {:induction false} RunKeepsPending(job: Job, run: seq<Checker>, steps: seq<Step>, i: nat)
    requires IsRun(job, run, steps) && i < |run|
    ensures Pending(job, run[i])
    decreases i
  {
    if i > 0 {
      RunKeepsPending(job, run, steps, i - 1);
      assert run[i - 1 + 1] == Do(job, run[i - 1], steps[i - 1]);
    }
  }

  /** Some search has not ended. */
  lemma OneLeft(n: nat, ended: set<nat>) returns (i: nat)
    requires |ended| < n
    ensures i < n && i !in ended
  {
    if forall x :: x in Range(n) ==> x in ended {
      SubsetSize(Range(n), ended);
    }
    i :| i in Range(n) && i !in ended;
  }

  /** Until the loop is left, something other than a timeout can happen. */
  ghost predicate NeverStuck(job: Job) {
    forall run: seq<Checker>, steps: seq<Step>, i: nat :: IsRun(job, run, steps) && i < |run| && run[i].looping ==>
        CanGoOn(job, run[i])
  }

  ghost predicate CanGoOn(job: Job, c: Checker) {
    exists step: Step :: !step.TimeOut? && Enabled(job, c, step)
  }

  lemma GoesOn(job: Job, c: Checker)
    requires Pending(job, c) && c.looping && |job.truth| > 0
    ensures CanGoOn(job, c)
  {
    if c.channel != [] {
      assert Enabled(job, c, Receive);
    } else {
      var i := OneLeft(|job.truth|, c.ended);
      assert Enabled(job, c, End(i, job.truth[i]));
    }
  }

  /** The loop needs no timeout to be left exactly when there is a partition. */
  lemma NeverStuckExactly(job: Job)
    ensures NeverStuck(job) <==> |job.truth| > 0
  {
    if |job.truth| > 0 {
      forall run: seq<Checker>, steps: seq<Step>, i: nat | IsRun(job, run, steps) && i < |run| && run[i].looping
        ensures CanGoOn(job, run[i])
      {
        RunKeepsPending(job, run, steps, i);
        GoesOn(job, run[i]);
      }
    } else {
      var run, steps: seq<Step> := [INITIAL], [];
      assert IsRun(job, run, steps) && run[0].looping;
      assert !CanGoOn(job, run[0]);
    }
  }

  /** What is left to do: two steps for each search that has not ended, one for each answer in the channel. */
  function LeftToDo(job: Job, c: Checker): int {
    2 * (|job.truth| - |c.ended|) + |c.channel|
  }

  /** Every run is short: no interleaving goes on for ever. */
  lemma {:induction false} RunsAreShort(job: Job, run: seq<Checker>, steps: seq<Step>, i: nat)
    requires IsRun(job, run, steps) && i < |run|
    ensures 0 <= LeftToDo(job, run[i])
    ensures i + LeftToDo(job, run[i]) <= 2 * |job.truth| + if run[i].timedOut then 1 else 0
    decreases i
  {
    RunKeepsPending(job, run, steps, i);
    SubsetSize(run[i].ended, Range(|job.truth|));
    if i > 0 {
      RunsAreShort(job, run, steps, i - 1);
      RunKeepsPending(job, run, steps, i - 1);
      assert run[i - 1 + 1] == Do(job, run[i - 1], steps[i - 1]);
      hide IsRun, Enabled, Do, LeftToDo;
      StepLeaves(job, run[i - 1], steps[i - 1]);
    }
  }

  lemma StepLeaves(job: Job, c: Checker, step: Step)
    requires Pending(job, c) && Enabled(job, c, step)
    ensures var c' := Do(job, c, step);
            if step.TimeOut? then LeftToDo(job, c') == LeftToDo(job, c) && !c.timedOut && c'.timedOut
            else LeftToDo(job, c') < LeftToDo(job, c) && c'.timedOut == c.timedOut
  {
  }

  /**
  A run that cannot go on, of a call with a partition, has left the loop after at most so many
  steps, all searches have ended, and if information is wanted all answers were waited for.
  */
  lemma LoopEnds(job: Job, run: seq<Checker>, steps: seq<Step>)
    requires IsRun(job, run, steps) && |job.truth| > 0 && !CanGoOn(job, run[|run| - 1])
    ensures !run[|run| - 1].looping && |steps| <= 2 * |job.truth| + 1
    ensures Range(|job.truth|) <= run[|run| - 1].ended
    ensures job.computeInfo ==> |run[|run| - 1].received| + run[|run| - 1].drained >= |job.truth|
  {
    var c := run[|steps|];
    RunKeepsPending(job, run, steps, |steps|);
    if c.looping {
      GoesOn(job, c);
    }
    RunsAreShort(job, run, steps, |steps|);
    forall x | x in Range(|job.truth|)
      ensures x in c.ended
    {
      assert !Enabled(job, c, End(x, job.truth[x]));
    }
    SubsetSize(Range(|job.truth|), c.ended);
    assert !Enabled(job, c, Drain);
  }

  /**
  The search of one partition, from its operations to its answer. The answer true is right however
  calls and returns at the same moment are sorted; without such ties the answer is exact.
  */
  method Search<S(!new), I(!new), O(!new)>(
    model: Model<S, I, O>, ops: seq<Operation<I, O>>, computeInfo: bool, kill: nat -> bool)
    returns (result: bool, ghost killed: bool)
    requires OpsOrdered(ops) && EqualRespected(model)
    ensures killed ==> !result && exists t :: kill(t)
    ensures result ==> Linearizable(OpsProblem(model, ops))
    ensures OpsTimed(ops) && !killed ==> (result <==> Linearizable(OpsProblem(model, ops)))
    ensures OpsTimed(ops) && (forall t :: !kill(t)) ==> (result <==> Linearizable(OpsProblem(model, ops)))
  {
    hide OpsOrdered, EqualRespected, Linearizable, IsEntriesOf, WellFormed;
    var entries := MakeEntries(ops);
    EntriesSound(model, entries, ops);
    if OpsTimed(ops) {
      EntriesSameVerdict(model, entries, ops);
    }
    var longest;
    result, longest, killed := CheckSingle.Check(model, entries, |ops|, computeInfo, kill);
  }

  /** The flag is never taken back. */
  lemma {:induction false} KillStays(job: Job, run: seq<Checker>, steps: seq<Step>, i: nat, j: nat)
    requires IsRun(job, run, steps) && i <= j < |run| && run[i].kill
    ensures run[j].kill
    decreases j
  {
    if i < j {
      KillStays(job, run, steps, i, j - 1);
      assert run[j - 1 + 1] == Do(job, run[j - 1], steps[j - 1]);
    }
  }

  // ---------- checkOperations on key/value histories ----------

  /** The job is that of the partitions of `ops`. */
  ghost predicate JobOf(job: Job, ops: History, parts: seq<History>, keys: seq<string>)
    requires OpsTimed(ops) && IsPartition(ops, parts, keys)
  {
    PartitionVerdict(ops, parts, keys);
    && |job.truth| == |parts|
    && forall i :: 0 <= i < |parts| ==> (job.truth[i] <==> Linearizable(OpsProblem(SINGLE_KEY, parts[i])))
  }

  /** A history gets the verdict Ok, without a timeout, exactly when it is linearizable as a whole. */
  lemma OperationsVerdict(
    ops: History, parts: seq<History>, keys: seq<string>, job: Job, run: seq<Checker>, steps: seq<Step>, i: nat)
    requires OpsTimed(ops) && IsPartition(ops, parts, keys) && JobOf(job, ops, parts, keys)
    requires IsRun(job, run, steps) && i < |run| && !run[i].looping
    ensures VerdictOf(run[i]) == Ok ==> Linearizable(OpsProblem(ALL_KEYS, ops))
    ensures VerdictOf(run[i]) == Illegal ==> !Linearizable(OpsProblem(ALL_KEYS, ops))
    ensures !run[i].timedOut ==> (VerdictOf(run[i]) == Ok <==> Linearizable(OpsProblem(ALL_KEYS, ops)))
  {
    hide OpsTimed, Linearizable, IsRun, SubHistory;
    VerdictCorrect(job, run, steps, i);
    PartitionVerdict(ops, parts, keys);
  }

  /**
  The goroutine of part `i` in state `now` of a run: whatever its looks at the flag found in the
  states before, its answer is one that the state machine allows.
  */
  method SearchPart(
    ghost ops: History, parts: seq<History>, ghost keys: seq<string>, computeInfo: bool, kill: nat -> bool,
    ghost job: Job, ghost run: seq<Checker>, ghost steps: seq<Step>, ghost now: nat, i: nat)
    returns (result: bool)
    requires OpsTimed(ops) && IsPartition(ops, parts, keys) && JobOf(job, ops, parts, keys)
    requires IsRun(job, run, steps) && now < |run| && i < |parts| && i !in run[now].ended
    requires forall t :: kill(t) ==> exists j :: 0 <= j <= now && run[j].kill
    ensures Enabled(job, run[now], End(i, result))
  {
    hide OpsOrdered, Linearizable, EqualRespected, IsRun, SubHistory;
    PartitionVerdict(ops, parts, keys);
    EqualityRespected();
    ghost var killed;
    result, killed := Search(SINGLE_KEY, parts[i], computeInfo, kill);
    if killed {
      ghost var t :| kill(t);
      ghost var j :| 0 <= j <= now && run[j].kill;
      KillStays(job, run, steps, j, now);
    }
  }
}
