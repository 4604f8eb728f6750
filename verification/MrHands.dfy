/** When the files of every task pass through one hand: with one worker, and when nothing is handed out again. */
module MrHands {
  import opened MrMaster
  import opened MrGroup
  import opened KeyOrder
  import opened MrSystem

  /** The master takes no task under way for failed. */
  ghost predicate Quiet(st: State, step: Step) {
    step.Late? ==> CheckLate(st.books, step.late) == st.books
  }

  predicate SameTask(a: Worker, b: Worker) {
    (a.Mapping? && b.Mapping? && a.id == b.id) || (HoldsReduce(a) && HoldsReduce(b) && a.id == b.id)
  }

  predicate HoldsReduce(w: Worker) {
    w.Opening? || w.Reducing? || w.Writing?
  }

  /** The state of the task that the worker holds. */
  predicate TaskIs(b: Books, w: Worker, state: TaskState) {
    && (w.Mapping? ==> w.id < |b.maps| && b.maps[w.id] == state)
    && (HoldsReduce(w) ==> w.id < |b.reduces| && b.reduces[w.id] == state)
  }

  predicate Unfinished(b: Books, w: Worker) {
    TaskIs(b, w, Todo) || TaskIs(b, w, Doing)
  }

  /** Workers hold different tasks, none of them finished; and if there are several, all are under way. */
  ghost predicate Apart(st: State) {
    && (forall w :: 0 <= w < |st.workers| ==> Unfinished(st.books, st.workers[w]))
    && (forall v, w :: 0 <= v < w < |st.workers| ==> !SameTask(st.workers[v], st.workers[w]))
    && (|st.workers| > 1 ==> forall w :: 0 <= w < |st.workers| ==> TaskIs(st.books, st.workers[w], Doing))
  }

  lemma HandOutKeepsApart(job: Job, st: State, step: Step)
    requires Enabled(job, st, step) && Apart(st) && (step.AskMap? || step.AskReduce?)
    ensures Apart(Do(job, st, step))
  {
    hide IsSorting, IsOutput, GroupsFrom, AddRecords, Bucket, File;
    var st' := Do(job, st, step);
    forall v | 0 <= v < |st'.workers|
      ensures Unfinished(st'.books, st'.workers[v])
      ensures |st'.workers| > 1 ==> TaskIs(st'.books, st'.workers[v], Doing)
      ensures v != step.w ==> !SameTask(st'.workers[v], st'.workers[step.w])
    {
      assert Unfinished(st.books, st.workers[v]) && Unfinished(st.books, st.workers[step.w]);
      assert v != step.w ==> !SameTask(st.workers[v], st.workers[step.w]);
    }
  }

  lemma FinishKeepsApart(job: Job, st: State, step: Step)
    requires Enabled(job, st, step) && Apart(st) && (step.EndMap? || step.EndReduce?)
    ensures Apart(Do(job, st, step))
  {
    hide IsSorting, IsOutput, GroupsFrom, AddRecords, Bucket, File;
    var st' := Do(job, st, step);
    forall v | 0 <= v < |st'.workers|
      ensures Unfinished(st'.books, st'.workers[v])
      ensures |st'.workers| > 1 ==> TaskIs(st'.books, st'.workers[v], Doing)
      ensures v != step.w ==> !SameTask(st'.workers[v], st'.workers[step.w])
    {
      assert Unfinished(st.books, st.workers[v]) && Unfinished(st.books, st.workers[step.w]);
      assert v != step.w ==> !SameTask(st.workers[v], st.workers[step.w]);
    }
  }

  lemma LateKeepsApart(job: Job, st: State, step: Step)
    requires Enabled(job, st, step) && Apart(st) && step.Late? && (|st.workers| > 1 ==> Quiet(st, step))
    ensures Apart(Do(job, st, step))
  {
    forall v | 0 <= v < |st.workers|
      ensures Unfinished(Do(job, st, step).books, st.workers[v])
    {
      assert Unfinished(st.books, st.workers[v]);
    }
  }

  lemma WorkKeepsApart(job: Job, st: State, step: Step)
    requires Enabled(job, st, step) && Apart(st) && !step.AskMap? && !step.AskReduce? && !step.EndMap?
    requires !step.EndReduce? && !step.Late?
    ensures Apart(Do(job, st, step))
  {
    hide IsSorting, IsOutput, GroupsFrom, AddRecords, Bucket, File;
    var st' := Do(job, st, step);
    forall v | 0 <= v < |st'.workers|
      ensures Unfinished(st'.books, st'.workers[v])
      ensures |st'.workers| > 1 ==> TaskIs(st'.books, st'.workers[v], Doing)
      ensures v != step.w ==> !SameTask(st'.workers[v], st'.workers[step.w])
    {
      assert Unfinished(st.books, st.workers[v]) && Unfinished(st.books, st.workers[step.w]);
      assert v != step.w ==> !SameTask(st.workers[v], st.workers[step.w]);
    }
  }

  lemma StepKeepsApart(job: Job, st: State, step: Step)
    requires Enabled(job, st, step) && Apart(st) && (|st.workers| > 1 ==> Quiet(st, step))
    ensures Apart(Do(job, st, step))
  {
    hide Apart, Enabled, Do;
    if step.AskMap? || step.AskReduce? {
      HandOutKeepsApart(job, st, step);
    } else if step.EndMap? || step.EndReduce? {
      FinishKeepsApart(job, st, step);
    } else if step.Late? {
      LateKeepsApart(job, st, step);
    } else {
      WorkKeepsApart(job, st, step);
    }
  }

  lemma ApartIsOneHand(job: Job, st: State, step: Step)
    requires Inv(job, st) && Apart(st) && Enabled(job, st, step)
    ensures OneHand(job, st, step)
  {
    hide PartOk, MergedOk, FileOk, LinesFor, AllToDo, Emits, NoEmptyRecord, OutputsOk, WriterOk, ReaderOk, NoFiles;
    hide IsSorting, IsOutput, HandOut;
    var w := st.workers[step.w];
    assert WorkerOk(job, st, w) && Unfinished(st.books, w);
    if step.AppendRecord? && !w.wrote {
      NoOtherWriter(st, step.w);
      FilesOrWriter(job, st, w.id);
    }
  }

  lemma FilesOrWriter(job: Job, st: State, m: nat)
    requires Inv(job, st) && m < |job.files| && st.books.maps[m] != Finished
    ensures NoFiles(st, m, job.nReduce) || HasWriter(st, m)
  {
  }

  lemma NoOtherWriter(st: State, w: nat)
    requires Apart(st) && w < |st.workers| && st.workers[w].Mapping? && !st.workers[w].wrote
    ensures !HasWriter(st, st.workers[w].id)
  {
    forall v | 0 <= v < |st.workers| && v != w
      ensures !SameTask(st.workers[v], st.workers[w])
    {
      assert v < w || w < v;
    }
  }

  lemma {:induction false} ApartUpTo(job: Job, run: seq<State>, steps: seq<Step>, i: nat)
    requires IsRun(job, run, steps) && i < |run|
    requires |run[0].workers| > 1 ==> forall k :: 0 <= k < |steps| ==> Quiet(run[k], steps[k])
    ensures Inv(job, run[i]) && Apart(run[i]) && |run[i].workers| == |run[0].workers|
    decreases i
  {
    if i == 0 {
      InitInv(job, run[0]);
    } else {
      hide Inv, Apart, Enabled, Quiet, Init;
      ApartUpTo(job, run, steps, i - 1);
      var st, step := run[i - 1], steps[i - 1];
      assert Enabled(job, run[i - 1], steps[i - 1]) && run[i - 1 + 1] == Do(job, run[i - 1], steps[i - 1]);
      ApartIsOneHand(job, st, step);
      StepKeepsInv(job, st, step);
      StepKeepsApart(job, st, step);
      SameWorkers(job, st, step);
    }
  }

  lemma SameWorkers(job: Job, st: State, step: Step)
    requires Enabled(job, st, step)
    ensures |Do(job, st, step).workers| == |st.workers|
  {
  }

  /** A run with one worker, or one in which nothing is handed out again. */
  lemma OneHandSuffices(job: Job, run: seq<State>, steps: seq<Step>)
    requires IsRun(job, run, steps)
    requires |run[0].workers| <= 1 || forall k :: 0 <= k < |steps| ==> Quiet(run[k], steps[k])
    ensures IsOneHandRun(job, run, steps)
  {
    hide Inv, Apart, Do, Quiet, OneHand;
    forall i | 0 <= i < |steps|
      ensures OneHand(job, run[i], steps[i])
    {
      ApartUpTo(job, run, steps, i);
      ApartIsOneHand(job, run[i], steps[i]);
    }
  }
}
