/**
Every history of the service is linearizable: the commands take effect in the order of their
first positions in the committed log.
*/
module KvLinearizable {
  import opened RaftTypes
  import opened KvServer
  import opened KvService
  import KvModel
  import opened LinModel
  import LinSearch
  import Operations
  import Locality

  function KindOf(kind: OpKind): KvModel.KvOp {
    match kind
    case Get => KvModel.Get
    case Put => KvModel.Put
    case Append => KvModel.Append
  }

  /** The input of a command; a Get has no value. */
  function InputOf(op: Op): KvModel.KvInput {
    KvModel.KvInput(KindOf(op.kind), op.key, if op.kind.Get? then "" else op.value)
  }

  /** `op` extends the record of a command: a command under way may be given any output and a later return. */
  ghost predicate Completes(op: KvModel.KvOperation, r: Record, now: nat) {
    && op.clientId == r.op.clerkId
    && op.input == InputOf(r.op)
    && op.call == r.call
    && (if r.returned then op.ret == r.ret && op.output == KvModel.KvOutput(r.output) else op.ret >= now)
  }

  /**
  A completion of the history: the commands at `idx`, which are all that returned and perhaps
  some that did not, the latter with an output and a return added.
  */
  ghost predicate IsCompletion(records: seq<Record>, now: nat, idx: seq<nat>, ops: seq<KvModel.KvOperation>) {
    && |ops| == |idx|
    && (forall j, k :: 0 <= j < k < |idx| ==> idx[j] < idx[k])
    && (forall k :: 0 <= k < |idx| ==> idx[k] < |records| && Completes(ops[k], records[idx[k]], now))
    && (forall x :: 0 <= x < |records| && records[x].returned ==> x in idx)
  }

  /** Linearizability of a history with commands under way. */
  ghost predicate HistoryLinearizable(records: seq<Record>, now: nat) {
    exists idx, ops :: IsCompletion(records, now, idx, ops) && Operations.OpsTimed(ops)
      && LinSearch.Linearizable(Operations.OpsProblem(KvModel.ALL_KEYS, ops))
  }

  // ---------- The completion ----------

  ghost predicate HasRecord(s: Service, n: nat, x: int) {
    0 <= x < n <= |s.records| && Occurs(s.log, s.records[x].op)
  }

  /** The records below `n` whose commands are in the log. */
  ghost function InLog(s: Service, n: nat): (idx: seq<nat>)
    requires n <= |s.records|
    ensures forall j, k :: 0 <= j < k < |idx| ==> idx[j] < idx[k]
    ensures forall k :: 0 <= k < |idx| ==> HasRecord(s, n, idx[k])
    ensures forall x :: HasRecord(s, n, x) ==> x in idx
  {
    if n == 0 then []
    else
      var pre := InLog(s, n - 1);
      assert forall x :: HasRecord(s, n, x) && x < n - 1 ==> HasRecord(s, n - 1, x);
      assert forall k :: 0 <= k < |pre| ==> HasRecord(s, n - 1, pre[k]);
      if Occurs(s.log, s.records[n - 1].op) then pre + [n - 1] else pre
  }

  /** The first position of a command that is in the log. */
  ghost function First(log: seq<Op>, op: Op): (i: nat)
    requires Occurs(log, op)
    ensures FirstAt(log, op, i)
  {
    var k :| 0 <= k < |log| && SameCommand(log[k], op);
    var i := SomeFirst(log, op, k);
    i
  }

  ghost function SomeFirst(log: seq<Op>, op: Op, k: nat): (i: nat)
    requires k < |log| && SameCommand(log[k], op)
    ensures FirstAt(log, op, i)
    decreases k
  {
    if j :| 0 <= j < k && SameCommand(log[j], op) then SomeFirst(log, op, j) else k
  }

  ghost function OpOf(s: Service, x: nat): KvModel.KvOperation
    requires x < |s.records| && Occurs(s.log, s.records[x].op)
  {
    var r := s.records[x];
    if r.returned then Operation(r.op.clerkId, InputOf(r.op), r.call, KvModel.KvOutput(r.output), r.ret)
    else Operation(r.op.clerkId, InputOf(r.op), r.call, KvModel.KvOutput(ValueAt(s.log, First(s.log, r.op))), s.now)
  }

  ghost function OpsOf(s: Service): (ops: seq<KvModel.KvOperation>)
    ensures |ops| == |InLog(s, |s.records|)|
  {
    var idx := InLog(s, |s.records|);
    assert forall k :: 0 <= k < |idx| ==> HasRecord(s, |s.records|, idx[k]);
    seq(|idx|, k requires 0 <= k < |idx| => OpOf(s, idx[k]))
  }

  lemma CompletionIs(s: Service)
    requires Inv(s)
    ensures IsCompletion(s.records, s.now, InLog(s, |s.records|), OpsOf(s)) && Operations.OpsTimed(OpsOf(s))
  {
    hide TimeOk, CommandsOk, Numbered, ValueAt, Occurs, InLog, Answers, FirstAt;
    var idx, ops := InLog(s, |s.records|), OpsOf(s);
    forall x | 0 <= x < |s.records| && s.records[x].returned
      ensures x in idx
    {
      assert Answers(s.log, s.records[x].op, s.records[x].output);
      ReturnedOccurs(s.log, s.records[x].op, s.records[x].output);
      assert HasRecord(s, |s.records|, x);
    }
    forall k | 0 <= k < |idx|
      ensures HasRecord(s, |s.records|, idx[k]) && ops[k] == OpOf(s, idx[k])
    {
    }
    forall j, k | 0 <= j < |ops| && 0 <= k < |ops|
      ensures ops[j].call == ops[k].call ==> j == k
      ensures ops[j].call != ops[k].ret
      ensures ops[j].call < ops[j].ret
    {
      var x, y := idx[j], idx[k];
      assert x < y ==> s.records[x].call < s.records[y].call;
      assert y < x ==> s.records[y].call < s.records[x].call;
    }
  }

  lemma ReturnedOccurs(log: seq<Op>, op: Op, value: string)
    requires Answers(log, op, value)
    ensures Occurs(log, op)
  {
  }

  // ---------- The order of effect ----------

  /** The positions below `i` at which a command takes effect. */
  ghost function NewPositions(log: seq<Op>, i: nat): (np: seq<nat>)
    requires i <= |log|
    ensures forall t :: 0 <= t < |np| ==> np[t] < i && IsNew(log, np[t])
    ensures forall t, u :: 0 <= t < u < |np| ==> np[t] < np[u]
    ensures forall q :: 0 <= q < i && IsNew(log, q) ==> q in np
  {
    if i == 0 then []
    else if IsNew(log, i - 1) then NewPositions(log, i - 1) + [i - 1]
    else NewPositions(log, i - 1)
  }

  /** Where a command of the log stands among the operations of the completion. */
  ghost function RankOf(s: Service, q: nat): (k: nat)
    requires Inv(s) && q < |s.log|
    ensures k < |InLog(s, |s.records|)| && s.records[InLog(s, |s.records|)[k]].op == s.log[q]
  {
    var idx := InLog(s, |s.records|);
    assert Known(s, s.log[q]);
    var x :| 0 <= x < |s.records| && s.records[x].op == s.log[q];
    assert SameCommand(s.log[q], s.records[x].op);
    assert HasRecord(s, |s.records|, x);
    var k :| 0 <= k < |idx| && idx[k] == x;
    k
  }

  ghost function OrderUpTo(s: Service, i: nat): (order: seq<nat>)
    requires Inv(s) && i <= |s.log|
    ensures |order| == |NewPositions(s.log, i)|
    ensures forall t :: 0 <= t < |order| ==> order[t] == RankOf(s, NewPositions(s.log, i)[t])
  {
    var np := NewPositions(s.log, i);
    seq(|np|, t requires 0 <= t < |np| => RankOf(s, np[t]))
  }

  lemma OrderSnoc(s: Service, i: nat)
    requires Inv(s) && i < |s.log|
    ensures OrderUpTo(s, i + 1) == if IsNew(s.log, i) then OrderUpTo(s, i) + [RankOf(s, i)] else OrderUpTo(s, i)
  {
    hide Inv, IsNew;
    var np, np' := NewPositions(s.log, i), NewPositions(s.log, i + 1);
    assert np' == if IsNew(s.log, i) then np + [i] else np;
  }

  lemma UniqueFirst(log: seq<Op>, op: Op, i: nat, j: nat)
    requires FirstAt(log, op, i) && FirstAt(log, op, j)
    ensures i == j
  {
  }

  /** A command that takes effect at position `i` behaves as its operation in the completion says. */
  lemma EffectIs(s: Service, i: nat)
    requires Inv(s) && i < |s.log| && IsNew(s.log, i)
    ensures RankOf(s, i) < |OpsOf(s)|
    ensures var op := OpsOf(s)[RankOf(s, i)];
            var store := StoreOf(s.log[..i]);
            KvModel.StoreStep(store, op.input, op.output) == (true, Written(store, s.log[i]))
  {
    var k := RankOf(s, i);
    var x := InLog(s, |s.records|)[k];
    var op := OpsOf(s)[k];
    assert HasRecord(s, |s.records|, x);
    assert op == OpOf(s, x);
    FirstIsNew(s, i);
    OutputAt(s, i, x);
  }

  lemma OutputAt(s: Service, i: nat, x: nat)
    requires Inv(s) && i < |s.log| && FirstAt(s.log, s.log[i], i) && HasRecord(s, |s.records|, x)
    requires s.records[x].op == s.log[i]
    ensures s.log[i].kind.Get? ==> OpOf(s, x).output.value == ValueAt(s.log, i)
  {
    hide Numbered, Clocked, TimeOk, CommandsOk, ValueAt;
    var r := s.records[x];
    if r.returned {
      assert Answers(s.log, r.op, r.output);
      var j: nat :| FirstAt(s.log, r.op, j) && s.log[j] == r.op && (r.op.kind.Get? ==> r.output == ValueAt(s.log, j));
      UniqueFirst(s.log, r.op, i, j);
    } else {
      UniqueFirst(s.log, r.op, i, First(s.log, r.op));
    }
  }

  ghost predicate LegalUpTo(s: Service, i: nat)
    requires Inv(s) && i <= |s.log|
  {
    var p := Operations.OpsProblem(KvModel.ALL_KEYS, OpsOf(s));
    LinSearch.After(p, OrderUpTo(s, i)) == StoreOf(s.log[..i]) && LinSearch.Legal(p, OrderUpTo(s, i))
  }

  /** Running the completion in the order of effect produces the store of the log. */
  lemma {:induction false} OrderIsLegal(s: Service, i: nat)
    requires Inv(s) && i <= |s.log|
    ensures LegalUpTo(s, i)
    decreases i
  {
    hide Inv, LegalUpTo, IsNew;
    if i == 0 {
      NothingIsLegal(s);
    } else {
      OrderIsLegal(s, i - 1);
      if IsNew(s.log, i - 1) {
        LegalNew(s, i - 1);
      } else {
        LegalOld(s, i - 1);
      }
    }
  }

  lemma NothingIsLegal(s: Service)
    requires Inv(s)
    ensures LegalUpTo(s, 0)
  {
    hide Inv, LinSearch.Legal, LinSearch.After, OpsOf;
    assert OrderUpTo(s, 0) == [];
    EmptyIsLegal(Operations.OpsProblem(KvModel.ALL_KEYS, OpsOf(s)));
  }

  lemma LegalOld(s: Service, i: nat)
    requires Inv(s) && i < |s.log| && LegalUpTo(s, i) && !IsNew(s.log, i)
    ensures LegalUpTo(s, i + 1)
  {
    hide Inv, LinSearch.Legal, LinSearch.After, OpsOf, OrderUpTo, StoreOf, IsNew;
    OrderSnoc(s, i);
    StoreSame(s.log, i);
  }

  lemma StoreSame(log: seq<Op>, i: nat)
    requires i < |log| && !IsNew(log, i)
    ensures StoreOf(log[..i + 1]) == StoreOf(log[..i])
  {
    var cut := log[..i + 1];
    assert cut[..i] == log[..i];
    NewInPrefix(log, i + 1, i);
  }

  lemma LegalNew(s: Service, i: nat)
    requires Inv(s) && i < |s.log| && LegalUpTo(s, i) && IsNew(s.log, i)
    ensures LegalUpTo(s, i + 1)
  {
    hide Inv, IsNew, StoreOf, LinSearch.Legal, LinSearch.After, OpsOf, OrderUpTo, RankOf, KvModel.StoreStep, Written;
    var p := Operations.OpsProblem(KvModel.ALL_KEYS, OpsOf(s));
    OrderSnoc(s, i);
    EffectIs(s, i);
    LegalMore(p, OrderUpTo(s, i), RankOf(s, i));
    StoreMore(s.log, i);
  }

  lemma LegalMore<S>(p: LinSearch.Problem<S>, order: seq<nat>, k: nat)
    ensures LinSearch.After(p, order + [k]) == p.step(LinSearch.After(p, order), k).1
    ensures LinSearch.Legal(p, order + [k]) <==> LinSearch.Legal(p, order) && p.step(LinSearch.After(p, order), k).0
  {
    hide LinSearch.Legal;
    assert (order + [k])[..|order|] == order;
    LinSearch.LegalSnoc(p, order + [k]);
  }

  lemma StoreMore(log: seq<Op>, i: nat)
    requires i < |log| && IsNew(log, i)
    ensures StoreOf(log[..i + 1]) == Written(StoreOf(log[..i]), log[i])
  {
    var cut := log[..i + 1];
    assert cut[..i] == log[..i];
    assert IsNew(cut, i);
  }

  lemma EmptyIsLegal<S>(p: LinSearch.Problem<S>)
    ensures LinSearch.After(p, []) == p.init && LinSearch.Legal(p, [])
  {
  }

  /** The order of effect contains every operation of the completion once. */
  lemma OrderIsComplete(s: Service)
    requires Inv(s)
    ensures var order := OrderUpTo(s, |s.log|);
            && |order| == |OpsOf(s)|
            && (forall t :: 0 <= t < |order| ==> order[t] < |OpsOf(s)|)
            && (forall t, u :: 0 <= t < u < |order| ==> order[t] != order[u])
  {
    hide Inv, IsNew;
    var order, np, idx := OrderUpTo(s, |s.log|), NewPositions(s.log, |s.log|), InLog(s, |s.records|);
    forall t, u | 0 <= t < u < |order|
      ensures order[t] != order[u]
    {
      NewDiffer(s, np[t], np[u]);
    }
    forall k | 0 <= k < |idx|
      ensures k in order
    {
      assert HasRecord(s, |s.records|, idx[k]);
      var f := First(s.log, s.records[idx[k]].op);
      RankOfFirst(s, k, f);
      var t :| 0 <= t < |np| && np[t] == f;
      assert order[t] == k;
    }
    Locality.AllOnce(order, |idx|);
  }

  lemma NewDiffer(s: Service, q: nat, r: nat)
    requires Inv(s) && q < r < |s.log| && IsNew(s.log, q) && IsNew(s.log, r)
    ensures RankOf(s, q) != RankOf(s, r)
  {
  }

  lemma RankOfFirst(s: Service, k: nat, f: nat)
    requires Inv(s) && k < |InLog(s, |s.records|)| && HasRecord(s, |s.records|, InLog(s, |s.records|)[k])
    requires FirstAt(s.log, s.records[InLog(s, |s.records|)[k]].op, f)
    ensures IsNew(s.log, f) && RankOf(s, f) == k
  {
    hide TimeOk, RepliesOk, Clocked, InLog;
    var idx := InLog(s, |s.records|);
    var x, y := idx[k], idx[RankOf(s, f)];
    assert HasRecord(s, |s.records|, y);
    FirstAtItself(s.log, s.records[x].op, f);
    FirstIsNew(s, f);
    SameRecord(s, x, y);
    assert k < RankOf(s, f) ==> x < y;
    assert RankOf(s, f) < k ==> y < x;
  }

  lemma FirstAtItself(log: seq<Op>, op: Op, f: nat)
    requires FirstAt(log, op, f)
    ensures FirstAt(log, log[f], f)
  {
  }

  /** The order of effect respects real time. */
  lemma OrderRespectsTime(s: Service, t: nat, u: nat)
    requires Inv(s) && t < u < |OrderUpTo(s, |s.log|)|
    requires forall v :: 0 <= v < |OrderUpTo(s, |s.log|)| ==> OrderUpTo(s, |s.log|)[v] < |OpsOf(s)|
    ensures var order := OrderUpTo(s, |s.log|);
            !(OpsOf(s)[order[u]].ret < OpsOf(s)[order[t]].call)
  {
    hide Numbered, CommandsOk, RepliesOk, ValueAt, InLog, NewPositions;
    var order, np, idx := OrderUpTo(s, |s.log|), NewPositions(s.log, |s.log|), InLog(s, |s.records|);
    var x, y := idx[order[t]], idx[order[u]];
    assert HasRecord(s, |s.records|, x) && HasRecord(s, |s.records|, y);
    assert OpsOf(s)[order[t]] == OpOf(s, x) && OpsOf(s)[order[u]] == OpOf(s, y);
    FirstIsNew(s, np[t]);
    FirstIsNew(s, np[u]);
    assert np[t] < np[u];
    if s.records[y].returned && s.records[y].ret < s.records[x].call {
      OrderedMeansBefore(s.log, s.records[y].op, s.records[x].op, np[u], np[t]);
    }
  }

  lemma OrderedMeansBefore(log: seq<Op>, a: Op, b: Op, i: nat, j: nat)
    requires Ordered(log, a, b) && FirstAt(log, a, i) && FirstAt(log, b, j)
    ensures i < j
  {
    var k: nat :| k < j && FirstAt(log, a, k);
    UniqueFirst(log, a, i, k);
  }

  /** Every state of the service has a linearizable history. */
  lemma InvLinearizable(s: Service)
    requires Inv(s)
    ensures HistoryLinearizable(s.records, s.now)
  {
    hide Inv, LinSearch.Legal, IsCompletion, Operations.OpsTimed, OpsOf, OrderUpTo;
    var idx, ops := InLog(s, |s.records|), OpsOf(s);
    CompletionIs(s);
    var p := Operations.OpsProblem(KvModel.ALL_KEYS, ops);
    var order := OrderUpTo(s, |s.log|);
    OrderIsComplete(s);
    OrderIsLegal(s, |s.log|);
    forall t, u | 0 <= t < u < |order|
      ensures !(p.ret[order[u]] < p.call[order[t]])
    {
      OrderRespectsTime(s, t, u);
    }
    assert s.log[..|s.log|] == s.log;
    assert LinSearch.IsLinearization(p, order);
  }

  /** End-to-end linearizability of the service over any growing committed log. */
  lemma ServiceLinearizable(run: seq<Service>, steps: seq<Step>, i: nat)
    requires IsRun(run, steps) && i < |run|
    ensures HistoryLinearizable(run[i].records, run[i].now)
  {
    RunKeepsInv(run, steps, i);
    InvLinearizable(run[i]);
  }

  lemma InvAnswersAgree(s: Service, a: Reply, b: Reply, x: nat)
    requires Inv(s) && a in s.replies && b in s.replies
    requires x < |s.records| && s.records[x].op.kind.Get?
    requires Answered(a, s.records[x].op) && Answered(b, s.records[x].op)
    ensures a.value == b.value
  {
    hide Numbered, Clocked, TimeOk, CommandsOk, ValueAt;
    var op := s.records[x].op;
    assert Answers(s.log, op, a.value) && Answers(s.log, op, b.value);
    var f: nat :| FirstAt(s.log, op, f) && s.log[f] == op && (op.kind.Get? ==> a.value == ValueAt(s.log, f));
    var g: nat :| FirstAt(s.log, op, g) && s.log[g] == op && (op.kind.Get? ==> b.value == ValueAt(s.log, g));
    UniqueFirst(s.log, op, f, g);
  }

  /** All OK answers to one Get, from any server and any log position, carry the same value. */
  lemma AnswersAgree(run: seq<Service>, steps: seq<Step>, i: nat, a: Reply, b: Reply, x: nat)
    requires IsRun(run, steps) && i < |run| && a in run[i].replies && b in run[i].replies
    requires x < |run[i].records| && run[i].records[x].op.kind.Get?
    requires Answered(a, run[i].records[x].op) && Answered(b, run[i].records[x].op)
    ensures a.value == b.value
  {
    RunKeepsInv(run, steps, i);
    InvAnswersAgree(run[i], a, b, x);
  }
}
