/** From recorded operations to the entries that the search works on. */
module Operations {
  import opened LinSearch
  import opened LinModel

  /** Every operation is called before it returns. */
  ghost predicate OpsOrdered<I, O>(ops: seq<Operation<I, O>>) {
    forall x :: 0 <= x < |ops| ==> ops[x].call < ops[x].ret
  }

  /** And no call happens at the moment of a return. */
  ghost predicate OpsTimed<I, O>(ops: seq<Operation<I, O>>) {
    && OpsOrdered(ops)
    && (forall x, y :: 0 <= x < |ops| && 0 <= y < |ops| ==> ops[x].call != ops[y].ret)
  }

  /** The linearization problem of recorded operations. */
  ghost function OpsProblem<S(!new), I, O>(m: Model<S, I, O>, ops: seq<Operation<I, O>>): (p: Problem<S>)
    ensures p.n == |ops| == |p.call| == |p.ret| && p.init == m.init && p.equal == m.equal
    ensures forall x :: 0 <= x < |ops| ==> p.call[x] == ops[x].call && p.ret[x] == ops[x].ret
    ensures forall s, x: nat :: x < |ops| ==> p.step(s, x) == m.step(s, ops[x].input, ops[x].output)
    ensures forall s, x: nat :: x >= |ops| ==> p.step(s, x) == (false, s)
    ensures OpsOrdered(ops) ==> Timed(p)
    ensures OpsTimed(ops) ==> Timed(p)
  {
    Problem(
      |ops|,
      seq(|ops|, x requires 0 <= x < |ops| => ops[x].call),
      seq(|ops|, x requires 0 <= x < |ops| => ops[x].ret),
      m.init,
      (s: S, x: nat) => if x < |ops| then m.step(s, ops[x].input, ops[x].output) else (false, s),
      m.equal)
  }

  // ---------- Problems with the same precedence have the same linearizations ----------

  /** The same operations, of which `q` puts no more in order than `p` does. */
  ghost predicate Looser<S(!new)>(p: Problem<S>, q: Problem<S>)
    requires Timed(p) && Timed(q)
  {
    && p.n == q.n
    && p.init == q.init
    && (forall s, x: nat :: p.step(s, x) == q.step(s, x))
    && forall x, y :: 0 <= x < p.n && 0 <= y < p.n && q.ret[x] < q.call[y] ==> p.ret[x] < p.call[y]
  }

  lemma {:induction false} SameAfter<S(!new)>(p: Problem<S>, q: Problem<S>, order: seq<nat>)
    requires Timed(p) && Timed(q) && Looser(p, q)
    ensures After(p, order) == After(q, order)
    decreases |order|
  {
    if order != [] {
      SameAfter(p, q, order[..|order| - 1]);
    }
  }

  lemma FewerConstraints<S(!new)>(p: Problem<S>, q: Problem<S>, order: seq<nat>)
    requires Timed(p) && Timed(q) && Looser(p, q) && IsLinearization(p, order)
    ensures IsLinearization(q, order)
  {
    forall k | 0 <= k < |order|
      ensures q.step(After(q, order[..k]), order[k]).0
    {
      SameAfter(p, q, order[..k]);
      assert p.step(After(p, order[..k]), order[k]).0;
    }
  }

  lemma SameVerdict<S(!new)>(p: Problem<S>, q: Problem<S>)
    requires Timed(p) && Timed(q) && Looser(p, q) && Looser(q, p)
    ensures Linearizable(p) <==> Linearizable(q)
  {
    if Linearizable(p) {
      var order :| IsLinearization(p, order);
      FewerConstraints(p, q, order);
    }
    if Linearizable(q) {
      var order :| IsLinearization(q, order);
      FewerConstraints(q, p, order);
    }
  }

  // ---------- Entries ----------

  function CallOf<I, O>(op: Operation<I, O>, id: nat): Entry<I, O> {
    Entry(false, Input(op.input), id, op.call)
  }

  function ReturnOf<I, O>(op: Operation<I, O>, id: nat): Entry<I, O> {
    Entry(true, Output(op.output), id, op.ret)
  }

  function EntryOf<I, O>(ops: seq<Operation<I, O>>, id: nat, isReturn: bool): Entry<I, O>
    requires id < |ops|
  {
    if isReturn then ReturnOf(ops[id], id) else CallOf(ops[id], id)
  }

  ghost predicate SortedByTime<I, O>(h: seq<Entry<I, O>>) {
    forall j, k :: 0 <= j < k < |h| ==> h[j].time <= h[k].time
  }

  /** `h` holds the call and the return of every operation once, and nothing else. */
  ghost predicate HoldsEntries<I, O>(h: seq<Entry<I, O>>, ops: seq<Operation<I, O>>) {
    && |h| == 2 * |ops|
    && (forall k :: 0 <= k < |h| ==> 0 <= h[k].id < |ops| && h[k] == EntryOf(ops, h[k].id, h[k].isReturn))
    && (forall j, k :: 0 <= j < k < |h| ==> h[j] != h[k])
    && (forall x, isReturn :: 0 <= x < |ops| ==> EntryOf(ops, x, isReturn) in h)
  }

  /** The same, sorted by time. */
  ghost predicate IsEntriesOf<I, O>(h: seq<Entry<I, O>>, ops: seq<Operation<I, O>>) {
    HoldsEntries(h, ops) && SortedByTime(h)
  }

  /** A call and a return at the same moment are sorted with the call first. */
  ghost predicate TiesCallFirst<I, O>(h: seq<Entry<I, O>>) {
    forall j, k :: 0 <= j < k < |h| && h[j].time == h[k].time && h[j].isReturn ==> h[k].isReturn
  }

  lemma NoTies<I, O>(h: seq<Entry<I, O>>, ops: seq<Operation<I, O>>)
    requires OpsTimed(ops) && IsEntriesOf(h, ops)
    ensures TiesCallFirst(h)
  {
  }

  lemma EntriesWellFormed<I, O>(h: seq<Entry<I, O>>, ops: seq<Operation<I, O>>)
    requires OpsOrdered(ops) && IsEntriesOf(h, ops)
    ensures WellFormed(h, |ops|)
  {
    forall j, k | 0 <= j < k < |h| && h[j].id == h[k].id
      ensures !h[j].isReturn && h[k].isReturn
    {
      assert h[j] != h[k] && h[j].time <= h[k].time;
    }
    forall x | 0 <= x < |ops|
      ensures HasBoth(h, x)
    {
      var j :| 0 <= j < |h| && h[j] == EntryOf(ops, x, false);
      var k :| 0 <= k < |h| && h[k] == EntryOf(ops, x, true);
      assert IsEntry(h, j, false, x) && IsEntry(h, k, true, x);
    }
  }

  /**
  Sorting by time keeps the order of a return and a later call, and adds none if at equal times
  calls come first.
  */
  lemma EntriesOrder<S(!new), I(!new), O(!new)>(m: Model<S, I, O>, h: seq<Entry<I, O>>, ops: seq<Operation<I, O>>)
    requires OpsOrdered(ops) && IsEntriesOf(h, ops) && WellFormed(h, |ops|)
    ensures var p, q := OpsProblem(m, ops), ProblemOf(m, h, |ops|);
            && (forall s, x: nat :: p.step(s, x) == q.step(s, x))
            && (forall x, y :: 0 <= x < p.n && 0 <= y < p.n && p.ret[x] < p.call[y] ==> q.ret[x] < q.call[y])
            && (TiesCallFirst(h) ==>
                  forall x, y :: 0 <= x < p.n && 0 <= y < p.n && q.ret[x] < q.call[y] ==> p.ret[x] < p.call[y])
  {
    hide WellFormed, IsEntriesOf, PosOf, TiesCallFirst;
    var p, q := OpsProblem(m, ops), ProblemOf(m, h, |ops|);
    forall s, x: nat
      ensures p.step(s, x) == q.step(s, x)
    {
      if x < |ops| {
        EntryAt(h, ops, x, false);
        EntryAt(h, ops, x, true);
      }
    }
    forall x: nat, y: nat | x < p.n && y < p.n
      ensures p.ret[x] < p.call[y] ==> q.ret[x] < q.call[y]
      ensures TiesCallFirst(h) && q.ret[x] < q.call[y] ==> p.ret[x] < p.call[y]
    {
      EntryAt(h, ops, x, true);
      EntryAt(h, ops, y, false);
      InTimeOrder(h, PosOf(h, |ops|, x, true), PosOf(h, |ops|, y, false)) by { SortedEntries(h, ops); }
    }
  }

  lemma EntryAt<I, O>(h: seq<Entry<I, O>>, ops: seq<Operation<I, O>>, x: nat, isReturn: bool)
    requires IsEntriesOf(h, ops) && WellFormed(h, |ops|) && x < |ops|
    ensures var k := PosOf(h, |ops|, x, isReturn); 0 <= k < |h| && h[k] == EntryOf(ops, x, isReturn)
  {
    hide WellFormed;
    assert IsEntry(h, PosOf(h, |ops|, x, isReturn), isReturn, x);
  }

  lemma SortedEntries<I, O>(h: seq<Entry<I, O>>, ops: seq<Operation<I, O>>)
    requires IsEntriesOf(h, ops)
    ensures SortedByTime(h)
  {
  }

  /** A return at `j` and a call at `k`. */
  lemma InTimeOrder<I, O>(h: seq<Entry<I, O>>, j: int, k: int)
    requires SortedByTime(h) && 0 <= j < |h| && 0 <= k < |h| && h[j].isReturn && !h[k].isReturn
    ensures h[j].time < h[k].time ==> j < k
    ensures TiesCallFirst(h) && j < k ==> h[j].time < h[k].time
  {
  }

  /**
  The entries of a history are linearizable exactly when its operations are, if ties between a
  call and a return are sorted with the call first; without ties they always are.
  */
  lemma EntriesSameVerdict<S(!new), I(!new), O(!new)>(m: Model<S, I, O>, h: seq<Entry<I, O>>, ops: seq<Operation<I, O>>)
    requires OpsOrdered(ops) && IsEntriesOf(h, ops) && EqualRespected(m) && (OpsTimed(ops) || TiesCallFirst(h))
    ensures WellFormed(h, |ops|) && Timed(ProblemOf(m, h, |ops|))
    ensures Linearizable(ProblemOf(m, h, |ops|)) <==> Linearizable(OpsProblem(m, ops))
  {
    EntriesWellFormed(h, ops);
    ProblemWellPosed(m, h, |ops|);
    EntriesOrder(m, h, ops);
    if OpsTimed(ops) {
      NoTies(h, ops);
    }
    SameVerdict(OpsProblem(m, ops), ProblemOf(m, h, |ops|));
  }

  /** However ties are sorted, entries that are linearizable come from operations that are. */
  lemma EntriesSound<S(!new), I(!new), O(!new)>(m: Model<S, I, O>, h: seq<Entry<I, O>>, ops: seq<Operation<I, O>>)
    requires OpsOrdered(ops) && IsEntriesOf(h, ops) && EqualRespected(m)
    ensures WellFormed(h, |ops|) && Timed(ProblemOf(m, h, |ops|))
    ensures Linearizable(ProblemOf(m, h, |ops|)) ==> Linearizable(OpsProblem(m, ops))
  {
    EntriesWellFormed(h, ops);
    ProblemWellPosed(m, h, |ops|);
    EntriesOrder(m, h, ops);
    var p, q := OpsProblem(m, ops), ProblemOf(m, h, |ops|);
    if Linearizable(q) {
      var order :| IsLinearization(q, order);
      FewerConstraints(q, p, order);
    }
  }

  // ---------- makeEntries ----------

  method MakeEntries<I, O>(ops: seq<Operation<I, O>>) returns (h: seq<Entry<I, O>>)
    ensures IsEntriesOf(h, ops)
  {
    var entries := [];
    var id := 0;
    while id < |ops|
      invariant 0 <= id <= |ops| && HoldsEntries(entries, ops[..id])
    {
      EntriesGrow(entries, ops, id);
      entries := entries + [CallOf(ops[id], id)];
      entries := entries + [ReturnOf(ops[id], id)];
      id := id + 1;
    }
    assert ops[..id] == ops;
    h := Sort(entries);
    HoldsPermuted(entries, h, ops);
  }

  /** Sorting by time; the order of entries with equal times is left open by the contract. */
  method Sort<I, O>(entries: seq<Entry<I, O>>) returns (h: seq<Entry<I, O>>)
    ensures SortedByTime(h) && multiset(h) == multiset(entries)
  {
    h := [];
    var i := 0;
    while i < |entries|
      invariant 0 <= i <= |entries| && SortedByTime(h) && multiset(h) == multiset(entries[..i])
    {
      assert entries[..i + 1] == entries[..i] + [entries[i]];
      h := Insert(h, entries[i]);
      i := i + 1;
    }
    assert entries[..i] == entries;
  }

  method Insert<I, O>(h: seq<Entry<I, O>>, e: Entry<I, O>) returns (h': seq<Entry<I, O>>)
    requires SortedByTime(h)
    ensures SortedByTime(h') && multiset(h') == multiset(h) + multiset{e}
  {
    var i := |h|;
    while i > 0 && h[i - 1].time > e.time
      invariant 0 <= i <= |h|
      invariant forall k :: i <= k < |h| ==> h[k].time > e.time
    {
      i := i - 1;
    }
    h' := h[..i] + [e] + h[i..];
    InsertSorted(h, e, i);
    InsertPermutes(h, e, i);
  }

  lemma InsertPermutes<T>(h: seq<T>, e: T, i: nat)
    requires i <= |h|
    ensures multiset(h[..i] + [e] + h[i..]) == multiset(h) + multiset{e}
  {
    assert h == h[..i] + h[i..];
  }

  lemma InsertSorted<I, O>(h: seq<Entry<I, O>>, e: Entry<I, O>, i: nat)
    requires SortedByTime(h) && i <= |h|
    requires i > 0 ==> h[i - 1].time <= e.time
    requires forall k :: i <= k < |h| ==> h[k].time > e.time
    ensures SortedByTime(h[..i] + [e] + h[i..])
  {
    var h' := h[..i] + [e] + h[i..];
    forall k | 0 <= k < i
      ensures h[k].time <= e.time
    {
    }
    forall j, k | 0 <= j < k < |h'|
      ensures h'[j].time <= h'[k].time
    {
      assert j < i ==> h'[j] == h[j];
      assert k > i ==> h'[k] == h[k - 1];
      assert j > i ==> h'[j] == h[j - 1];
    }
  }

  lemma EntriesGrow<I, O>(h: seq<Entry<I, O>>, ops: seq<Operation<I, O>>, id: nat)
    requires id < |ops| && HoldsEntries(h, ops[..id])
    ensures HoldsEntries(h + [CallOf(ops[id], id)] + [ReturnOf(ops[id], id)], ops[..id + 1])
  {
    var c, r := CallOf(ops[id], id), ReturnOf(ops[id], id);
    var ops', h' := ops[..id + 1], h + [c] + [r];
    assert h'[|h|] == c && h'[|h| + 1] == r;
    forall k | 0 <= k < |h'|
      ensures 0 <= h'[k].id < |ops'| && h'[k] == EntryOf(ops', h'[k].id, h'[k].isReturn)
    {
      assert k < |h| ==> h'[k] == h[k];
    }
    forall x, isReturn | 0 <= x < |ops'|
      ensures EntryOf(ops', x, isReturn) in h'
    {
      if x < id {
        assert EntryOf(ops[..id], x, isReturn) in h;
      } else {
        assert EntryOf(ops', x, isReturn) == if isReturn then r else c;
      }
    }
  }

  lemma HoldsPermuted<I, O>(h: seq<Entry<I, O>>, h': seq<Entry<I, O>>, ops: seq<Operation<I, O>>)
    requires HoldsEntries(h, ops) && multiset(h') == multiset(h)
    ensures HoldsEntries(h', ops)
  {
    assert |multiset(h')| == |h'| && |multiset(h)| == |h|;
    OnceEach(h);
    NoRepeat(h');
    forall k | 0 <= k < |h'|
      ensures 0 <= h'[k].id < |ops| && h'[k] == EntryOf(ops, h'[k].id, h'[k].isReturn)
    {
      assert h'[k] in multiset(h');
      assert h'[k] in h;
    }
    forall x, isReturn | 0 <= x < |ops|
      ensures EntryOf(ops, x, isReturn) in h'
    {
      assert EntryOf(ops, x, isReturn) in h;
      assert EntryOf(ops, x, isReturn) in multiset(h');
    }
  }

  lemma {:induction false} OnceEach<T>(s: seq<T>)
    requires forall j, k :: 0 <= j < k < |s| ==> s[j] != s[k]
    ensures forall e :: multiset(s)[e] <= 1
    decreases |s|
  {
    if s != [] {
      var m := |s| - 1;
      OnceEach(s[..m]);
      assert s == s[..m] + [s[m]];
      assert s[m] !in s[..m];
    }
  }

  lemma NoRepeat<T>(s: seq<T>)
    requires forall e :: multiset(s)[e] <= 1
    ensures forall j, k :: 0 <= j < k < |s| ==> s[j] != s[k]
  {
    forall j, k | 0 <= j < k < |s|
      ensures s[j] != s[k]
    {
      assert s == s[..k] + [s[k]] + s[k + 1..];
      assert multiset(s)[s[k]] == multiset(s[..k])[s[k]] + 1 + multiset(s[k + 1..])[s[k]];
      assert s[..k][j] in multiset(s[..k]);
    }
  }
}
