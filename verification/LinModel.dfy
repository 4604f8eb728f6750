/** Models, operations and histories as the checker's callers give them. */
module LinModel {
  import opened LinSearch

  /** The sequential specification: initial state, step function, equality on states. */
  datatype Model<!S, !I, !O> = Model(init: S, step: (S, I, O) -> (bool, S), equal: (S, S) -> bool)

  datatype Operation<I, O> = Operation(clientId: int, input: I, call: int, output: O, ret: int)

  datatype Value<I, O> = Nothing | Input(input: I) | Output(output: O)

  datatype Entry<I, O> = Entry(isReturn: bool, value: Value<I, O>, id: int, time: int)

  /** `equal` is an equivalence that `step` cannot see through. */
  ghost predicate EqualRespected<S(!new), I(!new), O(!new)>(m: Model<S, I, O>) {
    && (forall s :: m.equal(s, s))
    && (forall s, t :: m.equal(s, t) ==> m.equal(t, s))
    && (forall s, t, u :: m.equal(s, t) && m.equal(t, u) ==> m.equal(s, u))
    && (forall s, t, i, o :: m.equal(s, t) ==>
          m.step(s, i, o).0 == m.step(t, i, o).0 && m.equal(m.step(s, i, o).1, m.step(t, i, o).1))
  }

  ghost predicate IsEntry<I, O>(h: seq<Entry<I, O>>, k: int, isReturn: bool, id: int) {
    0 <= k < |h| && h[k].isReturn == isReturn && h[k].id == id
  }

  ghost predicate Carries<I, O>(e: Entry<I, O>) {
    if e.isReturn then e.value.Output? else e.value.Input?
  }

  /** Ids 0..n-1, each with one call that is followed by one return. */
  ghost predicate WellFormed<I, O>(h: seq<Entry<I, O>>, n: nat) {
    && |h| == 2 * n
    && (forall k :: 0 <= k < |h| ==> 0 <= h[k].id < n && Carries(h[k]))
    && (forall j, k :: 0 <= j < k < |h| && h[j].id == h[k].id ==> !h[j].isReturn && h[k].isReturn)
    && (forall x :: 0 <= x < n ==> HasBoth(h, x))
  }

  ghost predicate HasBoth<I, O>(h: seq<Entry<I, O>>, x: int) {
    && (exists k :: IsEntry(h, k, false, x))
    && (exists k :: IsEntry(h, k, true, x))
  }

  ghost function PosOf<I, O>(h: seq<Entry<I, O>>, n: nat, x: nat, isReturn: bool): (k: int)
    requires WellFormed(h, n) && x < n
    ensures IsEntry(h, k, isReturn, x)
  {
    assert HasBoth(h, x);
    var k :| IsEntry(h, k, isReturn, x);
    k
  }

  lemma PosIs<I, O>(h: seq<Entry<I, O>>, n: nat, k: nat)
    requires WellFormed(h, n) && k < |h|
    ensures k == PosOf(h, n, h[k].id, h[k].isReturn)
  {
    var j := PosOf(h, n, h[k].id, h[k].isReturn);
    assert IsEntry(h, j, h[k].isReturn, h[k].id);
  }

  ghost function InputOf<I, O>(h: seq<Entry<I, O>>, n: nat, x: nat): I
    requires WellFormed(h, n) && x < n
  {
    h[PosOf(h, n, x, false)].value.input
  }

  ghost function OutputOf<I, O>(h: seq<Entry<I, O>>, n: nat, x: nat): O
    requires WellFormed(h, n) && x < n
  {
    h[PosOf(h, n, x, true)].value.output
  }

  /** The linearization problem of a history of entries, where positions stand for time. */
  ghost function ProblemOf<S(!new), I, O>(m: Model<S, I, O>, h: seq<Entry<I, O>>, n: nat): (p: Problem<S>)
    requires WellFormed(h, n)
    ensures p.n == n && p.init == m.init && p.equal == m.equal && |p.call| == |p.ret| == n
    ensures forall x: nat :: x < n ==> p.call[x] == PosOf(h, n, x, false) && p.ret[x] == PosOf(h, n, x, true)
    ensures forall s, x: nat :: x < n ==> p.step(s, x) == m.step(s, InputOf(h, n, x), OutputOf(h, n, x))
    ensures forall s, x: nat :: x >= n ==> p.step(s, x) == (false, s)
  {
    Problem(
      n,
      seq(n, x requires 0 <= x < n => PosOf(h, n, x, false)),
      seq(n, x requires 0 <= x < n => PosOf(h, n, x, true)),
      m.init,
      (s: S, x: nat) => if x < n then m.step(s, InputOf(h, n, x), OutputOf(h, n, x)) else (false, s),
      m.equal)
  }

  lemma ProblemWellPosed<S(!new), I(!new), O(!new)>(m: Model<S, I, O>, h: seq<Entry<I, O>>, n: nat)
    requires WellFormed(h, n) && EqualRespected(m)
    ensures WellPosed(ProblemOf(m, h, n))
  {
    var p := ProblemOf(m, h, n);
    forall x, y | 0 <= x < n && 0 <= y < n
      ensures p.call[x] == p.call[y] ==> x == y
      ensures p.call[x] != p.ret[y]
      ensures p.call[x] < p.ret[x]
    {
      assert IsEntry(h, p.call[x], false, x) && IsEntry(h, p.ret[x], true, x);
      assert IsEntry(h, p.call[y], false, y) && IsEntry(h, p.ret[y], true, y);
    }
    forall s, t, x: nat | p.equal(s, t)
      ensures SameStep(p, s, t, x)
    {
      assert x >= n ==> p.step(s, x) == (false, s) && p.step(t, x) == (false, t);
    }
  }
}
