/**
What it means to linearize a history, and why a depth-first search that prunes revisited
(set, state) pairs decides it. A history is given by the positions of each operation's call
and return in the order of time.
*/
module LinSearch {

  /** Operations 0..n-1; `step(s, x)` says whether operation `x` may happen in state `s`, and its effect. */
  datatype Problem<!S> = Problem(
    n: nat, call: seq<int>, ret: seq<int>,
    init: S, step: (S, nat) -> (bool, S), equal: (S, S) -> bool)

  /** Every operation is called before it returns. */
  ghost predicate Timed<S>(p: Problem<S>) {
    |p.call| == |p.ret| == p.n && Moments(p)
  }

  ghost predicate Moments<S>(p: Problem<S>)
    requires |p.call| == |p.ret| == p.n
  {
    forall x :: 0 <= x < p.n ==> p.call[x] < p.ret[x]
  }

  /** No call happens at the moment of another call or of a return. */
  ghost predicate DistinctCalls<S>(p: Problem<S>)
    requires |p.call| == |p.ret| == p.n
  {
    && (forall x, y :: 0 <= x < p.n && 0 <= y < p.n && p.call[x] == p.call[y] ==> x == y)
    && (forall x, y :: 0 <= x < p.n && 0 <= y < p.n ==> p.call[x] != p.ret[y])
  }

  /** The states that `equal` identifies behave alike. */
  ghost predicate Congruent<S(!new)>(p: Problem<S>) {
    && (forall s :: p.equal(s, s))
    && (forall s, t :: p.equal(s, t) ==> p.equal(t, s))
    && (forall s, t, u :: p.equal(s, t) && p.equal(t, u) ==> p.equal(s, u))
    && (forall s, t, x :: p.equal(s, t) ==> SameStep(p, s, t, x))
  }

  ghost predicate SameStep<S>(p: Problem<S>, s: S, t: S, x: nat) {
    p.step(s, x).0 == p.step(t, x).0 && p.equal(p.step(s, x).1, p.step(t, x).1)
  }

  ghost predicate WellPosed<S(!new)>(p: Problem<S>) {
    Timed(p) && DistinctCalls(p) && Congruent(p)
  }

  // ---------- Linearizations ----------

  ghost function Elems(order: seq<nat>): set<nat> {
    set x | x in order
  }

  /** The state after the operations of `order`. */
  ghost function After<S>(p: Problem<S>, order: seq<nat>): S {
    if order == [] then p.init
    else p.step(After(p, order[..|order| - 1]), order[|order| - 1]).1
  }

  /** Every operation of `order` is possible when its turn comes. */
  ghost predicate Legal<S>(p: Problem<S>, order: seq<nat>) {
    forall k :: 0 <= k < |order| ==> p.step(After(p, order[..k]), order[k]).0
  }

  /** Distinct operations, none after one that it had to precede. */
  ghost predicate RespectsTime<S>(p: Problem<S>, order: seq<nat>)
    requires Timed(p)
  {
    && (forall k :: 0 <= k < |order| ==> order[k] < p.n)
    && (forall j, k :: 0 <= j < k < |order| ==> order[j] != order[k])
    && (forall j, k :: 0 <= j < k < |order| ==> !(p.ret[order[k]] < p.call[order[j]]))
  }

  /** A legal order of all operations that respects real time. */
  ghost predicate IsLinearization<S>(p: Problem<S>, order: seq<nat>)
    requires Timed(p)
  {
    |order| == p.n && RespectsTime(p, order) && Legal(p, order)
  }

  ghost predicate Linearizable<S>(p: Problem<S>)
    requires Timed(p)
  {
    exists order :: IsLinearization(p, order)
  }

  /** Whatever had to precede an operation of `order` is in `order` too. */
  ghost predicate TimeClosed<S>(p: Problem<S>, order: seq<nat>)
    requires Timed(p) && RespectsTime(p, order)
  {
    forall k, y :: 0 <= k < |order| && 0 <= y < p.n && p.ret[y] < p.call[order[k]] ==> y in order
  }

  /** A legal, time-respecting order of some operations that could be the start of a linearization. */
  ghost predicate IsPartial<S>(p: Problem<S>, order: seq<nat>)
    requires Timed(p)
  {
    RespectsTime(p, order) && TimeClosed(p, order) && Legal(p, order)
  }

  // ---------- The same, one operation at a time ----------

  /** Once `done` has happened, `x` may come next as far as time is concerned. */
  ghost predicate Feasible<S>(p: Problem<S>, done: set<nat>, x: nat)
    requires Timed(p)
  {
    && x < p.n
    && x !in done
    && forall y :: 0 <= y < p.n && y !in done ==> p.ret[y] >= p.call[x]
  }

  ghost predicate Valid<S>(p: Problem<S>, order: seq<nat>)
    requires Timed(p)
    decreases |order|
  {
    order == [] ||
    (var k := |order| - 1;
     && Valid(p, order[..k])
     && Feasible(p, Elems(order[..k]), order[k])
     && p.step(After(p, order[..k]), order[k]).0)
  }

  lemma ElemsSnoc(order: seq<nat>, x: nat)
    ensures Elems(order + [x]) == Elems(order) + {x}
  {
  }

  lemma {:induction false} ValidPrefix<S>(p: Problem<S>, order: seq<nat>, k: nat)
    requires Timed(p) && Valid(p, order) && k <= |order|
    ensures Valid(p, order[..k])
    decreases |order|
  {
    if k < |order| {
      var m := |order| - 1;
      ValidPrefix(p, order[..m], k);
      assert order[..m][..k] == order[..k];
    } else {
      assert order[..k] == order;
    }
  }

  lemma ValidAt<S>(p: Problem<S>, order: seq<nat>, k: nat)
    requires Timed(p) && Valid(p, order) && k < |order|
    ensures Feasible(p, Elems(order[..k]), order[k]) && p.step(After(p, order[..k]), order[k]).0
  {
    ValidPrefix(p, order, k + 1);
    assert order[..k + 1][..k] == order[..k];
  }

  /** The step-by-step notion is the declarative one. */
  lemma {:induction false} ValidIsPartial<S>(p: Problem<S>, order: seq<nat>)
    requires Timed(p)
    ensures Valid(p, order) <==> IsPartial(p, order)
    decreases |order|
  {
    if order == [] {
    } else {
      var m := |order| - 1;
      var pre := order[..m];
      ValidIsPartial(p, pre);
      assert order == pre + [order[m]];
      if Valid(p, order) {
        LegalSnoc(p, order);
        PartialSnoc(p, order);
      }
      if IsPartial(p, order) {
        LegalSnoc(p, order);
        PartialInit(p, order);
      }
    }
  }

  lemma LegalSnoc<S>(p: Problem<S>, order: seq<nat>)
    requires |order| > 0
    ensures var m := |order| - 1;
            Legal(p, order) <==> Legal(p, order[..m]) && p.step(After(p, order[..m]), order[m]).0
  {
    var m := |order| - 1;
    var pre := order[..m];
    assert forall k :: 0 <= k < m ==> pre[..k] == order[..k] && pre[k] == order[k];
    if Legal(p, pre) && p.step(After(p, pre), order[m]).0 {
      forall k | 0 <= k < |order|
        ensures p.step(After(p, order[..k]), order[k]).0
      {
        assert k < m ==> p.step(After(p, pre[..k]), pre[k]).0;
      }
    }
    if Legal(p, order) {
      forall k | 0 <= k < |pre|
        ensures p.step(After(p, pre[..k]), pre[k]).0
      {
        assert p.step(After(p, order[..k]), order[k]).0;
      }
    }
  }

  lemma ClosedAt<S>(p: Problem<S>, order: seq<nat>, k: nat, y: nat)
    requires Timed(p) && RespectsTime(p, order) && TimeClosed(p, order) && k < |order| && y < p.n
    ensures p.ret[y] < p.call[order[k]] ==> y in order
  {
  }

  lemma PartialSnoc<S>(p: Problem<S>, order: seq<nat>)
    requires Timed(p) && |order| > 0
    requires var m := |order| - 1;
             && RespectsTime(p, order[..m]) && TimeClosed(p, order[..m])
             && Feasible(p, Elems(order[..m]), order[m])
    ensures RespectsTime(p, order) && TimeClosed(p, order)
  {
    hide Moments;
    RespectsSnoc(p, order);
    var m := |order| - 1;
    var pre := order[..m];
    forall k, y | 0 <= k < |order| && 0 <= y < p.n && p.ret[y] < p.call[order[k]]
      ensures y in order
    {
      if k < m {
        assert order[k] == pre[k];
        ClosedAt(p, pre, k, y);
      } else {
        assert y in Elems(pre);
      }
    }
  }

  lemma RespectsSnoc<S>(p: Problem<S>, order: seq<nat>)
    requires Timed(p) && |order| > 0
    requires var m := |order| - 1;
             && RespectsTime(p, order[..m]) && TimeClosed(p, order[..m])
             && Feasible(p, Elems(order[..m]), order[m])
    ensures RespectsTime(p, order)
  {
    hide TimeClosed, RespectsTime, Moments;
    var m := |order| - 1;
    forall j | 0 <= j < m
      ensures MayPrecede(p, order[j], order[m])
    {
      LastMayFollow(p, order[..m], order[m], j);
    }
    RespectsMore(p, order);
  }

  ghost predicate MayPrecede<S>(p: Problem<S>, x: nat, y: nat) {
    x < |p.call| && y < |p.ret| && x != y && !(p.ret[y] < p.call[x])
  }

  lemma LastMayFollow<S>(p: Problem<S>, pre: seq<nat>, x: nat, j: nat)
    requires Timed(p) && RespectsTime(p, pre) && TimeClosed(p, pre) && Feasible(p, Elems(pre), x) && j < |pre|
    ensures MayPrecede(p, pre[j], x)
  {
    hide TimeClosed, Moments;
    assert pre[j] in Elems(pre);
    ClosedAt(p, pre, j, x);
  }

  lemma RespectsMore<S>(p: Problem<S>, order: seq<nat>)
    requires Timed(p) && |order| > 0 && RespectsTime(p, order[..|order| - 1])
    requires order[|order| - 1] < p.n
    requires forall j :: 0 <= j < |order| - 1 ==> MayPrecede(p, order[j], order[|order| - 1])
    ensures RespectsTime(p, order)
  {
    hide Moments;
    var m := |order| - 1;
    var pre := order[..m];
    assert forall j :: 0 <= j < m ==> pre[j] == order[j];
  }

  lemma PartialInit<S>(p: Problem<S>, order: seq<nat>)
    requires Timed(p) && |order| > 0 && RespectsTime(p, order) && TimeClosed(p, order)
    ensures var m := |order| - 1;
            && RespectsTime(p, order[..m]) && TimeClosed(p, order[..m])
            && Feasible(p, Elems(order[..m]), order[m])
  {
    hide Moments, TimeClosed;
    var m := |order| - 1;
    var pre := order[..m];
    assert RespectsTime(p, pre);
    ClosedInit(p, order);
    CallFirst(p, order[m]);
    forall y: nat | y < p.n && y !in Elems(pre)
      ensures p.ret[y] >= p.call[order[m]]
    {
      ClosedAt(p, order, m, y);
      assert y in order ==> y == order[m] || y in pre;
    }
  }

  lemma CallFirst<S>(p: Problem<S>, x: nat)
    requires Timed(p) && x < p.n
    ensures p.call[x] < p.ret[x]
  {
  }

  lemma ClosedInit<S>(p: Problem<S>, order: seq<nat>)
    requires Timed(p) && |order| > 0 && RespectsTime(p, order) && TimeClosed(p, order)
    requires RespectsTime(p, order[..|order| - 1])
    ensures TimeClosed(p, order[..|order| - 1])
  {
    hide Moments;
    var m := |order| - 1;
    var pre := order[..m];
    forall k, y | 0 <= k < m && 0 <= y < p.n && p.ret[y] < p.call[pre[k]]
      ensures y in pre
    {
      assert pre[k] == order[k] && !(p.ret[order[m]] < p.call[order[k]]);
      ClosedAt(p, order, k, y);
      var i :| 0 <= i < |order| && order[i] == y;
      assert y == pre[i];
    }
  }

  lemma {:induction false} DistinctSize(order: seq<nat>)
    requires forall j, k :: 0 <= j < k < |order| ==> order[j] != order[k]
    ensures |Elems(order)| == |order|
    decreases |order|
  {
    if order != [] {
      var m := |order| - 1;
      DistinctSize(order[..m]);
      ElemsSnoc(order[..m], order[m]);
      assert order == order[..m] + [order[m]];
    }
  }

  ghost function Range(n: nat): (r: set<nat>)
    ensures |r| == n && forall x :: x in r <==> 0 <= x < n
  {
    if n == 0 then {} else Range(n - 1) + {n - 1}
  }

  lemma SubsetSize<T>(a: set<T>, b: set<T>)
    requires a <= b
    ensures |a| <= |b| && (|a| == |b| ==> a == b)
  {
    assert b == a + (b - a);
  }

  /** n distinct numbers below n are all of them. */
  lemma AllOperations(order: seq<nat>, n: nat)
    requires |order| == n && forall k :: 0 <= k < n ==> order[k] < n
    requires forall j, k :: 0 <= j < k < n ==> order[j] != order[k]
    ensures forall y :: 0 <= y < n ==> y in order
  {
    DistinctSize(order);
    assert Elems(order) <= Range(n);
    SubsetSize(Elems(order), Range(n));
    forall y | 0 <= y < n
      ensures y in order
    {
      assert y in Range(n);
    }
  }

  /** A valid order of n operations contains them all and is a linearization, and conversely. */
  lemma FullIsLinearization<S>(p: Problem<S>, order: seq<nat>)
    requires Timed(p) && |order| == p.n
    ensures Valid(p, order) <==> IsLinearization(p, order)
  {
    hide Legal, Valid, Timed;
    ValidIsPartial(p, order);
    if IsLinearization(p, order) {
      AllOperations(order, p.n);
    }
  }

  lemma ValidDistinct<S>(p: Problem<S>, order: seq<nat>)
    requires Timed(p) && Valid(p, order)
    ensures forall k :: 0 <= k < |order| ==> order[k] < p.n
    ensures |Elems(order)| == |order| <= p.n
  {
    ValidIsPartial(p, order);
    DistinctSize(order);
    assert Elems(order) <= Range(p.n);
    SubsetSize(Elems(order), Range(p.n));
  }

  // ---------- The search ----------

  /** A set of operations that have happened, and a state in which they leave the system. */
  datatype Config<S> = Config(done: set<nat>, state: S)

  ghost function ConfigOf<S>(p: Problem<S>, order: seq<nat>): Config<S> {
    Config(Elems(order), After(p, order))
  }

  /** If `x` is possible in `c`, what it leads to has been visited, up to `equal`. */
  ghost predicate Expanded<S(!new)>(p: Problem<S>, cache: set<Config<S>>, c: Config<S>, x: nat) {
    p.step(c.state, x).0 ==> Visited(p, cache, Config(c.done + {x}, p.step(c.state, x).1))
  }

  ghost predicate Visited<S(!new)>(p: Problem<S>, cache: set<Config<S>>, c: Config<S>) {
    exists d :: d in cache && d.done == c.done && p.equal(c.state, d.state)
  }

  ghost predicate Closed<S(!new)>(p: Problem<S>, cache: set<Config<S>>, c: Config<S>)
    requires Timed(p)
  {
    forall x: nat :: Feasible(p, c.done, x) ==> Expanded(p, cache, c, x)
  }

  /** The operations whose call lies before `pos` have been expanded. */
  ghost predicate ClosedUpTo<S(!new)>(p: Problem<S>, cache: set<Config<S>>, c: Config<S>, pos: int)
    requires Timed(p)
  {
    forall x: nat :: Feasible(p, c.done, x) && p.call[x] < pos ==> Expanded(p, cache, c, x)
  }

  /** The configuration lies on the path that the search is following. */
  ghost predicate OnPath<S>(p: Problem<S>, order: seq<nat>, c: Config<S>) {
    exists k :: 1 <= k <= |order| && c == ConfigOf(p, order[..k])
  }

  ghost predicate Witnessed<S>(p: Problem<S>, c: Config<S>)
    requires Timed(p)
  {
    exists o :: o != [] && Valid(p, o) && c == ConfigOf(p, o)
  }

  /**
  The state of the search: `order` is the stack of lifted calls, `pos` the position of the
  cursor and `cache` the set of visited configurations.
  */
  ghost predicate SearchInv<S(!new)>(p: Problem<S>, cache: set<Config<S>>, order: seq<nat>, pos: int) {
    && WellPosed(p)
    && Valid(p, order)
    && (forall c :: c in cache ==> Witnessed(p, c))
    && (forall c :: c in cache ==> Closed(p, cache, c) || OnPath(p, order, c))
    && (forall k :: 0 <= k < |order| ==> FrameClosed(p, cache, order, k))
    && ClosedUpTo(p, cache, ConfigOf(p, order), pos)
    && (forall y :: 0 <= y < p.n && y !in order ==> p.ret[y] >= pos)
    && (forall c :: c in cache && |c.done| == p.n ==> |order| == p.n)
  }

  ghost predicate FrameClosed<S(!new)>(p: Problem<S>, cache: set<Config<S>>, order: seq<nat>, k: nat)
    requires Timed(p) && k < |order|
  {
    order[k] < p.n && ClosedUpTo(p, cache, ConfigOf(p, order[..k]), p.call[order[k]] + 1)
  }

  lemma Monotone<S(!new)>(p: Problem<S>, cache: set<Config<S>>, cache': set<Config<S>>, c: Config<S>, pos: int)
    requires Timed(p) && cache <= cache'
    ensures Closed(p, cache, c) ==> Closed(p, cache', c)
    ensures ClosedUpTo(p, cache, c, pos) ==> ClosedUpTo(p, cache', c, pos)
  {
    forall x | Expanded(p, cache, c, x)
      ensures Expanded(p, cache', c, x)
    {
      if p.step(c.state, x).0 {
        var d :| d in cache && d.done == c.done + {x} && p.equal(p.step(c.state, x).1, d.state);
        assert d in cache';
      }
    }
  }

  lemma SearchStarts<S(!new)>(p: Problem<S>, pos: int)
    requires WellPosed(p)
    requires forall y :: 0 <= y < p.n ==> p.call[y] >= pos
    ensures SearchInv(p, {}, [], pos)
  {
    LiftUnexplored(p, {}, [], pos);
  }

  // ---------- Lifting a call ----------

  lemma CursorFeasible<S(!new)>(p: Problem<S>, cache: set<Config<S>>, order: seq<nat>, pos: int, x: nat)
    requires SearchInv(p, cache, order, pos) && x < p.n && x !in order && p.call[x] == pos
    ensures Feasible(p, Elems(order), x)
  {
  }

  /** The search takes operation `x` at the cursor, which leads to a new configuration. */
  lemma Lift<S(!new)>(p: Problem<S>, cache: set<Config<S>>, order: seq<nat>, pos: int, x: nat, pos': int)
    requires SearchInv(p, cache, order, pos) && x < p.n && x !in order && p.call[x] == pos
    requires p.step(After(p, order), x).0
    requires forall y :: 0 <= y < p.n && y !in order && y != x ==> p.call[y] >= pos'
    ensures SearchInv(p, cache + {ConfigOf(p, order + [x])}, order + [x], pos')
  {
    hide Congruent, Closed, ClosedUpTo, FrameClosed, Witnessed, OnPath, After;
    var order' := order + [x];
    CursorFeasible(p, cache, order, pos, x);
    LiftValid(p, order, x);
    LiftFrames(p, cache, order, pos, x);
    LiftPath(p, cache, order, x);
    LiftedIsNew(p, order, x);
    LiftUnexplored(p, cache + {ConfigOf(p, order')}, order', pos');
    ValidDistinct(p, order');
  }

  lemma LiftValid<S>(p: Problem<S>, order: seq<nat>, x: nat)
    requires Timed(p) && Valid(p, order) && Feasible(p, Elems(order), x) && p.step(After(p, order), x).0
    ensures Valid(p, order + [x])
    ensures ConfigOf(p, order + [x]) == Config(Elems(order) + {x}, p.step(After(p, order), x).1)
    ensures Witnessed(p, ConfigOf(p, order + [x]))
  {
    var order' := order + [x];
    assert order'[..|order|] == order;
    ElemsSnoc(order, x);
  }

  lemma LiftPath<S(!new)>(p: Problem<S>, cache: set<Config<S>>, order: seq<nat>, x: nat)
    requires Timed(p) && forall c :: c in cache ==> Closed(p, cache, c) || OnPath(p, order, c)
    ensures var order' := order + [x];
            var cache' := cache + {ConfigOf(p, order')};
            forall c :: c in cache' ==> Closed(p, cache', c) || OnPath(p, order', c)
  {
    hide Closed;
    var order' := order + [x];
    var c' := ConfigOf(p, order');
    var cache' := cache + {c'};
    forall c | c in cache'
      ensures Closed(p, cache', c) || OnPath(p, order', c)
    {
      Monotone(p, cache, cache', c, 0);
      if c in cache && OnPath(p, order, c) {
        var k :| 1 <= k <= |order| && c == ConfigOf(p, order[..k]);
        assert order'[..k] == order[..k];
      }
      if c == c' {
        assert order'[..|order'|] == order';
      }
    }
  }

  /** At the first remaining entry nothing has been tried yet. */
  lemma LiftUnexplored<S(!new)>(p: Problem<S>, cache: set<Config<S>>, order: seq<nat>, pos: int)
    requires Timed(p) && forall y :: 0 <= y < p.n && y !in order ==> p.call[y] >= pos
    ensures ClosedUpTo(p, cache, ConfigOf(p, order), pos)
    ensures forall y :: 0 <= y < p.n && y !in order ==> p.ret[y] >= pos
  {
    assert forall x: nat :: Feasible(p, Elems(order), x) ==> x !in order;
  }

  lemma LiftedIsNew<S>(p: Problem<S>, order: seq<nat>, x: nat)
    requires Timed(p) && Valid(p, order + [x])
    ensures |order| < p.n
  {
    ValidDistinct(p, order + [x]);
  }

  lemma LiftFrames<S(!new)>(p: Problem<S>, cache: set<Config<S>>, order: seq<nat>, pos: int, x: nat)
    requires SearchInv(p, cache, order, pos) && x < p.n && p.call[x] == pos
    requires p.step(After(p, order), x).0
    requires ConfigOf(p, order + [x]) == Config(Elems(order) + {x}, p.step(After(p, order), x).1)
    ensures var order' := order + [x];
            forall k :: 0 <= k < |order'| ==> FrameClosed(p, cache + {ConfigOf(p, order')}, order', k)
  {
    hide Valid, Witnessed, OnPath, ClosedUpTo, Congruent, Moments, DistinctCalls, Closed, After;
    var order' := order + [x];
    var cache' := cache + {ConfigOf(p, order')};
    forall k | 0 <= k < |order'|
      ensures FrameClosed(p, cache', order', k)
    {
      assert order'[..k] == order[..k];
      var c := ConfigOf(p, order[..k]);
      if k < |order| {
        assert FrameClosed(p, cache, order, k);
        Monotone(p, cache, cache', c, p.call[order[k]] + 1);
      } else {
        assert order[..k] == order;
        Monotone(p, cache, cache', c, pos);
        LiftTop(p, cache', order, pos, x);
      }
    }
  }

  lemma LiftTop<S(!new)>(p: Problem<S>, cache: set<Config<S>>, order: seq<nat>, pos: int, x: nat)
    requires WellPosed(p) && x < p.n && p.call[x] == pos && ClosedUpTo(p, cache, ConfigOf(p, order), pos)
    requires Config(Elems(order) + {x}, p.step(After(p, order), x).1) in cache
    ensures ClosedUpTo(p, cache, ConfigOf(p, order), pos + 1)
  {
    var c := ConfigOf(p, order);
    var c' := Config(c.done + {x}, p.step(c.state, x).1);
    assert p.equal(c'.state, c'.state);
    assert Expanded(p, cache, c, x);
  }

  // ---------- Moving past a call ----------

  /** The operation at the cursor is impossible or leads to a visited configuration. */
  lemma Skip<S(!new)>(p: Problem<S>, cache: set<Config<S>>, order: seq<nat>, pos: int, x: nat, pos': int)
    requires SearchInv(p, cache, order, pos) && x < p.n && x !in order && p.call[x] == pos
    requires Expanded(p, cache, ConfigOf(p, order), x)
    requires forall y :: 0 <= y < p.n && y !in order ==>
               !(pos < p.call[y] < pos') && !(pos < p.ret[y] < pos')
    ensures SearchInv(p, cache, order, pos')
  {
    hide Congruent, Closed, FrameClosed, Witnessed, OnPath, Valid, Expanded;
    forall y | 0 <= y < p.n && y !in order
      ensures p.ret[y] >= pos'
    {
      assert p.ret[y] != p.call[x];
    }
    forall y: nat | Feasible(p, Elems(order), y) && p.call[y] < pos'
      ensures Expanded(p, cache, ConfigOf(p, order), y)
    {
      assert y !in order;
    }
  }

  // ---------- Backtracking ----------

  /** When the cursor meets a return, every operation that may come next has been tried. */
  lemma Exhausted<S(!new)>(p: Problem<S>, cache: set<Config<S>>, order: seq<nat>, pos: int, y: nat)
    requires SearchInv(p, cache, order, pos) && y < p.n && y !in order && p.ret[y] == pos
    ensures Closed(p, cache, ConfigOf(p, order))
  {
  }

  lemma Unlift<S(!new)>(p: Problem<S>, cache: set<Config<S>>, order: seq<nat>, pos: int, y: nat, pos': int)
    requires SearchInv(p, cache, order, pos) && y < p.n && y !in order && p.ret[y] == pos
    requires |order| > 0
    requires var m := |order| - 1;
             order[m] < p.n && forall z :: 0 <= z < p.n && z !in order[..m] ==>
               !(p.call[order[m]] < p.call[z] < pos') && !(p.call[order[m]] < p.ret[z] < pos')
    ensures SearchInv(p, cache, order[..|order| - 1], pos')
  {
    hide Congruent, Closed, ClosedUpTo, Witnessed, OnPath, After;
    var m := |order| - 1;
    var pre := order[..m];
    Exhausted(p, cache, order, pos, y);
    UnliftPath(p, cache, order);
    forall k | 0 <= k < |pre|
      ensures FrameClosed(p, cache, pre, k)
    {
      assert FrameClosed(p, cache, order, k);
      assert pre[..k] == order[..k] && pre[k] == order[k];
    }
    assert FrameClosed(p, cache, order, m);
    ValidAt(p, order, m);
    UnliftCursor(p, cache, pre, order[m], pos');
    if |order| == p.n {
      FullHasAll(p, order, y);
    }
  }

  lemma UnliftPath<S(!new)>(p: Problem<S>, cache: set<Config<S>>, order: seq<nat>)
    requires Timed(p) && |order| > 0 && Closed(p, cache, ConfigOf(p, order))
    requires forall c :: c in cache ==> Closed(p, cache, c) || OnPath(p, order, c)
    ensures forall c :: c in cache ==> Closed(p, cache, c) || OnPath(p, order[..|order| - 1], c)
  {
    hide Closed;
    var pre := order[..|order| - 1];
    forall c | c in cache
      ensures Closed(p, cache, c) || OnPath(p, pre, c)
    {
      if OnPath(p, order, c) {
        var k :| 1 <= k <= |order| && c == ConfigOf(p, order[..k]);
        if k < |order| {
          assert pre[..k] == order[..k];
        } else {
          assert order[..k] == order;
        }
      }
    }
  }

  /** The cursor resumes at the entry that follows the unlifted call. */
  lemma UnliftCursor<S(!new)>(p: Problem<S>, cache: set<Config<S>>, pre: seq<nat>, x: nat, pos': int)
    requires Timed(p) && DistinctCalls(p) && Feasible(p, Elems(pre), x)
    requires ClosedUpTo(p, cache, ConfigOf(p, pre), p.call[x] + 1)
    requires forall z :: 0 <= z < p.n && z !in pre ==>
               !(p.call[x] < p.call[z] < pos') && !(p.call[x] < p.ret[z] < pos')
    ensures ClosedUpTo(p, cache, ConfigOf(p, pre), pos')
    ensures forall y :: 0 <= y < p.n && y !in pre ==> p.ret[y] >= pos'
  {
    hide Expanded;
    forall y | 0 <= y < p.n && y !in pre
      ensures p.ret[y] >= pos'
    {
      assert y !in Elems(pre);
      assert p.ret[y] != p.call[x];
    }
    forall y: nat | Feasible(p, Elems(pre), y) && p.call[y] < pos'
      ensures Expanded(p, cache, ConfigOf(p, pre), y)
    {
      assert y !in pre;
    }
  }

  lemma FullHasAll<S>(p: Problem<S>, order: seq<nat>, y: nat)
    requires Timed(p) && Valid(p, order) && |order| == p.n && y < p.n
    ensures y in order
  {
    ValidIsPartial(p, order);
    AllOperations(order, p.n);
  }

  // ---------- The verdicts ----------

  /** If every visited configuration is closed, every partial linearization has been visited. */
  lemma {:induction false} Covered<S(!new)>(p: Problem<S>, cache: set<Config<S>>, order: seq<nat>)
    requires WellPosed(p) && Valid(p, order) && order != []
    requires forall c :: c in cache ==> Closed(p, cache, c)
    requires Closed(p, cache, ConfigOf(p, []))
    ensures Visited(p, cache, ConfigOf(p, order))
    decreases |order|
  {
    var m := |order| - 1;
    var pre, x := order[..m], order[m];
    var c := ConfigOf(p, pre);
    ElemsSnoc(pre, x);
    assert order == pre + [x];
    var d: Config<S>;
    if m == 0 {
      d := c;
      assert pre == [];
    } else {
      Covered(p, cache, pre);
      d :| d in cache && d.done == c.done && p.equal(c.state, d.state);
    }
    assert p.equal(c.state, d.state);
    assert SameStep(p, c.state, d.state, x);
    assert Expanded(p, cache, d, x);
    var e :| e in cache && e.done == d.done + {x} && p.equal(p.step(d.state, x).1, e.state);
    assert p.equal(p.step(c.state, x).1, e.state);
  }

  /** The search gives up only when there is no linearization. */
  lemma GivesUp<S(!new)>(p: Problem<S>, cache: set<Config<S>>, pos: int, y: nat)
    requires SearchInv(p, cache, [], pos) && y < p.n && p.ret[y] == pos
    ensures !Linearizable(p)
    ensures forall c :: c in cache ==> Closed(p, cache, c)
    ensures Closed(p, cache, ConfigOf(p, []))
  {
    Exhausted(p, cache, [], pos, y);
    forall order | IsLinearization(p, order)
      ensures false
    {
      FullIsLinearization(p, order);
      Covered(p, cache, order);
      ValidDistinct(p, order);
    }
  }

  // ---------- The longest partial linearizations ----------

  datatype Longest = NoneYet | Found(order: seq<nat>)

  /** Each operation in `done` has a recorded order at least as long as `done` is large. */
  ghost predicate Recorded(longest: seq<Longest>, done: set<nat>) {
    forall i :: i in done ==> i < |longest| && longest[i].Found? && |longest[i].order| >= |done|
  }

  ghost predicate LongestInv<S(!new)>(p: Problem<S>, cache: set<Config<S>>, order: seq<nat>, longest: seq<Longest>)
    requires Timed(p)
  {
    && |longest| == p.n
    && (forall i :: 0 <= i < p.n && longest[i].Found? ==> i in longest[i].order && Valid(p, longest[i].order))
    && (forall c :: c in cache ==> OnPath(p, order, c) || Recorded(longest, c.done))
  }

  /** The better of the recorded order and `order`, for operation `i`. */
  function Better(best: Longest, order: seq<nat>, i: nat): Longest {
    if i in order && (best.NoneYet? || |order| > |best.order|) then Found(order) else best
  }

  /** The record after the search backtracks from `order`. */
  function Improved(longest: seq<Longest>, order: seq<nat>): (better: seq<Longest>)
    ensures |better| == |longest|
    ensures forall i :: 0 <= i < |longest| ==> better[i] == Better(longest[i], order, i)
  {
    seq(|longest|, i requires 0 <= i < |longest| => Better(longest[i], order, i))
  }

  /** The same while the loop has seen the first `k` operations of `order`. */
  ghost function Partly(longest: seq<Longest>, order: seq<nat>, k: nat): (better: seq<Longest>)
    requires k <= |order|
    ensures |better| == |longest|
  {
    seq(|longest|, i requires 0 <= i < |longest| =>
      if i in order[..k] then Better(longest[i], order, i) else longest[i])
  }

  lemma PartlyNext(longest: seq<Longest>, order: seq<nat>, k: nat)
    requires k < |order| && order[k] < |longest|
    ensures var best := Partly(longest, order, k);
            Partly(longest, order, k + 1) ==
            if best[order[k]].NoneYet? || |order| > |best[order[k]].order| then best[order[k] := Found(order)] else best
  {
    assert order[..k + 1] == order[..k] + [order[k]];
  }

  lemma PartlyEnds(longest: seq<Longest>, order: seq<nat>)
    ensures Partly(longest, order, 0) == longest && Partly(longest, order, |order|) == Improved(longest, order)
  {
    assert order[..|order|] == order;
  }

  lemma LongestStays<S(!new)>(p: Problem<S>, cache: set<Config<S>>, order: seq<nat>, x: nat, longest: seq<Longest>)
    requires Timed(p) && LongestInv(p, cache, order, longest)
    ensures LongestInv(p, cache + {ConfigOf(p, order + [x])}, order + [x], longest)
  {
    hide Valid, Recorded, ConfigOf;
    var order' := order + [x];
    forall c | c in cache + {ConfigOf(p, order')}
      ensures OnPath(p, order', c) || Recorded(longest, c.done)
    {
      if c in cache && OnPath(p, order, c) {
        var k :| 1 <= k <= |order| && c == ConfigOf(p, order[..k]);
        assert order'[..k] == order[..k];
      }
      if c == ConfigOf(p, order') {
        assert order'[..|order'|] == order';
      }
    }
  }

  lemma LongestImproves<S(!new)>(p: Problem<S>, cache: set<Config<S>>, order: seq<nat>, longest: seq<Longest>)
    requires Timed(p) && LongestInv(p, cache, order, longest) && Valid(p, order) && |order| > 0
    ensures LongestInv(p, cache, order[..|order| - 1], Improved(longest, order))
  {
    hide Valid;
    var pre := order[..|order| - 1];
    var better := Improved(longest, order);
    ValidDistinct(p, order);
    forall c | c in cache
      ensures OnPath(p, pre, c) || Recorded(better, c.done)
    {
      if OnPath(p, order, c) {
        var k :| 1 <= k <= |order| && c == ConfigOf(p, order[..k]);
        if k < |order| {
          assert pre[..k] == order[..k];
        } else {
          assert order[..k] == order;
          assert c.done == Elems(order);
        }
      }
    }
  }

  /** The recorded order of `i` is a longest partial linearization with `i`; none is recorded if there is none. */
  ghost predicate IsLongest<S>(p: Problem<S>, i: nat, best: Longest)
    requires Timed(p)
  {
    match best
    case NoneYet => forall o :: IsPartial(p, o) ==> i !in o
    case Found(order) =>
      && IsPartial(p, order)
      && i in order
      && forall o :: IsPartial(p, o) && i in o ==> |o| <= |order|
  }

  lemma LongestAtEnd<S(!new)>(p: Problem<S>, cache: set<Config<S>>, longest: seq<Longest>, i: nat)
    requires WellPosed(p) && LongestInv(p, cache, [], longest) && i < p.n
    requires forall c :: c in cache ==> Closed(p, cache, c)
    requires Closed(p, cache, ConfigOf(p, []))
    ensures IsLongest(p, i, longest[i])
  {
    hide Valid, Closed, Congruent, IsPartial;
    forall o | IsPartial(p, o) && i in o
      ensures longest[i].Found? && |o| <= |longest[i].order|
    {
      ValidIsPartial(p, o);
      ValidDistinct(p, o);
      Covered(p, cache, o);
      var d :| d in cache && d.done == Elems(o) && p.equal(After(p, o), d.state);
      assert Recorded(longest, d.done);
    }
    if longest[i].Found? {
      ValidIsPartial(p, longest[i].order);
    }
  }

  // ---------- Termination ----------

  ghost function OrdersOfLength(n: nat, k: nat): set<seq<nat>> {
    if k == 0 then {[]} else set o, x | o in OrdersOfLength(n, k - 1) && x in Range(n) :: o + [x]
  }

  lemma {:induction false} InOrdersOfLength(n: nat, o: seq<nat>)
    requires forall i :: 0 <= i < |o| ==> o[i] < n
    ensures o in OrdersOfLength(n, |o|)
    decreases |o|
  {
    if o != [] {
      var m := |o| - 1;
      InOrdersOfLength(n, o[..m]);
      assert o == o[..m] + [o[m]];
      assert o[m] in Range(n);
    }
  }

  ghost function ConfigsUpTo<S(!new)>(p: Problem<S>, k: nat): set<Config<S>> {
    (set o | o in OrdersOfLength(p.n, k) :: ConfigOf(p, o)) + (if k == 0 then {} else ConfigsUpTo(p, k - 1))
  }

  lemma {:induction false} InConfigs<S(!new)>(p: Problem<S>, o: seq<nat>, k: nat)
    requires (forall i :: 0 <= i < |o| ==> o[i] < p.n) && |o| <= k
    ensures ConfigOf(p, o) in ConfigsUpTo(p, k)
    decreases k
  {
    if |o| == k {
      InOrdersOfLength(p.n, o);
    } else {
      InConfigs(p, o, k - 1);
    }
  }

  /** The finitely many configurations that a search can visit. */
  ghost function Universe<S(!new)>(p: Problem<S>): set<Config<S>> {
    ConfigsUpTo(p, p.n)
  }

  lemma VisitsUniverse<S(!new)>(p: Problem<S>, order: seq<nat>)
    requires Timed(p) && Valid(p, order)
    ensures ConfigOf(p, order) in Universe(p)
  {
    ValidDistinct(p, order);
    InConfigs(p, order, p.n);
  }

  /** A new visit leaves fewer configurations to visit. */
  lemma FewerLeft<S(!new)>(p: Problem<S>, cache: set<Config<S>>, c: Config<S>)
    requires c in Universe(p) && c !in cache
    ensures |Universe(p) - (cache + {c})| < |Universe(p) - cache|
  {
    var left := Universe(p) - cache;
    assert Universe(p) - (cache + {c}) == left - {c};
  }
}
