/**
`checkSingle`: the depth-first search for a linearization of one history. The object holds the
local variables of the search and its methods are the branches of its loop.
*/
module CheckSingle {
  import opened LinSearch
  import opened LinModel
  import opened Bitset
  import opened EntryList
  import opened HistoryList
  import opened LiveList
  import opened VisitedCache

  datatype CallsEntry<S, I, O> = CallsEntry(entry: Node<Value<I, O>>, state: S)

  lemma SizeIs<I, O>(h: seq<Entry<I, O>>, m: nat)
    requires WellFormed(h, m)
    ensures |h| / 2 == m
  {
  }

  /** The stack holds the lifted calls, each with the state before it. */
  ghost predicate CallsOk<S(!new), I, O>(
    p: Problem<S>, calls: seq<CallsEntry<S, I, O>>, entries: seq<Node<Value<I, O>>>, order: seq<nat>, state: S) {
    && |calls| == |order| == |entries|
    && (forall k :: 0 <= k < |calls| ==> calls[k].entry == entries[k] && calls[k].entry.id == order[k])
    && (forall k :: 0 <= k < |calls| ==> calls[k].state == After(p, order[..k]))
    && state == After(p, order)
  }

  lemma CallsPushed<S(!new), I, O>(
    p: Problem<S>, calls: seq<CallsEntry<S, I, O>>, entries: seq<Node<Value<I, O>>>, order: seq<nat>, state: S,
    entry: Node<Value<I, O>>)
    requires CallsOk(p, calls, entries, order, state) && entry.id >= 0
    ensures CallsOk(p, calls + [CallsEntry(entry, state)], entries + [entry], order + [entry.id],
              p.step(state, entry.id).1)
  {
    var calls', order' := calls + [CallsEntry(entry, state)], order + [entry.id as nat];
    assert order'[..|order|] == order;
    forall k | 0 <= k < |calls'|
      ensures calls'[k].state == After(p, order'[..k])
    {
      assert order'[..k] == order[..k];
      assert k < |calls| ==> calls'[k] == calls[k];
    }
  }

  lemma CallsPopped<S(!new), I, O>(
    p: Problem<S>, calls: seq<CallsEntry<S, I, O>>, entries: seq<Node<Value<I, O>>>, order: seq<nat>, state: S)
    requires CallsOk(p, calls, entries, order, state) && |calls| > 0
    ensures var m := |calls| - 1;
            CallsOk(p, calls[..m], entries[..m], order[..m], calls[m].state)
  {
    var m := |calls| - 1;
    forall k | 0 <= k < m
      ensures calls[..m][k].state == After(p, order[..m][..k])
    {
      assert order[..m][..k] == order[..k];
    }
  }

  /** The last operation of a valid order is not among the others. */
  lemma LastIsNew<S>(p: Problem<S>, order: seq<nat>)
    requires Timed(p) && Valid(p, order) && |order| > 0
    ensures forall k :: 0 <= k < |order| ==> order[k] < p.n
    ensures var m := |order| - 1;
            Elems(order) - {order[m]} == Elems(order[..m])
  {
    var m := |order| - 1;
    ValidDistinct(p, order);
    assert order == order[..m] + [order[m]];
    ElemsSnoc(order[..m], order[m]);
  }

  class Search<S(!new), I(!new), O(!new)> {
    const model: Model<S, I, O>
    const n: nat
    const list: List<I, O>
    const linearized: array<bv64>
    const cache: Cache<S>
    const computePartial: bool
    var entry: Node?<Value<I, O>>
    var state: S
    var calls: seq<CallsEntry<S, I, O>>
    var longest: seq<Longest>

    ghost function Task(): Problem<S>
      requires WellFormed(list.h, n)
    {
      ProblemOf(model, list.h, n)
    }

    /** The position of the cursor, or the end of the history if nothing is left. */
    ghost function Pos(): int
      reads this, list
    {
      if |list.chain| > 1 && entry != null then entry.pos else |list.h|
    }

    ghost predicate CursorOk()
      reads this, list
    {
      |list.chain| > 1 ==> entry != null && entry in list.chain && entry != list.head
    }

    ghost predicate StackOk()
      requires WellFormed(list.h, n)
      reads this, list
    {
      CallsOk(Task(), calls, list.entries, list.order, state)
    }

    ghost predicate TablesOk()
      reads this, list, linearized, cache, cache.repr
    {
      && linearized.Length == (n + 63) / 64 == cache.size
      && Members(linearized[..]) == Elems(list.order)
      && cache.Valid()
      && linearized !in cache.repr
    }

    ghost predicate LongestOk()
      requires WellFormed(list.h, n) && EqualRespected(model)
      reads this, list, cache
    {
      && |longest| == n
      && (ProblemWellPosed(model, list.h, n);
          computePartial ==> LongestInv(Task(), cache.visited, list.order, longest))
    }

    ghost predicate Valid()
      reads this, list, list.head, list.nodes, linearized, cache, cache.repr
    {
      && list.Valid()
      && list.n == n
      && WellFormed(list.h, n)
      && EqualRespected(model)
      && StackOk()
      && TablesOk()
      && CursorOk()
      && SearchInv(Task(), cache.visited, list.order, Pos())
      && LongestOk()
    }

    constructor (model: Model<S, I, O>, h: seq<Entry<I, O>>, ghost m: nat, computePartial: bool)
      requires WellFormed(h, m) && EqualRespected(model)
      ensures Valid() && this.model == model && list.h == h && n == m && this.computePartial == computePartial
      ensures list.order == []
      ensures fresh(list) && fresh(list.head) && fresh(list.nodes) && fresh(linearized) && fresh(cache)
      ensures fresh(cache.repr)
    {
      hide WellFormed, EqualRespected, List.Shape, SearchInv, Cache.Valid, Members;
      var list := new List(h, m);
      var n := list.size / 2;
      assert n == m by { SizeIs(h, m); }
      var linearized := NewBitset(n);
      var cache := new Cache<S>(linearized.Length);
      this.model, this.n, this.list, this.linearized, this.cache := model, n, list, linearized, cache;
      this.computePartial := computePartial;
      entry := list.head.next;
      state := model.init;
      calls := [];
      longest := seq(n, _ => NoneYet);
      new;
      ProblemWellPosed(model, h, n);
      AtFront();
      SearchStarts(Task(), Pos());
    }

    // ---------- The cursor ----------

    /** A cursor at the front of the list has passed no operation. */
    lemma AtFront()
      requires list.Valid() && list.n == n && entry == list.head.next
      ensures CursorOk()
      ensures forall y :: 0 <= y < n && y !in list.order ==> Task().call[y] >= Pos()
    {
      hide StackShape, StackLinks;
      FrontNode();
      list.Front();
    }

    lemma FrontNode()
      requires list.Valid()
      ensures |list.chain| > 0 && list.chain[0] == list.head
      ensures list.head.next == if |list.chain| > 1 then list.chain[1] else null
      ensures |list.chain| > 1 ==> list.chain[1] in list.chain && list.chain[1] != list.head
    {
      hide StackLinks, FrameShape, Mirrors, WellFormed;
      assert Shows(list.chain, list.head, list.nodes, Elems(list.order));
      assert |list.chain| > 1 ==> Joined(list.chain[0], list.chain[1]);
    }

    /** What the nodes at the cursor say about the operation they belong to. */
    lemma CallAtCursor()
      requires list.Valid() && list.n == n && CursorOk() && |list.chain| > 1 && entry.mate != null
      ensures entry.value.Input? && entry.mate.value.Output?
      ensures 0 <= entry.id < n && entry.id !in list.order && entry.id !in Elems(list.order)
      ensures Task().call[entry.id] == entry.pos == Pos()
      ensures forall s :: Task().step(s, entry.id) == model.step(s, entry.value.input, entry.mate.value.output)
    {
      hide StackShape, StackLinks, Mirrors;
      var i := list.Where(entry);
      var j := list.WhereMate(entry, i);
      var x := entry.id;
      assert IsEntry(list.h, PosOf(list.h, n, x, false), false, x);
      assert IsEntry(list.h, PosOf(list.h, n, x, true), true, x);
      assert InputOf(list.h, n, x) == entry.value.input && OutputOf(list.h, n, x) == entry.mate.value.output;
      assert x !in list.order;
    }

    lemma ReturnAtCursor()
      requires list.Valid() && list.n == n && CursorOk() && |list.chain| > 1 && entry.mate == null
      ensures 0 <= entry.id < n && entry.id !in list.order && Task().ret[entry.id] == entry.pos == Pos()
    {
      hide StackShape, StackLinks, Mirrors;
      var i := list.Where(entry);
      PosIs(list.h, n, entry.pos);
      assert entry.id !in list.order;
    }

    /** Past a call, the next node is an entry too, and nothing that remains lies in between. */
    lemma NextOfCall(e: Node<Value<I, O>>)
      requires list.Valid() && list.n == n && e in list.chain && e != list.head && e.mate != null && |list.chain| > 1
      ensures e.next != null && e.next in list.chain && e.next != list.head && e.next.pos > e.pos
      ensures forall z :: 0 <= z < n && z !in list.order ==>
                !(e.pos < Task().call[z] < e.next.pos) && !(e.pos < Task().ret[z] < e.next.pos)
    {
      hide StackLinks, Mirrors, FrameShape;
      var i := list.Where(e);
      var j := list.WhereMate(e, i);
      list.Gap(i);
      assert Shows(list.chain, list.head, list.nodes, Elems(list.order));
      assert e.next == list.chain[i + 1];
      forall z | 0 <= z < n && z !in list.order
        ensures !(e.pos < Task().call[z] < e.next.pos) && !(e.pos < Task().ret[z] < e.next.pos)
      {
        assert Task().call[z] == PosOf(list.h, n, z, false) && Task().ret[z] == PosOf(list.h, n, z, true);
      }
    }

    // ---------- The branches of the loop ----------

    /** The call at the cursor is not taken. */
    method Advance()
      requires Valid() && |list.chain| > 1 && entry != null && entry.mate != null && entry.id >= 0
      requires Expanded(Task(), cache.visited, ConfigOf(Task(), list.order), entry.id)
      modifies this`entry
      ensures Valid() && Pos() > old(Pos())
    {
      hide List.Shape, SearchInv, LongestInv, WellFormed, EqualRespected, Expanded, ConfigOf;
      CallAtCursor();
      NextOfCall(entry);
      Skip(Task(), cache.visited, list.order, Pos(), entry.id, entry.next.pos);
      entry := entry.next;
    }

    /** The call at the cursor is taken: it leads to a configuration that was not visited. */
    method Take(newState: S, bits: array<bv64>)
      requires Valid() && |list.chain| > 1 && entry != null && entry.mate != null && entry.id >= 0
      requires Task().step(state, entry.id) == (true, newState)
      requires Members(bits[..]) == Elems(list.order) + {entry.id as nat} && bits.Length == linearized.Length
      requires bits != linearized && bits !in cache.repr
      requires !Visited(Task(), cache.visited, Config(Elems(list.order) + {entry.id as nat}, newState))
      modifies this, list, list.head, list.nodes, linearized, cache
      ensures Valid() && cache.repr == old(cache.repr) + {bits} && |list.order| == |old(list.order)| + 1
      ensures |Universe(Task()) - cache.visited| < |Universe(Task()) - old(cache.visited)|
    {
      hide List.Valid, Cache.Valid, SearchInv, LongestInv, WellFormed, EqualRespected, Members, CallsOk, Universe;
      hide Visited;
      var x: nat := entry.id;
      CallAtCursor();
      TakeConfig(newState);
      ghost var order, pos, visited := list.order, Pos(), cache.visited;
      CallsPushed(Task(), calls, list.entries, order, state, entry);
      StateIs();
      Mark(newState, bits, x);
      calls := calls + [CallsEntry(entry, state)];
      state := newState;
      list.Lift(entry);
      entry := list.head.next;
      ElemsSnoc(order, x);
      AtFront();
      ProblemWellPosed(model, list.h, n);
      Taken(visited, order, pos, x);
    }

    lemma StateIs()
      requires WellFormed(list.h, n) && StackOk()
      ensures state == After(Task(), list.order) && |calls| == |list.order| == |list.entries|
    {
    }

    /** The bitset and the cache record the new configuration. */
    method Mark(newState: S, bits: array<bv64>, x: nat)
      requires TablesOk() && x < n && bits.Length == linearized.Length && bits != linearized && bits !in cache.repr
      modifies linearized, cache
      ensures linearized.Length == (n + 63) / 64 == cache.size
      ensures Members(linearized[..]) == Elems(list.order) + {x}
      ensures cache.Valid() && linearized !in cache.repr
      ensures cache.repr == old(cache.repr) + {bits}
      ensures cache.visited == old(cache.visited) + {Config(Members(bits[..]), newState)}
    {
      hide Members, HashOf;
      cache.Insert(bits, newState);
      Set(linearized, x);
    }

    /** Taking the call keeps what is known about the search. */
    lemma Taken(visited: set<Config<S>>, order: seq<nat>, pos: int, x: nat)
      requires WellFormed(list.h, n) && EqualRespected(model) && |longest| == n
      requires SearchInv(Task(), visited, order, pos) && x < n && x !in order && Task().call[x] == pos
      requires Task().step(After(Task(), order), x).0
      requires list.order == order + [x] && cache.visited == visited + {ConfigOf(Task(), order + [x])}
      requires forall y :: 0 <= y < n && y !in list.order ==> Task().call[y] >= Pos()
      requires Timed(Task()) && (computePartial ==> LongestInv(Task(), visited, order, longest))
      ensures SearchInv(Task(), cache.visited, list.order, Pos())
      ensures LongestOk()
    {
      hide SearchInv, LongestInv, WellFormed, EqualRespected;
      LinSearch.Lift(Task(), visited, order, pos, x, Pos());
      ProblemWellPosed(model, list.h, n);
      if computePartial {
        LongestStays(Task(), visited, order, x, longest);
      }
    }

    /** The configuration behind the cursor is new. */
    lemma TakeConfig(newState: S)
      requires WellFormed(list.h, n) && StackOk() && SearchInv(Task(), cache.visited, list.order, Pos())
      requires entry != null && 0 <= entry.id < n && entry.id !in list.order && Task().call[entry.id] == Pos()
      requires Task().step(state, entry.id) == (true, newState)
      requires !Visited(Task(), cache.visited, Config(Elems(list.order) + {entry.id as nat}, newState))
      ensures var c := Config(Elems(list.order) + {entry.id as nat}, newState);
              && c == ConfigOf(Task(), list.order + [entry.id])
              && |Universe(Task()) - (cache.visited + {c})| < |Universe(Task()) - cache.visited|
    {
      hide WellFormed, Universe, After, LinSearch.Valid, Closed, Witnessed, OnPath, FrameClosed, ClosedUpTo, Moments;
      var p, x, order := Task(), entry.id, list.order;
      StateIs();
      CursorFeasible(p, cache.visited, order, Pos(), x);
      LiftValid(p, order, x);
      var c := Config(Elems(order) + {x as nat}, newState);
      assert p.equal(newState, newState);
      assert c !in cache.visited;
      VisitsUniverse(p, order + [x]);
      FewerLeft(p, cache.visited, c);
    }

    /** The cursor is at a call. */
    method Visit()
      requires Valid() && |list.chain| > 1 && entry.mate != null
      modifies this, list, list.head, list.nodes, linearized, cache
      ensures Valid() && fresh(cache.repr - old(cache.repr)) && |list.order| <= |old(list.order)| + 1
      ensures || |Universe(Task()) - cache.visited| < |Universe(Task()) - old(cache.visited)|
              || (cache.visited == old(cache.visited) && list.order == old(list.order) && Pos() > old(Pos()))
    {
      hide List.Valid, Cache.Valid, SearchInv, LongestInv, WellFormed, EqualRespected, Members, CallsOk, Universe;
      CallAtCursor();
      var matching := entry.mate;
      var result := model.step(state, entry.value.input, matching.value.output);
      if result.0 {
        var newLinearized := Clone(linearized);
        Set(newLinearized, entry.id);
        var seen := cache.Contains(newLinearized, result.1, model.equal);
        SeenMeansVisited(result.1, seen, newLinearized);
        if !seen {
          Take(result.1, newLinearized);
        } else {
          StateIs();
          Advance();
        }
      } else {
        StateIs();
        Advance();
      }
    }

    lemma SeenMeansVisited(newState: S, seen: bool, bits: array<bv64>)
      requires WellFormed(list.h, n) && entry != null && entry.id >= 0
      requires Members(bits[..]) == Elems(list.order) + {entry.id as nat}
      requires seen <==> exists c :: c in cache.visited && c.done == Members(bits[..]) && model.equal(newState, c.state)
      ensures seen <==> Visited(Task(), cache.visited, Config(Elems(list.order) + {entry.id as nat}, newState))
    {
    }

    // ---------- Backtracking ----------

    lemma StackIds()
      requires WellFormed(list.h, n) && StackOk()
      ensures |calls| == |list.order| && forall k :: 0 <= k < |calls| ==> calls[k].entry.id == list.order[k]
    {
      hide WellFormed;
    }

    /** Ids of the calls on the stack. */
    method Ids() returns (ids: seq<nat>)
      requires WellFormed(list.h, n) && StackOk()
      ensures ids == list.order
    {
      hide WellFormed, CallsOk;
      StackIds();
      ids := [];
      var k := 0;
      while k < |calls|
        invariant 0 <= k <= |calls| && ids == list.order[..k]
      {
        ids := ids + [calls[k].entry.id];
        k := k + 1;
      }
    }

    /** Every operation on the stack learns about the current order if it is longer than what it has. */
    method Record()
      requires WellFormed(list.h, n) && StackOk() && |longest| == n
      requires forall k :: 0 <= k < |list.order| ==> list.order[k] < n
      modifies this`longest
      ensures longest == Improved(old(longest), list.order)
    {
      hide WellFormed, CallsOk, Partly, Improved, Better;
      var ids := Ids();
      StackIds();
      PartlyEnds(longest, ids);
      var k := 0;
      while k < |calls|
        invariant 0 <= k <= |calls| && longest == Partly(old(longest), ids, k)
      {
        var id := calls[k].entry.id;
        PartlyNext(old(longest), ids, k);
        if longest[id].NoneYet? || |calls| > |longest[id].order| {
          longest := longest[id := Found(ids)];
        }
        k := k + 1;
      }
    }

    /** The operations on the stack are distinct, and the last one can be undone. */
    lemma SearchOrder()
      requires Valid()
      ensures Timed(Task()) && LinSearch.Valid(Task(), list.order)
    {
      hide List.Valid, Cache.Valid, LongestInv, EqualRespected, Members, LinSearch.Valid, WellFormed, CallsOk;
      hide CursorOk, Moments, Congruent, FrameClosed, ClosedUpTo;
    }

    lemma TopOfStack()
      requires list.Valid() && list.n == n && WellFormed(list.h, n) && StackOk() && |calls| > 0
      requires Timed(Task()) && LinSearch.Valid(Task(), list.order)
      ensures |calls| == |list.order| == |list.entries| == |list.frames|
      ensures forall k :: 0 <= k < |list.order| ==> list.order[k] < n
      ensures var m := |calls| - 1;
              && calls[m].entry == list.entries[m] && calls[m].entry.id == list.order[m]
              && calls[m].entry.mate != null && calls[m].entry.pos == Task().call[list.order[m]]
              && Elems(list.order) - {list.order[m]} == Elems(list.order[..m])
    {
      hide List.Valid, Moments, LinSearch.Valid, WellFormed;
      var m := |calls| - 1;
      Sizes();
      LastIsNew(Task(), list.order);
      TopNode(m);
    }

    lemma Sizes()
      requires list.Valid()
      ensures |list.frames| == |list.entries| == |list.order|
    {
    }

    lemma TopNode(m: nat)
      requires list.Valid() && list.n == n && |list.frames| == |list.entries| == |list.order| == m + 1
      requires list.entries[m].id == list.order[m] < n
      ensures list.entries[m].mate != null && list.entries[m].pos == Task().call[list.order[m]]
    {
      list.LastFrame();
      var f := list.frames[m];
      assert FrameShape(f, list.entries[m], list.order[m], Elems(list.order[..m]), list.chain, list.head, list.nodes);
      assert list.entries[m] in list.nodes;
      var k :| 0 <= k < |list.nodes| && list.nodes[k] == list.entries[m];
      assert MirrorsAt(list.nodes, 0, list.h, n, k);
      PosIs(list.h, n, k);
    }

    /** The list, the bitset and the state go back to what they were before the last call was taken. */
    method Undo()
      requires |calls| > 0 && |calls| == |list.order| == |list.entries| == |list.frames|
      requires var m := |calls| - 1;
               && calls[m].entry == list.entries[m] && calls[m].entry.id == list.order[m] < n
               && Elems(list.order) - {list.order[m]} == Elems(list.order[..m])
      requires WellFormed(list.h, n) && StackOk() && TablesOk() && list.n == n && list.Valid()
      modifies this`entry, this`state, this`calls, list, list.head, list.nodes, linearized
      ensures |old(list.order)| == |old(calls)| && list.order == old(list.order)[..|old(calls)| - 1]
      ensures StackOk() && TablesOk() && list.Valid()
      ensures entry != null && entry in list.chain && entry != list.head && entry == old(calls)[|old(calls)| - 1].entry
    {
      hide List.Valid, Cache.Valid, SearchInv, LongestInv, WellFormed, EqualRespected, Members, CallsOk;
      CallsPopped(Task(), calls, list.entries, list.order, state);
      var m := |calls| - 1;
      var top := calls[m];
      entry := top.entry;
      state := top.state;
      Clear(linearized, entry.id);
      calls := calls[..m];
      list.Unlift(entry);
    }

    /** The cursor is at a return: the last call taken is undone. */
    method Backtrack()
      requires Valid() && |list.chain| > 1 && entry.mate == null && |calls| > 0
      modifies this, list, list.head, list.nodes, linearized
      ensures Valid() && |list.order| < |old(list.order)|
    {
      hide List.Valid, Cache.Valid, SearchInv, LongestInv, WellFormed, EqualRespected, Members, CallsOk, Moments;
      hide LinSearch.Valid;
      ghost var order, pos := list.order, Pos();
      ReturnAtCursor();
      ghost var y: nat := entry.id;
      SearchOrder();
      TopOfStack();
      if computePartial {
        Record();
      }
      Undo();
      ProblemWellPosed(model, list.h, n);
      FrontNode();
      NextOfCall(entry);
      entry := entry.next;
      Undone(order, pos, y, old(longest));
    }

    /** Undoing the last call keeps what is known about the search. */
    lemma Undone(order: seq<nat>, pos: int, y: nat, before: seq<Longest>)
      requires WellFormed(list.h, n) && EqualRespected(model) && |before| == n
      requires SearchInv(Task(), cache.visited, order, pos) && y < n && y !in order && Task().ret[y] == pos
      requires |order| > 0 && list.order == order[..|order| - 1] && order[|order| - 1] < n
      requires forall z :: 0 <= z < n && z !in list.order ==>
                 !(Task().call[order[|order| - 1]] < Task().call[z] < Pos()) &&
                     !(Task().call[order[|order| - 1]] < Task().ret[z] < Pos())
      requires Timed(Task()) && (computePartial ==> LongestInv(Task(), cache.visited, order, before))
      requires longest == if computePartial then Improved(before, order) else before
      ensures SearchInv(Task(), cache.visited, list.order, Pos())
      ensures LongestOk()
    {
      hide LongestInv, WellFormed, EqualRespected;
      LinSearch.Unlift(Task(), cache.visited, order, pos, y, Pos());
      ProblemWellPosed(model, list.h, n);
      if computePartial {
        LongestImproves(Task(), cache.visited, order, before);
      }
    }

    // ---------- The loop ----------

    /** Nothing is left: the calls on the stack are a linearization. */
    lemma Complete()
      requires Valid() && |list.chain| == 1
      ensures Timed(Task()) && IsLinearization(Task(), list.order)
    {
      hide Cache.Valid, LongestInv, EqualRespected, Members, Expanded, Mirrors, Linked, StackLinks, FrameShape;
      var order := list.order;
      list.EmptyList();
      ValidDistinct(Task(), order);
      assert Range(n) <= Elems(order);
      SubsetSize(Range(n), Elems(order));
      FullIsLinearization(Task(), order);
    }

    /** The search: `kill(t)` is what the t-th look at the kill flag finds. */
    method Run(kill: nat -> bool) returns (ok: bool, ghost killed: bool)
      requires Valid()
      modifies this, list, list.head, list.nodes, linearized, cache
      ensures Valid() && Timed(Task())
      ensures killed ==> !ok && exists t :: kill(t)
      ensures !killed ==> (ok <==> Linearizable(Task()))
      ensures ok ==> |longest| == n && IsLinearization(Task(), list.order) && |calls| == |list.order|
      ensures ok ==> forall t :: 0 <= t < n - |old(list.order)| ==> !kill(t)
      ensures !ok && !killed && computePartial ==>
                |longest| == n && forall i :: 0 <= i < n ==> IsLongest(Task(), i, longest[i])
    {
      hide List.Valid, Cache.Valid, SearchInv, LongestInv, WellFormed, EqualRespected, Members, CallsOk, Universe;
      hide IsLongest;
      ProblemWellPosed(model, list.h, n);
      killed := false;
      var t := 0;
      FrontNode();
      while list.head.next != null
        invariant Valid() && fresh(cache.repr - old(cache.repr))
        invariant |list.order| <= |old(list.order)| + t && forall u :: 0 <= u < t ==> !kill(u)
        invariant |list.chain| > 0 && list.head.next == if |list.chain| > 1 then list.chain[1] else null
        decreases |Universe(Task()) - cache.visited|, |list.order|, |list.h| - Pos()
      {
        if kill(t) {
          killed := true;
          return false, true;
        }
        t := t + 1;
        PosInRange();
        if entry.mate != null {
          Visit();
        } else {
          if |calls| == 0 {
            ReturnAtCursor();
            NoneFound();
            return false, false;
          }
          Backtrack();
        }
        FrontNode();
      }
      Complete();
      StateIs();
      ok := true;
    }

    lemma PosInRange()
      requires list.Valid() && list.n == n && CursorOk() && |list.chain| > 1
      ensures 0 <= Pos() < |list.h|
    {
      var i := list.Where(entry);
    }

    lemma NoneFound()
      requires Valid() && |list.chain| > 1 && entry != null && |calls| == 0
      requires 0 <= entry.id < n && Task().ret[entry.id] == Pos()
      ensures Timed(Task()) && !Linearizable(Task())
      ensures computePartial ==> |longest| == n && forall i :: 0 <= i < n ==> IsLongest(Task(), i, longest[i])
    {
      hide List.Valid, Cache.Valid, WellFormed, EqualRespected, Members, SearchInv, LongestInv;
      ProblemWellPosed(model, list.h, n);
      assert list.order == [];
      GivesUp(Task(), cache.visited, Pos(), entry.id);
      if computePartial {
        forall i | 0 <= i < n
          ensures IsLongest(Task(), i, longest[i])
        {
          LongestAtEnd(Task(), cache.visited, longest, i);
        }
      }
    }
  }

  /**
  `checkSingle`. Unless it is killed, it answers true exactly for the linearizable histories;
  with `computePartial` it then reports for each operation a longest partial linearization that
  contains it, if there is one. It looks at the flag before every operation that it takes.
  */
  method Check<S(!new), I(!new), O(!new)>(
    model: Model<S, I, O>, h: seq<Entry<I, O>>, ghost n: nat, computePartial: bool, kill: nat -> bool)
    returns (ok: bool, longest: seq<Longest>, ghost killed: bool)
    requires WellFormed(h, n) && EqualRespected(model)
    ensures Timed(ProblemOf(model, h, n)) && |longest| == n
    ensures killed ==> !ok && exists t :: kill(t)
    ensures !killed ==> (ok <==> Linearizable(ProblemOf(model, h, n)))
    ensures (forall t :: !kill(t)) ==> (ok <==> Linearizable(ProblemOf(model, h, n)))
    ensures ok ==> Linearizable(ProblemOf(model, h, n)) && forall t :: 0 <= t < n ==> !kill(t)
    ensures ok ==> forall i :: 0 <= i < n ==>
              longest[i].Found? && IsLinearization(ProblemOf(model, h, n), longest[i].order)
    ensures !ok && !killed && computePartial ==> forall i :: 0 <= i < n ==>
              IsLongest(ProblemOf(model, h, n), i, longest[i])
  {
    hide List.Valid, Cache.Valid, SearchInv, LongestInv, Members, CallsOk, WellFormed, EqualRespected;
    hide IsLinearization, IsLongest, Linearizable, Timed;
    var search := new Search(model, h, n, computePartial);
    ok, killed := search.Run(kill);
    longest := search.longest;
    if ok {
      var ids := search.Ids();
      longest := seq(search.n, _ => Found(ids));
    }
  }
}
