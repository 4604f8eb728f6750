/** The list that the search works on: lifting and unlifting operations in last-in first-out order. */
module LiveList {
  import opened LinSearch
  import opened LinModel
  import opened EntryList
  import opened HistoryList

  /** The nodes of an operation are those of its call and its return. */
  lemma MatePair<I, O>(nodes: seq<Node<Value<I, O>>>, h: seq<Entry<I, O>>, n: nat, k: nat)
    requires WellFormed(h, n) && Mirrors(nodes, h, n) && k < |h| && !h[k].isReturn
    ensures nodes[k].mate in nodes && nodes[k].mate.id == nodes[k].id && nodes[k].mate.pos > k
    ensures forall l :: 0 <= l < |nodes| ==>
              (nodes[l].id == nodes[k].id <==> nodes[l] == nodes[k] || nodes[l] == nodes[k].mate)
  {
    var r := PosOf(h, n, h[k].id, true);
    CallBeforeReturn(h, n, k);
    assert MirrorsAt(nodes, 0, h, n, k) && MirrorsAt(nodes, 0, h, n, r);
    forall l | 0 <= l < |nodes|
      ensures nodes[l].id == nodes[k].id <==> nodes[l] == nodes[k] || nodes[l] == nodes[k].mate
    {
      assert MirrorsAt(nodes, 0, h, n, l);
      PosIs(h, n, l);
      PosIs(h, n, k);
    }
  }

  class List<I, O> {
    const head: Node<Value<I, O>>
    const size: nat                              // the number of nodes at the beginning
    ghost const nodes: seq<Node<Value<I, O>>>
    ghost const h: seq<Entry<I, O>>
    ghost const n: nat
    ghost var order: seq<nat>                    // the lifted operations
    ghost var entries: seq<Node<Value<I, O>>>    // and their call nodes
    ghost var chain: seq<Node<Value<I, O>>>      // the head and the nodes that are left
    ghost var frames: seq<Frame<Value<I, O>>>

    ghost predicate Shape()
      reads this
    {
      && WellFormed(h, n)
      && Mirrors(nodes, h, n)
      && head.pos == -1
      && StackShape(frames, entries, order, chain, head, nodes)
    }

    ghost predicate Valid()
      reads this, head, nodes
    {
      && Shape()
      && StackLinks(frames, entries, nodes)
      && (InList(); Linked(chain))
    }

    lemma InList()
      requires Shape()
      ensures forall x :: x in chain ==> x == head || x in nodes
      ensures forall k :: 0 <= k < |chain| ==> chain[k] == head || chain[k] in nodes
    {
      hide StackLinks, Mirrors, WellFormed, FrameShape;
      assert Shows(chain, head, nodes, Elems(order));
    }

    /** The list of a history, headed by an extra node. */
    constructor (h: seq<Entry<I, O>>, ghost n: nat)
      requires WellFormed(h, n)
      ensures Valid() && this.h == h && this.n == n
      ensures order == [] && entries == [] && chain == [head] + nodes && size == |h|
      ensures fresh(head) && fresh(nodes)
    {
      hide WellFormed, Mirrors, StackShape, Linked;
      var root, nodes := MakeLinkedEntries(h, n);
      var head := new Node(Nothing, null, -1, -1);
      NodesDistinct(nodes, h, n);
      var length := Length(root, nodes);
      DistinctCons(head, nodes);
      assert [] + [head] + nodes == [head] + nodes && [] + nodes == nodes;
      InsertBefore(head, root, [], nodes);
      this.head, this.nodes, this.h, this.n, size := head, nodes, h, n, length;
      order, entries, chain, frames := [], [], [head] + nodes, [];
      new;
      AllShown(head, nodes, h, n);
    }

    /** Where a node stands in the current list. */
    lemma Where(entry: Node<Value<I, O>>) returns (i: nat)
      requires Valid() && entry in chain && entry != head
      ensures 1 <= i < |chain| && chain[i] == entry && entry in nodes
      ensures 0 <= entry.pos < |h| && entry == nodes[entry.pos] && entry.id == h[entry.pos].id
      ensures entry.value == h[entry.pos].value
      ensures 0 <= entry.id < n && entry.id !in Elems(order)
      ensures h[entry.pos].isReturn <==> entry.mate == null
      ensures entry.next == if i + 1 < |chain| then chain[i + 1] else null
    {
      hide StackLinks, FrameShape, PosOf;
      i :| 0 <= i < |chain| && chain[i] == entry;
      assert Shows(chain, head, nodes, Elems(order));
      var k :| 0 <= k < |nodes| && nodes[k] == entry;
      assert MirrorsAt(nodes, 0, h, n, k);
      assert i + 1 < |chain| ==> Joined(chain[i], chain[i + 1]);
    }

    /** A call in the list is followed by its return. */
    lemma WhereMate(entry: Node<Value<I, O>>, i: nat) returns (j: nat)
      requires Valid() && 1 <= i < |chain| && chain[i] == entry && entry.mate != null
      ensures Stands(chain, entry, i, j) && chain[j].id == entry.id && chain[j] in nodes
      ensures 0 <= entry.id < n && 0 <= entry.mate.pos < |h| && entry.mate.value == h[entry.mate.pos].value
      ensures entry.mate.pos == PosOf(h, n, entry.id, true) && entry.pos == PosOf(h, n, entry.id, false)
      ensures forall k :: 0 <= k < |nodes| ==>
                (nodes[k].id == entry.id <==> nodes[k] == chain[i] || nodes[k] == chain[j])
    {
      hide StackLinks, FrameShape;
      ShowsDistinct(chain, head, nodes, Elems(order));
      var _ := Where(entry);
      MatePair(nodes, h, n, entry.pos);
      var k :| 0 <= k < |nodes| && nodes[k] == entry.mate;
      assert nodes[k] in chain;
      j :| 0 <= j < |chain| && chain[j] == entry.mate;
      assert MirrorsAt(nodes, 0, h, n, entry.pos) && MirrorsAt(nodes, 0, h, n, k);
      PosIs(h, n, entry.pos);
    }

    /** `lift`. */
    method Lift(entry: Node<Value<I, O>>)
      requires Valid() && entry in chain && entry != head && entry.mate != null
      modifies this, head, nodes
      ensures Valid() && entry.id >= 0
      ensures order == old(order) + [entry.id] && entries == old(entries) + [entry]
      ensures |chain| == |old(chain)| - 2
    {
      hide StackShape, Mirrors, WellFormed, Linked, Stands, Shows, Remembers;
      InList();
      ghost var i := Where(entry);
      ghost var j := WhereMate(entry, i);
      Pushed(frames, entries, order, chain, head, nodes, entry, i, j);
      StackOff();
      LiftedSize(chain, entry, i, j);
      ghost var before := chain;
      EntryList.Lift(entry, chain, i, j);
      ghost var f := Frame(before, i, j);
      assert FrameLinks(f, entry, nodes);
      forall k | 0 <= k < |frames|
        ensures FrameLinks(frames[k], entries[k], nodes)
      {
        assert old(FrameLinks(frames[k], entries[k], nodes));
      }
      frames := frames + [f];
      entries := entries + [entry];
      order := order + [entry.id];
      chain := Without(before, i, j);
    }

    /** `unlift`: exactly the list before the last lift. */
    method Unlift(entry: Node<Value<I, O>>)
      requires Valid() && |order| > 0 && |entries| == |frames| == |order| && entry == entries[|order| - 1]
      modifies this, head, nodes
      ensures Valid()
      ensures order == old(order)[..|old(order)| - 1] && entries == old(entries)[..|old(order)| - 1]
      ensures chain == old(frames)[|old(frames)| - 1].chain && entry in chain && entry != head
    {
      hide StackShape, Mirrors, WellFormed, Linked, Stands, Shows, Remembers;
      ghost var m := |frames| - 1;
      ghost var f := frames[m];
      LastFrame();
      Popped(frames, entries, order, chain, head, nodes);
      StackOffFrame(m);
      EntryList.Unlift(entry, f.chain, f.i, f.j);
      forall k | 0 <= k < m
        ensures FrameLinks(frames[k], entries[k], nodes)
      {
        assert old(FrameLinks(frames[k], entries[k], nodes));
      }
      frames, entries, order, chain := frames[..m], entries[..m], order[..m], f.chain;
    }

    /** The entries of an operation that was not lifted are in the list. */
    lemma Remains(y: nat, isReturn: bool) returns (k: nat)
      requires Shape() && y < n && y !in order
      ensures k == PosOf(h, n, y, isReturn) && k < |nodes| && nodes[k].pos == k && nodes[k].id == y
      ensures y !in Elems(order)
    {
      k := PosOf(h, n, y, isReturn);
      assert IsEntry(h, k, isReturn, y);
      assert MirrorsAt(nodes, 0, h, n, k);
    }

    /** Between neighbours in the list there is no entry of an operation that was not lifted. */
    lemma Gap(i: nat)
      requires Shape() && i + 1 < |chain|
      ensures forall y: nat, isReturn: bool :: y < n && y !in order ==>
                !(chain[i].pos < PosOf(h, n, y, isReturn) < chain[i + 1].pos)
    {
      hide PosOf, Mirrors;
      forall y: nat, isReturn: bool | y < n && y !in order
        ensures !(chain[i].pos < PosOf(h, n, y, isReturn) < chain[i + 1].pos)
      {
        var k := Remains(y, isReturn);
        NothingBetween(chain, head, nodes, Elems(order), i, k);
      }
    }

    /** The list begins with the earliest entry of an operation that was not lifted. */
    lemma Front()
      requires Shape()
      ensures forall y: nat :: y < n && y !in order ==> |chain| > 1 && PosOf(h, n, y, false) >= chain[1].pos
    {
      hide PosOf, Mirrors;
      forall y: nat | y < n && y !in order
        ensures |chain| > 1 && PosOf(h, n, y, false) >= chain[1].pos
      {
        var k := Remains(y, false);
        FirstIsEarliest(chain, head, nodes, Elems(order), k);
      }
    }

    /** The list is empty exactly when every operation was lifted. */
    lemma EmptyList()
      requires Shape() && |chain| == 1
      ensures forall y: nat :: y < n ==> y in order
    {
      Front();
    }

    lemma LiftedSize(chain: seq<Node<Value<I, O>>>, entry: Node<Value<I, O>>, i: nat, j: nat)
      requires Stands(chain, entry, i, j)
      ensures i < j < |chain| && |Without(chain, i, j)| == |chain| - 2
    {
    }

    /** Nothing on the stack is in the list. */
    lemma StackOff()
      requires Valid()
      ensures |entries| == |frames| == |order|
      ensures forall k :: 0 <= k < |frames| ==> entries[k] !in chain
      ensures forall k :: 0 <= k < |frames| ==>
                frames[k].j < |frames[k].chain| && frames[k].chain[frames[k].j] !in chain
    {
      forall k | 0 <= k < |frames|
        ensures entries[k] !in chain && frames[k].j < |frames[k].chain| && frames[k].chain[frames[k].j] !in chain
      {
        Untouched(frames, entries, order, chain, head, nodes, k);
      }
    }

    /** Nothing below the last operation on the stack is in the list that its unlift restores. */
    lemma StackOffFrame(m: nat)
      requires Valid() && m == |frames| - 1
      requires |entries| == |frames| == |order|
      requires StackShape(frames[..m], entries[..m], order[..m], frames[m].chain, head, nodes)
      ensures forall k :: 0 <= k < m ==> entries[k] !in frames[m].chain
      ensures forall k :: 0 <= k < m ==>
                frames[k].j < |frames[k].chain| && frames[k].chain[frames[k].j] !in frames[m].chain
    {
      forall k | 0 <= k < m
        ensures entries[k] !in frames[m].chain && frames[k].j < |frames[k].chain|
        ensures frames[k].chain[frames[k].j] !in frames[m].chain
      {
        Untouched(frames[..m], entries[..m], order[..m], frames[m].chain, head, nodes, k);
      }
    }

    lemma LastFrame()
      requires StackShape(frames, entries, order, chain, head, nodes) && StackLinks(frames, entries, nodes)
      requires |frames| > 0
      ensures var m := |frames| - 1;
              var f := frames[m];
              && Stands(f.chain, entries[m], f.i, f.j)
              && Remembers(f.chain, entries[m], f.i, f.j)
              && chain == Without(f.chain, f.i, f.j)
              && (forall x :: x in f.chain ==> x == head || x in nodes)
              && (forall k :: 0 <= k < |f.chain| ==> f.chain[k] == head || f.chain[k] in nodes)
              && entries[m] in f.chain && entries[m] != head
    {
      hide Remembers, Without, Distinct;
      var m := |frames| - 1;
      var f := frames[m];
      assert FrameShape(f, entries[m], order[m], Elems(order[..m]), chain, head, nodes);
      assert FrameLinks(f, entries[m], nodes);
    }
  }

  lemma NodesDistinct<I, O>(nodes: seq<Node<Value<I, O>>>, h: seq<Entry<I, O>>, n: nat)
    requires WellFormed(h, n) && Mirrors(nodes, h, n)
    ensures Distinct(nodes) && |nodes| == |h|
  {
  }

  lemma AllShown<I, O>(head: Node<Value<I, O>>, nodes: seq<Node<Value<I, O>>>, h: seq<Entry<I, O>>, n: nat)
    requires WellFormed(h, n) && Mirrors(nodes, h, n) && head !in nodes && head.pos == -1
    ensures StackShape([], [], [], [head] + nodes, head, nodes)
  {
    var chain := [head] + nodes;
    forall i | 1 <= i < |chain|
      ensures chain[i].pos == i - 1
    {
      assert MirrorsAt(nodes, 0, h, n, i - 1);
    }
    assert Elems([]) == {};
    assert Shows(chain, head, nodes, {});
  }
}
