/** The linked list of a history, and what remains of it while operations are lifted. */
module HistoryList {
  import opened LinSearch
  import opened LinModel
  import opened EntryList

  // ---------- Building the list ----------

  /** `insertBefore`: puts `n` in front of `mark`, or leaves it alone if there is no `mark`. */
  method InsertBefore<V>(n: Node<V>, mark: Node?<V>, ghost before: seq<Node<V>>, ghost after: seq<Node<V>>)
    requires Distinct(before + [n] + after) && n.next == null
    requires if mark == null then before == after == []
             else after != [] && after[0] == mark && Linked(before + after) && (before == [] ==> mark.prev == null)
    modifies before, n, after
    ensures Linked(before + [n] + after)
    ensures before == [] ==> n.prev == old(n.prev)
  {
    ghost var chain := before + after;
    ghost var chain' := before + [n] + after;
    ghost var b := |before|;
    assert chain'[b] == n && forall x :: 0 <= x < |chain'| && x != b ==> chain'[x] != n;
    assert mark != null ==> mark == chain'[b + 1] && mark != n;
    assert b > 0 && mark != null ==> Joined(chain[b - 1], chain[b]);
    if mark != null {
      var beforeMark := mark.prev;
      mark.prev := n;
      n.next := mark;
      if beforeMark != null {
        n.prev := beforeMark;
        beforeMark.next := n;
      }
    }
    assert forall x :: 0 <= x < b ==> chain'[x] == before[x] == chain[x];
    assert forall x :: b < x < |chain'| ==> chain'[x] == after[x - b - 1] == chain[x - 1];
    forall x | 0 <= x < |chain'| - 1
      ensures Joined(chain'[x], chain'[x + 1])
    {
      if x + 1 < b {
        assert old(Joined(chain[x], chain[x + 1]));
      } else if x > b {
        assert old(Joined(chain[x - 1], chain[x - 1 + 1]));
      }
    }
  }

  /** Node `k` stands for entry `k`, and a call knows its return. */
  ghost predicate Mirrors<I, O>(nodes: seq<Node<Value<I, O>>>, h: seq<Entry<I, O>>, n: nat)
    requires WellFormed(h, n)
  {
    && |nodes| == |h|
    && Distinct(nodes)
    && forall k :: 0 <= k < |nodes| ==> MirrorsAt(nodes, 0, h, n, k)
  }

  /** The same for a list that begins at entry `from`. */
  ghost predicate MirrorsAt<I, O>(nodes: seq<Node<Value<I, O>>>, from: nat, h: seq<Entry<I, O>>, n: nat, k: nat)
    requires WellFormed(h, n) && from + |nodes| == |h| && from <= k < |h|
  {
    var node, e := nodes[k - from], h[k];
    && node.pos == k
    && node.id == e.id
    && node.value == e.value
    && (if e.isReturn then node.mate == null
        else from <= PosOf(h, n, e.id, true) && node.mate == nodes[PosOf(h, n, e.id, true) - from])
  }

  /** The returns from entry `from` on can be looked up by id. */
  ghost predicate Indexed<I, O>(
    mates: map<int, Node<Value<I, O>>>, nodes: seq<Node<Value<I, O>>>, from: nat, h: seq<Entry<I, O>>)
    requires from + |nodes| == |h|
  {
    forall k :: from <= k < |h| && h[k].isReturn ==> h[k].id in mates && mates[h[k].id] == nodes[k - from]
  }

  /** `makeLinkedEntries`. */
  method MakeLinkedEntries<I, O>(
    h: seq<Entry<I, O>>, ghost n: nat)
    returns (root: Node?<Value<I, O>>, ghost nodes: seq<Node<Value<I, O>>>)
    requires WellFormed(h, n)
    ensures fresh(nodes) && Mirrors(nodes, h, n)
    ensures if h == [] then root == null else root == nodes[0] && root.prev == null && Linked(nodes)
  {
    hide WellFormed, MirrorsAt, Linked, PosOf, Distinct, Indexed;
    assert Distinct<Value<I, O>>([]) by { NothingIsDistinct<Value<I, O>>(); }
    assert Indexed(map[], [], |h|, h) by { NothingIsIndexed(h); }
    root, nodes := null, [];
    var mates: map<int, Node<Value<I, O>>> := map[];
    var i := |h|;
    while i > 0
      invariant 0 <= i <= |h| && |nodes| == |h| - i && fresh(nodes) && Distinct(nodes)
      invariant if nodes == [] then root == null else root == nodes[0] && root.prev == null && Linked(nodes)
      invariant forall k :: i <= k < |h| ==> MirrorsAt(nodes, i, h, n, k)
      invariant Indexed(mates, nodes, i, h)
    {
      i := i - 1;
      ghost var mates0 := mates;
      var elem := h[i];
      var node;
      if elem.isReturn {
        node := new Node(elem.value, null, elem.id, i);
        mates := mates[elem.id := node];
      } else {
        MateIsKnown(mates, nodes, i, h, n);
        node := new Node(elem.value, mates[elem.id], elem.id, i);
      }
      assert node !in nodes;
      DistinctCons(node, nodes);
      assert [] + [node] + nodes == [node] + nodes && [] + nodes == nodes;
      InsertBefore(node, root, [], nodes);
      root := node;
      NodeAdded(mates0, node, nodes, i, i + 1, h, n);
      nodes := [node] + nodes;
    }
  }

  lemma NothingIsDistinct<V>()
    ensures Distinct<V>([])
  {
  }

  lemma NothingIsIndexed<I, O>(h: seq<Entry<I, O>>)
    ensures Indexed(map[], [], |h|, h)
  {
  }

  lemma DistinctCons<V>(node: Node<V>, nodes: seq<Node<V>>)
    requires Distinct(nodes) && node !in nodes
    ensures Distinct([node] + nodes)
  {
  }

  lemma MateIsKnown<I, O>(
    mates: map<int, Node<Value<I, O>>>, nodes: seq<Node<Value<I, O>>>, i: nat, h: seq<Entry<I, O>>, n: nat)
    requires WellFormed(h, n) && i + 1 + |nodes| == |h| && Indexed(mates, nodes, i + 1, h) && !h[i].isReturn
    ensures h[i].id in mates
  {
    CallBeforeReturn(h, n, i);
  }

  lemma NodeAdded<I, O>(
    mates: map<int, Node<Value<I, O>>>, node: Node<Value<I, O>>, nodes: seq<Node<Value<I, O>>>, i: nat, from: nat,
    h: seq<Entry<I, O>>, n: nat)
    requires WellFormed(h, n) && from == i + 1 && from + |nodes| == |h|
    requires forall k :: from <= k < |h| ==> MirrorsAt(nodes, from, h, n, k)
    requires Indexed(mates, nodes, from, h)
    requires node.pos == i && node.id == h[i].id && node.value == h[i].value
    requires if h[i].isReturn then node.mate == null else h[i].id in mates && node.mate == mates[h[i].id]
    ensures forall k :: i <= k < |h| ==> MirrorsAt([node] + nodes, i, h, n, k)
    ensures Indexed(if h[i].isReturn then mates[h[i].id := node] else mates, [node] + nodes, i, h)
  {
    var nodes' := [node] + nodes;
    forall k | i < k < |h|
      ensures MirrorsAt(nodes', i, h, n, k)
    {
      assert MirrorsAt(nodes, from, h, n, k);
      assert nodes'[k - i] == nodes[k - from];
    }
    if !h[i].isReturn {
      CallBeforeReturn(h, n, i);
    }
    assert MirrorsAt(nodes', i, h, n, i);
  }

  lemma CallBeforeReturn<I, O>(h: seq<Entry<I, O>>, n: nat, i: nat)
    requires WellFormed(h, n) && i < |h| && !h[i].isReturn
    ensures i < PosOf(h, n, h[i].id, true) < |h|
    ensures var r := PosOf(h, n, h[i].id, true); h[r].isReturn && h[r].id == h[i].id
  {
    assert IsEntry(h, PosOf(h, n, h[i].id, true), true, h[i].id);
  }

  /** `length`. */
  method Length<V>(root: Node?<V>, ghost chain: seq<Node<V>>) returns (l: nat)
    requires if root == null then chain == [] else Linked(chain) && chain[0] == root
    ensures l == |chain|
  {
    l := 0;
    var n := root;
    while n != null
      invariant 0 <= l <= |chain|
      invariant if n == null then l == |chain| else l < |chain| && chain[l] == n
      decreases |chain| - l
    {
      assert l + 1 < |chain| ==> Joined(chain[l], chain[l + 1]);
      n := n.next;
      l := l + 1;
    }
  }

  // ---------- What is left ----------

  /** `chain` is the head followed by the nodes whose operations are not in `done`, in order. */
  ghost predicate Shows<V>(chain: seq<Node<V>>, head: Node<V>, nodes: seq<Node<V>>, done: set<nat>) {
    && |chain| > 0
    && chain[0] == head
    && head !in nodes
    && (forall i, j :: 0 <= i < j < |chain| ==> chain[i].pos < chain[j].pos)
    && (forall i :: 1 <= i < |chain| ==> chain[i] in nodes && chain[i].id !in done)
    && (forall k :: 0 <= k < |nodes| && nodes[k].id !in done ==> nodes[k] in chain)
  }

  lemma ShowsDistinct<V>(chain: seq<Node<V>>, head: Node<V>, nodes: seq<Node<V>>, done: set<nat>)
    requires Shows(chain, head, nodes, done)
    ensures Distinct(chain)
  {
  }

  /** Where the node at index `t` of the shortened list stood before. */
  function Shift(t: nat, i: nat, j: nat): nat {
    if t < i then t else if t + 1 < j then t + 1 else t + 2
  }

  lemma WithoutAt<V>(chain: seq<Node<V>>, i: nat, j: nat)
    requires i < j < |chain|
    ensures var c := Without(chain, i, j);
            && |c| == |chain| - 2
            && (forall t :: 0 <= t < |c| ==> c[t] == chain[Shift(t, i, j)])
            && (forall u :: 0 <= u < |chain| && u != i && u != j ==> chain[u] in c)
  {
    var c := Without(chain, i, j);
    forall u | 0 <= u < |chain| && u != i && u != j
      ensures chain[u] in c
    {
      var t := if u < i then u else if u < j then u - 1 else u - 2;
      assert c[t] == chain[u];
    }
  }

  /** Removing both nodes of an operation shows the history without it. */
  lemma ShowsWithout<V>(chain: seq<Node<V>>, head: Node<V>, nodes: seq<Node<V>>, done: set<nat>, i: nat, j: nat, x: nat)
    requires Shows(chain, head, nodes, done) && 1 <= i < j < |chain|
    requires forall k :: 0 <= k < |nodes| ==> (nodes[k].id == x <==> nodes[k] == chain[i] || nodes[k] == chain[j])
    ensures Shows(Without(chain, i, j), head, nodes, done + {x})
  {
    hide Without;
    var c := Without(chain, i, j);
    WithoutAt(chain, i, j);
    forall k | 0 <= k < |nodes| && nodes[k].id !in done + {x}
      ensures nodes[k] in c
    {
      var t :| 0 <= t < |chain| && chain[t] == nodes[k];
    }
    forall t | 1 <= t < |c|
      ensures c[t] in nodes && c[t].id !in done + {x}
    {
      var u := Shift(t, i, j);
      assert u != i && u != j && c[t] == chain[u];
      assert chain[u].pos != chain[i].pos && chain[u].pos != chain[j].pos;
      var k :| 0 <= k < |nodes| && nodes[k] == chain[u];
    }
  }

  /** No remaining entry lies between neighbours of the chain. */
  lemma NothingBetween<V>(chain: seq<Node<V>>, head: Node<V>, nodes: seq<Node<V>>, done: set<nat>, i: nat, k: nat)
    requires Shows(chain, head, nodes, done) && i + 1 < |chain| && k < |nodes| && nodes[k].id !in done
    ensures !(chain[i].pos < nodes[k].pos < chain[i + 1].pos)
  {
    var t :| 0 <= t < |chain| && chain[t] == nodes[k];
  }

  lemma FirstIsEarliest<V>(chain: seq<Node<V>>, head: Node<V>, nodes: seq<Node<V>>, done: set<nat>, k: nat)
    requires Shows(chain, head, nodes, done) && k < |nodes| && nodes[k].id !in done
    ensures |chain| > 1 && nodes[k].pos >= chain[1].pos
  {
    var t :| 0 <= t < |chain| && chain[t] == nodes[k];
    assert t >= 1;
  }

  // ---------- Operations on the stack ----------

  /** The list before an operation was lifted, and where its two nodes stood. */
  datatype Frame<V> = Frame(chain: seq<Node<V>>, i: nat, j: nat)

  /** Operation `x` was lifted from the list of the frame, which showed everything but `done`. */
  ghost predicate FrameShape<V>(
    f: Frame<V>, entry: Node<V>, x: nat, done: set<nat>, after: seq<Node<V>>, head: Node<V>, nodes: seq<Node<V>>) {
    && Stands(f.chain, entry, f.i, f.j)
    && Shows(f.chain, head, nodes, done)
    && after == Without(f.chain, f.i, f.j)
    && entry.id == x
    && f.chain[f.j].id == x
  }

  ghost function ListAfter<V>(frames: seq<Frame<V>>, chain: seq<Node<V>>, k: nat): seq<Node<V>> {
    if k + 1 < |frames| then frames[k + 1].chain else chain
  }

  /** The current list is the original one minus the operations on the stack. */
  ghost predicate StackShape<V>(
    frames: seq<Frame<V>>, entries: seq<Node<V>>, order: seq<nat>, chain: seq<Node<V>>, head: Node<V>,
    nodes: seq<Node<V>>) {
    && |frames| == |entries| == |order|
    && Shows(chain, head, nodes, Elems(order))
    && forall k :: 0 <= k < |frames| ==>
         FrameShape(frames[k], entries[k], order[k], Elems(order[..k]), ListAfter(frames, chain, k), head, nodes)
  }

  /** The lifted operation can be put back. */
  ghost predicate FrameLinks<V>(f: Frame<V>, entry: Node<V>, nodes: seq<Node<V>>)
    reads nodes
  {
    && Stands(f.chain, entry, f.i, f.j)
    && entry in nodes
    && f.chain[f.j] in nodes
    && Remembers(f.chain, entry, f.i, f.j)
  }

  ghost predicate StackLinks<V>(frames: seq<Frame<V>>, entries: seq<Node<V>>, nodes: seq<Node<V>>)
    reads nodes
  {
    |frames| == |entries| && forall k :: 0 <= k < |frames| ==> FrameLinks(frames[k], entries[k], nodes)
  }

  lemma InNodes<V>(
    frames: seq<Frame<V>>, entries: seq<Node<V>>, order: seq<nat>, chain: seq<Node<V>>, head: Node<V>,
    nodes: seq<Node<V>>, k: nat)
    requires StackShape(frames, entries, order, chain, head, nodes) && k < |frames|
    ensures var f := frames[k];
            && Stands(f.chain, entries[k], f.i, f.j)
            && entries[k] in nodes && f.chain[f.j] in nodes
  {
    hide Without;
    assert FrameShape(frames[k], entries[k], order[k], Elems(order[..k]), ListAfter(frames, chain, k), head, nodes);
  }

  /** The nodes of an operation on the stack are not in the current list. */
  lemma Untouched<V>(
    frames: seq<Frame<V>>, entries: seq<Node<V>>, order: seq<nat>, chain: seq<Node<V>>, head: Node<V>,
    nodes: seq<Node<V>>, k: nat)
    requires StackShape(frames, entries, order, chain, head, nodes) && k < |frames|
    ensures entries[k] !in chain && frames[k].j < |frames[k].chain| && frames[k].chain[frames[k].j] !in chain
  {
    hide Without;
    assert FrameShape(frames[k], entries[k], order[k], Elems(order[..k]), ListAfter(frames, chain, k), head, nodes);
    assert order[k] in Elems(order);
    InNodes(frames, entries, order, chain, head, nodes, k);
  }

  /** A lift adds a frame. */
  lemma Pushed<V>(
    frames: seq<Frame<V>>, entries: seq<Node<V>>, order: seq<nat>, chain: seq<Node<V>>, head: Node<V>,
    nodes: seq<Node<V>>, entry: Node<V>, i: nat, j: nat)
    requires StackShape(frames, entries, order, chain, head, nodes) && entry.id >= 0
    requires Stands(chain, entry, i, j) && chain[j].id == entry.id
    requires forall k :: 0 <= k < |nodes| ==>
               (nodes[k].id == entry.id <==> nodes[k] == chain[i] || nodes[k] == chain[j])
    ensures StackShape(frames + [Frame(chain, i, j)], entries + [entry], order + [entry.id], Without(chain, i, j),
              head, nodes)
  {
    hide Without, FrameShape, Shows;
    var frames', entries', order', chain' := frames + [Frame(chain, i, j)], entries + [entry], order + [entry.id],
        Without(chain, i, j);
    ShowsWithout(chain, head, nodes, Elems(order), i, j, entry.id);
    ElemsSnoc(order, entry.id);
    forall k | 0 <= k < |frames'|
      ensures FrameShape(frames'[k], entries'[k], order'[k], Elems(order'[..k]), ListAfter(frames', chain', k), head,
                nodes)
    {
      assert order'[..k] == order[..k];
      if k < |frames| {
        assert frames'[k] == frames[k] && entries'[k] == entries[k] && order'[k] == order[k];
        assert ListAfter(frames', chain', k) == ListAfter(frames, chain, k);
      } else {
        assert order[..k] == order;
        NewFrame(Frame(chain, i, j), entry, Elems(order), head, nodes);
      }
    }
  }

  lemma NewFrame<V>(f: Frame<V>, entry: Node<V>, done: set<nat>, head: Node<V>, nodes: seq<Node<V>>)
    requires Stands(f.chain, entry, f.i, f.j) && Shows(f.chain, head, nodes, done)
    requires entry.id >= 0 && f.chain[f.j].id == entry.id
    ensures FrameShape(f, entry, entry.id, done, Without(f.chain, f.i, f.j), head, nodes)
  {
  }

  /** An unlift removes the last frame and restores its list. */
  lemma Popped<V>(
    frames: seq<Frame<V>>, entries: seq<Node<V>>, order: seq<nat>, chain: seq<Node<V>>, head: Node<V>,
    nodes: seq<Node<V>>)
    requires StackShape(frames, entries, order, chain, head, nodes) && |frames| > 0
    ensures var m := |frames| - 1;
            StackShape(frames[..m], entries[..m], order[..m], frames[m].chain, head, nodes)
  {
    hide Without, Shows, Stands;
    var m := |frames| - 1;
    assert FrameShape(frames[m], entries[m], order[m], Elems(order[..m]), chain, head, nodes);
    forall k | 0 <= k < m
      ensures FrameShape(frames[..m][k], entries[..m][k], order[..m][k], Elems(order[..m][..k]),
                         ListAfter(frames[..m], frames[m].chain, k), head, nodes)
    {
      assert order[..m][..k] == order[..k];
      assert FrameShape(frames[k], entries[k], order[k], Elems(order[..k]), ListAfter(frames, chain, k), head, nodes);
      assert ListAfter(frames[..m], frames[m].chain, k) == ListAfter(frames, chain, k);
    }
  }
}
