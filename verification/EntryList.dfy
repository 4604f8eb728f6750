/**
The doubly linked list of calls and returns, from which the search removes an operation and
into which it puts operations back in the opposite order.
*/
module EntryList {

  class Node<V> {
    const value: V
    const mate: Node?<V>  // the matching return of a call, null for a return
    const id: int
    ghost const pos: int  // where the entry stands in the history
    var next: Node?<V>
    var prev: Node?<V>

    constructor (value: V, mate: Node?<V>, id: int, ghost pos: int)
      ensures this.value == value && this.mate == mate && this.id == id && this.pos == pos
      ensures next == null && prev == null
    {
      this.value := value;
      this.mate := mate;
      this.id := id;
      this.pos := pos;
      next := null;
      prev := null;
    }
  }

  ghost predicate Distinct<V>(chain: seq<Node<V>>) {
    forall i, j :: 0 <= i < j < |chain| ==> chain[i] != chain[j]
  }

  /** The nodes of `chain` are linked in this order, and the last one has no successor. */
  ghost predicate Linked<V>(chain: seq<Node<V>>)
    reads chain
  {
    && |chain| > 0
    && chain[|chain| - 1].next == null
    && forall i :: 0 <= i < |chain| - 1 ==> Joined(chain[i], chain[i + 1])
  }

  ghost predicate Joined<V>(a: Node<V>, b: Node<V>)
    reads a, b
  {
    a.next == b && b.prev == a
  }

  ghost function Without<V>(chain: seq<Node<V>>, i: nat, j: nat): seq<Node<V>>
    requires i < j < |chain|
  {
    chain[..i] + chain[i + 1..j] + chain[j + 1..]
  }

  /** `entry` stands at `i` and its return at `j`. */
  ghost predicate Stands<V>(chain: seq<Node<V>>, entry: Node<V>, i: nat, j: nat) {
    && Distinct(chain)
    && 1 <= i < j < |chain|
    && chain[i] == entry
    && chain[j] == entry.mate
  }

  /** The removed nodes still point to the neighbours they had when they were removed. */
  ghost predicate Remembers<V>(chain: seq<Node<V>>, entry: Node<V>, i: nat, j: nat)
    requires Stands(chain, entry, i, j)
    reads entry, chain[j]
  {
    && entry.prev == chain[i - 1]
    && entry.next == chain[i + 1]
    && chain[j].prev == (if j == i + 1 then chain[i - 1] else chain[j - 1])
    && chain[j].next == (if j + 1 < |chain| then chain[j + 1] else null)
  }

  /** `lift`: the call and its return leave the list and keep their own links. */
  method Lift<V>(entry: Node<V>, ghost chain: seq<Node<V>>, ghost i: nat, ghost j: nat)
    requires Linked(chain) && Stands(chain, entry, i, j)
    modifies chain
    ensures Linked(Without(chain, i, j))
    ensures Remembers(chain, entry, i, j)
  {
    assert Joined(chain[i - 1], chain[i]) && Joined(chain[i], chain[i + 1]);
    assert Joined(chain[j - 1], chain[j]);
    assert j + 1 < |chain| ==> Joined(chain[j], chain[j + 1]);
    entry.prev.next := entry.next;
    entry.next.prev := entry.prev;
    var mate := entry.mate;
    mate.prev.next := mate.next;
    if mate.next != null {
      mate.next.prev := mate.prev;
    }
    LiftedLinks(chain, i, j);
  }

  lemma LiftedLinks<V>(chain: seq<Node<V>>, i: nat, j: nat)
    requires Distinct(chain) && 1 <= i < j < |chain|
    requires forall x :: 0 <= x < |chain| - 1 && x != i - 1 && x != i && x != j - 1 && x != j ==>
               Joined(chain[x], chain[x + 1])
    requires j == i + 1 ==> (if j + 1 < |chain| then Joined(chain[i - 1], chain[j + 1]) else chain[i - 1].next == null)
    requires j > i + 1 ==> Joined(chain[i - 1], chain[i + 1])
    requires j > i + 1 ==> (if j + 1 < |chain| then Joined(chain[j - 1], chain[j + 1]) else chain[j - 1].next == null)
    requires j + 1 < |chain| ==> chain[|chain| - 1].next == null
    ensures Linked(Without(chain, i, j))
  {
    var c := Without(chain, i, j);
    forall x | 0 <= x < |c| - 1
      ensures Joined(c[x], c[x + 1])
    {
      if x + 1 < i {
        assert c[x] == chain[x] && c[x + 1] == chain[x + 1];
      } else if x + 1 == i {
      } else if x + 2 < j {
        assert c[x] == chain[x + 1] && c[x + 1] == chain[x + 2];
      } else if x + 2 == j {
        assert c[x] == chain[j - 1];
      } else {
        assert c[x] == chain[x + 2] && c[x + 1] == chain[x + 3];
      }
    }
  }

  /** `unlift`: the list is what it was before the call was lifted. */
  method Unlift<V>(entry: Node<V>, ghost chain: seq<Node<V>>, ghost i: nat, ghost j: nat)
    requires Stands(chain, entry, i, j)
    requires Linked(Without(chain, i, j)) && Remembers(chain, entry, i, j)
    modifies chain
    ensures Linked(chain)
  {
    UnliftedLinks(chain, i, j);
    var mate := entry.mate;
    mate.prev.next := mate;
    if mate.next != null {
      mate.next.prev := mate;
    }
    entry.prev.next := entry;
    entry.next.prev := entry;
  }

  lemma UnliftedLinks<V>(chain: seq<Node<V>>, i: nat, j: nat)
    requires 1 <= i < j < |chain| && Linked(Without(chain, i, j))
    ensures forall x :: 0 <= x < |chain| - 1 && x != i - 1 && x != i && x != j - 1 && x != j ==>
              Joined(chain[x], chain[x + 1])
    ensures j + 1 < |chain| ==> chain[|chain| - 1].next == null
  {
    var c := Without(chain, i, j);
    forall x | 0 <= x < |chain| - 1 && x != i - 1 && x != i && x != j - 1 && x != j
      ensures Joined(chain[x], chain[x + 1])
    {
      if x + 1 < i {
        assert Joined(c[x], c[x + 1]);
      } else if x + 1 < j {
        assert Joined(c[x - 1], c[x]);
      } else {
        assert Joined(c[x - 2], c[x - 1]);
      }
    }
  }
}
