/** `KvModel.Partition`: the per-key histories, and why checking them is checking the whole. */
module Partition {
  import opened LinSearch
  import opened LinModel
  import opened KvModel
  import opened Operations
  import opened Locality
  import opened KeyOrder

  // ---------- The history of one key ----------

  /** The operations on `key`, in the order of the history. */
  function SubHistory(ops: History, key: string): History {
    if ops == [] then []
    else
      var m := |ops| - 1;
      if ops[m].input.key == key then SubHistory(ops[..m], key) + [ops[m]] else SubHistory(ops[..m], key)
  }

  /** Where the operations of the sub-history stand in the history. */
  ghost function Indices(ops: History, key: string): seq<nat> {
    if ops == [] then []
    else
      var m := |ops| - 1;
      if ops[m].input.key == key then Indices(ops[..m], key) + [m] else Indices(ops[..m], key)
  }

  lemma OneMore(ops: History, key: string)
    requires ops != []
    ensures var m := |ops| - 1;
            && Indices(ops, key) == Indices(ops[..m], key) + (if ops[m].input.key == key then [m] else [])
            && SubHistory(ops, key) == SubHistory(ops[..m], key) + (if ops[m].input.key == key then [ops[m]] else [])
  {
  }

  lemma NoOperations(key: string)
    ensures Indices([], key) == [] && SubHistory([], key) == []
  {
  }

  /** A sub-history keeps the order of the history and leaves out nothing with its key. */
  lemma {:induction false} IndicesAre(ops: History, key: string)
    ensures var idx := Indices(ops, key);
            && |idx| == |SubHistory(ops, key)|
            && (forall j :: 0 <= j < |idx| ==>
                  idx[j] < |ops| && ops[idx[j]] == SubHistory(ops, key)[j] && ops[idx[j]].input.key == key)
            && (forall j, k :: 0 <= j < k < |idx| ==> idx[j] < idx[k])
            && (forall x :: 0 <= x < |ops| && ops[x].input.key == key ==> x in idx)
    decreases |ops|
  {
    hide Indices, SubHistory;
    if ops == [] {
      NoOperations(key);
    } else {
      var m := |ops| - 1;
      IndicesAre(ops[..m], key);
      OneMore(ops, key);
      var pre, idx := Indices(ops[..m], key), Indices(ops, key);
      forall x | 0 <= x < |ops| && ops[x].input.key == key
        ensures x in idx
      {
        if x < m {
          assert ops[..m][x] == ops[x];
          assert x in pre;
        } else {
          assert idx[|pre|] == m;
        }
      }
    }
  }

  lemma SubTimed(ops: History, key: string)
    requires OpsTimed(ops)
    ensures OpsTimed(SubHistory(ops, key))
  {
    IndicesAre(ops, key);
    var sub, idx := SubHistory(ops, key), Indices(ops, key);
    forall x, y | 0 <= x < |sub| && 0 <= y < |sub|
      ensures sub[x].call != sub[y].ret
    {
      assert sub[x] == ops[idx[x]] && sub[y] == ops[idx[y]];
    }
  }

  /** An order of the sub-history, as an order of the history. */
  ghost function Global(idx: seq<nat>, order: seq<nat>): seq<nat>
    requires forall k :: 0 <= k < |order| ==> order[k] < |idx|
  {
    seq(|order|, k requires 0 <= k < |order| => idx[order[k]])
  }

  lemma NoneLegal<S>(p: Problem<S>)
    ensures Legal(p, [])
  {
  }

  lemma {:induction false} SameValue(ops: History, key: string, order: seq<nat>)
    requires forall k :: 0 <= k < |order| ==> order[k] < |Indices(ops, key)|
    ensures var all := Global(Indices(ops, key), order);
            var p := OpsProblem(SINGLE_KEY, SubHistory(ops, key));
            && InRange(ops, all)
            && ValueAfter(ops, all) == After(p, order)
            && (LegalOnKey(ops, all) <==> Legal(p, order))
    decreases |order|
  {
    hide Indices, SubHistory, Legal;
    IndicesAre(ops, key);
    var idx := Indices(ops, key);
    var p := OpsProblem(SINGLE_KEY, SubHistory(ops, key));
    var all := Global(idx, order);
    if order == [] {
      assert Legal(p, []) by { NoneLegal(p); }
    } else {
      var m := |order| - 1;
      SameValue(ops, key, order[..m]);
      assert all[..m] == Global(idx, order[..m]);
      LegalSnoc(p, order);
    }
  }

  /** Two operations stand in the same relation in the sub-history and in the history. */
  lemma SamePair(ops: History, key: string, order: seq<nat>, j: nat, k: nat)
    requires (forall k :: 0 <= k < |order| ==> order[k] < |Indices(ops, key)|) && j < |order| && k < |order|
    ensures var all, sub := Global(Indices(ops, key), order), SubHistory(ops, key);
            && all[j] < |ops| && all[k] < |ops| && order[j] < |sub| && order[k] < |sub|
            && (all[j] != all[k] <==> order[j] != order[k])
            && (ops[all[k]].ret < ops[all[j]].call <==> sub[order[k]].ret < sub[order[j]].call)
  {
    hide Indices, SubHistory;
    IndicesAre(ops, key);
    var idx := Indices(ops, key);
    assert order[j] < order[k] ==> idx[order[j]] < idx[order[k]];
    assert order[k] < order[j] ==> idx[order[k]] < idx[order[j]];
  }

  lemma SameOrder(ops: History, key: string, order: seq<nat>)
    requires OpsTimed(ops) && forall k :: 0 <= k < |order| ==> order[k] < |Indices(ops, key)|
    ensures Timed(OpsProblem(SINGLE_KEY, SubHistory(ops, key)))
    ensures var all := Global(Indices(ops, key), order);
            && InRange(ops, all)
            && (InOrder(ops, all) <==> RespectsTime(OpsProblem(SINGLE_KEY, SubHistory(ops, key)), order))
  {
    hide Indices, SubHistory, Global, OpsTimed, Moments;
    SubTimed(ops, key);
    var sub, all := SubHistory(ops, key), Global(Indices(ops, key), order);
    var p := OpsProblem(SINGLE_KEY, sub);
    GlobalSize(ops, key, order);
    forall j, k | 0 <= j < k < |order|
      ensures all[j] != all[k] <==> order[j] != order[k]
      ensures ops[all[k]].ret < ops[all[j]].call <==> p.ret[order[k]] < p.call[order[j]]
    {
      SamePair(ops, key, order, j, k);
    }
  }

  lemma GlobalSize(ops: History, key: string, order: seq<nat>)
    requires forall k :: 0 <= k < |order| ==> order[k] < |Indices(ops, key)|
    ensures |Global(Indices(ops, key), order)| == |order| && InRange(ops, Global(Indices(ops, key), order))
    ensures AllWithKey(ops, Global(Indices(ops, key), order), key) && |Indices(ops, key)| == |SubHistory(ops, key)|
  {
    hide Indices, SubHistory;
    IndicesAre(ops, key);
  }

  lemma ToGlobal(ops: History, key: string, order: seq<nat>)
    requires OpsTimed(ops) && OpsTimed(SubHistory(ops, key))
    requires IsLinearization(OpsProblem(SINGLE_KEY, SubHistory(ops, key)), order)
    ensures KeyLinearizable(ops, key)
  {
    hide Legal, LegalOnKey, InOrder, OpsTimed, Indices, SubHistory, Global, Moments, InRange, AllWithKey, Covers;
    var idx := Indices(ops, key);
    assert |idx| == |SubHistory(ops, key)| by { IndicesAre(ops, key); }
    var all := Global(idx, order);
    GlobalSize(ops, key, order);
    SameValue(ops, key, order);
    SameOrder(ops, key, order);
    CoversKey(ops, key, order);
    assert KeyLinearization(ops, all, key);
  }

  lemma CoversKey(ops: History, key: string, order: seq<nat>)
    requires |order| == |Indices(ops, key)| && forall k :: 0 <= k < |order| ==> order[k] < |Indices(ops, key)|
    requires forall j, k :: 0 <= j < k < |order| ==> order[j] != order[k]
    ensures Covers(ops, Global(Indices(ops, key), order), key)
  {
    hide Indices;
    IndicesAre(ops, key);
    AllOperations(order, |Indices(ops, key)|);
    GlobalCovers(Indices(ops, key), order);
  }

  lemma GlobalCovers(idx: seq<nat>, order: seq<nat>)
    requires forall k :: 0 <= k < |order| ==> order[k] < |idx|
    requires forall j :: 0 <= j < |idx| ==> j in order
    ensures forall x :: x in idx ==> x in Global(idx, order)
  {
    forall x | x in idx
      ensures x in Global(idx, order)
    {
      var j :| 0 <= j < |idx| && idx[j] == x;
      assert j in order;
      var k :| 0 <= k < |order| && order[k] == j;
      assert Global(idx, order)[k] == x;
    }
  }

  lemma ToLocal(ops: History, key: string, all: seq<nat>)
    requires OpsTimed(ops) && OpsTimed(SubHistory(ops, key)) && KeyLinearization(ops, all, key)
    ensures Linearizable(OpsProblem(SINGLE_KEY, SubHistory(ops, key)))
  {
    hide Legal, LegalOnKey, InOrder, OpsTimed;
    IndicesAre(ops, key);
    var idx := Indices(ops, key);
    var p := OpsProblem(SINGLE_KEY, SubHistory(ops, key));
    var order := Positions(idx, all);
    assert Global(idx, order) == all;
    SameValue(ops, key, order);
    SameOrder(ops, key, order);
    forall j | 0 <= j < |idx|
      ensures j in order
    {
      assert idx[j] in all;
      var k :| 0 <= k < |all| && all[k] == idx[j];
      assert order[k] == j;
    }
    AllOnce(order, |idx|);
    assert IsLinearization(p, order);
  }

  lemma {:induction false} Positions(idx: seq<nat>, all: seq<nat>) returns (order: seq<nat>)
    requires (forall j, k :: 0 <= j < k < |idx| ==> idx[j] < idx[k]) && forall k :: 0 <= k < |all| ==> all[k] in idx
    ensures |order| == |all| && forall k :: 0 <= k < |all| ==> order[k] < |idx| && idx[order[k]] == all[k]
    decreases |all|
  {
    if all == [] {
      order := [];
    } else {
      var m := |all| - 1;
      var pre := Positions(idx, all[..m]);
      assert all[m] in idx;
      var j :| 0 <= j < |idx| && idx[j] == all[m];
      order := pre + [j];
    }
  }

  /** The sub-history of a key is linearizable exactly when the key is, within the whole history. */
  lemma SubHistoryVerdict(ops: History, key: string)
    requires OpsTimed(ops)
    ensures OpsTimed(SubHistory(ops, key))
    ensures Linearizable(OpsProblem(SINGLE_KEY, SubHistory(ops, key))) <==> KeyLinearizable(ops, key)
  {
    hide KeyLinearization, IsLinearization, OpsTimed;
    SubTimed(ops, key);
    var p := OpsProblem(SINGLE_KEY, SubHistory(ops, key));
    if Linearizable(p) {
      var order :| IsLinearization(p, order);
      ToGlobal(ops, key, order);
    }
    if KeyLinearizable(ops, key) {
      var all :| KeyLinearization(ops, all, key);
      ToLocal(ops, key, all);
    }
  }

  // ---------- Partition ----------

  /** One sub-history for each key that occurs. */
  ghost predicate IsPartition(ops: History, parts: seq<History>, keys: seq<string>) {
    && |parts| == |keys|
    && (forall i, j :: 0 <= i < j < |keys| ==> keys[i] != keys[j])
    && (forall key :: key in keys <==> key in KeysOf(ops))
    && (forall i :: 0 <= i < |keys| ==> parts[i] == SubHistory(ops, keys[i]))
  }

  /** The per-key histories, in the order of the keys. */
  method Partition(ops: History) returns (parts: seq<History>, keys: seq<string>)
    ensures IsPartition(ops, parts, keys)
    ensures forall i, j :: 0 <= i < j < |keys| ==> Before(keys[i], keys[j])
  {
    var m: map<string, History> := map[];
    var i := 0;
    while i < |ops|
      invariant 0 <= i <= |ops|
      invariant m.Keys == KeysOf(ops[..i])
      invariant forall key :: key in m ==> m[key] == SubHistory(ops[..i], key)
    {
      var key := ops[i].input.key;
      AddedOperation(ops, i);
      m := m[key := (if key in m then m[key] else []) + [ops[i]]];
      i := i + 1;
    }
    assert ops[..i] == ops;
    var some := SomeOrder(m);
    keys := KeyOrder.Sort(some, (k: string) => k);
    SortedDistinct(some, keys);
    hide Before, SubHistory, IsSorting;
    parts := [];
    for x := 0 to |keys|
      invariant |parts| == x && forall y :: 0 <= y < x ==> parts[y] == SubHistory(ops, keys[y])
    {
      assert keys[x] in m;
      parts := parts + [m[keys[x]]];
    }
    DistinctKeys(keys);
  }

  lemma DistinctKeys(keys: seq<string>)
    requires forall i, j :: 0 <= i < j < |keys| ==> Before(keys[i], keys[j])
    ensures forall i, j :: 0 <= i < j < |keys| ==> keys[i] != keys[j]
  {
    forall i, j | 0 <= i < j < |keys|
      ensures keys[i] != keys[j]
    {
      BeforeTotal(keys[i], keys[j]);
    }
  }

  lemma AddedOperation(ops: History, i: nat)
    requires i < |ops|
    ensures KeysOf(ops[..i + 1]) == KeysOf(ops[..i]) + {ops[i].input.key}
    ensures forall key :: SubHistory(ops[..i + 1], key) ==
              if key == ops[i].input.key then SubHistory(ops[..i], key) + [ops[i]] else SubHistory(ops[..i], key)
    ensures ops[i].input.key !in KeysOf(ops[..i]) ==> SubHistory(ops[..i], ops[i].input.key) == []
  {
    var pre, all := ops[..i], ops[..i + 1];
    assert all[..i] == pre;
    forall x | 0 <= x < i
      ensures pre[x].input.key in KeysOf(all)
    {
      assert all[x] == pre[x];
    }
    assert all[i].input.key in KeysOf(all);
    forall key | key in KeysOf(all)
      ensures key in KeysOf(pre) + {ops[i].input.key}
    {
      var x :| 0 <= x < |all| && all[x].input.key == key;
      assert x < i ==> pre[x].input.key in KeysOf(pre);
    }
    AbsentKey(pre, ops[i].input.key);
  }

  lemma AbsentKey(ops: History, key: string)
    ensures key !in KeysOf(ops) ==> SubHistory(ops, key) == []
  {
    IndicesAre(ops, key);
    assert forall x :: 0 <= x < |ops| ==> ops[x].input.key in KeysOf(ops);
  }

  /** Checking the partitions is checking the history. */
  lemma PartitionVerdict(ops: History, parts: seq<History>, keys: seq<string>)
    requires OpsTimed(ops) && IsPartition(ops, parts, keys)
    ensures forall i :: 0 <= i < |parts| ==> OpsTimed(parts[i])
    ensures Linearizable(OpsProblem(ALL_KEYS, ops)) <==>
            forall i :: 0 <= i < |parts| ==> Linearizable(OpsProblem(SINGLE_KEY, parts[i]))
  {
    hide OpsTimed, KeyLinearizable, Linearizable, SubHistory;
    LinearizableByKey(ops);
    forall i | 0 <= i < |parts|
      ensures OpsTimed(parts[i])
      ensures Linearizable(OpsProblem(SINGLE_KEY, parts[i])) <==> KeyLinearizable(ops, keys[i])
    {
      SubHistoryVerdict(ops, keys[i]);
    }
    if forall i :: 0 <= i < |parts| ==> Linearizable(OpsProblem(SINGLE_KEY, parts[i])) {
      forall key | key in KeysOf(ops)
        ensures KeyLinearizable(ops, key)
      {
        var i :| 0 <= i < |keys| && keys[i] == key;
        assert Linearizable(OpsProblem(SINGLE_KEY, parts[i]));
      }
    }
    if Linearizable(OpsProblem(ALL_KEYS, ops)) {
      forall i | 0 <= i < |parts|
        ensures Linearizable(OpsProblem(SINGLE_KEY, parts[i]))
      {
        assert keys[i] in keys;
      }
    }
  }
}
