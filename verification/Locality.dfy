/**
Why it is enough to check each key on its own: a history is linearizable against the whole
store exactly when the operations on every key are linearizable against that key's value.
*/
module Locality {
  import opened LinSearch
  import opened LinModel
  import opened KvModel
  import opened Operations

  type History = seq<KvOperation>

  // ---------- The operations on one key ----------

  /** The members of `order` that work on `key`, in the same order. */
  ghost function OnKey(ops: History, order: seq<nat>, key: string): seq<nat>
    requires forall k :: 0 <= k < |order| ==> order[k] < |ops|
  {
    if order == [] then []
    else
      var m := |order| - 1;
      if ops[order[m]].input.key == key then OnKey(ops, order[..m], key) + [order[m]] else OnKey(ops, order[..m], key)
  }

  ghost predicate InRange(ops: History, order: seq<nat>) {
    forall k :: 0 <= k < |order| ==> order[k] < |ops|
  }

  /** The value of one key after the operations of `order`. */
  ghost function ValueAfter(ops: History, order: seq<nat>): string
    requires InRange(ops, order)
  {
    if order == [] then ""
    else
      var m := |order| - 1;
      Step(ValueAfter(ops, order[..m]), ops[order[m]].input, ops[order[m]].output).1
  }

  ghost predicate LegalOnKey(ops: History, order: seq<nat>)
    requires InRange(ops, order)
  {
    order == [] ||
    (var m := |order| - 1;
     LegalOnKey(ops, order[..m]) && Step(ValueAfter(ops, order[..m]), ops[order[m]].input, ops[order[m]].output).0)
  }

  ghost predicate InOrder(ops: History, order: seq<nat>)
    requires InRange(ops, order)
  {
    && (forall j, k :: 0 <= j < k < |order| ==> order[j] != order[k])
    && (forall j, k :: 0 <= j < k < |order| ==> !(ops[order[k]].ret < ops[order[j]].call))
  }

  ghost predicate AllWithKey(ops: History, order: seq<nat>, key: string)
    requires InRange(ops, order)
  {
    forall k :: 0 <= k < |order| ==> ops[order[k]].input.key == key
  }

  ghost predicate Covers(ops: History, order: seq<nat>, key: string) {
    forall x :: 0 <= x < |ops| && ops[x].input.key == key ==> x in order
  }

  /** All operations on `key`, in an order that respects time and is legal for its value. */
  ghost predicate KeyLinearization(ops: History, order: seq<nat>, key: string) {
    && InRange(ops, order)
    && AllWithKey(ops, order, key)
    && Covers(ops, order, key)
    && InOrder(ops, order)
    && LegalOnKey(ops, order)
  }

  // ---------- Projection ----------

  lemma {:induction false} OnKeyShape(ops: History, order: seq<nat>, key: string)
    requires InRange(ops, order)
    ensures InRange(ops, OnKey(ops, order, key)) && AllWithKey(ops, OnKey(ops, order, key), key)
    ensures forall x :: x in OnKey(ops, order, key) <==> x in order && ops[x].input.key == key
    decreases |order|
  {
    if order != [] {
      var m := |order| - 1;
      OnKeyShape(ops, order[..m], key);
      assert order == order[..m] + [order[m]];
    }
  }

  /** Adding an operation that precedes nothing in the order. */
  lemma InOrderSnoc(ops: History, order: seq<nat>, x: nat)
    requires InRange(ops, order) && InOrder(ops, order) && x < |ops| && x !in order
    requires forall y :: y in order ==> !(ops[x].ret < ops[y].call)
    ensures InRange(ops, order + [x]) && InOrder(ops, order + [x])
  {
  }

  /** The last operation of an order precedes nothing in it. */
  lemma InOrderInit(ops: History, order: seq<nat>)
    requires InRange(ops, order) && InOrder(ops, order) && order != []
    ensures var m := |order| - 1;
            && InRange(ops, order[..m]) && InOrder(ops, order[..m])
            && order[m] !in order[..m]
            && forall y :: y in order[..m] ==> !(ops[order[m]].ret < ops[y].call)
  {
    var m := |order| - 1;
    forall y | y in order[..m]
      ensures y != order[m] && !(ops[order[m]].ret < ops[y].call)
    {
      var i :| 0 <= i < m && order[..m][i] == y;
      assert order[i] == y;
    }
  }

  lemma {:induction false} OnKeyInOrder(ops: History, order: seq<nat>, key: string)
    requires InRange(ops, order) && InOrder(ops, order)
    ensures InRange(ops, OnKey(ops, order, key)) && InOrder(ops, OnKey(ops, order, key))
    decreases |order|
  {
    hide InOrder;
    OnKeyShape(ops, order, key);
    if order == [] {
      assert InOrder(ops, []) by { NothingInOrder(ops); }
    } else {
      var m := |order| - 1;
      InOrderInit(ops, order);
      OnKeyInOrder(ops, order[..m], key);
      OnKeyShape(ops, order[..m], key);
      if ops[order[m]].input.key == key {
        InOrderSnoc(ops, OnKey(ops, order[..m], key), order[m]);
      }
    }
  }

  lemma NothingInOrder(ops: History)
    ensures InRange(ops, []) && InOrder(ops, [])
  {
  }

  // ---------- The store is its keys ----------

  ghost function StoreAfter(ops: History, order: seq<nat>): Store {
    After(OpsProblem(ALL_KEYS, ops), order)
  }

  ghost predicate LegalStore(ops: History, order: seq<nat>)
    requires InRange(ops, order)
  {
    order == [] ||
    (var m := |order| - 1;
     LegalStore(ops, order[..m]) && StoreStep(StoreAfter(ops, order[..m]), ops[order[m]].input, ops[order[m]].output).0)
  }

  lemma ValueSnoc(ops: History, order: seq<nat>, x: nat)
    requires InRange(ops, order) && x < |ops|
    ensures ValueAfter(ops, order + [x]) == Step(ValueAfter(ops, order), ops[x].input, ops[x].output).1
    ensures LegalOnKey(ops, order + [x]) <==>
            LegalOnKey(ops, order) && Step(ValueAfter(ops, order), ops[x].input, ops[x].output).0
  {
    assert (order + [x])[..|order|] == order;
  }

  lemma StoreSnoc(ops: History, order: seq<nat>)
    requires InRange(ops, order) && order != []
    ensures var m := |order| - 1;
            var op := ops[order[m]];
            StoreAfter(ops, order) == StoreStep(StoreAfter(ops, order[..m]), op.input, op.output).1
  {
  }

  /** Each key of the store holds what the operations on that key alone make of it. */
  lemma {:induction false} StoreIsKeys(ops: History, order: seq<nat>, key: string)
    requires InRange(ops, order)
    ensures InRange(ops, OnKey(ops, order, key))
    ensures Lookup(StoreAfter(ops, order), key) == ValueAfter(ops, OnKey(ops, order, key))
    decreases |order|
  {
    hide StoreAfter, ValueAfter;
    OnKeyShape(ops, order, key);
    if order == [] {
      EmptyStore(ops, key);
    } else {
      var m := |order| - 1;
      StoreIsKeys(ops, order[..m], key);
      StoreSnoc(ops, order);
      if ops[order[m]].input.key == key {
        ValueSnoc(ops, OnKey(ops, order[..m], key), order[m]);
      }
    }
  }

  lemma EmptyStore(ops: History, key: string)
    ensures Lookup(StoreAfter(ops, []), key) == "" == ValueAfter(ops, [])
  {
  }

  ghost predicate LegalForKey(ops: History, order: seq<nat>, key: string)
    requires InRange(ops, order)
  {
    OnKeyShape(ops, order, key);
    LegalOnKey(ops, OnKey(ops, order, key))
  }

  lemma LegalForKeySnoc(ops: History, order: seq<nat>, key: string)
    requires InRange(ops, order) && order != []
    ensures var m := |order| - 1;
            var op := ops[order[m]];
            LegalForKey(ops, order, key) <==>
            && LegalForKey(ops, order[..m], key)
            && (key == op.input.key ==> StoreStep(StoreAfter(ops, order[..m]), op.input, op.output).0)
  {
    hide StoreAfter, ValueAfter, LegalOnKey;
    var m := |order| - 1;
    OnKeyShape(ops, order[..m], key);
    if ops[order[m]].input.key == key {
      ValueSnoc(ops, OnKey(ops, order[..m], key), order[m]);
      StoreIsKeys(ops, order[..m], key);
    }
  }

  /** An order is legal for the store exactly when it is legal for every key. */
  lemma {:induction false} LegalIsKeys(ops: History, order: seq<nat>)
    requires InRange(ops, order)
    ensures LegalStore(ops, order) <==> forall key :: LegalForKey(ops, order, key)
    decreases |order|
  {
    if order == [] {
      assert forall key :: OnKey(ops, order, key) == [];
    } else {
      hide LegalForKey, StoreAfter, StoreStep;
      var m := |order| - 1;
      LegalIsKeys(ops, order[..m]);
      forall key
        ensures var op := ops[order[m]];
                LegalForKey(ops, order, key) <==>
                && LegalForKey(ops, order[..m], key)
                && (key == op.input.key ==> StoreStep(StoreAfter(ops, order[..m]), op.input, op.output).0)
      {
        LegalForKeySnoc(ops, order, key);
      }
      assert LegalForKey(ops, order, ops[order[m]].input.key) ==>
          StoreStep(StoreAfter(ops, order[..m]), ops[order[m]].input, ops[order[m]].output).0;
    }
  }

  lemma {:induction false} LegalStoreIsLegal(ops: History, order: seq<nat>)
    requires InRange(ops, order)
    ensures LegalStore(ops, order) <==> Legal(OpsProblem(ALL_KEYS, ops), order)
    decreases |order|
  {
    if order != [] {
      var m := |order| - 1;
      LegalStoreIsLegal(ops, order[..m]);
      LegalSnoc(OpsProblem(ALL_KEYS, ops), order);
    }
  }

  // ---------- Merging ----------

  /** `c` interleaves `a` and `b`. */
  ghost predicate Merges(ops: History, a: seq<nat>, b: seq<nat>, c: seq<nat>, keys: set<string>)
    requires InRange(ops, a) && InRange(ops, b)
  {
    && InRange(ops, c)
    && InOrder(ops, c)
    && (forall x :: x in c <==> x in a || x in b)
    && forall key :: OnKey(ops, c, key) == if key in keys then OnKey(ops, a, key) else OnKey(ops, b, key)
  }

  ghost predicate KeysIn(ops: History, order: seq<nat>, keys: set<string>)
    requires InRange(ops, order)
  {
    forall k :: 0 <= k < |order| ==> ops[order[k]].input.key in keys
  }

  ghost predicate KeysOut(ops: History, order: seq<nat>, keys: set<string>)
    requires InRange(ops, order)
  {
    forall k :: 0 <= k < |order| ==> ops[order[k]].input.key !in keys
  }

  lemma LastIsLatest(ops: History, order: seq<nat>, x: nat)
    requires OpsTimed(ops) && InRange(ops, order) && InOrder(ops, order) && x in order
    ensures ops[x].call <= ops[order[|order| - 1]].ret
  {
    var i :| 0 <= i < |order| && order[i] == x;
  }

  /** The last operation of one of two orders can come last in a common order. */
  lemma OneCanBeLast(ops: History, a: seq<nat>, b: seq<nat>, x: nat, y: nat)
    requires OpsTimed(ops) && InRange(ops, a) && InRange(ops, b) && InOrder(ops, a) && InOrder(ops, b)
    requires x in a && y in b && ops[a[|a| - 1]].ret < ops[y].call
    ensures !(ops[b[|b| - 1]].ret < ops[x].call)
  {
    LastIsLatest(ops, a, x);
    LastIsLatest(ops, b, y);
  }

  lemma {:induction false} OnKeyEmpty(ops: History, order: seq<nat>, key: string)
    requires InRange(ops, order) && forall k :: 0 <= k < |order| ==> ops[order[k]].input.key != key
    ensures OnKey(ops, order, key) == []
    decreases |order|
  {
    if order != [] {
      OnKeyEmpty(ops, order[..|order| - 1], key);
    }
  }

  ghost predicate Last(ops: History, p: nat, others: seq<nat>)
    requires p < |ops| && InRange(ops, others)
  {
    forall y :: y in others ==> !(ops[p].ret < ops[y].call)
  }

  /** Two orders over different keys have a common order that respects time. */
  lemma {:induction false} Merge(ops: History, a: seq<nat>, b: seq<nat>, keys: set<string>) returns (c: seq<nat>)
    requires OpsTimed(ops) && InRange(ops, a) && InRange(ops, b) && InOrder(ops, a) && InOrder(ops, b)
    requires KeysIn(ops, a, keys) && KeysOut(ops, b, keys)
    ensures Merges(ops, a, b, c, keys)
    decreases |a| + |b|
  {
    hide InOrder, OpsTimed;
    if a == [] {
      c := b;
      forall key
        ensures OnKey(ops, c, key) == if key in keys then OnKey(ops, a, key) else OnKey(ops, b, key)
      {
        if key in keys {
          OnKeyEmpty(ops, b, key);
        }
      }
    } else if b == [] {
      c := a;
      forall key
        ensures OnKey(ops, c, key) == if key in keys then OnKey(ops, a, key) else OnKey(ops, b, key)
      {
        if key !in keys {
          OnKeyEmpty(ops, a, key);
        }
      }
    } else {
      var m, l := |a| - 1, |b| - 1;
      InOrderInit(ops, a);
      InOrderInit(ops, b);
      if Last(ops, a[m], b) {
        var c' := Merge(ops, a[..m], b, keys);
        c := c' + [a[m]];
        MergeLast(ops, a, b, c', keys);
      } else {
        var y :| y in b && ops[a[m]].ret < ops[y].call;
        forall x | x in a
          ensures !(ops[b[l]].ret < ops[x].call)
        {
          OneCanBeLast(ops, a, b, x, y);
        }
        var c' := Merge(ops, a, b[..l], keys);
        c := c' + [b[l]];
        MergeLastRight(ops, a, b, c', keys);
      }
    }
  }

  lemma OnKeySnoc(ops: History, order: seq<nat>, x: nat, key: string)
    requires InRange(ops, order) && x < |ops|
    ensures InRange(ops, order + [x])
    ensures OnKey(ops, order + [x], key) ==
            if ops[x].input.key == key then OnKey(ops, order, key) + [x] else OnKey(ops, order, key)
  {
    assert (order + [x])[..|order|] == order;
  }

  lemma MergeLast(ops: History, a: seq<nat>, b: seq<nat>, c: seq<nat>, keys: set<string>)
    requires InRange(ops, a) && InRange(ops, b) && a != [] && KeysIn(ops, a, keys) && KeysOut(ops, b, keys)
    requires InOrder(ops, a) && Last(ops, a[|a| - 1], b) && Merges(ops, a[..|a| - 1], b, c, keys)
    ensures Merges(ops, a, b, c + [a[|a| - 1]], keys)
  {
    hide InOrder, OnKey;
    var m := |a| - 1;
    var p := a[m];
    InOrderInit(ops, a);
    assert ops[p].input.key in keys && forall y :: y in b ==> y != p;
    InOrderSnoc(ops, c, p);
    assert a == a[..m] + [p];
    forall key
      ensures OnKey(ops, c + [p], key) == if key in keys then OnKey(ops, a, key) else OnKey(ops, b, key)
    {
      OnKeySnoc(ops, c, p, key);
      OnKeySnoc(ops, a[..m], p, key);
    }
  }

  lemma MergeLastRight(ops: History, a: seq<nat>, b: seq<nat>, c: seq<nat>, keys: set<string>)
    requires InRange(ops, a) && InRange(ops, b) && b != [] && KeysIn(ops, a, keys) && KeysOut(ops, b, keys)
    requires InOrder(ops, b) && Last(ops, b[|b| - 1], a) && Merges(ops, a, b[..|b| - 1], c, keys)
    ensures Merges(ops, a, b, c + [b[|b| - 1]], keys)
  {
    hide InOrder, OnKey;
    var m := |b| - 1;
    var p := b[m];
    InOrderInit(ops, b);
    assert ops[p].input.key !in keys && forall x :: x in a ==> x != p;
    InOrderSnoc(ops, c, p);
    assert b == b[..m] + [p];
    forall key
      ensures OnKey(ops, c + [p], key) == if key in keys then OnKey(ops, a, key) else OnKey(ops, b, key)
    {
      OnKeySnoc(ops, c, p, key);
      OnKeySnoc(ops, b[..m], p, key);
    }
  }

  // ---------- All keys together ----------

  ghost predicate KeyLinearizable(ops: History, key: string) {
    exists order :: KeyLinearization(ops, order, key)
  }

  /** Orders for some keys merge into one order of all operations on these keys. */
  ghost predicate Combined(ops: History, keys: set<string>, order: seq<nat>) {
    && InRange(ops, order)
    && InOrder(ops, order)
    && KeysIn(ops, order, keys)
    && (forall x :: 0 <= x < |ops| && ops[x].input.key in keys ==> x in order)
    && (forall key :: LegalForKey(ops, order, key))
  }

  lemma {:induction false} Combine(ops: History, keys: set<string>) returns (order: seq<nat>)
    requires OpsTimed(ops) && forall key :: key in keys ==> KeyLinearizable(ops, key)
    ensures Combined(ops, keys, order)
    decreases keys
  {
    if keys == {} {
      order := [];
      assert forall key :: OnKey(ops, order, key) == [];
    } else {
      var key :| key in keys;
      var rest := Combine(ops, keys - {key});
      var own :| KeyLinearization(ops, own, key);
      order := Merge(ops, own, rest, {key});
      CombinedMore(ops, keys, key, own, rest, order);
    }
  }

  lemma CombinedMore(ops: History, keys: set<string>, key: string, own: seq<nat>, rest: seq<nat>, order: seq<nat>)
    requires key in keys && KeyLinearization(ops, own, key) && Combined(ops, keys - {key}, rest)
    requires Merges(ops, own, rest, order, {key})
    ensures Combined(ops, keys, order)
  {
    hide InOrder, LegalOnKey;
    forall k | 0 <= k < |order|
      ensures ops[order[k]].input.key in keys
    {
      assert order[k] in order;
      if order[k] in own {
        var i :| 0 <= i < |own| && own[i] == order[k];
      } else {
        var i :| 0 <= i < |rest| && rest[i] == order[k];
      }
    }
    forall other
      ensures LegalForKey(ops, order, other)
    {
      if other == key {
        OnlyOnKey(ops, own, key);
      } else {
        assert LegalForKey(ops, rest, other);
      }
    }
  }

  lemma {:induction false} OnlyOnKey(ops: History, order: seq<nat>, key: string)
    requires InRange(ops, order) && AllWithKey(ops, order, key)
    ensures OnKey(ops, order, key) == order
    decreases |order|
  {
    if order != [] {
      var m := |order| - 1;
      OnlyOnKey(ops, order[..m], key);
      assert order == order[..m] + [order[m]];
    }
  }

  ghost function KeysOf(ops: History): set<string> {
    set x | 0 <= x < |ops| :: ops[x].input.key
  }

  /**
  Locality: a history is linearizable against the whole store exactly when, for every key, the
  operations on that key are linearizable against its value.
  */
  lemma LinearizableByKey(ops: History)
    requires OpsTimed(ops)
    ensures Linearizable(OpsProblem(ALL_KEYS, ops)) <==> forall key :: key in KeysOf(ops) ==> KeyLinearizable(ops, key)
  {
    var p := OpsProblem(ALL_KEYS, ops);
    if Linearizable(p) {
      var order :| IsLinearization(p, order);
      forall key | key in KeysOf(ops)
        ensures KeyLinearizable(ops, key)
      {
        Project(ops, order, key);
      }
    }
    if forall key :: key in KeysOf(ops) ==> KeyLinearizable(ops, key) {
      var order := Combine(ops, KeysOf(ops));
      Whole(ops, order);
    }
  }

  lemma Project(ops: History, order: seq<nat>, key: string)
    requires OpsTimed(ops) && IsLinearization(OpsProblem(ALL_KEYS, ops), order)
    ensures KeyLinearizable(ops, key)
  {
    hide LegalOnKey, Legal, LegalStore, InOrder;
    var p := OpsProblem(ALL_KEYS, ops);
    AllOperations(order, p.n);
    assert InOrder(ops, order) by { TimeIsOrder(ops, order); }
    LegalStoreIsLegal(ops, order);
    LegalIsKeys(ops, order);
    assert LegalForKey(ops, order, key);
    OnKeyShape(ops, order, key);
    OnKeyInOrder(ops, order, key);
    assert KeyLinearization(ops, OnKey(ops, order, key), key);
  }

  lemma TimeIsOrder(ops: History, order: seq<nat>)
    requires OpsTimed(ops)
    ensures RespectsTime(OpsProblem(ALL_KEYS, ops), order) <==> InRange(ops, order) && InOrder(ops, order)
  {
  }

  lemma Whole(ops: History, order: seq<nat>)
    requires OpsTimed(ops) && Combined(ops, KeysOf(ops), order)
    ensures Linearizable(OpsProblem(ALL_KEYS, ops))
  {
    hide LegalOnKey, Legal, LegalStore, InOrder, LegalForKey, OpsTimed;
    var p := OpsProblem(ALL_KEYS, ops);
    LegalIsKeys(ops, order);
    LegalStoreIsLegal(ops, order);
    TimeIsOrder(ops, order);
    assert forall x :: 0 <= x < |ops| ==> ops[x].input.key in KeysOf(ops);
    AllOnce(order, |ops|);
    assert IsLinearization(p, order);
  }

  lemma AllOnce(order: seq<nat>, n: nat)
    requires forall k :: 0 <= k < |order| ==> order[k] < n
    requires forall j, k :: 0 <= j < k < |order| ==> order[j] != order[k]
    requires forall x :: 0 <= x < n ==> x in order
    ensures |order| == n
  {
    DistinctSize(order);
    assert Elems(order) == Range(n);
  }
}
