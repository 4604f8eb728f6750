/** The loops of the worker and of the sequential program that group and merge values by key. */
module MrGroup {
  import opened MrTypes
  import opened KeyOrder

  // ---------- Grouping ----------

  /** One past the entries from `j` on that have the key. */
  function GroupEnd(s: seq<KeyValue>, j: nat, key: string): (e: nat)
    requires j <= |s|
    ensures j <= e <= |s| && (e < |s| ==> s[e].key != key)
    ensures forall x :: j <= x < e ==> s[x].key == key
    decreases |s| - j
  {
    if j < |s| && s[j].key == key then GroupEnd(s, j + 1, key) else j
  }

  function Values(s: seq<KeyValue>): (vs: seq<string>)
    ensures |vs| == |s| && forall x :: 0 <= x < |s| ==> vs[x] == s[x].value
  {
    seq(|s|, x requires 0 <= x < |s| => s[x].value)
  }

  /** One record for every stretch of equal keys from `i` on. */
  function GroupsFrom(s: seq<KeyValue>, i: nat): seq<KeyValues>
    requires i <= |s|
    decreases |s| - i
  {
    if i == |s| then []
    else
      var j := GroupEnd(s, i + 1, s[i].key);
      [KeyValues(s[i].key, Values(s[i..j]))] + GroupsFrom(s, j)
  }

  lemma {:induction false} GroupValues(s: seq<KeyValue>, k: string)
    requires forall x :: 0 <= x < |s| ==> s[x].key == k
    ensures ValuesOf(s, k) == multiset(Values(s))
    decreases |s|
  {
    if s != [] {
      var m := |s| - 1;
      GroupValues(s[..m], k);
      assert Values(s) == Values(s[..m]) + [s[m].value];
    }
  }

  lemma {:induction false} OtherValues(s: seq<KeyValue>, k: string)
    requires forall x :: 0 <= x < |s| ==> s[x].key != k
    ensures ValuesOf(s, k) == multiset{}
    decreases |s|
  {
    if s != [] {
      OtherValues(s[..|s| - 1], k);
    }
  }

  /** Grouping loses and adds no value. */
  lemma {:induction false} GroupsKeepValues(s: seq<KeyValue>, i: nat, k: string)
    requires i <= |s|
    ensures RecordValues(GroupsFrom(s, i), k) == ValuesOf(s[i..], k)
    decreases |s| - i
  {
    hide RecordValues, ValuesOf, OneRecord;
    if i == |s| {
      assert RecordValues([], k) == ValuesOf([], k) by { NoValues(k); }
    } else {
      var j := GroupEnd(s, i + 1, s[i].key);
      var g, first, rest := s[i..j], KeyValues(s[i].key, Values(s[i..j])), GroupsFrom(s, j);
      GroupsKeepValues(s, j, k);
      assert s[i..] == g + s[j..];
      ValuesConcat(g, s[j..], k);
      RecordsConcat([first], rest, k);
      OneGroupValues(g, s[i].key, k);
    }
  }

  lemma NoValues(k: string)
    ensures RecordValues([], k) == ValuesOf([], k) == multiset{}
  {
  }

  lemma OneGroupValues(g: seq<KeyValue>, key: string, k: string)
    requires forall x :: 0 <= x < |g| ==> g[x].key == key
    ensures RecordValues([KeyValues(key, Values(g))], k) == ValuesOf(g, k)
  {
    hide ValuesOf;
    var first := KeyValues(key, Values(g));
    assert [first][..0] == [];
    if key == k {
      GroupValues(g, k);
    } else {
      OtherValues(g, k);
    }
  }

  ghost predicate KeysIncrease(rs: seq<KeyValues>) {
    forall x, y :: 0 <= x < y < |rs| ==> Before(rs[x].key, rs[y].key)
  }

  ghost function KeyOf(): KeyValue -> string {
    (p: KeyValue) => p.key
  }

  /** In a sorted sequence every key has one group, with at least one value, and groups are in order. */
  lemma {:induction false} GroupsIncrease(s: seq<KeyValue>, i: nat)
    requires i <= |s| && Sorted(s, KeyOf())
    ensures KeysIncrease(GroupsFrom(s, i))
    ensures forall x :: 0 <= x < |GroupsFrom(s, i)| ==> GroupsFrom(s, i)[x].values != []
    ensures forall x :: 0 <= x < |GroupsFrom(s, i)| ==> exists y :: i <= y < |s| && s[y].key == GroupsFrom(s, i)[x].key
    decreases |s| - i
  {
    if i < |s| {
      var j := GroupEnd(s, i + 1, s[i].key);
      var first, rest := KeyValues(s[i].key, Values(s[i..j])), GroupsFrom(s, j);
      GroupsIncrease(s, j);
      forall x | 0 <= x < |rest|
        ensures Before(first.key, rest[x].key)
      {
        var y :| j <= y < |s| && s[y].key == rest[x].key;
        LaterKeys(s, i, j, y);
      }
      var all := GroupsFrom(s, i);
      assert all[0] == first && forall x :: 1 <= x < |all| ==> all[x] == rest[x - 1];
      assert s[i].key == first.key;
    }
  }

  lemma LaterKeys(s: seq<KeyValue>, i: nat, j: nat, y: nat)
    requires Sorted(s, KeyOf()) && i < j <= y < |s| && s[j].key != s[i].key
    ensures Before(s[i].key, s[y].key)
  {
    var key := KeyOf();
    assert !Before(key(s[j]), key(s[i]));
    BeforeTotal(s[i].key, s[j].key);
    if y > j {
      assert !Before(key(s[y]), key(s[j]));
      BeforeTotal(s[j].key, s[y].key);
      if Before(s[j].key, s[y].key) {
        BeforeTransitive(s[i].key, s[j].key, s[y].key);
      }
    }
  }

  /** The two inner loops: the end of the group that starts at `i`, and its values. */
  method NextGroup(intermediate: seq<KeyValue>, i: nat) returns (j: nat, values: seq<string>)
    requires i < |intermediate|
    ensures j == GroupEnd(intermediate, i + 1, intermediate[i].key) && values == Values(intermediate[i..j])
  {
    j := i + 1;
    while j < |intermediate| && intermediate[j].key == intermediate[i].key
      invariant i < j <= |intermediate|
      invariant GroupEnd(intermediate, i + 1, intermediate[i].key) == GroupEnd(intermediate, j, intermediate[i].key)
    {
      j := j + 1;
    }
    values := [];
    var k := i;
    while k < j
      invariant i <= k <= j && values == Values(intermediate[i..k])
    {
      values := values + [intermediate[k].value];
      k := k + 1;
    }
  }

  lemma GroupsNext(s: seq<KeyValue>, i: nat, done: seq<KeyValues>)
    requires i < |s|
    ensures var j := GroupEnd(s, i + 1, s[i].key);
            done + GroupsFrom(s, i) == done + [KeyValues(s[i].key, Values(s[i..j]))] + GroupsFrom(s, j)
  {
  }

  lemma GroupsEnd(s: seq<KeyValue>)
    ensures GroupsFrom(s, |s|) == []
  {
  }

  /** The outer loop. */
  method Group(intermediate: seq<KeyValue>) returns (records: seq<KeyValues>)
    ensures records == GroupsFrom(intermediate, 0)
  {
    hide GroupsFrom, GroupEnd, Values;
    records := [];
    var i := 0;
    while i < |intermediate|
      invariant 0 <= i <= |intermediate|
      invariant GroupsFrom(intermediate, 0) == records + GroupsFrom(intermediate, i)
    {
      var j, values := NextGroup(intermediate, i);
      GroupsNext(intermediate, i, records);
      records := records + [KeyValues(intermediate[i].key, values)];
      i := j;
    }
    GroupsEnd(intermediate);
  }

  // ---------- Merging ----------

  type Merged = map<string, seq<string>>

  function Found(kva: Merged, k: string): seq<string> {
    if k in kva then kva[k] else []
  }

  /** A record with no value adds no key. */
  function AddRecord(kva: Merged, r: KeyValues): Merged {
    if r.values == [] then kva else kva[r.key := Found(kva, r.key) + r.values]
  }

  function AddRecords(kva: Merged, rs: seq<KeyValues>): Merged {
    if rs == [] then kva else AddRecord(AddRecords(kva, rs[..|rs| - 1]), rs[|rs| - 1])
  }

  /** The values of `k` in the order of the records. */
  ghost function InRecords(rs: seq<KeyValues>, k: string): seq<string> {
    if rs == [] then []
    else InRecords(rs[..|rs| - 1], k) + if rs[|rs| - 1].key == k then rs[|rs| - 1].values else []
  }

  /** The values of `k` in the order of the pairs. */
  ghost function InPairs(s: seq<KeyValue>, k: string): seq<string> {
    if s == [] then [] else InPairs(s[..|s| - 1], k) + if s[|s| - 1].key == k then [s[|s| - 1].value] else []
  }

  /** Merging appends the values of each key in the order of the file. */
  lemma {:induction false} MergeKeepsOrder(kva: Merged, rs: seq<KeyValues>, k: string)
    ensures Found(AddRecords(kva, rs), k) == Found(kva, k) + InRecords(rs, k)
    decreases |rs|
  {
    if rs != [] {
      MergeKeepsOrder(kva, rs[..|rs| - 1], k);
    }
  }

  lemma {:induction false} InRecordsConcat(rs: seq<KeyValues>, ts: seq<KeyValues>, k: string)
    ensures InRecords(rs + ts, k) == InRecords(rs, k) + InRecords(ts, k)
    decreases |ts|
  {
    if ts == [] {
      assert rs + ts == rs;
    } else {
      var m := |ts| - 1;
      InRecordsConcat(rs, ts[..m], k);
      assert (rs + ts)[..|rs| + m] == rs + ts[..m] && (rs + ts)[|rs| + m] == ts[m];
    }
  }

  lemma {:induction false} InPairsConcat(s: seq<KeyValue>, t: seq<KeyValue>, k: string)
    ensures InPairs(s + t, k) == InPairs(s, k) + InPairs(t, k)
    decreases |t|
  {
    if t == [] {
      assert s + t == s;
    } else {
      var m := |t| - 1;
      InPairsConcat(s, t[..m], k);
      assert (s + t)[..|s| + m] == s + t[..m] && (s + t)[|s| + m] == t[m];
    }
  }

  lemma {:induction false} OneGroupInOrder(g: seq<KeyValue>, key: string, k: string)
    requires forall x :: 0 <= x < |g| ==> g[x].key == key
    ensures InPairs(g, k) == if key == k then Values(g) else []
    decreases |g|
  {
    if g != [] {
      var m := |g| - 1;
      OneGroupInOrder(g[..m], key, k);
      assert Values(g) == Values(g[..m]) + [g[m].value];
    }
  }

  lemma NothingInOrder(k: string)
    ensures InRecords([], k) == InPairs([], k) == []
  {
  }

  lemma OneRecordInOrder(r: KeyValues, k: string)
    ensures InRecords([r], k) == if r.key == k then r.values else []
  {
    assert [r][..0] == [];
  }

  /** Grouping keeps the values of each key in order. */
  lemma {:induction false} GroupsKeepOrder(s: seq<KeyValue>, i: nat, k: string)
    requires i <= |s|
    ensures InRecords(GroupsFrom(s, i), k) == InPairs(s[i..], k)
    decreases |s| - i
  {
    hide InPairs, InRecords;
    if i == |s| {
      NothingInOrder(k);
    } else {
      var j := GroupEnd(s, i + 1, s[i].key);
      var g, first, rest := s[i..j], KeyValues(s[i].key, Values(s[i..j])), GroupsFrom(s, j);
      GroupsKeepOrder(s, j, k);
      assert s[i..] == g + s[j..];
      InPairsConcat(g, s[j..], k);
      OneGroupInOrder(g, s[i].key, k);
      InRecordsConcat([first], rest, k);
      OneRecordInOrder(first, k);
    }
  }

  /** No key without values. */
  ghost predicate NoEmptyKey(kva: Merged) {
    forall k :: k in kva ==> kva[k] != []
  }

  /** Merging a file loses and adds no value. */
  lemma {:induction false} MergeKeepsValues(kva: Merged, rs: seq<KeyValues>, k: string)
    ensures multiset(Found(AddRecords(kva, rs), k)) == multiset(Found(kva, k)) + RecordValues(rs, k)
    ensures NoEmptyKey(kva) ==> NoEmptyKey(AddRecords(kva, rs))
    decreases |rs|
  {
    hide RecordValues;
    if rs == [] {
      RecordsSnoc([], KeyValues("", []), k);
    } else {
      var m := |rs| - 1;
      MergeKeepsValues(kva, rs[..m], k);
      RecordsSnoc(rs[..m], rs[m], k);
      assert rs[..m] + [rs[m]] == rs;
      OneMerged(AddRecords(kva, rs[..m]), rs[m], k);
    }
  }

  lemma OneMerged(kva: Merged, r: KeyValues, k: string)
    ensures multiset(Found(AddRecord(kva, r), k)) == multiset(Found(kva, k)) + OneRecord(r, k)
    ensures NoEmptyKey(kva) ==> NoEmptyKey(AddRecord(kva, r))
  {
  }

  /** The inner two loops of the reduce task, for one file. */
  method MergeFile(kva: Merged, file: seq<KeyValues>) returns (kva': Merged)
    ensures kva' == AddRecords(kva, file)
  {
    kva' := kva;
    for n := 0 to |file|
      invariant kva' == AddRecords(kva, file[..n])
    {
      var kvs := file[n];
      ghost var before := kva';
      for x := 0 to |kvs.values|
        invariant kva' == AddRecord(before, KeyValues(kvs.key, kvs.values[..x]))
      {
        assert kvs.values[..x + 1] == kvs.values[..x] + [kvs.values[x]];
        kva' := kva'[kvs.key := (if kvs.key in kva' then kva'[kvs.key] else []) + [kvs.values[x]]];
        assert kva'[kvs.key] == Found(before, kvs.key) + kvs.values[..x + 1];
      }
      assert kvs.values[..|kvs.values|] == kvs.values;
      assert file[..n + 1][..n] == file[..n];
    }
    assert file[..|file|] == file;
  }

  type Reducer = (string, seq<string>) -> string

  /** The lines for the keys of `kva`, in order. */
  ghost predicate IsOutput(kva: Merged, reducef: Reducer, lines: seq<Line>) {
    && (forall x, y :: 0 <= x < y < |lines| ==> Before(lines[x].key, lines[y].key))
    && (forall x :: 0 <= x < |lines| ==>
          lines[x].key in kva && lines[x].output == reducef(lines[x].key, kva[lines[x].key]))
    && (forall k :: k in kva ==> exists x :: 0 <= x < |lines| && lines[x].key == k)
  }

  /** The keys in order, then a line for each. */
  method WriteOutput(kva: Merged, reducef: Reducer) returns (lines: seq<Line>)
    ensures IsOutput(kva, reducef, lines)
  {
    var keys := SomeOrder(kva);
    var sorted := Sort(keys, (k: string) => k);
    SortedDistinct(keys, sorted);
    hide Before;
    lines := [];
    for n := 0 to |sorted|
      invariant |lines| == n
      invariant forall x :: 0 <= x < n ==> lines[x] == Line(sorted[x], reducef(sorted[x], kva[sorted[x]]))
    {
      assert sorted[n] in kva;
      lines := lines + [Line(sorted[n], reducef(sorted[n], kva[sorted[n]]))];
    }
    forall k | k in kva
      ensures exists x :: 0 <= x < |lines| && lines[x].key == k
    {
      var x :| 0 <= x < |sorted| && sorted[x] == k;
      assert lines[x].key == k;
    }
  }
}
