/** Keys, values and files of MapReduce. */
module MrTypes {

  datatype KeyValue = KeyValue(key: string, value: string)

  /** A record of an intermediate file. */
  datatype KeyValues = KeyValues(key: string, values: seq<string>)

  /** A line of an output file. */
  datatype Line = Line(key: string, output: string)

  // ---------- The values of a key ----------

  ghost function OneValue(p: KeyValue, k: string): multiset<string> {
    if p.key == k then multiset{p.value} else multiset{}
  }

  /** The values that `s` holds for `k`. */
  ghost function ValuesOf(s: seq<KeyValue>, k: string): multiset<string> {
    if s == [] then multiset{} else ValuesOf(s[..|s| - 1], k) + OneValue(s[|s| - 1], k)
  }

  lemma ValuesSnoc(s: seq<KeyValue>, p: KeyValue, k: string)
    ensures ValuesOf(s + [p], k) == ValuesOf(s, k) + OneValue(p, k)
    ensures ValuesOf([], k) == multiset{}
  {
    assert (s + [p])[..|s|] == s;
  }

  lemma {:induction false} ValuesConcat(s: seq<KeyValue>, t: seq<KeyValue>, k: string)
    ensures ValuesOf(s + t, k) == ValuesOf(s, k) + ValuesOf(t, k)
    decreases |t|
  {
    hide ValuesOf, OneValue;
    if t == [] {
      assert s + t == s;
      ValuesSnoc(s, KeyValue("", ""), k);
    } else {
      var m := |t| - 1;
      ValuesConcat(s, t[..m], k);
      ValuesSnoc(s + t[..m], t[m], k);
      ValuesSnoc(t[..m], t[m], k);
      assert t[..m] + [t[m]] == t && s + t[..m] + [t[m]] == s + t;
    }
  }

  lemma {:induction false} ValuesCount(s: seq<KeyValue>, k: string, v: string)
    ensures ValuesOf(s, k)[v] == multiset(s)[KeyValue(k, v)]
    decreases |s|
  {
    hide ValuesOf;
    if s == [] {
      ValuesSnoc([], KeyValue("", ""), k);
    } else {
      var m := |s| - 1;
      ValuesCount(s[..m], k, v);
      ValuesSnoc(s[..m], s[m], k);
      assert s == s[..m] + [s[m]];
    }
  }

  /** Sorting does not change the values of a key. */
  lemma ValuesPermuted(s: seq<KeyValue>, t: seq<KeyValue>, k: string)
    requires multiset(s) == multiset(t)
    ensures ValuesOf(s, k) == ValuesOf(t, k)
  {
    forall v
      ensures ValuesOf(s, k)[v] == ValuesOf(t, k)[v]
    {
      ValuesCount(s, k, v);
      ValuesCount(t, k, v);
    }
  }

  ghost function OneRecord(r: KeyValues, k: string): multiset<string> {
    if r.key == k then multiset(r.values) else multiset{}
  }

  /** The values that the records hold for `k`. */
  ghost function RecordValues(rs: seq<KeyValues>, k: string): multiset<string> {
    if rs == [] then multiset{} else RecordValues(rs[..|rs| - 1], k) + OneRecord(rs[|rs| - 1], k)
  }

  lemma RecordsSnoc(rs: seq<KeyValues>, r: KeyValues, k: string)
    ensures RecordValues(rs + [r], k) == RecordValues(rs, k) + OneRecord(r, k)
    ensures RecordValues([], k) == multiset{}
  {
    assert (rs + [r])[..|rs|] == rs;
  }

  lemma {:induction false} RecordsConcat(rs: seq<KeyValues>, ts: seq<KeyValues>, k: string)
    ensures RecordValues(rs + ts, k) == RecordValues(rs, k) + RecordValues(ts, k)
    decreases |ts|
  {
    hide RecordValues, OneRecord;
    if ts == [] {
      assert rs + ts == rs;
      RecordsSnoc(rs, KeyValues("", []), k);
    } else {
      var m := |ts| - 1;
      RecordsConcat(rs, ts[..m], k);
      RecordsSnoc(rs + ts[..m], ts[m], k);
      RecordsSnoc(ts[..m], ts[m], k);
      assert ts[..m] + [ts[m]] == ts && rs + ts[..m] + [ts[m]] == rs + ts;
    }
  }
}
