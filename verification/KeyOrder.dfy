/** Strings as keys: their order, and what sorting by key means. */
module KeyOrder {

  /** Lexicographic order. */
  predicate Before(a: string, b: string) {
    b != [] && (a == [] || a[0] < b[0] || (a[0] == b[0] && Before(a[1..], b[1..])))
  }

  /** The strings agree below `k`, where the first ends or has the smaller character. */
  ghost predicate SmallerAt(a: string, b: string, k: nat) {
    k <= |a| && k < |b| && a[..k] == b[..k] && (k == |a| || a[k] < b[k])
  }

  lemma {:induction false} BeforeIs(a: string, b: string)
    ensures Before(a, b) <==> exists k: nat :: SmallerAt(a, b, k)
    decreases |a|
  {
    if b != [] && (a == [] || a[0] < b[0]) {
      assert SmallerAt(a, b, 0);
    } else if a != [] && b != [] && a[0] == b[0] {
      BeforeIs(a[1..], b[1..]);
      if k: nat :| SmallerAt(a[1..], b[1..], k) {
        assert a[..k + 1] == [a[0]] + a[1..][..k] && b[..k + 1] == [b[0]] + b[1..][..k];
        assert SmallerAt(a, b, k + 1);
      }
      if k: nat :| SmallerAt(a, b, k) {
        assert k > 0;
        assert a[1..][..k - 1] == a[..k][1..] && b[1..][..k - 1] == b[..k][1..];
        assert SmallerAt(a[1..], b[1..], k - 1);
      }
    } else {
      forall k: nat
        ensures !SmallerAt(a, b, k)
      {
        assert a != [] && b != [] && k > 0 && k <= |a| && k < |b| ==> a[..k][0] != b[..k][0];
      }
    }
  }

  lemma {:induction false} BeforeTransitive(a: string, b: string, c: string)
    requires Before(a, b) && Before(b, c)
    ensures Before(a, c)
    decreases |a|
  {
    if a != [] && a[0] == b[0] == c[0] {
      BeforeTransitive(a[1..], b[1..], c[1..]);
    }
  }

  lemma {:induction false} BeforeTotal(a: string, b: string)
    ensures Before(a, b) || Before(b, a) || a == b
    ensures !(Before(a, b) && Before(b, a))
    decreases |a|
  {
    if a != [] && b != [] && a[0] == b[0] {
      BeforeTotal(a[1..], b[1..]);
      assert a == [a[0]] + a[1..] && b == [b[0]] + b[1..];
    }
  }

  // ---------- Sorting ----------

  ghost predicate Sorted<T(!new)>(s: seq<T>, key: T -> string) {
    forall i, j :: 0 <= i < j < |s| ==> !Before(key(s[j]), key(s[i]))
  }

  /** A possible result of sorting, which need not be stable. */
  ghost predicate IsSorting<T(!new)>(s: seq<T>, t: seq<T>, key: T -> string) {
    Sorted(t, key) && multiset(t) == multiset(s)
  }

  lemma InsertKeepsSorted<T(!new)>(s: seq<T>, x: T, i: nat, key: T -> string)
    requires Sorted(s, key) && i <= |s|
    requires i > 0 ==> !Before(key(x), key(s[i - 1]))
    requires i < |s| ==> Before(key(x), key(s[i]))
    ensures Sorted(s[..i] + [x] + s[i..], key)
  {
    var t := s[..i] + [x] + s[i..];
    forall j, k | 0 <= j < k < |t|
      ensures !Before(key(t[k]), key(t[j]))
    {
      if k == i && j < i - 1 {
        NotAfter(key(s[j]), key(s[i - 1]), key(x));
      } else if j == i {
        var y := s[k - 1];
        BeforeTotal(key(x), key(s[i]));
        BeforeTotal(key(y), key(y));
        NotAfter(key(x), key(s[i]), key(y));
      }
    }
  }

  lemma NotAfter(a: string, b: string, c: string)
    requires !Before(b, a) && !Before(c, b)
    ensures !Before(c, a)
  {
    BeforeTotal(a, b);
    BeforeTotal(b, c);
    BeforeTotal(a, c);
    if Before(a, b) && Before(b, c) {
      BeforeTransitive(a, b, c);
    }
  }

  lemma InsertPermutes<T>(s: seq<T>, x: T, i: nat)
    requires i <= |s|
    ensures multiset(s[..i] + [x] + s[i..]) == multiset(s) + multiset{x}
  {
    assert s == s[..i] + s[i..];
  }

  method Insert<T(!new)>(s: seq<T>, x: T, key: T -> string) returns (t: seq<T>)
    requires Sorted(s, key)
    ensures Sorted(t, key) && multiset(t) == multiset(s) + multiset{x}
  {
    hide Sorted, Before;
    var i := |s|;
    while i > 0 && Before(key(x), key(s[i - 1]))
      invariant 0 <= i <= |s|
      invariant i < |s| ==> Before(key(x), key(s[i]))
    {
      i := i - 1;
    }
    InsertKeepsSorted(s, x, i, key);
    InsertPermutes(s, x, i);
    t := s[..i] + [x] + s[i..];
  }

  lemma NothingSorted<T(!new)>(key: T -> string)
    ensures Sorted([], key)
  {
  }

  /** A sort by key; the code calls the library. */
  method Sort<T(!new)>(s: seq<T>, key: T -> string) returns (t: seq<T>)
    ensures IsSorting(s, t, key)
  {
    hide Sorted, Before;
    t := [];
    NothingSorted(key);
    for n := 0 to |s|
      invariant Sorted(t, key) && multiset(t) == multiset(s[..n])
    {
      assert s[..n + 1] == s[..n] + [s[n]];
      t := Insert(t, s[n], key);
    }
    assert s[..|s|] == s;
  }

  // ---------- Keys of a map ----------

  /** The loop over the map, which yields its keys in any order. */
  method SomeOrder<V>(m: map<string, V>) returns (keys: seq<string>)
    ensures forall k :: k in m <==> k in keys
    ensures forall x, y :: 0 <= x < y < |keys| ==> keys[x] != keys[y]
  {
    keys := [];
    var left := m.Keys;
    while left != {}
      invariant left <= m.Keys
      invariant forall k :: k in m.Keys <==> k in left || k in keys
      invariant forall x :: 0 <= x < |keys| ==> keys[x] !in left
      invariant forall x, y :: 0 <= x < y < |keys| ==> keys[x] != keys[y]
      decreases |left|
    {
      var k :| k in left;
      keys := keys + [k];
      left := left - {k};
    }
  }

  /** Sorting distinct keys puts them in strict order and keeps each. */
  lemma SortedDistinct(keys: seq<string>, sorted: seq<string>)
    requires IsSorting(keys, sorted, (k: string) => k)
    requires forall x, y :: 0 <= x < y < |keys| ==> keys[x] != keys[y]
    ensures forall k :: k in sorted <==> k in keys
    ensures forall x, y :: 0 <= x < y < |sorted| ==> Before(sorted[x], sorted[y])
  {
    forall k
      ensures k in sorted <==> k in keys
    {
      assert k in sorted <==> k in multiset(sorted);
      assert k in keys <==> k in multiset(keys);
    }
    forall x, y | 0 <= x < y < |sorted|
      ensures Before(sorted[x], sorted[y])
    {
      var id := (k: string) => k;
      assert !Before(id(sorted[y]), id(sorted[x]));
      BeforeTotal(sorted[x], sorted[y]);
      DistinctCount(keys, sorted[x]);
      TwiceCounted(sorted, x, y);
    }
  }

  lemma {:induction false} DistinctCount<T>(s: seq<T>, v: T)
    requires forall x, y :: 0 <= x < y < |s| ==> s[x] != s[y]
    ensures multiset(s)[v] <= 1
    decreases |s|
  {
    if s != [] {
      var m := |s| - 1;
      DistinctCount(s[..m], v);
      assert s == s[..m] + [s[m]];
      assert v in multiset(s[..m]) <==> v in s[..m];
    }
  }

  lemma TwiceCounted<T>(s: seq<T>, x: nat, y: nat)
    requires x < y < |s|
    ensures s[x] == s[y] ==> multiset(s)[s[x]] >= 2
  {
    assert s == s[..x] + [s[x]] + s[x + 1..y] + [s[y]] + s[y + 1..];
  }
}
