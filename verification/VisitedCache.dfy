/** The search's record of visited (set, state) pairs: buckets of entries under the hash of the set. */
module VisitedCache {
  import opened Bitset
  import opened LinSearch

  datatype CacheEntry<S> = CacheEntry(linearized: array<bv64>, state: S)

  /** The hash of a bitset, as an index into the cache. */
  datatype Key = Key(hash: bv64)

  class Cache<S(!new)> {
    const size: nat  // the number of words of every bitset
    var table: map<Key, seq<CacheEntry<S>>>
    ghost var visited: set<Config<S>>
    ghost var repr: set<array<bv64>>

    /** Entry `i` of the bucket `key` holds `c`, and `key` is the hash of its set. */
    ghost predicate HoldsAt(key: Key, i: nat, c: Config<S>)
      reads this, repr
    {
      && key in table
      && i < |table[key]|
      && var e := table[key][i];
      && e.linearized in repr
      && e.linearized.Length == size
      && Members(e.linearized[..]) == c.done
      && e.state == c.state
      && key == Key(HashOf(e.linearized[..]))
    }

    ghost predicate Valid()
      reads this, repr
    {
      && (forall key, i :: key in table && 0 <= i < |table[key]| ==>
            && table[key][i].linearized in repr
            && table[key][i].linearized.Length == size
            && Config(Members(table[key][i].linearized[..]), table[key][i].state) in visited)
      && (forall c :: c in visited ==> exists key, i :: HoldsAt(key, i, c))
    }

    constructor (size: nat)
      ensures Valid() && visited == {} && repr == {} && this.size == size
    {
      this.size := size;
      table := map[];
      visited := {};
      repr := {};
    }

    /** `cacheContains`: true exactly when an equal pair was inserted before. */
    method Contains(bits: array<bv64>, state: S, equal: (S, S) -> bool) returns (found: bool)
      requires Valid() && bits.Length == size
      ensures found <==> exists c :: c in visited && c.done == Members(bits[..]) && equal(state, c.state)
    {
      hide Members, HashOf;
      var hash := Hash(bits);
      var bucket := if Key(hash) in table then table[Key(hash)] else [];
      assert forall j :: 0 <= j < |bucket| ==> bucket[j].linearized.Length == size;
      hide Valid;
      var i := 0;
      while i < |bucket|
        invariant 0 <= i <= |bucket|
        invariant forall j :: 0 <= j < i ==> !Matches(bucket[j], bits, state, equal)
      {
        var same := Equals(bits, bucket[i].linearized);
        if same && equal(state, bucket[i].state) {
          ghost var c := ConfigAt(Key(hash), i);
          return true;
        }
        i := i + 1;
      }
      NotThere(bits, state, equal, bucket);
      found := false;
    }

    /** What an entry of the table stands for was visited. */
    ghost function ConfigAt(key: Key, i: nat): (c: Config<S>)
      requires Valid() && key in table && i < |table[key]|
      reads this, repr
      ensures c in visited && c == Config(Members(table[key][i].linearized[..]), table[key][i].state)
    {
      Config(Members(table[key][i].linearized[..]), table[key][i].state)
    }

    ghost predicate Matches(e: CacheEntry<S>, bits: array<bv64>, state: S, equal: (S, S) -> bool)
      reads e.linearized, bits
    {
      Members(bits[..]) == Members(e.linearized[..]) && equal(state, e.state)
    }

    /** If no entry of the bucket matches, no visited pair does. */
    lemma NotThere(bits: array<bv64>, state: S, equal: (S, S) -> bool, bucket: seq<CacheEntry<S>>)
      requires Valid() && bits.Length == size
      requires bucket == if Key(HashOf(bits[..])) in table then table[Key(HashOf(bits[..]))] else []
      requires forall j :: 0 <= j < |bucket| ==> !Matches(bucket[j], bits, state, equal)
      ensures forall c :: c in visited && c.done == Members(bits[..]) ==> !equal(state, c.state)
    {
      hide Members, HashOf;
      forall c | c in visited && c.done == Members(bits[..])
        ensures !equal(state, c.state)
      {
        var key: Key, i: nat :| HoldsAt(key, i, c);
        SameMembersSameWords(table[key][i].linearized[..], bits[..]);
        assert !Matches(bucket[i], bits, state, equal);
      }
    }

    method Insert(bits: array<bv64>, state: S)
      requires Valid() && bits.Length == size
      modifies this
      ensures Valid()
      ensures visited == old(visited) + {Config(Members(bits[..]), state)}
      ensures repr == old(repr) + {bits}
    {
      hide Members, HashOf;
      var hash := Hash(bits);
      var key, e := Key(hash), CacheEntry(bits, state);
      var bucket := if key in table then table[key] else [];
      table := table[key := bucket + [e]];
      repr := repr + {bits};
      visited := visited + {Config(Members(bits[..]), state)};
      forall k, i | k in table && 0 <= i < |table[k]|
        ensures table[k][i].linearized in repr && table[k][i].linearized.Length == size
        ensures Config(Members(table[k][i].linearized[..]), table[k][i].state) in visited
      {
        if k == key && i == |bucket| {
          assert table[k][i] == e;
        } else {
          assert table[k][i] == old(table)[k][i];
        }
      }
      forall c | c in visited
        ensures exists k, i :: HoldsAt(k, i, c)
      {
        if c in old(visited) {
          var k: Key, i: nat :| old(HoldsAt(k, i, c));
          assert table[k][i] == old(table)[k][i];
          assert HoldsAt(k, i, c);
        } else {
          assert table[key][|bucket|] == e;
          assert HoldsAt(key, |bucket|, c);
        }
      }
    }
  }
}
