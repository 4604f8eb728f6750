/** A set of small numbers kept in an array of 64-bit words. */
module Bitset {

  type Words = seq<bv64>

  /** The position of a bit within its word. */
  function Minor(pos: nat): bv6 {
    (pos % 64) as bv6
  }

  function Mask(k: bv6): bv64 {
    1 << k
  }

  function And(a: bv64, b: bv64): bv64 {
    a & b
  }

  function Or(a: bv64, b: bv64): bv64 {
    a | b
  }

  function AndNot(a: bv64, b: bv64): bv64 {
    a & !b
  }

  function Xor(a: bv64, b: bv64): bv64 {
    a ^ b
  }

  predicate Bit(w: bv64, k: bv6) {
    And(w, Mask(k)) != 0
  }

  predicate BitAt(w: bv64, i: nat)
    requires i < 64
  {
    Bit(w, i as bv6)
  }

  predicate Has(words: Words, pos: nat) {
    pos / 64 < |words| && Bit(words[pos / 64], Minor(pos))
  }

  /** The numbers whose bits are set. */
  ghost function Members(words: Words): set<nat> {
    set pos: nat | pos < 64 * |words| && Has(words, pos)
  }

  lemma HasIsMember(words: Words, pos: nat)
    ensures Has(words, pos) <==> pos in Members(words)
  {
  }

  // ---------- Bits of one word ----------

  lemma MasksDiffer(m: bv6, k: bv6)
    ensures Mask(m) != 0
    ensures m != k ==> And(Mask(m), Mask(k)) == 0 && Mask(m) != Mask(k)
  {
  }

  lemma OrBits(w: bv64, b: bv64, c: bv64)
    ensures b & c == 0 ==> (w | b) & c == w & c
    ensures (w | b) & b == b
  {
  }

  lemma OrOther(w: bv64, b: bv64, c: bv64)
    requires And(b, c) == 0
    ensures And(Or(w, b), c) == And(w, c)
  {
    OrBits(w, b, c);
    assert Or(w, b) == w | b;
  }

  lemma OrSame(w: bv64, b: bv64)
    ensures And(Or(w, b), b) == b
  {
    OrBits(w, b, b);
    assert Or(w, b) == w | b;
  }

  lemma AndNotBits(w: bv64, b: bv64, c: bv64)
    ensures b & c == 0 ==> (w & !b) & c == w & c
    ensures (w & !b) & b == 0
  {
  }

  lemma AndNotOther(w: bv64, b: bv64, c: bv64)
    requires And(b, c) == 0
    ensures And(AndNot(w, b), c) == And(w, c)
  {
    AndNotBits(w, b, c);
    assert AndNot(w, b) == w & !b;
  }

  lemma AndNotSame(w: bv64, b: bv64)
    ensures And(AndNot(w, b), b) == 0
  {
    AndNotBits(w, b, b);
    assert AndNot(w, b) == w & !b;
  }

  lemma SetBit(w: bv64, m: bv6, k: bv6)
    ensures Bit(Or(w, Mask(m)), k) <==> m == k || Bit(w, k)
  {
    hide Mask, And, Or;
    MasksDiffer(m, k);
    if m == k {
      OrSame(w, Mask(m));
    } else {
      OrOther(w, Mask(m), Mask(k));
    }
  }

  lemma ClearBit(w: bv64, m: bv6, k: bv6)
    ensures Bit(AndNot(w, Mask(m)), k) <==> m != k && Bit(w, k)
  {
    hide Mask, And, AndNot;
    MasksDiffer(m, k);
    if m == k {
      AndNotSame(w, Mask(m));
    } else {
      AndNotOther(w, Mask(m), Mask(k));
    }
  }

  lemma MinorNumber(k: nat)
    requires k < 64
    ensures (k as bv6) as nat == k
  {
  }

  lemma MinorOf(j: nat, i: nat)
    requires i < 64
    ensures (64 * j + i) / 64 == j && Minor(64 * j + i) == i as bv6
  {
    assert (64 * j + i) / 64 == j && (64 * j + i) % 64 == i;
  }

  lemma MinorInjective(a: nat, b: nat)
    requires a / 64 == b / 64 && Minor(a) == Minor(b)
    ensures a == b
  {
    MinorNumber(a % 64);
    MinorNumber(b % 64);
  }

  // ---------- Words with the same bits are the same ----------

  /** The lowest `k` bits. */
  function LowMask(k: nat): bv64
    requires k <= 64
  {
    if k == 0 then 0 else Or(LowMask(k - 1), Mask((k - 1) as bv6))
  }

  lemma GrowLowMask(k: bv6)
    ensures k < 63 ==> (Mask(k) - 1) | Mask(k) == Mask(k + 1) - 1
    ensures k == 63 ==> (Mask(k) - 1) | Mask(k) == 0xFFFF_FFFF_FFFF_FFFF
  {
  }

  lemma NextMinor(k: nat)
    requires 0 < k < 64
    ensures (k - 1) as bv6 < 63 && k as bv6 == ((k - 1) as bv6) + 1
  {
    var a := (k - 1) as bv6;
    MinorNumber(k - 1);
    assert (a + 1) as nat == k;
    MinorNumber(k);
  }

  lemma {:induction false} LowMaskIs(k: nat)
    requires 0 < k <= 64
    ensures LowMask(k) == (Mask((k - 1) as bv6) - 1) | Mask((k - 1) as bv6)
    ensures k == 64 ==> LowMask(k) == 0xFFFF_FFFF_FFFF_FFFF
  {
    hide Or;
    if k == 1 {
      OrIs(0, Mask(0));
      assert LowMask(0) == 0;
      assert Mask(0) == 1;
    } else {
      OrIs(LowMask(k - 1), Mask((k - 1) as bv6));
      LowMaskIs(k - 1);
      NextMinor(k - 1);
      GrowLowMask((k - 2) as bv6);
      GrowLowMask((k - 1) as bv6);
      MinorNumber(k - 1);
    }
  }

  lemma OrIs(a: bv64, b: bv64)
    ensures Or(a, b) == a | b
  {
  }

  lemma Distributes(a: bv64, b: bv64, c: bv64)
    ensures a & (b | c) == (a & b) | (a & c)
  {
  }

  lemma JoinBits(a: bv64, b: bv64, low: bv64, mask: bv64)
    requires a & low == b & low && a & mask == b & mask
    ensures a & (low | mask) == b & (low | mask)
  {
    Distributes(a, low, mask);
    Distributes(b, low, mask);
  }

  /** Masking one bit gives the mask or nothing. */
  lemma MaskValue(a: bv64, k: bv6)
    ensures a & Mask(k) == 0 || a & Mask(k) == Mask(k)
  {
  }

  lemma SameBit(a: bv64, b: bv64, k: bv6)
    requires Bit(a, k) == Bit(b, k)
    ensures a & Mask(k) == b & Mask(k)
  {
    hide Mask;
    MaskValue(a, k);
    MaskValue(b, k);
  }

  predicate AgreeOn(a: bv64, b: bv64, mask: bv64) {
    a & mask == b & mask
  }

  lemma {:induction false} SameLowBits(a: bv64, b: bv64, k: nat)
    requires k <= 64 && forall i :: 0 <= i < k ==> BitAt(a, i) == BitAt(b, i)
    ensures AgreeOn(a, b, LowMask(k))
  {
    hide BitAt, LowMask, AgreeOn;
    if k == 0 {
      AgreeOnNone(a, b);
    } else {
      SameLowBits(a, b, k - 1);
      assert BitAt(a, k - 1) == BitAt(b, k - 1);
      AgreeOnMore(a, b, k);
    }
  }

  lemma AgreeOnNone(a: bv64, b: bv64)
    ensures AgreeOn(a, b, LowMask(0))
  {
    LowMaskZero();
  }

  lemma AgreeOnMore(a: bv64, b: bv64, k: nat)
    requires 0 < k <= 64 && AgreeOn(a, b, LowMask(k - 1)) && BitAt(a, k - 1) == BitAt(b, k - 1)
    ensures AgreeOn(a, b, LowMask(k))
  {
    hide BitAt, Mask, AgreeOn, Or;
    SameBitAt(a, b, k - 1);
    JoinAgree(a, b, LowMask(k - 1), Mask((k - 1) as bv6));
  }

  lemma JoinAgree(a: bv64, b: bv64, low: bv64, mask: bv64)
    requires AgreeOn(a, b, low) && AgreeOn(a, b, mask)
    ensures AgreeOn(a, b, Or(low, mask))
  {
    hide Or;
    JoinBits(a, b, low, mask);
    OrIs(low, mask);
  }

  lemma SameBitAt(a: bv64, b: bv64, i: nat)
    requires i < 64 && BitAt(a, i) == BitAt(b, i)
    ensures AgreeOn(a, b, Mask(i as bv6))
  {
    hide Bit, Mask;
    SameBit(a, b, i as bv6);
  }

  lemma LowMaskZero()
    ensures LowMask(0) == 0
  {
  }

  lemma AllBits(a: bv64)
    ensures a & 0xFFFF_FFFF_FFFF_FFFF == a
  {
  }

  lemma SameBitsSameWord(a: bv64, b: bv64)
    requires forall i :: 0 <= i < 64 ==> BitAt(a, i) == BitAt(b, i)
    ensures a == b
  {
    hide BitAt, LowMask;
    SameLowBits(a, b, 64);
    LowMaskIs(64);
    AllBits(a);
    AllBits(b);
  }

  lemma SameMembersSameWords(a: Words, b: Words)
    requires |a| == |b| && Members(a) == Members(b)
    ensures a == b
  {
    hide Bit;
    forall j | 0 <= j < |a|
      ensures a[j] == b[j]
    {
      forall i | 0 <= i < 64
        ensures BitAt(a[j], i) == BitAt(b[j], i)
      {
        var pos := 64 * j + i;
        MinorOf(j, i);
        HasIsMember(a, pos);
        HasIsMember(b, pos);
      }
      SameBitsSameWord(a[j], b[j]);
    }
  }

  // ---------- Sets ----------

  lemma MembersAfterSet(words: Words, pos: nat)
    requires pos / 64 < |words|
    ensures Members(words[pos / 64 := Or(words[pos / 64], Mask(Minor(pos)))]) == Members(words) + {pos}
  {
    hide Bit, Mask;
    var words' := words[pos / 64 := Or(words[pos / 64], Mask(Minor(pos)))];
    forall q: nat
      ensures Has(words', q) <==> Has(words, q) || q == pos
    {
      SetBitAt(words, pos, q);
    }
    assert Members(words') == Members(words) + {pos};
  }

  lemma SetBitAt(words: Words, pos: nat, q: nat)
    requires pos / 64 < |words|
    ensures Has(words[pos / 64 := Or(words[pos / 64], Mask(Minor(pos)))], q) <==> Has(words, q) || q == pos
  {
    hide Bit, Mask, Minor;
    if q / 64 == pos / 64 {
      SetBit(words[pos / 64], Minor(pos), Minor(q));
      if Minor(pos) == Minor(q) {
        MinorInjective(pos, q);
      }
    }
  }

  lemma MembersAfterClear(words: Words, pos: nat)
    requires pos / 64 < |words|
    ensures Members(words[pos / 64 := AndNot(words[pos / 64], Mask(Minor(pos)))]) == Members(words) - {pos}
  {
    hide Bit, Mask;
    var words' := words[pos / 64 := AndNot(words[pos / 64], Mask(Minor(pos)))];
    forall q: nat
      ensures Has(words', q) <==> Has(words, q) && q != pos
    {
      ClearBitAt(words, pos, q);
    }
    assert Members(words') == Members(words) - {pos};
  }

  lemma ClearBitAt(words: Words, pos: nat, q: nat)
    requires pos / 64 < |words|
    ensures Has(words[pos / 64 := AndNot(words[pos / 64], Mask(Minor(pos)))], q) <==> Has(words, q) && q != pos
  {
    hide Bit, Mask, Minor;
    if q / 64 == pos / 64 {
      ClearBit(words[pos / 64], Minor(pos), Minor(q));
      if Minor(pos) == Minor(q) {
        MinorInjective(pos, q);
      }
    }
  }

  lemma MembersOfZeros(n: nat)
    ensures Members(seq(n, _ => 0 as bv64)) == {}
  {
    var words: Words := seq(n, _ => 0);
    forall q: nat
      ensures !Has(words, q)
    {
      assert q / 64 < n ==> And(words[q / 64], Mask(Minor(q))) == 0;
    }
  }

  // ---------- Counting and hashing ----------

  /** The number of set bits below position `k`. */
  function OnesBelow(w: bv64, k: nat): nat
    requires k <= 64
  {
    if k == 0 then 0 else OnesBelow(w, k - 1) + if Bit(w, (k - 1) as bv6) then 1 else 0
  }

  function PopCount(words: Words): nat {
    if words == [] then 0 else PopCount(words[..|words| - 1]) + OnesBelow(words[|words| - 1], 64)
  }

  function XorAll(words: Words): bv64 {
    if words == [] then 0 else Xor(XorAll(words[..|words| - 1]), words[|words| - 1])
  }

  const WORD_SIZE: nat := 0x1_0000_0000_0000_0000

  /** The conversion to `uint64`. */
  function ToWord(x: nat): bv64 {
    (x % WORD_SIZE) as bv64
  }

  function HashOf(words: Words): bv64 {
    Xor(ToWord(PopCount(words)), XorAll(words))
  }

  /** Without the number of members the hash is the exclusive or of the words. */
  lemma HashIs(words: Words, w: bv64)
    ensures Xor(HashOf(words), ToWord(|Members(words)|)) == XorAll(words)
    ensures XorAll([]) == 0 && XorAll(words + [w]) == Xor(XorAll(words), w)
  {
    hide Members, PopCount, ToWord;
    PopCountIsSize(words);
    XorTwice(ToWord(PopCount(words)), XorAll(words));
    assert (words + [w])[..|words|] == words;
  }

  lemma XorTwice(a: bv64, b: bv64)
    ensures Xor(Xor(a, b), a) == b
  {
  }

  /** Members below position `q`. */
  ghost function Below(words: Words, q: nat): set<nat> {
    set pos: nat | pos < q && Has(words, pos)
  }

  lemma {:induction false} OnesAreMembers(words: Words, j: nat, k: nat)
    requires j < |words| && k <= 64
    ensures |Below(words, 64 * j + k)| == |Below(words, 64 * j)| + OnesBelow(words[j], k)
    decreases k
  {
    hide Bit, Minor;
    if k > 0 {
      OnesAreMembers(words, j, k - 1);
      var pos := 64 * j + (k - 1);
      MinorOf(j, k - 1);
      var before, after := Below(words, pos), Below(words, pos + 1);
      if Has(words, pos) {
        assert after == before + {pos};
      } else {
        assert after == before;
      }
    }
  }

  lemma {:induction false} PopCountPrefix(words: Words, j: nat)
    requires j <= |words|
    ensures PopCount(words[..j]) == |Below(words, 64 * j)|
    decreases j
  {
    if j == 0 {
      assert Below(words, 0) == {};
    } else {
      PopCountPrefix(words, j - 1);
      OnesAreMembers(words, j - 1, 64);
      assert words[..j][..j - 1] == words[..j - 1];
    }
  }

  /** `popcnt` is the number of members. */
  lemma PopCountIsSize(words: Words)
    ensures PopCount(words) == |Members(words)|
  {
    PopCountPrefix(words, |words|);
    assert words[..|words|] == words;
    assert Below(words, 64 * |words|) == Members(words);
  }

  // ---------- Operations on the array ----------

  method NewBitset(bits: nat) returns (b: array<bv64>)
    ensures fresh(b) && b.Length == (bits + 63) / 64
    ensures Members(b[..]) == {}
  {
    var extra := 0;
    if bits % 64 != 0 {
      extra := 1;
    }
    var chunks := bits / 64 + extra;
    b := new bv64[chunks](_ => 0);
    assert b[..] == seq(chunks, _ => 0 as bv64);
    MembersOfZeros(chunks);
  }

  method Clone(b: array<bv64>) returns (copy: array<bv64>)
    ensures fresh(copy) && copy[..] == b[..]
  {
    copy := new bv64[b.Length];
    var i := 0;
    while i < b.Length
      invariant 0 <= i <= b.Length && copy[..i] == b[..i]
    {
      copy[i] := b[i];
      i := i + 1;
    }
  }

  method Set(b: array<bv64>, pos: nat)
    requires pos / 64 < b.Length
    modifies b
    ensures Members(b[..]) == Members(old(b[..])) + {pos}
  {
    hide Members, Mask, Minor, Or, AndNot;
    MembersAfterSet(b[..], pos);
    ghost var before := b[..];
    b[pos / 64] := Or(b[pos / 64], Mask(Minor(pos)));
    assert b[..] == before[pos / 64 := Or(before[pos / 64], Mask(Minor(pos)))];
  }

  method Clear(b: array<bv64>, pos: nat)
    requires pos / 64 < b.Length
    modifies b
    ensures Members(b[..]) == Members(old(b[..])) - {pos}
  {
    hide Members, Mask, Minor, Or, AndNot;
    MembersAfterClear(b[..], pos);
    ghost var before := b[..];
    b[pos / 64] := AndNot(b[pos / 64], Mask(Minor(pos)));
    assert b[..] == before[pos / 64 := AndNot(before[pos / 64], Mask(Minor(pos)))];
  }

  method Get(b: array<bv64>, pos: nat) returns (has: bool)
    requires pos / 64 < b.Length
    ensures has <==> pos in Members(b[..])
  {
    HasIsMember(b[..], pos);
    has := And(b[pos / 64], Mask(Minor(pos))) != 0;
  }

  method Popcnt(b: array<bv64>) returns (total: nat)
    ensures total == |Members(b[..])| == PopCount(b[..])
  {
    total := 0;
    var i := 0;
    while i < b.Length
      invariant 0 <= i <= b.Length && total == PopCount(b[..i])
    {
      assert b[..i + 1][..i] == b[..i];
      total := total + OnesBelow(b[i], 64);
      i := i + 1;
    }
    assert b[..b.Length] == b[..];
    PopCountIsSize(b[..]);
  }

  /** The hash depends on the members only. */
  method Hash(b: array<bv64>) returns (hash: bv64)
    ensures hash == HashOf(b[..])
  {
    hide Members, PopCount, ToWord, Xor;
    var total := Popcnt(b);
    var count := ToWord(total);
    var xor: bv64 := 0;
    var i := 0;
    while i < b.Length
      invariant 0 <= i <= b.Length && xor == XorAll(b[..i])
    {
      assert b[..i + 1][..i] == b[..i];
      xor := Xor(xor, b[i]);
      i := i + 1;
    }
    assert b[..b.Length] == b[..];
    hash := Xor(count, xor);
  }

  method Equals(a: array<bv64>, b: array<bv64>) returns (same: bool)
    ensures same <==> a[..] == b[..]
    ensures a.Length == b.Length ==> (same <==> Members(a[..]) == Members(b[..]))
  {
    if a.Length == b.Length && Members(a[..]) == Members(b[..]) {
      SameMembersSameWords(a[..], b[..]);
    }
    if a.Length != b.Length {
      return false;
    }
    var i := 0;
    while i < a.Length
      invariant 0 <= i <= a.Length && a[..i] == b[..i]
    {
      if a[i] != b[i] {
        return false;
      }
      i := i + 1;
    }
    same := true;
  }
}
