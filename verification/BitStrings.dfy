/**
 Numbers as strings of bits, 32-bit words with the shift, or and mask operators of JavaScript,
 and the cutting of long strings of bits into groups. Used by Base32.
 */
module BitStrings {

  function Shl(value: nat, k: nat): nat { if k == 0 then value else 2 * Shl(value, k - 1) }

  function Shr(value: nat, k: nat): nat { if k == 0 then value else Shr(value / 2, k - 1) }

  // ----- Numbers as strings of bits -----

  /** The `n` lowest bits of `x`, highest first. */
  function BitsOf(x: int, n: nat): (b: seq<bool>)
    ensures |b| == n
    decreases n
  {
    if n == 0 then [] else BitsOf(x / 2, n - 1) + [x % 2 == 1]
  }

  function Number(bits: seq<bool>): nat {
    if bits == [] then 0 else 2 * Number(bits[..|bits| - 1]) + (if bits[|bits| - 1] then 1 else 0)
  }

  lemma {:induction false} BitsOfNumber(bits: seq<bool>)
    ensures BitsOf(Number(bits), |bits|) == bits && Number(bits) < Shl(1, |bits|)
  {
    if bits != [] { BitsOfNumber(bits[..|bits| - 1]); }
  }

  lemma {:induction false} NumberOfBits(x: nat, n: nat)
    requires x < Shl(1, n)
    ensures Number(BitsOf(x, n)) == x
  {
    if n > 0 {
      NumberOfBits(x / 2, n - 1);
      assert BitsOf(x, n)[..n - 1] == BitsOf(x / 2, n - 1);
    }
  }

  lemma BitsStep(x: int, n: nat)
    requires n > 0
    ensures BitsOf(x, n) == BitsOf(x / 2, n - 1) + [x % 2 == 1]
  {
  }

  lemma ShrStep(x: nat, k: nat)
    ensures Shr(x, 0) == x && (k > 0 ==> Shr(x, k) == Shr(x / 2, k - 1)) && BitsOf(x, 0) == []
  {
  }

  lemma AppendLast(a: seq<bool>, b: seq<bool>, last: bool)
    ensures (a + b) + [last] == a + (b + [last]) && a + [] == a
  {
  }

  lemma {:induction false} SplitBits(value: nat, a: nat, b: nat)
    ensures BitsOf(value, a + b) == BitsOf(Shr(value, b), a) + BitsOf(value, b)
    decreases b
  {
    hide BitsOf, Shr;
    ShrStep(value, b);
    if b == 0 {
      AppendLast(BitsOf(value, a), [], false);
    } else {
      SplitBits(value / 2, a, b - 1);
      BitsStep(value, a + b);
      BitsStep(value, b);
      AppendLast(BitsOf(Shr(value, b), a), BitsOf(value / 2, b - 1), value % 2 == 1);
    }
  }

  lemma SmallShifts(q: nat)
    ensures Shl(q, 5) == 32 * q && Shl(q, 8) == 256 * q
  {
    assert Shl(q, 2) == 4 * q by { assert Shl(q, 1) == 2 * q; }
    assert Shl(q, 4) == 16 * q by { assert Shl(q, 3) == 8 * q; }
    assert Shl(q, 6) == 64 * q by { assert Shl(q, 5) == 32 * q; }
    assert Shl(q, 7) == 128 * q;
  }

  lemma {:induction false} NoBitsAbove(x: nat, k: nat, n: nat)
    requires x < Shl(1, k)
    ensures Shr(x, k) == 0 && BitsOf(0, n) == Falses(n)
    decreases k + n
  {
    if k > 0 {
      NoBitsAbove(x / 2, k - 1, n);
    } else if n > 0 {
      NoBitsAbove(0, 0, n - 1);
    }
  }

  // ----- 32-bit words and their operators -----

  function Falses(n: nat): seq<bool> { seq(n, i => false) }

  /** The bit pattern of a 32-bit integer, highest bit first. */
  type Word = w: seq<bool> | |w| == 32 witness Falses(32)

  /** `w << k`: the high bits are lost. */
  function ShiftLeft(w: Word, k: nat): Word
    requires k <= 32
  {
    w[k..] + Falses(k)
  }

  /** `w >>> k` */
  function ShiftRight(w: Word, k: nat): Word
    requires k <= 32
  {
    Falses(k) + w[..32 - k]
  }

  function Or(a: Word, b: Word): Word { seq(32, i requires 0 <= i < 32 => a[i] || b[i]) }

  function And(a: Word, b: Word): Word { seq(32, i requires 0 <= i < 32 => a[i] && b[i]) }

  /** A number as a word, modulo 2^32. */
  function ToWord(x: nat): Word { BitsOf(x, 32) }

  lemma WordOf(x: nat, k: nat)
    requires k <= 32 && x < Shl(1, k)
    ensures ToWord(x) == Falses(32 - k) + BitsOf(x, k)
  {
    SplitBits(x, 32 - k, k);
    NoBitsAbove(x, k, 32 - k);
  }

  lemma OrJoins(a: seq<bool>, b: seq<bool>)
    requires |a| + |b| == 32
    ensures Or(a + Falses(|b|), Falses(|a|) + b) == a + b
  {
  }

  lemma ShiftedWord(w: Word, k: nat, x: nat)
    requires k <= 32 && x < Shl(1, k)
    ensures Or(ShiftLeft(w, k), ToWord(x)) == w[k..] + BitsOf(x, k)
  {
    hide BitsOf, ToWord, Or, Falses, Shl;
    WordOf(x, k);
    OrJoins(w[k..], BitsOf(x, k));
  }

  /** Shifting left and or-ing in the freed bits appends them. */
  lemma ShiftedIn(w: Word, k: nat, x: nat, n: nat)
    requires n + k <= 32 && x < Shl(1, k)
    ensures var r := Or(ShiftLeft(w, k), ToWord(x)); r[32 - (n + k)..] == w[32 - n..] + BitsOf(x, k)
  {
    hide *;
    ShiftedWord(w, k, x);
    TailOf(w, k, 32 - (n + k), BitsOf(x, k));
  }

  lemma TailOf(w: seq<bool>, k: nat, m: nat, b: seq<bool>)
    requires k + m <= |w|
    ensures (w[k..] + b)[m..] == w[k + m..] + b
  {
  }

  lemma {:induction false} NumberOfFalses(n: nat, bits: seq<bool>)
    ensures Number(Falses(n) + bits) == Number(bits)
    decreases |bits|, n
  {
    if bits != [] {
      var m := |bits| - 1;
      NumberOfFalses(n, bits[..m]);
      assert (Falses(n) + bits)[..n + m] == Falses(n) + bits[..m];
    } else if n > 0 {
      NumberOfFalses(n - 1, []);
      assert (Falses(n) + [])[..n - 1] == Falses(n - 1) + [];
    }
  }

  /** A word with its `k` lowest bits set, for the two masks that occur. */
  lemma MaskWords()
    ensures ToWord(31) == Falses(27) + seq(5, i => true)
    ensures ToWord(0xff) == Falses(24) + seq(8, i => true)
  {
    SmallShifts(1);
    WordOf(31, 5);
    WordOf(0xff, 8);
    Ones();
  }

  lemma Ones()
    ensures BitsOf(31, 5) == seq(5, i => true) && BitsOf(0xff, 8) == seq(8, i => true)
  {
    assert BitsOf(1, 1) == [true];
    assert BitsOf(3, 2) == [true, true];
    assert BitsOf(7, 3) == [true, true, true];
    assert BitsOf(15, 4) == [true, true, true, true];
    assert BitsOf(31, 5) == [true, true, true, true, true];
    assert BitsOf(63, 6) == [true, true, true, true, true, true];
    assert BitsOf(127, 7) == [true, true, true, true, true, true, true];
    assert BitsOf(0xff, 8) == [true, true, true, true, true, true, true, true];
  }

  /** Masking leaves the number that the low bits spell. */
  lemma MaskedIs(w: Word, k: nat, mask: nat)
    requires k <= 32 && ToWord(mask) == Falses(32 - k) + seq(k, i => true)
    ensures Number(And(w, ToWord(mask))) == Number(w[32 - k..])
    ensures BitsOf(Number(w[32 - k..]), k) == w[32 - k..] && Number(w[32 - k..]) < Shl(1, k)
  {
    hide ToWord, BitsOf, Number;
    assert And(w, ToWord(mask)) == Falses(32 - k) + w[32 - k..];
    NumberOfFalses(32 - k, w[32 - k..]);
    BitsOfNumber(w[32 - k..]);
  }

  lemma FiveBitsAre(w: Word, k: nat)
    requires k <= 27
    ensures var d := Number(And(ShiftRight(w, k), ToWord(31))); d < 32 && BitsOf(d, 5) == w[27 - k..32 - k]
  {
    hide BitsOf, ToWord, And, Number, Shl;
    MaskWords();
    SmallShifts(1);
    MaskedIs(ShiftRight(w, k), 5, 31);
    assert ShiftRight(w, k)[27..] == w[27 - k..32 - k];
  }

  lemma EightBitsAre(w: Word, k: nat)
    requires k <= 24
    ensures var d := Number(And(ShiftRight(w, k), ToWord(0xff))); d < 256 && BitsOf(d, 8) == w[24 - k..32 - k]
  {
    hide BitsOf, ToWord, And, Number, Shl;
    MaskWords();
    SmallShifts(1);
    MaskedIs(ShiftRight(w, k), 8, 0xff);
    assert ShiftRight(w, k)[24..] == w[24 - k..32 - k];
  }

  lemma LastBitsAre(w: Word, k: nat)
    requires k <= 5
    ensures var d := Number(And(ShiftLeft(w, k), ToWord(31))); d < 32 && BitsOf(d, 5) == w[27 + k..] + Falses(k)
  {
    hide BitsOf, ToWord, And, Number, Shl;
    MaskWords();
    SmallShifts(1);
    MaskedIs(ShiftLeft(w, k), 5, 31);
    assert ShiftLeft(w, k)[27..] == w[27 + k..] + Falses(k);
  }

  /** `(w >>> k) & 31`, the five bits above the `k` lowest. */
  function FiveBits(w: Word, k: nat): (d: nat)
    requires k <= 27
    ensures d < 32 && BitsOf(d, 5) == w[27 - k..32 - k]
  {
    FiveBitsAre(w, k);
    Number(And(ShiftRight(w, k), ToWord(31)))
  }

  /** `(w >>> k) & 0xff`, the eight bits above the `k` lowest. */
  function EightBits(w: Word, k: nat): (d: nat)
    requires k <= 24
    ensures d < 256 && BitsOf(d, 8) == w[24 - k..32 - k]
  {
    EightBitsAre(w, k);
    Number(And(ShiftRight(w, k), ToWord(0xff)))
  }

  /** `(w << k) & 31`, the lowest bits with `k` zeros after them. */
  function LastBitsOf(w: Word, k: nat): (d: nat)
    requires k <= 5
    ensures d < 32 && BitsOf(d, 5) == w[27 + k..] + Falses(k)
  {
    LastBitsAre(w, k);
    Number(And(ShiftLeft(w, k), ToWord(31)))
  }

  // ----- Strings of bits in groups -----

  ghost predicate AllBelow(xs: seq<int>, bound: int) {
    forall i :: 0 <= i < |xs| ==> 0 <= xs[i] < bound
  }

  /** Every element written with `w` bits. */
  ghost function Bits(xs: seq<int>, w: nat): seq<bool> {
    if xs == [] then [] else BitsOf(xs[0], w) + Bits(xs[1..], w)
  }

  /** Whole groups of `w` bits, read as numbers; a shorter rest is dropped. */
  ghost function Groups(bits: seq<bool>, w: nat): (xs: seq<int>)
    requires w > 0
    ensures AllBelow(xs, Shl(1, w))
    decreases |bits|
  {
    if |bits| < w then []
    else
      BitsOfNumber(bits[..w]);
      [Number(bits[..w])] + Groups(bits[w..], w)
  }

  lemma {:induction false} BitsAppend(xs: seq<int>, x: int, w: nat)
    ensures Bits(xs + [x], w) == Bits(xs, w) + BitsOf(x, w)
  {
    if xs == [] {
      assert Bits([], w) == [];
    } else {
      BitsAppend(xs[1..], x, w);
      assert (xs + [x])[1..] == xs[1..] + [x];
    }
  }

  lemma GroupsStep(bits: seq<bool>, more: seq<bool>, w: nat)
    requires |bits| == w > 0
    ensures Groups(bits + more, w) == [Number(bits)] + Groups(more, w)
  {
    assert (bits + more)[..w] == bits && (bits + more)[w..] == more;
  }

  lemma BitsCons(xs: seq<int>, w: nat, rest: seq<bool>)
    requires xs != []
    ensures Bits(xs, w) + rest == BitsOf(xs[0], w) + (Bits(xs[1..], w) + rest)
  {
    BitsFirst(xs, w);
    hide *;
    Associate(BitsOf(xs[0], w), Bits(xs[1..], w), rest);
  }

  lemma BitsFirst(xs: seq<int>, w: nat)
    requires xs != []
    ensures Bits(xs, w) == BitsOf(xs[0], w) + Bits(xs[1..], w)
  {
    hide BitsOf;
  }

  lemma Associate(a: seq<bool>, b: seq<bool>, c: seq<bool>)
    ensures (a + b) + c == a + (b + c)
  {
  }

  lemma NoGroups(w: nat, rest: seq<bool>)
    requires |rest| < w
    ensures Groups(Bits([], w) + rest, w) == []
  {
    assert Bits([], w) + rest == rest;
  }

  lemma AllBelowTail(xs: seq<int>, bound: int)
    requires AllBelow(xs, bound) && xs != []
    ensures AllBelow(xs[1..], bound) && 0 <= xs[0] < bound && xs == [xs[0]] + xs[1..]
  {
  }

  lemma {:induction false} GroupsOfBits(xs: seq<int>, w: nat, rest: seq<bool>)
    requires AllBelow(xs, Shl(1, w)) && |rest| < w
    ensures Groups(Bits(xs, w) + rest, w) == xs
  {
    hide *;
    if xs == [] {
      NoGroups(w, rest);
    } else {
      AllBelowTail(xs, Shl(1, w));
      GroupsOfBits(xs[1..], w, rest);
      NumberOfBits(xs[0], w);
      GroupsStep(BitsOf(xs[0], w), Bits(xs[1..], w) + rest, w);
      BitsCons(xs, w, rest);
    }
  }

  lemma {:induction false} BitsOfGroups(bits: seq<bool>, w: nat)
    requires w > 0
    ensures var whole := Bits(Groups(bits, w), w); |whole| <= |bits| < |whole| + w && whole == bits[..|whole|]
    decreases |bits|
  {
    if |bits| >= w {
      BitsOfGroups(bits[w..], w);
      BitsOfNumber(bits[..w]);
      var xs := Groups(bits, w);
      assert xs[1..] == Groups(bits[w..], w);
    }
  }

  lemma {:induction false} BitsLength(xs: seq<int>)
    ensures |Bits(xs, 5)| == 5 * |xs| && |Bits(xs, 8)| == 8 * |xs|
  {
    if xs != [] { BitsLength(xs[1..]); }
  }
}
