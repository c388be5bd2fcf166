/**
 Base32 for the second-factor secrets (worker/src/auth/totp.ts), the encoding of section 6
 of RFC 4648 without padding characters. The code moves every byte or symbol through one
 32-bit accumulator that wraps and is never masked; the specification cuts one long string
 of bits into groups.
 */
module Base32 {

  import opened Wrappers
  import opened BitStrings

  const ALPHABET := "ABCDEFGHIJKLMNOPQRSTUVWXYZ234567"

  type Byte = x: int | 0 <= x < 256

  // ----- The coding as regrouping of bits -----

  function Symbol(d: int): char requires 0 <= d < 32 { ALPHABET[d] }

  /** `BASE32_ALPHABET.indexOf` */
  function IndexOf(c: char): (d: int)
    ensures -1 <= d < 32
    ensures d >= 0 ==> ALPHABET[d] == c
  {
    if 'A' <= c <= 'Z' then c as int - 'A' as int
    else if '2' <= c <= '7' then c as int - '2' as int + 26
    else -1
  }

  lemma IndexOfSymbol(d: int)
    requires 0 <= d < 32
    ensures IndexOf(Symbol(d)) == d
  {
  }

  ghost function Text(digits: seq<int>): (s: string)
    requires AllBelow(digits, 32)
  {
    seq(|digits|, i requires 0 <= i < |digits| => Symbol(digits[i]))
  }

  predicate Accepted(text: string) { text != "" && AllSymbols(text) }

  ghost function Indices(text: string): (d: seq<int>)
    ensures |d| == |text| && forall i :: 0 <= i < |d| ==> d[i] == IndexOf(text[i])
  {
    seq(|text|, i requires 0 <= i < |text| => IndexOf(text[i]))
  }

  /** Zero bits that fill `n` bits up to a multiple of five. */
  ghost function Zeros(n: nat): (z: seq<bool>)
    ensures |z| < 5 && (n + |z|) % 5 == 0 && forall i :: 0 <= i < |z| ==> !z[i]
  {
    seq((5 - n % 5) % 5, i => false)
  }

  ghost function TextBits(text: string): seq<bool> { Bits(Indices(text), 5) }

  predicate AllSymbols(text: string) { forall i :: 0 <= i < |text| ==> IndexOf(text[i]) >= 0 }

  /** The bytes' bits, filled with zeros, in groups of five. */
  ghost function Encoded(bytes: seq<Byte>): string {
    var bits := Bits(bytes, 8);
    SmallShifts(1);
    Text(Groups(bits + Zeros(|bits|), 5))
  }

  /** The text's bits in groups of eight, without the rest. */
  ghost function Decoded(text: string): Option<seq<Byte>> {
    if Accepted(text) then SmallShifts(1); var bytes: seq<Byte> := Groups(TextBits(text), 8); Some(bytes) else None
  }

  // ----- What is read as a text -----

  /** The characters `trim` removes. */
  predicate White(c: char) {
    || '\U{0009}' <= c <= '\U{000d}' || c == ' ' || c == '\U{00a0}' || c == '\U{1680}'
    || '\U{2000}' <= c <= '\U{200a}' || c == '\U{2028}' || c == '\U{2029}' || c == '\U{202f}' || c == '\U{205f}'
    || c == '\U{3000}' || c == '\U{feff}'
  }

  function TrimStart(s: string): string { if s != "" && White(s[0]) then TrimStart(s[1..]) else s }

  function TrimEnd(s: string): string {
    if s != "" && White(s[|s| - 1]) then TrimEnd(s[..|s| - 1]) else s
  }

  /**
   `toUpperCase` of one character, as far as it can lead into the alphabet. Every other
   character keeps, or becomes text with, a character outside it, and is refused either way.
   */
  function UpperOf(c: char): string {
    if 'a' <= c <= 'z' then [(c as int - 32) as char]
    else if c == '\U{00df}' then "SS"
    else if c == '\U{0131}' then "I"
    else if c == '\U{017f}' then "S"
    else if c == '\U{fb00}' then "FF"
    else if c == '\U{fb01}' then "FI"
    else if c == '\U{fb02}' then "FL"
    else if c == '\U{fb03}' then "FFI"
    else if c == '\U{fb04}' then "FFL"
    else if c == '\U{fb05}' || c == '\U{fb06}' then "ST"
    else [c]
  }

  function Upper(s: string): string { if s == "" then "" else UpperOf(s[0]) + Upper(s[1..]) }

  /** `replace(/=+$/g, '')` */
  function Unpadded(s: string): string {
    if s != "" && s[|s| - 1] == '=' then Unpadded(s[..|s| - 1]) else s
  }

  function Normalized(input: string): string { Unpadded(Upper(TrimEnd(TrimStart(input)))) }

  ghost predicate AllWhite(s: string) { forall i :: 0 <= i < |s| ==> White(s[i]) }

  /** The same symbols, each in either case. */
  ghost predicate Spells(s: string, text: string) {
    && |s| == |text|
    && forall i :: 0 <= i < |s| ==> (s[i] == text[i] || (s[i] as int == text[i] as int + 32 && 'A' <= text[i] <= 'Z'))
  }

  function Padding(n: nat): string { seq(n, i => '=') }

  lemma {:induction false} TrimStartDrops(before: string, s: string)
    requires AllWhite(before) && (s != "" ==> !White(s[0]))
    ensures TrimStart(before + s) == s
  {
    if before == "" {
      assert before + s == s;
    } else {
      TrimStartDrops(before[1..], s);
      assert (before + s)[1..] == before[1..] + s && (before + s)[0] == before[0];
    }
  }

  lemma {:induction false} TrimEndDrops(s: string, after: string)
    requires AllWhite(after) && (s != "" ==> !White(s[|s| - 1]))
    ensures TrimEnd(s + after) == s
  {
    if after == "" {
      assert s + after == s;
    } else {
      var n := |after| - 1;
      TrimEndDrops(s, after[..n]);
      assert (s + after)[..|s| + n] == s + after[..n] && (s + after)[|s| + n] == after[n];
    }
  }

  /** Only white space: nothing is left, from whichever end. */
  lemma {:induction false} AllTrimmed(s: string)
    requires AllWhite(s)
    ensures TrimStart(s) == ""
  {
    if s != "" { AllTrimmed(s[1..]); }
  }

  lemma UpperOfSymbol(c: char, spelled: char)
    requires IndexOf(c) >= 0 && (spelled == c || (spelled as int == c as int + 32 && 'A' <= c <= 'Z'))
    ensures UpperOf(spelled) == [c] && !White(spelled) && spelled != '=' && c != '='
  {
  }

  lemma UpperStep(c: char, s: string)
    ensures Upper([c] + s) == UpperOf(c) + Upper(s)
  {
    hide UpperOf;
    assert ([c] + s)[1..] == s;
  }

  lemma {:induction false} UpperOfPadding(pad: nat)
    ensures Upper(Padding(pad)) == Padding(pad)
  {
    if pad > 0 {
      assert Padding(pad) == ['='] + Padding(pad - 1);
      UpperStep('=', Padding(pad - 1));
      UpperOfPadding(pad - 1);
    }
  }

  lemma SpellsStep(s: string, text: string)
    requires AllSymbols(text) && Spells(s, text) && s != ""
    ensures AllSymbols(text[1..]) && Spells(s[1..], text[1..]) && UpperOf(s[0]) == [text[0]]
  {
    UpperOfSymbol(text[0], s[0]);
    hide UpperOf, IndexOf;
  }

  lemma Uncons(s: string, more: string)
    requires s != ""
    ensures s + more == [s[0]] + (s[1..] + more)
  {
  }

  lemma NothingSpelled(s: string, text: string, more: string)
    requires Spells(s, text) && s == ""
    ensures text == "" && s + more == more && text + Upper(more) == Upper(more)
  {
  }

  lemma {:induction false} UpperOfSpelled(s: string, text: string, more: string)
    requires AllSymbols(text) && Spells(s, text)
    ensures Upper(s + more) == text + Upper(more)
  {
    if s == "" {
      NothingSpelled(s, text, more);
    } else {
      assert text != "";
      hide *;
      SpellsStep(s, text);
      UpperOfSpelled(s[1..], text[1..], more);
      UpperStep(s[0], s[1..] + more);
      Uncons(s, more);
      Uncons(text, Upper(more));
    }
  }

  lemma {:induction false} PaddingDropped(text: string, pad: nat)
    requires AllSymbols(text)
    ensures Unpadded(text + Padding(pad)) == text
    decreases pad
  {
    if pad > 0 {
      PaddingDropped(text, pad - 1);
      assert (text + Padding(pad))[..|text| + pad - 1] == text + Padding(pad - 1);
    } else {
      assert text + Padding(0) == text;
      if text != "" { UpperOfSymbol(text[|text| - 1], text[|text| - 1]); }
    }
  }

  /** However a text is spelled, padded and surrounded by white space, it is read as itself. */
  lemma AnySpellingIsRead(text: string, s: string, pad: nat, before: string, after: string)
    requires AllSymbols(text) && Spells(s, text) && AllWhite(before) && AllWhite(after)
    ensures Normalized(before + (s + Padding(pad) + after)) == text
  {
    var core := s + Padding(pad);
    UpperOfSpelled(s, text, Padding(pad));
    UpperOfPadding(pad);
    PaddingDropped(text, pad);
    EndsAreNotWhite(text, s, pad);
    if core == "" {
      assert before + (core + after) == before + after;
      AllTrimmed(before + after);
      assert core + after == after;
      assert TrimEnd("") == "";
    } else {
      assert core + after != "" && (core + after)[0] == core[0];
      TrimStartDrops(before, core + after);
      TrimEndDrops(core, after);
    }
  }

  lemma EndsAreNotWhite(text: string, s: string, pad: nat)
    requires AllSymbols(text) && Spells(s, text)
    ensures var core := s + Padding(pad); core != "" ==> !White(core[0]) && !White(core[|core| - 1])
  {
    if s != "" {
      UpperOfSymbol(text[0], s[0]);
      UpperOfSymbol(text[|s| - 1], s[|s| - 1]);
    }
  }

  // ----- The loops -----

  method Base32Encode(bytes: seq<Byte>) returns (output: string)
    ensures output == Encoded(bytes)
  {
    hide *;
    var bits: nat, value: Word := 0, ToWord(0);
    output := "";
    NothingRead(bytes);
    for i := 0 to |bytes|
      invariant 0 <= bits < 5
      invariant Holds(output, value, Bits(bytes[..i], 8), bits)
    {
      ByteIn(output, value, bytes, i, bits);
      value := Or(ShiftLeft(value, 8), ToWord(bytes[i]));
      bits := bits + 8;
      while bits >= 5
        invariant 0 <= bits <= 12
        invariant Holds(output, value, Bits(bytes[..i + 1], 8), bits)
      {
        SymbolOut(output, value, Bits(bytes[..i + 1], 8), bits);
        output := output + [Symbol(FiveBits(value, bits - 5))];
        bits := bits - 5;
      }
    }
    assert bytes[..|bytes|] == bytes;
    if bits > 0 {
      LastSymbol(output, value, bytes, bits);
      output := output + [Symbol(LastBitsOf(value, 5 - bits))];
    } else {
      NoLastSymbol(output, value, bytes);
    }
  }

  /** The output and the accumulator's low bits together spell the bits read so far. */
  ghost predicate Holds(output: string, value: Word, read: seq<bool>, bits: nat)
    requires bits <= 32
  {
    AllSymbols(output) && TextBits(output) + value[32 - bits..] == read
  }

  lemma NothingRead(bytes: seq<Byte>)
    ensures Holds("", ToWord(0), Bits(bytes[..0], 8), 0)
  {
  }

  lemma ByteIn(output: string, value: Word, bytes: seq<Byte>, i: nat, bits: nat)
    requires bits < 5 && i < |bytes| && Holds(output, value, Bits(bytes[..i], 8), bits)
    ensures Holds(output, Or(ShiftLeft(value, 8), ToWord(bytes[i])), Bits(bytes[..i + 1], 8), bits + 8)
  {
    hide Bits, BitsOf, Or, ShiftLeft, ToWord, Shl, AllSymbols, TextBits;
    SmallShifts(1);
    ShiftedIn(value, 8, bytes[i], bits);
    assert bytes[..i + 1] == bytes[..i] + [bytes[i]];
    BitsAppend(bytes[..i], bytes[i], 8);
  }

  /** Appending one symbol appends its five bits. */
  lemma SymbolAppend(output: string, d: int)
    requires 0 <= d < 32 && AllSymbols(output)
    ensures var next := output + [Symbol(d)];
      AllSymbols(next) && TextBits(next) == TextBits(output) + BitsOf(d, 5)
  {
    SmallShifts(1);
    IndexOfSymbol(d);
    assert Indices(output + [Symbol(d)]) == Indices(output) + [d];
    BitsAppend(Indices(output), d, 5);
  }

  lemma SymbolOut(output: string, value: Word, read: seq<bool>, bits: nat)
    requires 5 <= bits <= 12 && Holds(output, value, read, bits)
    ensures Holds(output + [Symbol(FiveBits(value, bits - 5))], value, read, bits - 5)
  {
    hide Bits, BitsOf, FiveBits, IndexOf, Symbol, AllSymbols, TextBits;
    SymbolAppend(output, FiveBits(value, bits - 5));
    assert value[32 - bits..] == value[32 - bits..37 - bits] + value[37 - bits..];
  }

  lemma TextOfIndices(text: string)
    requires AllSymbols(text)
    ensures AllBelow(Indices(text), 32) && Text(Indices(text)) == text
  {
    assert forall i :: 0 <= i < |text| ==> ALPHABET[IndexOf(text[i])] == text[i];
    hide IndexOf;
  }

  lemma TextOfTextBits(text: string, rest: seq<bool>)
    requires |rest| < 5 && AllSymbols(text)
    ensures AllBelow(Groups(TextBits(text) + rest, 5), 32) && Text(Groups(TextBits(text) + rest, 5)) == text
  {
    SmallShifts(1);
    TextOfIndices(text);
    hide Groups, Bits, Shl, Text, AllSymbols, Indices;
    GroupsOfBits(Indices(text), 5, rest);
  }

  lemma NoLastSymbol(output: string, value: Word, bytes: seq<Byte>)
    requires Holds(output, value, Bits(bytes, 8), 0)
    ensures output == Encoded(bytes)
  {
    hide Bits, Groups, Shl, AllSymbols;
    var read := Bits(bytes, 8);
    BitsLength(Indices(output));
    assert read + Zeros(|read|) == TextBits(output) + [];
    TextOfTextBits(output, []);
  }

  lemma LastSymbol(output: string, value: Word, bytes: seq<Byte>, bits: nat)
    requires 0 < bits < 5 && Holds(output, value, Bits(bytes, 8), bits)
    ensures output + [Symbol(LastBitsOf(value, 5 - bits))] == Encoded(bytes)
  {
    hide Bits, BitsOf, Groups, Shl, LastBitsOf, AllSymbols, Text, Symbol;
    var last, read := LastBitsOf(value, 5 - bits), Bits(bytes, 8);
    BitsLength(Indices(output));
    assert |read| == 5 * |output| + bits;
    FillOf(|read|, 5 - bits);
    assert Zeros(|read|) == Falses(5 - bits);
    SymbolAppend(output, last);
    hide TextBits, Zeros;
    assert read + Zeros(|read|) == TextBits(output + [Symbol(last)]) + [];
    TextOfTextBits(output + [Symbol(last)], []);
  }

  method Base32Decode(input: string) returns (output: Option<seq<Byte>>)
    ensures output == Decoded(Normalized(input))
  {
    hide Bits, BitsOf, Groups, Or, ShiftLeft, ToWord, EightBits, TextBits, IndexOf, Normalized;
    var text := Normalized(input);
    if text == "" { return None; }
    var bits: nat, value: Word, out: seq<Byte> := 0, ToWord(0), [];
    NoSymbolRead(text);
    for i := 0 to |text|
      invariant 0 <= bits < 8
      invariant AllSymbols(text[..i])
      invariant Bits(out, 8) + value[32 - bits..] == TextBits(text[..i])
    {
      var index := IndexOf(text[i]);
      if index < 0 { return None; }
      SymbolIn(text, i, value, bits);
      value := Or(ShiftLeft(value, 5), ToWord(index));
      bits := bits + 5;
      if bits >= 8 {
        ByteOut(out, value, bits);
        out := out + [EightBits(value, bits - 8)];
        bits := bits - 8;
      }
    }
    assert text[..|text|] == text;
    SmallShifts(1);
    GroupsOfBits(out, 8, value[32 - bits..]);
    output := Some(out);
  }

  lemma NoSymbolRead(text: string)
    ensures Bits([], 8) + ToWord(0)[32..] == TextBits(text[..0])
  {
  }

  lemma SymbolIn(text: string, i: nat, value: Word, bits: nat)
    requires bits < 8 && i < |text| && AllSymbols(text[..i]) && IndexOf(text[i]) >= 0
    ensures TextBits(text[..i + 1]) == TextBits(text[..i]) + BitsOf(IndexOf(text[i]), 5)
    ensures var r := Or(ShiftLeft(value, 5), ToWord(IndexOf(text[i])));
      r[32 - (bits + 5)..] == value[32 - bits..] + BitsOf(IndexOf(text[i]), 5)
  {
    hide Bits, BitsOf, Shl, Or, ShiftLeft, ToWord;
    SmallShifts(1);
    assert text[..i + 1] == text[..i] + [Symbol(IndexOf(text[i]))];
    SymbolAppend(text[..i], IndexOf(text[i]));
    ShiftedIn(value, 5, IndexOf(text[i]), bits);
  }

  lemma ByteOut(out: seq<Byte>, value: Word, bits: nat)
    requires 8 <= bits <= 12
    ensures Bits(out + [EightBits(value, bits - 8)], 8) + value[40 - bits..] == Bits(out, 8) + value[32 - bits..]
  {
    hide Bits, BitsOf, EightBits;
    BitsAppend(out, EightBits(value, bits - 8), 8);
    assert value[32 - bits..] == value[32 - bits..40 - bits] + value[40 - bits..];
  }

  // ----- The round trips -----

  lemma IndicesOfText(digits: seq<int>)
    requires AllBelow(digits, 32)
    ensures Indices(Text(digits)) == digits
  {
    forall i | 0 <= i < |digits| ensures IndexOf(Text(digits)[i]) == digits[i] { IndexOfSymbol(digits[i]); }
  }

  /** Cutting a multiple of five bits into groups loses none. */
  lemma FivesLoseNothing(bits: seq<bool>)
    requires |bits| % 5 == 0
    ensures Bits(Groups(bits, 5), 5) == bits
  {
    hide Bits, Groups;
    BitsOfGroups(bits, 5);
    BitsLength(Groups(bits, 5));
  }

  /** The bits of an encoding: those of the bytes and fewer than five zeros. */
  lemma EncodedBits(bytes: seq<Byte>)
    ensures AllSymbols(Encoded(bytes))
    ensures TextBits(Encoded(bytes)) == Bits(bytes, 8) + Zeros(|Bits(bytes, 8)|)
  {
    hide Bits, Groups, Shl, Text, Indices, Zeros;
    SmallShifts(1);
    var bits := Bits(bytes, 8) + Zeros(|Bits(bytes, 8)|);
    IndicesOfText(Groups(bits, 5));
    FivesLoseNothing(bits);
    assert AllSymbols(Encoded(bytes)) by { assert AllBelow(Indices(Encoded(bytes)), 32); }
  }

  /** Decoding an encoding returns the bytes; the encoding of no bytes is the empty text, which decoding refuses. */
  lemma DecodeUndoesEncode(bytes: seq<Byte>)
    ensures Decoded(Encoded(bytes)) == if bytes == [] then None else Some(bytes)
  {
    hide Bits, Groups, Shl, Zeros, Encoded;
    SmallShifts(1);
    EncodedBits(bytes);
    BitsLength(bytes);
    BitsLength(Indices(Encoded(bytes)));
    if bytes != [] {
      assert Encoded(bytes) != "";
      GroupsOfBits(bytes, 8, Zeros(|Bits(bytes, 8)|));
    }
  }

  /** So does decoding it in any case, with any padding and white space around it. */
  lemma DecodeUndoesSpelling(bytes: seq<Byte>, s: string, pad: nat, before: string, after: string)
    requires bytes != [] && Spells(s, Encoded(bytes)) && AllWhite(before) && AllWhite(after)
    ensures Decoded(Normalized(before + (s + Padding(pad) + after))) == Some(bytes)
  {
    hide Encoded, Decoded, Normalized, Spells, AllWhite;
    EncodedBits(bytes);
    AnySpellingIsRead(Encoded(bytes), s, pad, before, after);
    DecodeUndoesEncode(bytes);
  }

  /** The bits of the last symbol that belong to no byte. */
  function Leftover(n: nat): nat { 5 * n % 8 }

  /** Possible as the length of an encoding, with zeros in the bits of the last symbol that belong to no byte. */
  ghost predicate Canonical(text: string)
    requires Accepted(text)
  {
    && |text| % 8 != 1 && |text| % 8 != 3 && |text| % 8 != 6
    && BitsOf(IndexOf(text[|text| - 1]), Leftover(|text|)) == Falses(Leftover(|text|))
  }

  lemma RestOfBytes(total: nat, bytes: nat)
    requires 8 * bytes <= total < 8 * bytes + 8
    ensures total - 8 * bytes == total % 8
  {
  }

  /** The bits of the decoded bytes: those of the text but for a rest shorter than a byte. */
  lemma DecodedBits(text: string)
    requires Accepted(text)
    ensures var bits := TextBits(text); var n := |bits| - Leftover(|text|);
      |bits| == 5 * |text| && 0 <= n && Bits(Decoded(text).value, 8) == bits[..n]
  {
    var bits := TextBits(text);
    assert Decoded(text).value == Groups(bits, 8);
    BitsLength(Indices(text));
    assert |bits| == 5 * |text|;
    hide *;
    BitsOfGroups(bits, 8);
    BitsLength(Groups(bits, 8));
    RestOfBytes(|bits|, |Groups(bits, 8)|);
    LeftoverIs(|text|);
  }

  lemma LeftoverIs(n: nat)
    ensures Leftover(n) == 5 * n % 8
  {
  }

  /** Texts that spell the same bits are the same. */
  lemma BitsDetermineText(a: string, b: string)
    requires AllSymbols(a) && AllSymbols(b) && TextBits(a) == TextBits(b)
    ensures a == b
  {
    hide Bits, Groups, TextBits;
    TextOfTextBits(a, []);
    TextOfTextBits(b, []);
    assert TextBits(a) + [] == TextBits(b) + [];
  }

  /** The end of a text's bits is the end of its last symbol's bits. */
  lemma LastBits(text: string, left: nat, n: nat)
    requires Accepted(text) && left <= 5 && n + left == 5 * |text|
    ensures |TextBits(text)| == n + left && TextBits(text)[n..] == BitsOf(IndexOf(text[|text| - 1]), left)
  {
    hide IndexOf, Bits, BitsOf, Shr;
    BitsLength(Indices(text));
    var d, before := IndexOf(text[|text| - 1]), Indices(text[..|text| - 1]);
    assert Indices(text) == before + [d];
    BitsAppend(before, d, 5);
    SplitBits(d, 5 - left, left);
    assert n == |Bits(before, 5)| + (5 - left);
  }

  /** Exactly the lengths 1, 3 and 6 modulo 8 leave five bits or more. */
  lemma LeftoverFits(n: nat)
    requires n > 0
    ensures 5 * n - Leftover(n) >= 0
    ensures Leftover(n) < 5 <==> n % 8 != 1 && n % 8 != 3 && n % 8 != 6
  {
    var q, r := n / 8, n % 8;
    assert n == 8 * q + r;
    RestOfBytes(5 * n, 5 * q + 5 * r / 8);
    assert Leftover(n) == 5 * r - 8 * (5 * r / 8);
  }

  lemma FillOf(n: nat, left: nat)
    requires left < 8 && (n + left) % 5 == 0
    ensures left < 5 <==> |Zeros(n)| == left
  {
  }

  lemma FillMatches(m: nat)
    requires m > 0 && Leftover(m) < 5
    ensures 5 * m - Leftover(m) >= 0 && |Zeros(5 * m - Leftover(m))| == Leftover(m)
  {
    hide Zeros;
    FillOf(5 * m - Leftover(m), Leftover(m));
  }

  /** Refilling with zeros gives the same bits exactly when the rest was zeros. */
  lemma SameEnding(bits: seq<bool>, n: nat, left: nat)
    requires n + left == |bits| && |Zeros(n)| == left
    ensures bits[..n] + Zeros(n) == bits <==> bits[n..] == Falses(left)
  {
    assert Zeros(n) == Falses(left);
    assert bits == bits[..n] + bits[n..];
    if bits[..n] + Zeros(n) == bits { assert bits[n..] == (bits[..n] + Zeros(n))[n..]; }
  }

  /**
   An accepted text encodes back to itself exactly when it is canonical. A length of 1, 3 or
   6 modulo 8 has a whole symbol that belongs to no byte.
   */
  lemma EncodeUndoesDecode(text: string)
    requires Accepted(text)
    ensures Encoded(Decoded(text).value) == text <==> Canonical(text)
  {
    LeftoverFits(|text|);
    if Leftover(|text|) < 5 { SameWhenFull(text); } else { NotSameWhenOverfull(text); }
  }

  lemma AcceptedFacts(text: string)
    requires Accepted(text)
    ensures Decoded(text).Some? && AllSymbols(text) && |text| > 0
  {
  }

  lemma DecodedIsAccepted(text: string)
    requires Decoded(text).Some?
    ensures Accepted(text)
  {
  }

  /** Encoding what was decoded spells the whole bytes' bits and a fill. */
  lemma ReencodedBits(text: string, bytes: seq<Byte>, n: nat)
    requires Decoded(text) == Some(bytes) && n + Leftover(|text|) == 5 * |text|
    ensures |TextBits(text)| == 5 * |text| && AllSymbols(Encoded(bytes))
    ensures TextBits(Encoded(bytes)) == TextBits(text)[..n] + Zeros(n)
  {
    hide *;
    DecodedIsAccepted(text);
    DecodedBits(text);
    EncodedBits(bytes);
    assert |TextBits(text)[..n]| == n;
  }

  lemma SameBitsSameText(a: string, b: string)
    requires AllSymbols(a) && AllSymbols(b)
    ensures a == b <==> TextBits(a) == TextBits(b)
  {
    hide *;
    if TextBits(a) == TextBits(b) { BitsDetermineText(a, b); }
  }

  lemma SameWhenFull(text: string)
    requires Accepted(text) && Leftover(|text|) < 5
    ensures Encoded(Decoded(text).value) == text <==>
            BitsOf(IndexOf(text[|text| - 1]), Leftover(|text|)) == Falses(Leftover(|text|))
  {
    hide *;
    AcceptedFacts(text);
    var left, bytes := Leftover(|text|), Decoded(text).value;
    FillMatches(|text|);
    var n := 5 * |text| - left;
    ReencodedBits(text, bytes, n);
    SameBitsSameText(Encoded(bytes), text);
    LastBits(text, left, n);
    SameEnding(TextBits(text), n, left);
  }

  lemma NotSameWhenOverfull(text: string)
    requires Accepted(text) && Leftover(|text|) >= 5
    ensures Encoded(Decoded(text).value) != text
  {
    hide *;
    AcceptedFacts(text);
    var left, bytes := Leftover(|text|), Decoded(text).value;
    LeftoverFits(|text|);
    var n := 5 * |text| - left;
    ReencodedBits(text, bytes, n);
    assert |TextBits(text)[..n] + Zeros(n)| < n + 5;
  }
}
