/**
 Unpadded standard base64 with strict trailing bits, as sections 3.2, 3.5 and 4 of RFC 4648 describe
 and Go's `RawStdEncoding` and its `Strict` form implement: bytes to six-bit groups, groups to symbols.
*/
module Base64 {
  import opened Wrappers

  type Byte = n: int | 0 <= n < 256

  type Bytes = seq<Byte>

  type Sextet = n: int | 0 <= n < 64

  // Bytes and six-bit groups: three bytes to four groups, a shorter tail padded with zero bits.

  function Group0(b0: Byte): Sextet { b0 / 4 }

  function Group1(b0: Byte, b1: Byte): Sextet { b0 % 4 * 16 + b1 / 16 }

  function Group2(b1: Byte, b2: Byte): Sextet { b1 % 16 * 4 + b2 / 64 }

  function Group3(b2: Byte): Sextet { b2 % 64 }

  function Byte0(v0: Sextet, v1: Sextet): Byte { v0 * 4 + v1 / 16 }

  function Byte1(v1: Sextet, v2: Sextet): Byte { v1 % 16 * 16 + v2 / 4 }

  function Byte2(v2: Sextet, v3: Sextet): Byte { v2 % 4 * 64 + v3 }

  lemma GroupsHoldTheBytes(b0: Byte, b1: Byte, b2: Byte)
    ensures Byte0(Group0(b0), Group1(b0, b1)) == b0
    ensures Byte1(Group1(b0, b1), Group2(b1, b2)) == b1
    ensures Byte2(Group2(b1, b2), Group3(b2)) == b2
  {
  }

  lemma BytesHoldTheGroups(v0: Sextet, v1: Sextet, v2: Sextet, v3: Sextet)
    ensures Group0(Byte0(v0, v1)) == v0
    ensures Group1(Byte0(v0, v1), Byte1(v1, v2)) == v1
    ensures Group2(Byte1(v1, v2), Byte2(v2, v3)) == v2
    ensures Group3(Byte2(v2, v3)) == v3
  {
  }

  /** A short tail: what its last group must look like. */
  lemma Padding(v: Sextet)
    ensures v % 16 == 0 <==> Byte1(v, 0) == 0
    ensures v % 4 == 0 <==> Byte2(v, 0) == 0
  {
  }

  function Regroup(b: Bytes): seq<Sextet> {
    if |b| == 0 then []
    else if |b| == 1 then [Group0(b[0]), Group1(b[0], 0)]
    else if |b| == 2 then [Group0(b[0]), Group1(b[0], b[1]), Group2(b[1], 0)]
    else [Group0(b[0]), Group1(b[0], b[1]), Group2(b[1], b[2]), Group3(b[2])] + Regroup(b[3..])
  }

  /** A lone group carries less than a byte; the padding bits must be zero. */
  function Ungroup(v: seq<Sextet>): Option<Bytes> {
    if |v| == 0 then Some([])
    else if |v| == 1 then None
    else if |v| == 2 then
      if v[1] % 16 == 0 then Some([Byte0(v[0], v[1])]) else None
    else if |v| == 3 then
      if v[2] % 4 == 0 then Some([Byte0(v[0], v[1]), Byte1(v[1], v[2])]) else None
    else
      match Ungroup(v[4..])
      case None => None
      case Some(rest) => Some([Byte0(v[0], v[1]), Byte1(v[1], v[2]), Byte2(v[2], v[3])] + rest)
  }

  lemma UngroupFour(v0: Sextet, v1: Sextet, v2: Sextet, v3: Sextet, rest: seq<Sextet>)
    ensures
      Ungroup([v0, v1, v2, v3] + rest) ==
        match Ungroup(rest)
        case None => None
        case Some(b) => Some([Byte0(v0, v1), Byte1(v1, v2), Byte2(v2, v3)] + b)
  {
    assert ([v0, v1, v2, v3] + rest)[4..] == rest;
  }

  lemma RegroupThree(b0: Byte, b1: Byte, b2: Byte, rest: Bytes)
    ensures Regroup([b0, b1, b2] + rest) == [Group0(b0), Group1(b0, b1), Group2(b1, b2), Group3(b2)] + Regroup(rest)
  {
    assert ([b0, b1, b2] + rest)[3..] == rest;
  }

  lemma UngroupTwo(v0: Sextet, v1: Sextet)
    ensures Ungroup([v0, v1]) == if v1 % 16 == 0 then Some([Byte0(v0, v1)]) else None
  {
  }

  lemma OneByte(b0: Byte)
    ensures Ungroup(Regroup([b0])) == Some([b0])
  {
    var v0, v1 := Group0(b0), Group1(b0, 0);
    assert v1 % 16 == 0 && Byte0(v0, v1) == b0;
    assert Regroup([b0]) == [v0, v1];
    UngroupTwo(v0, v1);
  }

  lemma TwoBytes(b0: Byte, b1: Byte)
    ensures Ungroup(Regroup([b0, b1])) == Some([b0, b1])
  {
    var v0, v1, v2 := Group0(b0), Group1(b0, b1), Group2(b1, 0);
    GroupsHoldTheBytes(b0, b1, 0);
    assert v2 % 4 == 0;
    assert Regroup([b0, b1]) == [v0, v1, v2];
  }

  lemma {:induction false} UngroupOfRegroup(b: Bytes)
    ensures Ungroup(Regroup(b)) == Some(b)
  {
    if |b| == 1 {
      OneByte(b[0]);
      assert b == [b[0]];
    } else if |b| == 2 {
      TwoBytes(b[0], b[1]);
      assert b == [b[0], b[1]];
    } else if |b| >= 3 {
      UngroupOfRegroup(b[3..]);
      ThreeBytes(b[0], b[1], b[2], b[3..]);
      assert b == [b[0], b[1], b[2]] + b[3..];
    }
  }

  lemma ThreeBytes(b0: Byte, b1: Byte, b2: Byte, rest: Bytes)
    requires Ungroup(Regroup(rest)) == Some(rest)
    ensures Ungroup(Regroup([b0, b1, b2] + rest)) == Some([b0, b1, b2] + rest)
  {
    RegroupThree(b0, b1, b2, rest);
    UngroupFour(Group0(b0), Group1(b0, b1), Group2(b1, b2), Group3(b2), Regroup(rest));
    GroupsHoldTheBytes(b0, b1, b2);
  }

  lemma {:induction false} RegroupOfUngroup(v: seq<Sextet>)
    requires Ungroup(v).Some?
    ensures Regroup(Ungroup(v).value) == v
  {
    if |v| == 2 {
      TwoGroups(v[0], v[1]);
      assert v == [v[0], v[1]];
    } else if |v| == 3 {
      ThreeGroups(v[0], v[1], v[2]);
      assert v == [v[0], v[1], v[2]];
    } else if |v| >= 4 {
      RegroupOfUngroup(v[4..]);
      FourGroups(v[0], v[1], v[2], v[3], v[4..]);
      assert v == [v[0], v[1], v[2], v[3]] + v[4..];
    }
  }

  lemma TwoGroups(v0: Sextet, v1: Sextet)
    ensures Ungroup([v0, v1]).Some? ==> Regroup(Ungroup([v0, v1]).value) == [v0, v1]
  {
    UngroupTwo(v0, v1);
    if v1 % 16 == 0 {
      var b0 := Byte0(v0, v1);
      assert Group0(b0) == v0 && Group1(b0, 0) == v1;
      assert Regroup([b0]) == [v0, v1];
    }
  }

  lemma ThreeGroups(v0: Sextet, v1: Sextet, v2: Sextet)
    ensures Ungroup([v0, v1, v2]).Some? ==> Regroup(Ungroup([v0, v1, v2]).value) == [v0, v1, v2]
  {
    BytesHoldTheGroups(v0, v1, v2, 0);
    Padding(v2);
  }

  lemma FourGroups(v0: Sextet, v1: Sextet, v2: Sextet, v3: Sextet, rest: seq<Sextet>)
    requires Ungroup(rest).Some? ==> Regroup(Ungroup(rest).value) == rest
    ensures
      var v := [v0, v1, v2, v3] + rest;
      Ungroup(v).Some? ==> Regroup(Ungroup(v).value) == v
  {
    UngroupFour(v0, v1, v2, v3, rest);
    if Ungroup(rest).Some? {
      RegroupThree(Byte0(v0, v1), Byte1(v1, v2), Byte2(v2, v3), Ungroup(rest).value);
      BytesHoldTheGroups(v0, v1, v2, v3);
    }
  }

  // Six-bit groups and symbols.

  function Symbol(v: Sextet): char {
    if v < 26 then ('A' as int + v) as char
    else if v < 52 then ('a' as int + (v - 26)) as char
    else if v < 62 then ('0' as int + (v - 52)) as char
    else if v == 62 then '+'
    else '/'
  }

  function Value(c: char): Option<Sextet> {
    if 'A' <= c <= 'Z' then Some(c as int - 'A' as int)
    else if 'a' <= c <= 'z' then Some(c as int - 'a' as int + 26)
    else if '0' <= c <= '9' then Some(c as int - '0' as int + 52)
    else if c == '+' then Some(62)
    else if c == '/' then Some(63)
    else None
  }

  lemma SymbolsAndValues(v: Sextet, c: char)
    ensures Value(Symbol(v)) == Some(v)
    ensures Value(c).Some? ==> Symbol(Value(c).value) == c
  {
  }

  predicate AllSymbols(s: string) {
    forall i :: 0 <= i < |s| ==> Value(s[i]).Some?
  }

  function Spell(v: seq<Sextet>): string {
    seq(|v|, i requires 0 <= i < |v| => Symbol(v[i]))
  }

  /** Any other character is an error. */
  function Read(s: string): Option<seq<Sextet>> {
    if AllSymbols(s) then Some(seq(|s|, i requires 0 <= i < |s| && AllSymbols(s) => Value(s[i]).value)) else None
  }

  lemma ReadOfSpell(v: seq<Sextet>)
    ensures AllSymbols(Spell(v)) && Read(Spell(v)) == Some(v)
  {
    forall i | 0 <= i < |v| ensures Value(Spell(v)[i]) == Some(v[i]) {
      SymbolsAndValues(v[i], 'A');
    }
    assert forall i :: 0 <= i < |v| ==> Value(Spell(v)[i]) == Some(v[i]);
    assert Read(Spell(v)).value == v;
  }

  lemma SpellOfRead(s: string)
    requires Read(s).Some?
    ensures Spell(Read(s).value) == s
  {
    forall i | 0 <= i < |s| ensures Spell(Read(s).value)[i] == s[i] {
      SymbolsAndValues(0, s[i]);
    }
  }

  // The codec.

  function Encode(b: Bytes): string {
    Spell(Regroup(b))
  }

  /** The decoder skips carriage returns and line feeds wherever they stand. */
  function SkipNewlines(s: string): string {
    if s == "" then ""
    else (if s[0] == '\r' || s[0] == '\n' then "" else [s[0]]) + SkipNewlines(s[1..])
  }

  /** Character by character: a carriage return or a line feed is dropped, and any other character kept. */
  lemma {:induction false} NewlinesAreSkipped(a: string, rest: string, c: char)
    ensures SkipNewlines(a + rest) == SkipNewlines(a) + SkipNewlines(rest)
    ensures SkipNewlines([c]) == if c == '\r' || c == '\n' then "" else [c]
  {
    if a == "" {
      assert a + rest == rest;
    } else {
      var s := a + rest;
      assert s[0] == a[0] && s[1..] == a[1..] + rest;
      NewlinesAreSkipped(a[1..], rest, c);
      assert SkipNewlines(s[1..]) == SkipNewlines(a[1..]) + SkipNewlines(rest);
    }
  }

  function DecodeStrict(s: string): Option<Bytes> {
    match Read(SkipNewlines(s))
    case None => None
    case Some(v) => Ungroup(v)
  }

  lemma {:induction false} NothingToSkip(s: string)
    requires AllSymbols(s)
    ensures SkipNewlines(s) == s
  {
    if s != "" {
      assert Value(s[0]).Some?;
      NothingToSkip(s[1..]);
    }
  }

  /** Every byte string reads back from its encoding, which is made of symbols alone. */
  lemma StrictOfEncode(b: Bytes)
    ensures DecodeStrict(Encode(b)) == Some(b)
    ensures AllSymbols(Encode(b))
  {
    ReadOfSpell(Regroup(b));
    NothingToSkip(Encode(b));
    UngroupOfRegroup(b);
  }

  /** Strictness: apart from line breaks, a byte string has no other encoding. */
  lemma EncodeOfDecode(s: string)
    requires DecodeStrict(s).Some?
    ensures Encode(DecodeStrict(s).value) == SkipNewlines(s)
  {
    RegroupOfUngroup(Read(SkipNewlines(s)).value);
    SpellOfRead(SkipNewlines(s));
  }

  // What an encoding is, bit by bit, as section 4 of RFC 4648 describes it.

  const UPPER := "ABCDEFGHIJKLMNOPQRSTUVWXYZ"
  const LOWER := "abcdefghijklmnopqrstuvwxyz"
  const DIGITS := "0123456789"
  const ALPHABET := UPPER + LOWER + DIGITS + "+/"

  /** The bytes, with zero bits after the last. */
  function ByteAt(b: Bytes, j: nat): Byte { if j < |b| then b[j] else 0 }

  /** Six of the sixteen bits of two bytes: those above the last few, which `below` counts out. */
  function Cut(x: int, y: int, below: int): (r: int)
    requires below > 0
    ensures 0 <= r < 64
  {
    (x * 256 + y) / below % 64
  }

  /** The six bits that start at bit `6 * i`. */
  function SixBits(b: Bytes, i: nat): Sextet {
    var x, y := ByteAt(b, 6 * i / 8), ByteAt(b, 6 * i / 8 + 1);
    match i % 4
    case 0 => Cut(x, y, 1024)
    case 1 => Cut(x, y, 16)
    case 2 => Cut(x, y, 64)
    case _ => Cut(x, y, 256)
  }

  lemma SymbolIsInTheAlphabet(v: Sextet)
    ensures Symbol(v) == ALPHABET[v]
  {
    if v < 26 {
      assert ALPHABET[v] == UPPER[v];
    } else if v < 52 {
      assert ALPHABET[v] == LOWER[v - 26];
    } else if v < 62 {
      assert ALPHABET[v] == DIGITS[v - 52];
    }
  }

  lemma {:induction false} CountOfGroups(b: Bytes)
    ensures |Regroup(b)| == (8 * |b| + 5) / 6
  {
    if |b| >= 3 {
      CountOfGroups(b[3..]);
    }
  }

  lemma OuterSixBits(x: int, y: int)
    requires 0 <= x < 256 && 0 <= y < 256
    ensures x / 4 == Cut(x, y, 1024) && x % 64 == Cut(x, y, 256)
  {
    assert (x * 256 + y) / 256 == x;
    assert (x * 256 + y) / 1024 == x / 4;
  }

  lemma SecondSixBits(x: int, y: int)
    requires 0 <= x < 256 && 0 <= y < 256
    ensures x % 4 * 16 + y / 16 == Cut(x, y, 16)
  {
    var low := x % 4 * 16 + y / 16;
    assert (x * 256 + y) / 16 == 64 * (x / 4) + low;
  }

  lemma ThirdSixBits(x: int, y: int)
    requires 0 <= x < 256 && 0 <= y < 256
    ensures x % 16 * 4 + y / 64 == Cut(x, y, 64)
  {
    var low := x % 16 * 4 + y / 64;
    assert (x * 256 + y) / 64 == 64 * (x / 16) + low;
  }

  function FirstGroup(b: Bytes, i: nat): Sextet {
    match i
    case 0 => Group0(ByteAt(b, 0))
    case 1 => Group1(ByteAt(b, 0), ByteAt(b, 1))
    case 2 => Group2(ByteAt(b, 1), ByteAt(b, 2))
    case _ => Group3(ByteAt(b, 2))
  }

  lemma RegroupStartsWith(b: Bytes, i: nat)
    requires i < |Regroup(b)| && i < 4
    ensures Regroup(b)[i] == FirstGroup(b, i)
  {
  }

  lemma PlacesOfSixBits(b: Bytes)
    ensures SixBits(b, 0) == Cut(ByteAt(b, 0), ByteAt(b, 1), 1024)
    ensures SixBits(b, 1) == Cut(ByteAt(b, 0), ByteAt(b, 1), 16)
    ensures SixBits(b, 2) == Cut(ByteAt(b, 1), ByteAt(b, 2), 64)
    ensures SixBits(b, 3) == Cut(ByteAt(b, 2), ByteAt(b, 3), 256)
  {
  }

  lemma FirstGroupsAreSixBits(b: Bytes)
    ensures FirstGroup(b, 0) == SixBits(b, 0) && FirstGroup(b, 1) == SixBits(b, 1)
    ensures FirstGroup(b, 2) == SixBits(b, 2) && FirstGroup(b, 3) == SixBits(b, 3)
  {
    PlacesOfSixBits(b);
    OuterSixBits(ByteAt(b, 0), ByteAt(b, 1));
    SecondSixBits(ByteAt(b, 0), ByteAt(b, 1));
    ThirdSixBits(ByteAt(b, 1), ByteAt(b, 2));
    OuterSixBits(ByteAt(b, 2), ByteAt(b, 3));
  }

  lemma SixBitsOfTheRest(b: Bytes, i: nat)
    requires |b| >= 3 && i >= 4
    ensures SixBits(b, i) == SixBits(b[3..], i - 4)
  {
    var j := 6 * (i - 4) / 8;
    assert 6 * i / 8 == j + 3 && i % 4 == (i - 4) % 4;
    assert ByteAt(b, j + 3) == ByteAt(b[3..], j) && ByteAt(b, j + 4) == ByteAt(b[3..], j + 1);
  }

  lemma {:induction false} GroupsAreSixBits(b: Bytes, i: nat)
    requires i < |Regroup(b)|
    ensures Regroup(b)[i] == SixBits(b, i)
  {
    if i < 4 {
      RegroupStartsWith(b, i);
      FirstGroupsAreSixBits(b);
    } else {
      assert Regroup(b)[i] == Regroup(b[3..])[i - 4];
      GroupsAreSixBits(b[3..], i - 4);
      SixBitsOfTheRest(b, i);
    }
  }

  /** Each character of an encoding is the letter of six bits, and there are as many as the bits need. */
  lemma EncodeIsRfc4648(b: Bytes)
    ensures |Encode(b)| == (8 * |b| + 5) / 6
    ensures forall i :: 0 <= i < |Encode(b)| ==> Encode(b)[i] == ALPHABET[SixBits(b, i)]
  {
    forall i | 0 <= i < |Encode(b)| ensures Encode(b)[i] == ALPHABET[SixBits(b, i)] {
      GroupsAreSixBits(b, i);
      SymbolIsInTheAlphabet(SixBits(b, i));
    }
    CountOfGroups(b);
  }
}
