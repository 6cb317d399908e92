/** The string functions of Go's standard library that the hash format and the mail body rely on. */
module Text {
  import opened Wrappers

  function Index(s: string, c: char): (i: nat)
    requires c in s
    ensures i < |s| && s[i] == c && c !in s[..i]
  {
    if s[0] == c then 0
    else
      var i := Index(s[1..], c) + 1;
      assert s[..i] == [s[0]] + s[1..][..i - 1];
      i
  }

  /** strings.Split with a one-character separator. */
  function Split(s: string, c: char): seq<string> {
    if c !in s then [s] else [s[..Index(s, c)]] + Split(s[Index(s, c) + 1..], c)
  }

  /** strings.Join. */
  function Join(parts: seq<string>, sep: string): string {
    if parts == [] then "" else if |parts| == 1 then parts[0] else parts[0] + sep + Join(parts[1..], sep)
  }

  predicate Free(parts: seq<string>, c: char) {
    forall i :: 0 <= i < |parts| ==> c !in parts[i]
  }

  lemma {:induction false} SplitIsFree(s: string, c: char)
    ensures Split(s, c) != [] && Free(Split(s, c), c)
  {
    if c in s {
      SplitIsFree(s[Index(s, c) + 1..], c);
    }
  }

  lemma SplitAfter(first: string, rest: string, c: char)
    requires c !in first
    ensures Split(first + [c] + rest, c) == [first] + Split(rest, c)
  {
    var s := first + [c] + rest;
    assert s[|first|] == c;
    assert forall i :: 0 <= i < |first| ==> s[i] == first[i];
    assert forall i :: 0 <= i < Index(s, c) ==> s[i] in s[..Index(s, c)];
    assert Index(s, c) == |first|;
    assert s[..|first|] == first && s[|first| + 1..] == rest;
  }

  /** Split takes apart exactly what Join put together. */
  lemma {:induction false} SplitOfJoin(parts: seq<string>, c: char)
    requires parts != [] && Free(parts, c)
    ensures Split(Join(parts, [c]), c) == parts
  {
    if |parts| > 1 {
      SplitOfJoin(parts[1..], c);
      SplitAfter(parts[0], Join(parts[1..], [c]), c);
      assert parts == [parts[0]] + parts[1..];
    }
  }

  /** Join puts back what Split took apart. */
  lemma {:induction false} JoinOfSplit(s: string, c: char)
    ensures Join(Split(s, c), [c]) == s
  {
    if c in s {
      var i := Index(s, c);
      JoinOfSplit(s[i + 1..], c);
      SplitIsFree(s[i + 1..], c);
      assert s == s[..i] + [c] + s[i + 1..];
    }
  }

  // Decimal numbers, as fmt's %d prints them.

  function Digit(n: nat): char
    requires n < 10
  {
    ('0' as int + n) as char
  }

  predicate IsDigit(c: char) { '0' <= c <= '9' }

  function Decimal(n: nat): string {
    if n < 10 then [Digit(n)] else Decimal(n / 10) + [Digit(n % 10)]
  }

  function DecimalValue(digits: string): nat
    requires forall i :: 0 <= i < |digits| ==> IsDigit(digits[i])
  {
    if digits == "" then 0
    else
      assert IsDigit(digits[|digits| - 1]);
      DecimalValue(digits[..|digits| - 1]) * 10 + (digits[|digits| - 1] as int - '0' as int)
  }

  lemma {:induction false} DecimalIsDigits(n: nat)
    ensures Decimal(n) != "" && forall i :: 0 <= i < |Decimal(n)| ==> IsDigit(Decimal(n)[i])
  {
    if n >= 10 {
      DecimalIsDigits(n / 10);
    }
  }

  lemma {:induction false} DecimalReadsBack(n: nat)
    ensures forall i :: 0 <= i < |Decimal(n)| ==> IsDigit(Decimal(n)[i])
    ensures DecimalValue(Decimal(n)) == n
  {
    DecimalIsDigits(n);
    if n >= 10 {
      DecimalReadsBack(n / 10);
      assert Decimal(n)[..|Decimal(n)| - 1] == Decimal(n / 10);
    }
  }

  // fmt.Sscanf, for %d and literal text.

  function Digits(s: string): (i: nat)
    ensures i <= |s| && forall j :: 0 <= j < i ==> IsDigit(s[j])
    ensures i < |s| ==> !IsDigit(s[i])
  {
    if s == "" || !IsDigit(s[0]) then 0 else 1 + Digits(s[1..])
  }

  /** What the scanner takes for a space before a verb. */
  predicate IsSpace(c: char) {
    || '\U{9}' <= c <= '\U{d}' || c == ' ' || c == '\U{85}' || c == '\U{a0}' || c == '\U{1680}'
    || '\U{2000}' <= c <= '\U{200a}' || c == '\U{2028}' || c == '\U{2029}' || c == '\U{202f}'
    || c == '\U{205f}' || c == '\U{3000}'
  }

  /** Spaces before a verb are skipped; a line break there is an error. */
  function SkipSpace(s: string): Option<string> {
    if s == "" then Some(s)
    else if s[0] == '\n' then None
    else if IsSpace(s[0]) then SkipSpace(s[1..])
    else Some(s)
  }

  /** %d into an unsigned type: no sign, at least one digit, and no more than the type holds. */
  function ScanUint(s: string, max: nat): (r: Option<(nat, string)>)
    ensures r.Some? ==> r.value.0 <= max
  {
    match SkipSpace(s)
    case None => None
    case Some(t) =>
      var n := Digits(t);
      if n == 0 || DecimalValue(t[..n]) > max then None else Some((DecimalValue(t[..n]), t[n..]))
  }

  /** %d into an int: an optional sign, and 64 bits. */
  function ScanInt(s: string): Option<(int, string)> {
    match SkipSpace(s)
    case None => None
    case Some(t) =>
      var negative := t != "" && t[0] == '-';
      var u := if t != "" && (t[0] == '-' || t[0] == '+') then t[1..] else t;
      var n := Digits(u);
      if n == 0 then None
      else
        var m: int := DecimalValue(u[..n]);
        var v := if negative then -m else m;
        if -0x8000_0000_0000_0000 <= v < 0x8000_0000_0000_0000 then Some((v, u[n..])) else None
  }

  function ScanLiteral(s: string, literal: string): Option<string> {
    if literal <= s then Some(s[|literal|..]) else None
  }

  lemma {:induction false} DigitsStop(digits: string, rest: string)
    requires forall i :: 0 <= i < |digits| ==> IsDigit(digits[i])
    requires rest == "" || !IsDigit(rest[0])
    ensures Digits(digits + rest) == |digits|
  {
    if digits == "" {
      assert digits + rest == rest;
    } else {
      assert (digits + rest)[1..] == digits[1..] + rest;
      DigitsStop(digits[1..], rest);
    }
  }

  /** A printed number followed by a non-digit scans back, and leaves the rest. */
  lemma ScanOfDecimal(n: nat, rest: string, max: nat)
    requires n <= max && (rest == "" || !IsDigit(rest[0]))
    ensures ScanUint(Decimal(n) + rest, max) == Some((n, rest))
    ensures n < 0x8000_0000_0000_0000 ==> ScanInt(Decimal(n) + rest) == Some((n, rest))
  {
    DecimalReadsBack(n);
    DecimalIsDigits(n);
    var s := Decimal(n) + rest;
    assert IsDigit(s[0]) && !IsSpace(s[0]);
    DigitsStop(Decimal(n), rest);
    assert s[..|Decimal(n)|] == Decimal(n) && s[|Decimal(n)|..] == rest;
  }

  // What the scanner takes besides printed numbers.

  lemma {:induction false} SpacesAreSkipped(space: string, rest: string)
    requires forall i :: 0 <= i < |space| ==> IsSpace(space[i]) && space[i] != '\n'
    ensures SkipSpace(space + rest) == SkipSpace(rest)
  {
    if space == "" {
      assert space + rest == rest;
    } else {
      assert (space + rest)[1..] == space[1..] + rest;
      SpacesAreSkipped(space[1..], rest);
    }
  }

  /** Spaces but no line break come before a number. */
  lemma SpacesBeforeANumber(space: string, rest: string, max: nat)
    requires forall i :: 0 <= i < |space| ==> IsSpace(space[i]) && space[i] != '\n'
    ensures ScanUint(space + rest, max) == ScanUint(rest, max) && ScanInt(space + rest) == ScanInt(rest)
  {
    SpacesAreSkipped(space, rest);
  }

  /** Digits, leading zeros allowed: their number, if it fits the type. */
  lemma ScanOfDigits(digits: string, rest: string, max: nat)
    requires digits != "" && forall i :: 0 <= i < |digits| ==> IsDigit(digits[i])
    requires rest == "" || !IsDigit(rest[0])
    ensures ScanUint(digits + rest, max) ==
      if DecimalValue(digits) <= max then Some((DecimalValue(digits), rest)) else None
  {
    var s := digits + rest;
    assert IsDigit(s[0]) && !IsSpace(s[0]);
    DigitsStop(digits, rest);
    assert s[..|digits|] == digits && s[|digits|..] == rest;
  }

  /** Anything else there is an error: a line break, a sign for an unsigned type, the end of the text. */
  lemma NothingToScan(space: string, rest: string, max: nat)
    requires forall i :: 0 <= i < |space| ==> IsSpace(space[i]) && space[i] != '\n'
    requires rest == "" || rest[0] == '\n' || (!IsDigit(rest[0]) && !IsSpace(rest[0]))
    ensures ScanUint(space + rest, max) == None
  {
    SpacesAreSkipped(space, rest);
  }
}
