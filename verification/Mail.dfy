/** The body of a message as it is put on the wire, for section 4.5.2 of RFC 5321. */
module Mail {
  import opened Text

  /** strings.ReplaceAll of CRLF by LF. */
  function LineFeeds(s: string): string {
    if |s| >= 2 && s[0] == '\r' && s[1] == '\n' then "\n" + LineFeeds(s[2..])
    else if s == "" then ""
    else [s[0]] + LineFeeds(s[1..])
  }

  /** Anywhere but inside a CRLF, a body can be taken in two pieces. */
  lemma {:induction false} LineFeedsSplit(a: string, rest: string)
    requires !(a != "" && a[|a| - 1] == '\r' && rest != "" && rest[0] == '\n')
    ensures LineFeeds(a + rest) == LineFeeds(a) + LineFeeds(rest)
  {
    var s := a + rest;
    if a == "" {
      assert s == rest;
    } else if |a| >= 2 && a[0] == '\r' && a[1] == '\n' {
      assert s[2..] == a[2..] + rest;
      LineFeedsSplit(a[2..], rest);
    } else {
      assert s[1..] == a[1..] + rest && s[0] == a[0];
      LineFeedsSplit(a[1..], rest);
      assert LineFeeds(a) == [a[0]] + LineFeeds(a[1..]);
    }
  }

  /** A CRLF becomes a line feed, wherever it stands. */
  lemma CrlfBecomesLineFeed(a: string, rest: string)
    ensures LineFeeds(a + "\r\n" + rest) == LineFeeds(a) + "\n" + LineFeeds(rest)
  {
    LineFeedsSplit(a, "\r\n");
    LineFeedsSplit(a + "\r\n", rest);
    assert LineFeeds("\r\n") == "\n" + LineFeeds("");
  }

  lemma OneStays(c: char)
    ensures LineFeeds([c]) == [c]
  {
    assert [c][1..] == "";
  }

  /** Any other character stays as it is: one that is not half of a CRLF. */
  lemma OthersStay(a: string, c: char, rest: string)
    requires !(c == '\n' && a != "" && a[|a| - 1] == '\r') && !(c == '\r' && rest != "" && rest[0] == '\n')
    ensures LineFeeds(a + [c] + rest) == LineFeeds(a) + [c] + LineFeeds(rest)
  {
    var front := a + [c];
    assert front[|front| - 1] == c;
    OneStays(c);
    LineFeedsSplit(a, [c]);
    LineFeedsSplit(front, rest);
  }

  lemma {:induction false} PlainStays(s: string)
    requires '\r' !in s
    ensures LineFeeds(s) == s
  {
    if s != "" {
      PlainStays(s[1..]);
    }
  }

  function Stuffed(line: string): string {
    if line != "" && line[0] == '.' then "." + line else line
  }

  function StuffedAll(lines: seq<string>): seq<string> {
    seq(|lines|, i requires 0 <= i < |lines| => Stuffed(lines[i]))
  }

  const CRLF := "\r\n"

  /** The loop rewrites the lines in place. */
  method Stuff(lines: array<string>)
    modifies lines
    ensures lines[..] == StuffedAll(old(lines[..]))
    ensures forall i :: 0 <= i < lines.Length ==>
      lines[i] == if "." <= old(lines[i]) then "." + old(lines[i]) else old(lines[i])
  {
    for i := 0 to lines.Length
      invariant forall k :: 0 <= k < i ==> lines[k] == Stuffed(old(lines[k]))
      invariant forall k :: i <= k < lines.Length ==> lines[k] == old(lines[k])
    {
      var line := lines[i];
      if line != "" && line[0] == '.' {
        lines[i] := "." + line;
      }
    }
  }

  function Normalised(body: string): string {
    Join(StuffedAll(Split(LineFeeds(body), '\n')), CRLF) + CRLF
  }

  method Normalise(body: string) returns (wire: string)
    ensures wire == Normalised(body)
  {
    var parts := Split(LineFeeds(body), '\n');
    var lines := new string[|parts|](i requires 0 <= i < |parts| => parts[i]);
    assert lines[..] == parts;
    Stuff(lines);
    wire := Join(lines[..], CRLF) + CRLF;
  }

  // The receiving side: lines end with CRLF, and a leading dot is taken off.

  /** The lines up to each CRLF; what follows the last one is not a line. */
  function WireLines(s: string): seq<string> {
    if |s| < 2 then []
    else if s[0] == '\r' && s[1] == '\n' then [""] + WireLines(s[2..])
    else
      var rest := WireLines(s[1..]);
      if rest == [] then [] else [[s[0]] + rest[0]] + rest[1..]
  }

  function Unstuffed(line: string): string {
    if line != "" && line[0] == '.' then line[1..] else line
  }

  function UnstuffedAll(lines: seq<string>): seq<string> {
    seq(|lines|, i requires 0 <= i < |lines| => Unstuffed(lines[i]))
  }

  function Terminated(lines: seq<string>): string {
    if lines == [] then "" else lines[0] + CRLF + Terminated(lines[1..])
  }

  lemma {:induction false} JoinIsTerminated(lines: seq<string>)
    requires lines != []
    ensures Join(lines, CRLF) + CRLF == Terminated(lines)
  {
    if |lines| == 1 {
      assert Terminated(lines[1..]) == "";
    } else {
      JoinIsTerminated(lines[1..]);
      assert Join(lines, CRLF) + CRLF == lines[0] + CRLF + (Join(lines[1..], CRLF) + CRLF);
    }
  }

  /** A line without a line feed, before a CRLF, is read as that line. */
  lemma {:induction false} LineReadsBack(line: string, rest: string)
    requires '\n' !in line
    ensures WireLines(line + CRLF + rest) == [line] + WireLines(rest)
  {
    var s := line + CRLF + rest;
    if line == "" {
      assert s[2..] == rest;
    } else {
      assert s[1..] == line[1..] + CRLF + rest;
      LineReadsBack(line[1..], rest);
      assert s[1] == if |line| > 1 then line[1] else '\r';
      var tail := WireLines(s[1..]);
      assert tail[0] == line[1..] && tail[1..] == WireLines(rest);
      assert line == [line[0]] + line[1..];
    }
  }

  lemma {:induction false} LinesReadBack(lines: seq<string>)
    requires Free(lines, '\n')
    ensures WireLines(Terminated(lines)) == lines
  {
    if lines != [] {
      LinesReadBack(lines[1..]);
      LineReadsBack(lines[0], Terminated(lines[1..]));
      assert lines == [lines[0]] + lines[1..];
    }
  }

  lemma StuffingKeepsLinesFree(lines: seq<string>)
    requires Free(lines, '\n')
    ensures Free(StuffedAll(lines), '\n') && UnstuffedAll(StuffedAll(lines)) == lines
  {
    forall i | 0 <= i < |lines| ensures '\n' !in Stuffed(lines[i]) && Unstuffed(Stuffed(lines[i])) == lines[i] {
      assert Stuffed(lines[i]) != lines[i] ==> Stuffed(lines[i])[1..] == lines[i];
    }
  }

  /**
   The round trip: the receiver finds exactly the stuffed lines, so a CRLF stands at their joins and
   nowhere inside one; none of them is a lone dot; and taking the dots off gives back the body's lines, a
   CRLF in the body counting as a line feed.
  */
  lemma ReceivedAsWritten(body: string)
    ensures
      var lines := Split(LineFeeds(body), '\n');
      var received := WireLines(Normalised(body));
      && received == StuffedAll(lines) && Free(received, '\n')
      && (forall i :: 0 <= i < |received| ==> received[i] != ".")
      && Join(UnstuffedAll(received), "\n") == LineFeeds(body)
  {
    var lines := Split(LineFeeds(body), '\n');
    SplitIsFree(LineFeeds(body), '\n');
    StuffingKeepsLinesFree(lines);
    JoinIsTerminated(StuffedAll(lines));
    LinesReadBack(StuffedAll(lines));
    JoinOfSplit(LineFeeds(body), '\n');
  }

  /** A body with no carriage return comes through exactly. */
  lemma PlainBodyComesThrough(body: string)
    requires '\r' !in body
    ensures Join(UnstuffedAll(WireLines(Normalised(body))), "\n") == body
  {
    ReceivedAsWritten(body);
    PlainStays(body);
  }

  /** Two bodies look the same on the wire only if they differ in how their line breaks are written. */
  lemma WireDeterminesTheBody(a: string, b: string)
    ensures Normalised(a) == Normalised(b) <==> LineFeeds(a) == LineFeeds(b)
  {
    if Normalised(a) == Normalised(b) {
      ReceivedAsWritten(a);
      ReceivedAsWritten(b);
    }
  }

  /** Every line feed on the wire has its carriage return. */
  lemma {:induction false} NoBareLineFeed(lines: seq<string>, i: nat)
    requires Free(lines, '\n') && i < |Terminated(lines)| && Terminated(lines)[i] == '\n'
    ensures i > 0 && Terminated(lines)[i - 1] == '\r'
    decreases |lines|
  {
    var n := |lines[0]|;
    var s := Terminated(lines);
    assert s == lines[0] + CRLF + Terminated(lines[1..]);
    assert forall k :: 0 <= k < n ==> s[k] == lines[0][k];
    assert forall k :: 0 <= k < n ==> lines[0][k] in lines[0];
    if i >= n + 2 {
      assert s[n + 2..] == Terminated(lines[1..]);
      NoBareLineFeed(lines[1..], i - n - 2);
    }
  }

  lemma WireHasNoBareLineFeed(body: string, i: nat)
    requires i < |Normalised(body)| && Normalised(body)[i] == '\n'
    ensures i > 0 && Normalised(body)[i - 1] == '\r'
  {
    var lines := Split(LineFeeds(body), '\n');
    SplitIsFree(LineFeeds(body), '\n');
    StuffingKeepsLinesFree(lines);
    JoinIsTerminated(StuffedAll(lines));
    NoBareLineFeed(StuffedAll(lines), i);
  }
}
