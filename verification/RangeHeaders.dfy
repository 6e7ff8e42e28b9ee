// The header lines of a range request as section 5 of RFC 9110 writes them, and the response as a
// client reads it.
module RangeHeaders {
  import opened Basics
  import opened MediaRange

  // ---- Range lines ----

  // White space is what trimming a QByteArray takes it to be; letters have their lower case at the same
  // place of the alphabet, and nothing else has one.
  lemma CharactersAre(c: char)
    ensures IsSpace(c) <==> c as int in {9, 10, 11, 12, 13, 32}
    ensures if 65 <= c as int <= 90 then LowerChar(c) as int == c as int + 32 else LowerChar(c) == c
  {
  }

  predicate AllSpaces(s: string) {
    forall i :: 0 <= i < |s| ==> IsSpace(s[i])
  }

  predicate NoSpaces(s: string) {
    forall i :: 0 <= i < |s| ==> !IsSpace(s[i])
  }

  // Neither starts nor ends with white space.
  predicate IsTight(s: string) {
    s != "" ==> !IsSpace(s[0]) && !IsSpace(s[|s| - 1])
  }

  lemma {:induction false} FrontIsTrimmed(before: string, s: string)
    requires AllSpaces(before) && (s != "" ==> !IsSpace(s[0]))
    ensures TrimFront(before + s) == s
  {
    if before == "" {
      assert before + s == s;
    } else {
      assert (before + s)[1..] == before[1..] + s && (before + s)[0] == before[0];
      FrontIsTrimmed(before[1..], s);
    }
  }

  lemma {:induction false} BackIsTrimmed(s: string, after: string)
    requires AllSpaces(after) && (s != "" ==> !IsSpace(s[|s| - 1]))
    ensures TrimBack(s + after) == s
  {
    if after == "" {
      assert s + after == s;
    } else {
      var t := s + after;
      assert t[..|t| - 1] == s + after[..|after| - 1] && t[|t| - 1] == after[|after| - 1];
      BackIsTrimmed(s, after[..|after| - 1]);
    }
  }

  lemma TrimmedIs(before: string, s: string, after: string)
    requires AllSpaces(before) && AllSpaces(after) && IsTight(s)
    ensures Trimmed(before + s + after) == s
  {
    if s == "" {
      assert before + s + after == (before + after) + "";
      FrontIsTrimmed(before + after, "");
    } else {
      assert before + s + after == before + (s + after) && (s + after)[0] == s[0];
      FrontIsTrimmed(before, s + after);
      BackIsTrimmed(s, after);
    }
  }

  lemma {:induction false} LowerAt(s: string, i: nat)
    requires i < |s|
    ensures Lower(s)[i] == LowerChar(s[i])
  {
    if i > 0 {
      LowerAt(s[1..], i - 1);
    }
  }

  // A field line is a Range line if and only if its name is "range", compared without case; white
  // space around the value is not part of it.
  lemma FieldLineIsRead(before: string, name: string, gap: string, value: string, after: string)
    requires AllSpaces(before) && AllSpaces(gap) && AllSpaces(after) && IsTight(value)
    requires name != "" && NoSpaces(name) && ':' !in name
    ensures var line := before + name + ":" + gap + value + after;
      && (IsRangeLine(line) <==> Lower(name) == "range")
      && (Lower(name) == "range" ==> RangeValue(line) == value)
  {
    hide Lower, TrimFront, TrimBack, Trimmed;
    var line := before + name + ":" + gap + value + after;
    var t := name + ":" + (if value == "" then "" else gap + value);
    if value == "" {
      assert line == before + t + (gap + after);
      TrimmedIs(before, t, gap + after);
      TrimmedIs("", "", "");
      assert "" + "" + "" == "";
    } else {
      assert line == before + t + after;
      assert t[|t| - 1] == value[|value| - 1];
      TrimmedIs(before, t, after);
      TrimmedIs(gap, value, "");
      assert gap + value + "" == gap + value;
    }
    NameDecides(name, t);
    if Lower(name) == "range" {
      assert t[6..] == if value == "" then "" else gap + value;
    }
  }

  lemma NameDecides(name: string, t: string)
    requires ':' !in name && |t| > |name| && t[..|name|] == name && t[|name|] == ':'
    ensures RANGE_NAME <= Lower(t) <==> Lower(name) == "range"
  {
    hide Lower;
    forall i | 0 <= i < |t| ensures Lower(t)[i] == LowerChar(t[i]) {
      LowerAt(t, i);
    }
    forall i | 0 <= i < |name| ensures Lower(name)[i] == LowerChar(name[i]) && name[i] == t[i] && Lower(name)[i] != ':' {
      LowerAt(name, i);
    }
    if RANGE_NAME <= Lower(t) {
      assert Lower(t)[5] == ':' && Lower(t)[|name|] == ':';
      assert forall i :: 0 <= i < 5 ==> Lower(t)[i] == "range"[i];
      assert |name| == 5;
      assert Lower(name) == "range";
    }
    if Lower(name) == "range" {
      assert Lower(t)[..6] == RANGE_NAME;
    }
  }

  // Which lines decide the answer: none, the only Range line, or more than one.
  lemma {:induction false} NoRangeLine(lines: seq<string>)
    requires forall i :: 0 <= i < |lines| ==> !IsRangeLine(lines[i])
    ensures RangeValues(lines) == []
  {
    hide IsRangeLine, RangeValue;
    if lines != [] {
      var rest := lines[1..];
      assert forall i :: 0 <= i < |rest| ==> rest[i] == lines[i + 1];
      NoRangeLine(rest);
    }
  }

  lemma {:induction false} OneRangeLine(lines: seq<string>, k: nat)
    requires k < |lines| && forall i :: 0 <= i < |lines| ==> (IsRangeLine(lines[i]) <==> i == k)
    ensures RangeValues(lines) == [RangeValue(lines[k])]
  {
    hide IsRangeLine, RangeValue;
    var rest := lines[1..];
    assert forall i :: 0 <= i < |rest| ==> rest[i] == lines[i + 1];
    if k == 0 {
      NoRangeLine(rest);
    } else {
      OneRangeLine(rest, k - 1);
    }
  }

  lemma {:induction false} SomeRangeLine(lines: seq<string>, k: nat)
    requires k < |lines| && IsRangeLine(lines[k])
    ensures RangeValues(lines) != []
  {
    hide IsRangeLine, RangeValue;
    if k > 0 {
      assert lines[1..][k - 1] == lines[k];
      SomeRangeLine(lines[1..], k - 1);
    }
  }

  lemma {:induction false} SeveralRangeLines(lines: seq<string>, j: nat, k: nat)
    requires j < k < |lines| && IsRangeLine(lines[j]) && IsRangeLine(lines[k])
    ensures |RangeValues(lines)| >= 2
  {
    hide IsRangeLine, RangeValue;
    assert lines[1..][k - 1] == lines[k];
    if j == 0 {
      SomeRangeLine(lines[1..], k - 1);
    } else {
      assert lines[1..][j - 1] == lines[j];
      SeveralRangeLines(lines[1..], j - 1, k - 1);
    }
  }

  // ---- The response ----

  const OK_LINE: string := "HTTP/1.1 200 OK\r"
  const PARTIAL_LINE: string := "HTTP/1.1 206 Partial Content\r"
  const ACCEPT_LINE: string := "Accept-Ranges: bytes\r"
  const TYPE_LINE: string := "Content-Type: application/octet-stream\r"
  const CONNECTION_LINE: string := "Connection: close\r"

  function Joined(lines: seq<string>): string {
    if lines == [] then "" else lines[0] + "\n" + Joined(lines[1..])
  }

  predicate InOneLine(s: string) {
    '\n' !in s
  }

  lemma FirstLine(line: string, rest: string)
    requires InOneLine(line)
    ensures Split(line + "\n" + rest, '\n') == [line] + Split(rest, '\n')
  {
    var s := line + "\n" + rest;
    assert s[|line|] == '\n' && s[..|line|] == line && s[|line| + 1..] == rest;
    FindIs(s, '\n', |line|);
  }

  lemma {:induction false} SplitJoined(lines: seq<string>)
    requires forall i :: 0 <= i < |lines| ==> InOneLine(lines[i])
    ensures Split(Joined(lines), '\n') == lines + [""]
  {
    hide Split, InOneLine;
    if lines == [] {
      NothingSplits();
    } else {
      FirstLine(lines[0], Joined(lines[1..]));
      SplitJoined(lines[1..]);
    }
  }

  lemma NothingSplits()
    ensures Split("", '\n') == [""]
  {
  }

  lemma {:induction false} JoinedTwo(a: seq<string>, b: seq<string>)
    ensures Joined(a + b) == Joined(a) + Joined(b)
  {
    if a == [] {
      assert a + b == b;
    } else {
      assert (a + b)[1..] == a[1..] + b;
      JoinedTwo(a[1..], b);
    }
  }

  lemma JoinedOne(line: string)
    ensures Joined([line]) == line + "\n"
  {
    assert Joined([line][1..]) == "";
  }

  function FixedLines(ranged: bool): seq<string> {
    [if ranged then PARTIAL_LINE else OK_LINE, ACCEPT_LINE, TYPE_LINE, CONNECTION_LINE]
  }

  lemma FixedLinesAre(ranged: bool)
    ensures InOneLine(if ranged then PARTIAL_LINE else OK_LINE) && InOneLine(ACCEPT_LINE) && InOneLine(TYPE_LINE)
            && InOneLine(CONNECTION_LINE)
    ensures StatusLines(ranged) == (if ranged then PARTIAL_LINE else OK_LINE) + "\n" + (ACCEPT_LINE + "\n") + (TYPE_LINE + "\n")
                                   + (CONNECTION_LINE + "\n")
  {
    assert "HTTP/1.1 206 Partial Content\r\n" == PARTIAL_LINE + "\n";
    assert "HTTP/1.1 200 OK\r\n" == OK_LINE + "\n";
    assert "Accept-Ranges: bytes\r\n" == ACCEPT_LINE + "\n";
    assert "Content-Type: application/octet-stream\r\n" == TYPE_LINE + "\n";
    assert "Connection: close\r\n" == CONNECTION_LINE + "\n";
  }

  lemma FourJoined(a: string, b: string, c: string, d: string)
    ensures Joined([a, b, c, d]) == a + "\n" + (b + "\n") + (c + "\n") + (d + "\n")
  {
    hide Joined;
    JoinedOne(a);
    JoinedOne(b);
    JoinedOne(c);
    JoinedOne(d);
    JoinedTwo([a], [b]);
    JoinedTwo([a, b], [c]);
    JoinedTwo([a, b, c], [d]);
    assert [a] + [b] == [a, b] && [a, b] + [c] == [a, b, c] && [a, b, c] + [d] == [a, b, c, d];
  }

  // Neither does a line break come from a number.
  lemma NumbersInOneLine(before: string, n: nat, after: string)
    requires InOneLine(before) && InOneLine(after)
    ensures InOneLine(before + Decimal(n) + after)
  {
    hide Decimal;
    var s := Decimal(n);
    assert forall i :: 0 <= i < |s| ==> IsDigit(s[i]) && s[i] != '\n';
  }

  function LengthField(length: nat): string {
    "Content-Length: " + Decimal(length) + "\r"
  }

  function RangeField(start: nat, end: nat, total: nat): string {
    "Content-Range: bytes " + Decimal(start) + "-" + Decimal(end) + "/" + Decimal(total) + "\r"
  }

  lemma FieldsAre(length: nat, start: nat, end: nat, total: nat)
    ensures InOneLine(LengthField(length)) && InOneLine(RangeField(start, end, total))
    ensures LengthLine(length) == LengthField(length) + "\n" && RangeLine(start, end, total) == RangeField(start, end, total) + "\n"
  {
    hide Decimal;
    NumbersInOneLine("Content-Length: ", length, "\r");
    NumbersInOneLine("Content-Range: bytes ", start, "-");
    NumbersInOneLine("Content-Range: bytes " + Decimal(start) + "-", end, "/");
    NumbersInOneLine("Content-Range: bytes " + Decimal(start) + "-" + Decimal(end) + "/", total, "\r");
    assert "\r\n" == "\r" + "\n";
    assert LengthLine(length) == "Content-Length: " + Decimal(length) + ("\r" + "\n");
    assert RangeLine(start, end, total)
           == "Content-Range: bytes " + Decimal(start) + "-" + Decimal(end) + "/" + Decimal(total) + ("\r" + "\n");
  }

  lemma ResponseIsJoined(start: nat, end: nat, ranged: bool, total: nat)
    requires start <= end
    ensures Response(start, end, ranged, total)
            == Joined(FixedLines(ranged) + ([LengthField(end - start + 1)] + (if ranged then [RangeField(start, end, total)] else [])
                                            + ["\r"]))
  {
    hide Joined, StatusLines, LengthLine, RangeLine, LengthField, RangeField, InOneLine;
    var length, range := [LengthField(end - start + 1)], if ranged then [RangeField(start, end, total)] else [];
    FixedLinesAre(ranged);
    FieldsAre(end - start + 1, start, end, total);
    FourJoined(if ranged then PARTIAL_LINE else OK_LINE, ACCEPT_LINE, TYPE_LINE, CONNECTION_LINE);
    JoinedOne(LengthField(end - start + 1));
    JoinedOne(RangeField(start, end, total));
    JoinedOne("\r");
    JoinedNone();
    EmptyLine();
    JoinedTwo(length, range);
    JoinedTwo(length + range, ["\r"]);
    JoinedTwo(FixedLines(ranged), length + range + ["\r"]);
  }

  // The response is read line by line: a status line, the fields and an empty line, each ended by CRLF.
  // The status says whether there is a range, and the fields give the length of what follows and, for
  // a range, its first and last position and the size of the content.
  lemma ResponseLines(start: nat, end: nat, ranged: bool, total: nat)
    requires start <= end
    ensures Split(Response(start, end, ranged, total), '\n')
            == FixedLines(ranged) + ([LengthField(end - start + 1)] + (if ranged then [RangeField(start, end, total)] else [])
                                     + ["\r"]) + [""]
  {
    hide Joined, Response, LengthField, RangeField, Split, InOneLine;
    ResponseIsJoined(start, end, ranged, total);
    FixedLinesAre(ranged);
    FieldsAre(end - start + 1, start, end, total);
    EmptyLine();
    SplitJoined(FixedLines(ranged) + ([LengthField(end - start + 1)] + (if ranged then [RangeField(start, end, total)] else [])
                                      + ["\r"]));
  }

  lemma JoinedNone()
    ensures Joined([]) == ""
  {
  }

  lemma EmptyLine()
    ensures InOneLine("\r") && "\r" + "\n" == "\r\n"
  {
  }
}
