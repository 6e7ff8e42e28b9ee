// HTTP range requests: the Range header lines of a request and the byte range they are answered
// with, compared with section 14.1.2 of RFC 9110.
module MediaRange {
  import opened Basics
  import opened Encoding

  // ---- Header lines ----

  predicate IsSpace(c: char) {
    c == ' ' || '\t' <= c <= '\r'
  }

  function TrimFront(s: string): string {
    if s != "" && IsSpace(s[0]) then TrimFront(s[1..]) else s
  }

  function TrimBack(s: string): string {
    if s != "" && IsSpace(s[|s| - 1]) then TrimBack(s[..|s| - 1]) else s
  }

  // QByteArray::trimmed
  function Trimmed(s: string): string {
    TrimBack(TrimFront(s))
  }

  function LowerChar(c: char): char {
    if 'A' <= c <= 'Z' then c + ('a' - 'A') else c
  }

  function Lower(s: string): (r: string)
    ensures |r| == |s|
  {
    if s == "" then "" else [LowerChar(s[0])] + Lower(s[1..])
  }

  const RANGE_NAME := "range:"

  predicate IsRangeLine(line: string) {
    RANGE_NAME <= Lower(Trimmed(line))
  }

  function RangeValue(line: string): string {
    var t := Trimmed(line);
    if |t| >= 6 then Trimmed(t[6..]) else ""
  }

  // The values of the Range lines, in order.
  function RangeValues(lines: seq<string>): seq<string> {
    if lines == [] then []
    else (if IsRangeLine(lines[0]) then [RangeValue(lines[0])] else []) + RangeValues(lines[1..])
  }

  // ---- One value ----

  datatype Spec = Spec(first: string, last: string)

  const UNIT := "bytes="

  // The match of bytes=(digits)-(digits), where either part may be empty.
  function Match(value: string): (m: Option<Spec>)
    ensures m.Some? ==> AllDigits(m.value.first) && AllDigits(m.value.last)
  {
    if !(UNIT <= value) then None
    else
      var rest := value[6..];
      var i := Find(rest, '-');
      if i == |rest| || !AllDigits(rest[..i]) || !AllDigits(rest[i + 1..]) then None else Some(Spec(rest[..i], rest[i + 1..]))
  }

  // toLongLong on digits: empty text and numbers beyond 63 bits are not ok.
  function ToLongLong(s: string): Option<Int64>
    requires AllDigits(s)
  {
    if s == "" || Number(s) > MAX_INT64 then None else Some(Number(s))
  }

  datatype Answer = Refused | Served(start: int, end: int, ranged: bool)

  function AnswerTo(value: string, total: Int64): Answer {
    match Match(value)
    case None => Refused
    case Some(spec) =>
      if (spec.first == "" && spec.last == "") || total == 0 then Refused
      else if spec.first == "" then
        match ToLongLong(spec.last)
        case None => Refused
        case Some(suffix) => if suffix <= 0 then Refused else Served(Max(0, total - suffix), total - 1, true)
      else
        match ToLongLong(spec.first)
        case None => Refused
        case Some(start) =>
          if start >= total then Refused
          else if spec.last == "" then Served(start, total - 1, true)
          else
            match ToLongLong(spec.last)
            case None => Refused
            case Some(end) => if end < start then Refused else Served(start, Min(end, total - 1), true)
  }

  // The loop over the header lines: one Range line is answered, several are refused.
  method ParseRange(lines: seq<string>, total: Int64) returns (r: Answer)
    requires total >= 0
    ensures var values := RangeValues(lines);
      r == if values == [] then Served(0, total - 1, false)
           else if |values| == 1 then AnswerTo(values[0], total)
           else Refused
  {
    hide IsRangeLine, RangeValue, AnswerTo;
    var start, end, ranged := 0, total - 1, false;
    var k := 0;
    assert lines[0..] == lines;
    ghost var values := RangeValues(lines);
    while k < |lines|
      invariant 0 <= k <= |lines|
      invariant !ranged ==> start == 0 && end == total - 1 && values == RangeValues(lines[k..])
      invariant ranged ==> |values| == 1 + |RangeValues(lines[k..])| && AnswerTo(values[0], total) == Served(start, end, true)
    {
      var line := lines[k];
      assert lines[k..][1..] == lines[k + 1..];
      k := k + 1;
      if IsRangeLine(line) {
        if ranged {
          return Refused;
        }
        var answer := AnswerTo(RangeValue(line), total);
        RefusedOrRanged(RangeValue(line), total);
        if answer.Refused? {
          FirstRefusalDecides(values, total);
          return Refused;
        }
        start, end, ranged := answer.start, answer.end, true;
      }
    }
    r := Served(start, end, ranged);
  }

  lemma FirstRefusalDecides(values: seq<string>, total: Int64)
    requires values != [] && AnswerTo(values[0], total).Refused?
    ensures (if |values| == 1 then AnswerTo(values[0], total) else Refused) == Refused
  {
  }

  lemma RefusedOrRanged(value: string, total: Int64)
    ensures AnswerTo(value, total).Served? ==> AnswerTo(value, total).ranged
  {
  }

  // ---- RFC 9110, sections 14.1.1 and 14.1.2 ----

  // What the grammar of range specifiers allows in one element of a byte range set.
  datatype RangeSpec = IntRange(first: nat, last: Option<nat>) | SuffixRange(length: nat)

  predicate IsOws(c: char) {
    c == ' ' || c == '\t'
  }

  function SkipOws(s: string): string {
    if s != "" && IsOws(s[0]) then SkipOws(s[1..]) else s
  }

  function DropOws(s: string): string {
    if s != "" && IsOws(s[|s| - 1]) then DropOws(s[..|s| - 1]) else s
  }

  function ParseSpec(s: string): Option<RangeSpec> {
    var i := Find(s, '-');
    if i == |s| || !AllDigits(s[..i]) || !AllDigits(s[i + 1..]) then None
    else if i > 0 then Some(IntRange(Number(s[..i]), if i + 1 == |s| then None else Some(Number(s[i + 1..]))))
    else if i + 1 < |s| then Some(SuffixRange(Number(s[i + 1..])))
    else None
  }

  predicate ValidSpec(spec: RangeSpec) {
    spec.IntRange? && spec.last.Some? ==> spec.first <= spec.last.value
  }

  // The elements of a comma-separated list: optional white space may stand next to a comma, and
  // empty elements are skipped (section 5.6.1).
  function Elements(parts: seq<string>, afterComma: bool): seq<string> {
    if parts == [] then []
    else
      var left := if afterComma then SkipOws(parts[0]) else parts[0];
      var element := if |parts| > 1 then DropOws(left) else left;
      (if element == "" then [] else [element]) + Elements(parts[1..], true)
  }

  // All elements of a valid set; None if one does not parse or is invalid.
  function ParseSet(elements: seq<string>): Option<seq<RangeSpec>> {
    if elements == [] then Some([])
    else
      match (ParseSpec(elements[0]), ParseSet(elements[1..]))
      case (Some(spec), Some(rest)) => if ValidSpec(spec) then Some([spec] + rest) else None
      case _ => None
  }

  // A specifier of byte ranges. The unit is compared without regard to case (section 14.1).
  function ParseSpecifier(value: string): Option<seq<RangeSpec>> {
    var i := Find(value, '=');
    if i == |value| || Lower(value[..i]) != "bytes" then None else ParseSet(Elements(Split(value[i + 1..], ','), false))
  }

  // The bytes a range selects from a representation of `total` bytes, if it is satisfiable.
  function Selected(spec: RangeSpec, total: nat): Option<(nat, nat)> {
    if total == 0 then None
    else
      match spec
      case IntRange(first, last) =>
        if first >= total then None
        else if last.None? || last.value >= total then Some((first, total - 1))
        else if last.value < first then None
        else Some((first, last.value))
      case SuffixRange(length) =>
        if length == 0 then None else if length >= total then Some((0, total - 1)) else Some((total - length, total - 1))
  }

  function SelectedBy(specs: seq<RangeSpec>, total: nat): seq<(nat, nat)> {
    if specs == [] then []
    else (if Selected(specs[0], total).Some? then [Selected(specs[0], total).value] else []) + SelectedBy(specs[1..], total)
  }

  // What the value of a Range field denotes: the satisfiable ranges of a valid set, in order.
  function Denoted(value: string, total: nat): seq<(nat, nat)> {
    match ParseSpecifier(value)
    case None => []
    case Some(specs) => SelectedBy(specs, total)
  }

  // The subset of the grammar the server reads: the unit in lower case, and no list.
  predicate SimpleForm(value: string) {
    UNIT <= value && ',' !in value
  }

  // The number behind the dash fits 63 bits.
  predicate LastFits(value: string) {
    match ParseSpecifier(value)
    case None => true
    case Some(specs) => forall k :: 0 <= k < |specs| ==> NumberFits(specs[k])
  }

  predicate NumberFits(spec: RangeSpec) {
    match spec
    case IntRange(_, last) => last.Some? ==> last.value <= MAX_INT64
    case SuffixRange(length) => length <= MAX_INT64
  }

  lemma UnitEndsAtEquals(value: string)
    requires UNIT <= value
    ensures Find(value, '=') == 5 && Lower(value[..5]) == "bytes" && value[5 + 1..] == value[6..]
  {
    assert value[..5] == UNIT[..5] && UNIT[..5] == "bytes" && value[5] == '=';
    FindIs(value, '=', 5);
    LowerOfBytes();
  }

  lemma SplitInTwo(a: string, b: string)
    requires ',' !in a && ',' !in b
    ensures Split(a + "," + b, ',') == [a, b]
  {
    var s := a + "," + b;
    assert s[|a|] == ',' && s[..|a|] == a && s[|a| + 1..] == b;
    FindIs(s, ',', |a|);
    NoCommaMeansOnePart(b);
  }

  lemma LowerOfBytes()
    ensures Lower("bytes") == "bytes"
  {
    assert "bytes"[1..] == "ytes" && "ytes"[1..] == "tes" && "tes"[1..] == "es" && "es"[1..] == "s" && "s"[1..] == "";
    assert Lower("es") == "es";
    assert Lower("tes") == "tes";
    assert Lower("ytes") == "ytes";
  }

  lemma NoCommaMeansOnePart(s: string)
    requires ',' !in s
    ensures Split(s, ',') == [s]
  {
  }

  // Read in simple form, a value is a set of at most one range.
  lemma SimpleSpecifier(value: string)
    requires SimpleForm(value)
    ensures ParseSpecifier(value) == if value[6..] == "" then Some([]) else ParseSet([value[6..]])
  {
    hide Find, Lower, ParseSpec;
    UnitEndsAtEquals(value);
    NoCommaMeansOnePart(value[6..]);
    var parts := [value[6..]];
    assert parts[1..] == [];
    assert Elements(parts, false) == if value[6..] == "" then [] else [value[6..]];
  }

  lemma OneSpec(s: string)
    ensures ParseSet([s]) == match ParseSpec(s)
                             case Some(spec) => if ValidSpec(spec) then Some([spec]) else None
                             case None => None
  {
    hide ParseSpec;
    assert [s][1..] == [];
    if ParseSpec(s).Some? {
      assert [ParseSpec(s).value] + [] == [ParseSpec(s).value];
    }
  }

  // The server reads nothing but simple forms.
  lemma OnlySimpleFormsMatch(value: string)
    requires Match(value).Some?
    ensures SimpleForm(value)
  {
    var rest := value[6..];
    var i := Find(rest, '-');
    assert value == UNIT + rest && rest == rest[..i] + [rest[i]] + rest[i + 1..];
    assert forall k :: 0 <= k < i ==> rest[..i][k] == rest[k];
    forall k | 0 <= k < |rest| ensures rest[k] != ',' {
      if k > i {
        assert rest[k] == rest[i + 1..][k - i - 1];
      }
    }
    assert ',' !in UNIT;
  }

  // On simple forms the server answers with what the range selects, unless the number behind the
  // dash does not fit.
  lemma SimpleFormAnswer(value: string, total: Int64)
    requires total >= 0 && SimpleForm(value) && value[6..] != ""
    ensures var spec := ParseSpec(value[6..]);
      AnswerTo(value, total) == if spec.Some? && ValidSpec(spec.value) && NumberFits(spec.value) && Selected(spec.value, total).Some?
                                then Served(Selected(spec.value, total).value.0, Selected(spec.value, total).value.1, true)
                                else Refused
  {
    hide Number, Find;
    EmptyIsZero();
  }

  // A range is served exactly if the field has the simple form, denotes bytes of the content, and
  // the number behind the dash fits 63 bits; what is served then is what it denotes.
  lemma ServedIsDenoted(value: string, total: Int64)
    requires total >= 0
    ensures AnswerTo(value, total).Served? <==> Denoted(value, total) != [] && SimpleForm(value) && LastFits(value)
    ensures AnswerTo(value, total).Served? ==>
      Denoted(value, total) == [(AnswerTo(value, total).start, AnswerTo(value, total).end)]
      && 0 <= AnswerTo(value, total).start <= AnswerTo(value, total).end < total
  {
    hide ParseSpec, Match, AnswerTo, ParseSpecifier, NumberFits, Selected, ParseSet, SelectedBy, LastFits;
    if SimpleForm(value) {
      SimpleSpecifier(value);
      var rest := value[6..];
      OneSpec(rest);
      if rest == "" {
        EmptyRestIsRefused(value, total);
        NothingSelected(total);
      } else {
        SimpleFormAnswer(value, total);
        var spec := ParseSpec(rest);
        if spec.Some? && ValidSpec(spec.value) {
          OneSelected(spec.value, total);
          SelectedIsInside(spec.value, total);
          FitsOne(value, spec.value);
        }
      }
    } else if Match(value).Some? {
      OnlySimpleFormsMatch(value);
    } else {
      NoMatchIsRefused(value, total);
    }
  }

  lemma NoMatchIsRefused(value: string, total: Int64)
    requires Match(value).None?
    ensures AnswerTo(value, total) == Refused
  {
  }

  lemma NothingSelected(total: nat)
    ensures SelectedBy([], total) == []
  {
  }

  lemma FitsOne(value: string, spec: RangeSpec)
    requires ParseSpecifier(value) == Some([spec])
    ensures LastFits(value) <==> NumberFits(spec)
  {
    hide ParseSpecifier, NumberFits;
    assert [spec][0] == spec;
  }

  lemma OneSelected(spec: RangeSpec, total: nat)
    ensures SelectedBy([spec], total) == if Selected(spec, total).Some? then [Selected(spec, total).value] else []
  {
    assert [spec][1..] == [];
  }

  lemma SelectedIsInside(spec: RangeSpec, total: nat)
    ensures Selected(spec, total).Some? ==> Selected(spec, total).value.0 <= Selected(spec, total).value.1 < total
  {
  }

  lemma EmptyRestIsRefused(value: string, total: Int64)
    requires SimpleForm(value) && value[6..] == ""
    ensures AnswerTo(value, total) == Refused
  {
  }

  // ---- Ranges the RFC would serve but the server refuses ----

  // Every list: a set with a comma is refused, whatever it denotes.
  lemma ListsAreRefused(value: string, total: Int64)
    requires ',' in value
    ensures AnswerTo(value, total) == Refused
  {
    hide AnswerTo, Match;
    if Match(value).Some? {
      OnlySimpleFormsMatch(value);
    } else {
      NoMatchIsRefused(value, total);
    }
  }

  // For instance the first and the last byte.
  lemma FirstAndLastAreRefused()
    ensures Denoted("bytes=0-0,-1", 10) == [(0, 0), (9, 9)] && AnswerTo("bytes=0-0,-1", 10) == Refused
  {
    hide Number, Find, Lower, Split, AnswerTo;
    var value: string, a: string, b: string := "bytes=0-0,-1", "0-0", "-1";
    assert UNIT <= value;
    UnitEndsAtEquals(value);
    assert value[6..] == a + "," + b;
    SplitInTwo(a, b);
    var parts: seq<string> := [a, b];
    assert parts[1..] == [b] && parts[1..][1..] == [];
    assert Elements([b], true) == [b];
    assert Elements(parts, false) == [a, b];
    FirstByte(a);
    LastByte(b);
    OneSpec(b);
    var x, y := IntRange(0, Some(0)), SuffixRange(1);
    assert parts[0] == a && ParseSet(parts[1..]) == Some([y]);
    assert ParseSet(parts) == Some([x] + [y]);
    OneSelected(y, 10);
    assert ([x] + [y])[1..] == [y];
    assert SelectedBy([x] + [y], 10) == [(0, 0)] + [(9, 9)];
    assert value[9] == ',';
    ListsAreRefused(value, 10);
  }

  lemma FirstByte(s: string)
    requires s == "0-0"
    ensures ParseSpec(s) == Some(IntRange(0, Some(0)))
  {
    hide Number, Find;
    DigitValues();
    assert s[..1] == "0" && s[2..] == "0";
    FindIs(s, '-', 1);
  }

  lemma LastByte(s: string)
    requires s == "-1"
    ensures ParseSpec(s) == Some(SuffixRange(1))
  {
    hide Number, Find;
    DigitValues();
    assert s[1..] == "1";
    FindIs(s, '-', 0);
  }

  // A unit that is not in lower case.
  lemma UpperCaseUnitIsRefused()
    ensures Denoted("Bytes=0-9", 10) == [(0, 9)] && AnswerTo("Bytes=0-9", 10) == Refused
  {
    hide Number, Find, Lower, Split, AnswerTo, ParseSpec;
    var value: string, a: string := "Bytes=0-9", "0-9";
    assert value[..5] == "Bytes" && value[6..] == a;
    FindIs(value, '=', 5);
    LowerOfUpper();
    NoCommaMeansOnePart(a);
    var parts: seq<string> := [a];
    assert parts[1..] == [];
    assert Elements(parts, false) == [a];
    FirstTen(a);
    OneSpec(a);
    OneSelected(IntRange(0, Some(9)), 10);
    assert value[0] != UNIT[0];
    NoMatchIsRefused(value, 10);
  }

  lemma LowerOfUpper()
    ensures Lower("Bytes") == "bytes"
  {
    hide Lower;
    LowerOfBytes();
    FirstLower("Bytes");
    FirstLower("bytes");
    assert "Bytes"[1..] == "bytes"[1..];
    assert LowerChar('B') == 'b' == LowerChar('b');
  }

  lemma FirstLower(s: string)
    requires s != ""
    ensures Lower(s) == [LowerChar(s[0])] + Lower(s[1..])
  {
  }

  lemma FirstTen(s: string)
    requires s == "0-9"
    ensures ParseSpec(s) == Some(IntRange(0, Some(9)))
  {
    hide Number, Find;
    DigitValues();
    assert s[..1] == "0" && s[2..] == "9";
    FindIs(s, '-', 1);
  }

  lemma DigitValues()
    ensures Number("0") == 0 && Number("1") == 1 && Number("9") == 9
  {
    assert "0"[..0] == "" && "1"[..0] == "" && "9"[..0] == "";
  }

  // A last position of 2^63.
  lemma OverflowingLastIsRefused()
    ensures var value := UNIT + "0-" + Decimal(MAX_INT64 + 1);
      Denoted(value, 10) == [(0, 9)] && AnswerTo(value, 10) == Refused
  {
    hide Decimal, Number;
    var last := Decimal(MAX_INT64 + 1);
    var rest := "0-" + last;
    var value := UNIT + "0-" + last;
    assert value[6..] == rest;
    assert rest[1..][0] == '-' && Find(rest[1..], '-') == 0 && Find(rest, '-') == 1;
    assert rest[..1] == "0" && rest[2..] == last;
    NumberOfDecimal(MAX_INT64 + 1);
    DigitValues();
    var spec := IntRange(0, Some(MAX_INT64 + 1));
    assert ParseSpec(rest) == Some(spec);
    assert Match(value).Some?;
    OnlySimpleFormsMatch(value);
    SimpleSpecifier(value);
    OneSpec(rest);
    OneSelected(spec, 10);
    SimpleFormAnswer(value, 10);
  }

  // ---- The response ----

  function StatusLines(ranged: bool): (s: string)
    ensures |s| <= 120
  {
    (if ranged then "HTTP/1.1 206 Partial Content\r\n" else "HTTP/1.1 200 OK\r\n")
    + "Accept-Ranges: bytes\r\n" + "Content-Type: application/octet-stream\r\n" + "Connection: close\r\n"
  }

  function LengthLine(length: nat): (s: string)
    ensures |s| == 18 + |Decimal(length)|
  {
    "Content-Length: " + Decimal(length) + "\r\n"
  }

  function RangeLine(start: nat, end: nat, total: nat): (s: string)
    ensures |s| == 25 + |Decimal(start)| + |Decimal(end)| + |Decimal(total)|
  {
    "Content-Range: bytes " + Decimal(start) + "-" + Decimal(end) + "/" + Decimal(total) + "\r\n"
  }

  // Everything in front of the body.
  function Response(start: nat, end: int, ranged: bool, total: nat): string
    requires start <= end + 1
  {
    StatusLines(ranged) + LengthLine(end + 1 - start) + (if ranged then RangeLine(start, Max(0, end), total) else "") + "\r\n"
  }

  // It is short whatever the numbers.
  lemma ResponseIsShort(start: nat, end: int, ranged: bool, total: nat)
    requires start <= end + 1 && end + 1 <= total <= MAX_INT64
    ensures 0 < |Response(start, end, ranged, total)| <= 300
  {
    hide Decimal, StatusLines, LengthLine, RangeLine;
    PowerOf19();
    DecimalLengthBound(end + 1 - start, 19);
    DecimalLengthBound(start, 19);
    DecimalLengthBound(Max(0, end), 19);
    DecimalLengthBound(total, 19);
  }

  lemma PowerOf19()
    ensures Pow10(19) > MAX_INT64
  {
    assert Pow10(5) == 10_0000;
    assert Pow10(10) == 100_0000_0000 by { assert Pow10(7) == 1000_0000; }
    assert Pow10(15) == 1000_0000_0000_0000 by { assert Pow10(12) == 100_0000_0000 * 100; }
    assert Pow10(19) == 1000_0000_0000_0000 * 1_0000 by { assert Pow10(17) == 1000_0000_0000_0000 * 100; }
  }
}
