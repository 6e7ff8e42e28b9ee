// The accepted version strings are those the grammar of Semantic Versioning 2.0.0 generates.
module SemVerGrammar {
  import opened Basics
  import opened SemVer

  // Items 2, 9 and 10: three numeric identifiers, and dot-separated identifiers for a pre-release and
  // for build metadata, where there are any.
  datatype VersionText = VersionText(core: seq<string>, prerelease: seq<string>, build: seq<string>)

  // Zero, or digits that do not start with zero.
  predicate NumericIdentifier(s: string) {
    s == "0" || (s != "" && s[0] != '0' && AllDigits(s))
  }

  predicate BuildIdentifier(s: string) {
    s != "" && forall i :: 0 <= i < |s| ==> 'a' <= s[i] <= 'z' || 'A' <= s[i] <= 'Z' || '0' <= s[i] <= '9' || s[i] == '-'
  }

  // With at least one character that is not a digit.
  predicate AlphanumericIdentifier(s: string) {
    BuildIdentifier(s) && exists i :: 0 <= i < |s| && !('0' <= s[i] <= '9')
  }

  predicate IsVersion(v: VersionText) {
    && |v.core| == 3 && (forall i :: 0 <= i < 3 ==> NumericIdentifier(v.core[i]))
    && (forall i :: 0 <= i < |v.prerelease| ==> NumericIdentifier(v.prerelease[i]) || AlphanumericIdentifier(v.prerelease[i]))
    && (forall i :: 0 <= i < |v.build| ==> BuildIdentifier(v.build[i]))
  }

  function Tail(mark: char, items: seq<string>): string {
    if items == [] then "" else [mark] + Join(items, '.')
  }

  function Rendered(v: VersionText): string
    requires |v.core| == 3
  {
    Join(v.core, '.') + Tail('-', v.prerelease) + Tail('+', v.build)
  }

  // ---- Identifiers ----

  lemma Identifiers(s: string)
    ensures IsNumeral(s) <==> NumericIdentifier(s)
    ensures IsIdentifier(s) <==> BuildIdentifier(s)
    ensures PrereleaseItemOk(s) <==> NumericIdentifier(s) || AlphanumericIdentifier(s)
    ensures NumericIdentifier(s) ==> '-' !in s
    ensures BuildIdentifier(s) || NumericIdentifier(s) ==> '+' !in s && '.' !in s
  {
  }

  // ---- Joining and splitting ----

  lemma {:induction false} SplitOfJoin(parts: seq<string>, c: char)
    requires parts != [] && forall i :: 0 <= i < |parts| ==> c !in parts[i]
    ensures Split(Join(parts, c), c) == parts
  {
    hide Find;
    if |parts| == 1 {
      assert parts == [parts[0]];
    } else {
      var rest := Join(parts[1..], c);
      var s := parts[0] + [c] + rest;
      assert s[|parts[0]|] == c && s[..|parts[0]|] == parts[0] && s[|parts[0]| + 1..] == rest;
      FindIs(s, c, |parts[0]|);
      SplitOfJoin(parts[1..], c);
    }
  }

  lemma {:induction false} NotInJoin(parts: seq<string>, c: char, d: char)
    requires parts != [] && d != c && forall i :: 0 <= i < |parts| ==> d !in parts[i]
    ensures d !in Join(parts, c)
  {
    if |parts| > 1 {
      NotInJoin(parts[1..], c, d);
    }
  }

  lemma PartitionFound(a: string, c: char, b: string)
    requires c !in a
    ensures PartitionAt(a + [c] + b, c) == Partition(a, true, b)
  {
    hide Find;
    var s := a + [c] + b;
    assert s[|a|] == c && s[..|a|] == a && s[|a| + 1..] == b;
    FindIs(s, c, |a|);
  }

  // A text ends in the given tail.
  lemma PartitionTail(a: string, mark: char, items: seq<string>)
    requires mark !in a
    ensures PartitionAt(a + Tail(mark, items), mark)
            == if items == [] then Partition(a, false, "") else Partition(a, true, Join(items, '.'))
  {
    hide Find, Join;
    if items == [] {
      assert a + "" == a;
    } else {
      assert a + ([mark] + Join(items, '.')) == a + [mark] + Join(items, '.');
      PartitionFound(a, mark, Join(items, '.'));
    }
  }

  lemma PartitionJoins(s: string, c: char)
    ensures var p := PartitionAt(s, c);
      s == if p.found then p.head + [c] + p.tail else p.head
  {
    hide Find;
  }

  // ---- The grammar ----

  lemma RenderedIsAccepted(v: VersionText)
    requires IsVersion(v)
    ensures Accepted(Rendered(v))
    ensures CoreItems(Rendered(v)) == v.core && PrereleaseItems(Rendered(v)) == v.prerelease
  {
    hide Split, Join, PartitionAt, IsNumeral, IsIdentifier, PrereleaseItemOk, NumericIdentifier, BuildIdentifier,
         AlphanumericIdentifier, Tail;
    forall s: string
      ensures (IsNumeral(s) <==> NumericIdentifier(s)) && (IsIdentifier(s) <==> BuildIdentifier(s))
      ensures PrereleaseItemOk(s) <==> NumericIdentifier(s) || AlphanumericIdentifier(s)
    {
      Identifiers(s);
    }
    var head := Join(v.core, '.') + Tail('-', v.prerelease);
    HasNoMarks(v);
    PartitionTail(head, '+', v.build);
    PartitionTail(Join(v.core, '.'), '-', v.prerelease);
    PartsSplit(v);
    NotEmpty(v);
  }

  lemma HasNoMarks(v: VersionText)
    requires IsVersion(v)
    ensures '-' !in Join(v.core, '.') && '+' !in Join(v.core, '.') + Tail('-', v.prerelease)
    ensures v.build != [] ==> '+' !in Join(v.build, '.')
  {
    hide Join, NumericIdentifier, BuildIdentifier, AlphanumericIdentifier;
    NoMarksInParts(v);
    NotInJoin(v.core, '.', '-');
    NotInJoin(v.core, '.', '+');
    if v.prerelease != [] {
      NotInJoin(v.prerelease, '.', '+');
    }
    if v.build != [] {
      NotInJoin(v.build, '.', '+');
    }
  }

  lemma NoMarksInParts(v: VersionText)
    requires IsVersion(v)
    ensures forall i :: 0 <= i < 3 ==> '-' !in v.core[i] && '+' !in v.core[i] && '.' !in v.core[i]
    ensures forall i :: 0 <= i < |v.prerelease| ==> '+' !in v.prerelease[i] && '.' !in v.prerelease[i]
    ensures forall i :: 0 <= i < |v.build| ==> '+' !in v.build[i] && '.' !in v.build[i]
  {
    hide NumericIdentifier, BuildIdentifier;
    forall s: string
      ensures NumericIdentifier(s) ==> '-' !in s
      ensures BuildIdentifier(s) || NumericIdentifier(s) ==> '+' !in s && '.' !in s
    {
      Identifiers(s);
    }
  }

  lemma PartsSplit(v: VersionText)
    requires IsVersion(v)
    ensures Split(Join(v.core, '.'), '.') == v.core
    ensures v.prerelease != [] ==> Split(Join(v.prerelease, '.'), '.') == v.prerelease
    ensures v.build != [] ==> Split(Join(v.build, '.'), '.') == v.build
  {
    hide Split, Join, NumericIdentifier, BuildIdentifier, AlphanumericIdentifier;
    NoMarksInParts(v);
    SplitOfJoin(v.core, '.');
    if v.prerelease != [] {
      SplitOfJoin(v.prerelease, '.');
    }
    if v.build != [] {
      SplitOfJoin(v.build, '.');
    }
  }

  lemma NotEmpty(v: VersionText)
    requires IsVersion(v)
    ensures Rendered(v) != ""
  {
    assert v.core[0] != "";
  }

  // The parts of an accepted text.
  function PartsOf(text: string): VersionText {
    var p := PartitionAt(text, '+');
    VersionText(CoreItems(text), PrereleaseItems(text), if p.found then Split(p.tail, '.') else [])
  }

  lemma AcceptedIsRendered(text: string)
    requires Accepted(text)
    ensures IsVersion(PartsOf(text)) && Rendered(PartsOf(text)) == text
  {
    hide Split, Join, PartitionAt, IsNumeral, IsIdentifier, PrereleaseItemOk, NumericIdentifier, BuildIdentifier,
         AlphanumericIdentifier;
    forall s: string
      ensures (IsNumeral(s) <==> NumericIdentifier(s)) && (IsIdentifier(s) <==> BuildIdentifier(s))
      ensures PrereleaseItemOk(s) <==> NumericIdentifier(s) || AlphanumericIdentifier(s)
    {
      Identifiers(s);
    }
    var p := PartitionAt(text, '+');
    var q := PartitionAt(p.head, '-');
    PartitionJoins(text, '+');
    PartitionJoins(p.head, '-');
    JoinOfSplit(q.head, '.');
    JoinOfSplit(q.tail, '.');
    JoinOfSplit(p.tail, '.');
  }

  predicate HasForm(text: string, v: VersionText) {
    IsVersion(v) && text == Rendered(v)
  }

  // A text is accepted if and only if it has the form of a version; its core and pre-release are then
  // read as written.
  lemma AcceptedIsGrammar(text: string)
    ensures Accepted(text) <==> exists v :: HasForm(text, v)
    ensures forall v :: HasForm(text, v) ==> CoreItems(text) == v.core && PrereleaseItems(text) == v.prerelease
  {
    hide Accepted, IsVersion, Rendered, CoreItems, PrereleaseItems;
    if Accepted(text) {
      AcceptedIsRendered(text);
      assert HasForm(text, PartsOf(text));
    }
    forall v | HasForm(text, v) ensures Accepted(text) && CoreItems(text) == v.core && PrereleaseItems(text) == v.prerelease {
      RenderedIsAccepted(v);
    }
  }
}
