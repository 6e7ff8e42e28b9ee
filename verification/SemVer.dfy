// Version strings of plugin metadata: which are accepted, and their order compared with the one
// Semantic Versioning 2.0.0 defines in item 11.
module SemVer {
  import opened Basics

  // ---- Taking version strings apart ----

  datatype Partition = Partition(head: string, found: bool, tail: string)

  // str.partition
  function PartitionAt(s: string, c: char): Partition {
    var i := Find(s, c);
    if i < |s| then Partition(s[..i], true, s[i + 1..]) else Partition(s, false, "")
  }

  function Join(parts: seq<string>, c: char): string
    requires |parts| >= 1
  {
    if |parts| == 1 then parts[0] else parts[0] + [c] + Join(parts[1..], c)
  }

  lemma {:induction false} JoinOfSplit(s: string, c: char)
    ensures Join(Split(s, c), c) == s
    decreases |s|
  {
    hide Find, Join;
    var i := Find(s, c);
    if i < |s| {
      var rest := s[i + 1..];
      JoinOfSplit(rest, c);
      JoinMore(s[..i], Split(rest, c), c);
      assert s == s[..i] + [c] + rest;
    } else {
      JoinOne(s, c);
    }
  }

  lemma JoinOne(s: string, c: char)
    ensures Join([s], c) == s
  {
  }

  lemma JoinMore(first: string, rest: seq<string>, c: char)
    requires |rest| >= 1
    ensures Join([first] + rest, c) == first + [c] + Join(rest, c)
  {
    assert ([first] + rest)[1..] == rest;
  }

  function PrecedencePart(text: string): string {
    PartitionAt(text, '+').head
  }

  function CoreItems(text: string): seq<string> {
    Split(PartitionAt(PrecedencePart(text), '-').head, '.')
  }

  function PrereleaseItems(text: string): seq<string> {
    var p := PartitionAt(PrecedencePart(text), '-');
    if p.found then Split(p.tail, '.') else []
  }

  // ---- Accepted versions ----

  predicate IdentifierChar(c: char) {
    IsDigit(c) || 'A' <= c <= 'Z' || 'a' <= c <= 'z' || c == '-'
  }

  predicate IsIdentifier(s: string) {
    s != "" && forall i :: 0 <= i < |s| ==> IdentifierChar(s[i])
  }

  // str.isdigit on an identifier
  predicate IsNumeric(s: string) {
    s != "" && AllDigits(s)
  }

  // A numeral without a leading zero.
  predicate IsNumeral(s: string) {
    IsNumeric(s) && (|s| > 1 ==> s[0] != '0')
  }

  predicate PrereleaseItemOk(s: string) {
    IsIdentifier(s) && (IsNumeric(s) ==> IsNumeral(s))
  }

  predicate AllOf(items: seq<string>, ok: string -> bool) {
    forall i :: 0 <= i < |items| ==> ok(items[i])
  }

  predicate Accepted(text: string) {
    var p := PartitionAt(text, '+');
    && text != ""
    && (p.found ==> '+' !in p.tail && AllOf(Split(p.tail, '.'), IsIdentifier))
    && |CoreItems(text)| == 3 && AllOf(CoreItems(text), IsNumeral)
    && AllOf(PrereleaseItems(text), PrereleaseItemOk)
  }

  // semantic_version: the stripped text, or the current version for the word "current".
  method SemanticVersion(strip: string -> string, value: string, currentVersion: string) returns (r: Option<string>)
    ensures var text := if strip(value) == "current" then strip(currentVersion) else strip(value);
      r == if Accepted(text) then Some(text) else None
  {
    var text := if strip(value) == "current" then strip(currentVersion) else strip(value);
    if text == "" {
      return None;
    }
    var p := PartitionAt(text, '+');
    if p.found {
      if '+' in p.tail {
        return None;
      }
      var buildOk := CheckItems(Split(p.tail, '.'), IsIdentifier);
      if !buildOk {
        return None;
      }
    }
    var q := PartitionAt(p.head, '-');
    var core := Split(q.head, '.');
    if |core| != 3 {
      return None;
    }
    var coreOk := CheckItems(core, IsNumeral);
    if !coreOk {
      return None;
    }
    if q.found {
      var prereleaseOk := CheckItems(Split(q.tail, '.'), PrereleaseItemOk);
      if !prereleaseOk {
        return None;
      }
    }
    r := Some(text);
  }

  method CheckItems(items: seq<string>, ok: string -> bool) returns (all: bool)
    ensures all <==> AllOf(items, ok)
  {
    for i := 0 to |items|
      invariant forall j :: 0 <= j < i ==> ok(items[j])
    {
      if !ok(items[i]) {
        return false;
      }
    }
    all := true;
  }

  // ---- The comparison, as it is computed ----

  function CompareText(a: string, b: string): int {
    if a == b then 0 else if StringLess(a, b) then -1 else 1
  }

  function CompareLengths(a: nat, b: nat): int {
    if a == b then 0 else if a < b then -1 else 1
  }

  // Numerals are compared by length, then as text.
  function CompareNumerals(a: string, b: string): int {
    if |a| != |b| then CompareLengths(|a|, |b|) else CompareText(a, b)
  }

  function CompareIdentifiers(a: string, b: string): int {
    if IsNumeric(a) != IsNumeric(b) then (if IsNumeric(a) then -1 else 1)
    else if IsNumeric(a) then CompareNumerals(a, b)
    else CompareText(a, b)
  }

  function CompareCores(a: seq<string>, b: seq<string>): int {
    if a == [] || b == [] then 0
    else if CompareNumerals(a[0], b[0]) != 0 then CompareNumerals(a[0], b[0])
    else CompareCores(a[1..], b[1..])
  }

  function ComparePrereleases(a: seq<string>, b: seq<string>): int {
    if a == [] || b == [] then CompareLengths(|a|, |b|)
    else if CompareIdentifiers(a[0], b[0]) != 0 then CompareIdentifiers(a[0], b[0])
    else ComparePrereleases(a[1..], b[1..])
  }

  function Compare(left: string, right: string): int {
    var core := CompareCores(CoreItems(left), CoreItems(right));
    var l, r := PrereleaseItems(left), PrereleaseItems(right);
    if core != 0 then core
    else if (l == []) != (r == []) then (if l != [] then -1 else 1)
    else ComparePrereleases(l, r)
  }

  // compare_semantic_versions, with its two loops.
  method CompareSemanticVersions(left: string, right: string) returns (r: int)
    ensures r == Compare(left, right)
  {
    hide CoreItems, PrereleaseItems, StringLess, IsNumeric;
    var lc, rc := CoreItems(left), CoreItems(right);
    var i := 0;
    assert lc[0..] == lc && rc[0..] == rc;
    while i < |lc| && i < |rc|
      invariant 0 <= i <= |lc| && i <= |rc|
      invariant CompareCores(lc, rc) == CompareCores(lc[i..], rc[i..])
    {
      assert lc[i..][1..] == lc[i + 1..] && rc[i..][1..] == rc[i + 1..];
      if |lc[i]| != |rc[i]| {
        return if |lc[i]| < |rc[i]| then -1 else 1;
      }
      if lc[i] != rc[i] {
        return if StringLess(lc[i], rc[i]) then -1 else 1;
      }
      i := i + 1;
    }
    var lp, rp := PrereleaseItems(left), PrereleaseItems(right);
    if (lp != []) != (rp != []) {
      return if lp != [] then -1 else 1;
    }
    i := 0;
    assert lp[0..] == lp && rp[0..] == rp;
    while i < |lp| && i < |rp|
      invariant 0 <= i <= |lp| && i <= |rp|
      invariant ComparePrereleases(lp, rp) == ComparePrereleases(lp[i..], rp[i..])
    {
      assert lp[i..][1..] == lp[i + 1..] && rp[i..][1..] == rp[i + 1..];
      var leftNumeric, rightNumeric := IsNumeric(lp[i]), IsNumeric(rp[i]);
      if leftNumeric != rightNumeric {
        return if leftNumeric then -1 else 1;
      }
      if leftNumeric {
        if |lp[i]| != |rp[i]| {
          return if |lp[i]| < |rp[i]| then -1 else 1;
        }
      }
      if lp[i] != rp[i] {
        return if StringLess(lp[i], rp[i]) then -1 else 1;
      }
      i := i + 1;
    }
    if |lp| == |rp| {
      return 0;
    }
    r := if |lp| < |rp| then -1 else 1;
  }

  // ---- Item 11 of Semantic Versioning 2.0.0 ----

  datatype Identifier = Numeric(number: nat) | Alphanumeric(text: string)

  datatype Version = Version(core: seq<nat>, prerelease: seq<Identifier>)

  function Sign(n: int): int {
    if n < 0 then -1 else if n > 0 then 1 else 0
  }

  function IdentifierOf(s: string): Identifier {
    if IsNumeric(s) then Numeric(Number(s)) else Alphanumeric(s)
  }

  function IdentifiersOf(items: seq<string>): (ids: seq<Identifier>)
    ensures |ids| == |items|
  {
    if items == [] then [] else [IdentifierOf(items[0])] + IdentifiersOf(items[1..])
  }

  function NumbersOf(items: seq<string>): (numbers: seq<nat>)
    ensures |numbers| == |items|
  {
    if items == [] then [] else [if AllDigits(items[0]) then Number(items[0]) else 0] + NumbersOf(items[1..])
  }

  function Parse(text: string): Version {
    Version(NumbersOf(CoreItems(text)), IdentifiersOf(PrereleaseItems(text)))
  }

  // 11.4.1 to 11.4.3
  function IdentifierPrecedence(a: Identifier, b: Identifier): int {
    if a.Numeric? && b.Numeric? then Sign(a.number - b.number)
    else if a.Numeric? then -1
    else if b.Numeric? then 1
    else CompareText(a.text, b.text)
  }

  // 11.2
  function CorePrecedence(a: seq<nat>, b: seq<nat>): int {
    if a == [] || b == [] then 0
    else if a[0] != b[0] then Sign(a[0] as int - b[0] as int)
    else CorePrecedence(a[1..], b[1..])
  }

  // 11.4 and 11.4.4
  function PrereleasePrecedence(a: seq<Identifier>, b: seq<Identifier>): int {
    if a == [] || b == [] then Sign(|a| - |b|)
    else if a[0] != b[0] then IdentifierPrecedence(a[0], b[0])
    else PrereleasePrecedence(a[1..], b[1..])
  }

  // 11.3
  function Precedence(a: Version, b: Version): int {
    if CorePrecedence(a.core, b.core) != 0 then CorePrecedence(a.core, b.core)
    else if a.prerelease != [] && b.prerelease == [] then -1
    else if a.prerelease == [] && b.prerelease != [] then 1
    else PrereleasePrecedence(a.prerelease, b.prerelease)
  }

  // ---- Length-then-text comparison is numeric ----

  lemma {:induction false} NumberFromFront(s: string)
    requires AllDigits(s) && s != ""
    ensures AllDigits(s[1..]) && Number(s) == (s[0] - '0') as int * Pow10(|s| - 1) + Number(s[1..])
    decreases |s|
  {
    if |s| == 1 {
      assert s[..0] == "" && s[1..] == "";
    } else {
      var front := s[..|s| - 1];
      NumberFromFront(front);
      assert front[1..] == s[1..][..|s| - 2];
      var d, p := (s[0] - '0') as int, Pow10(|s| - 2);
      assert Number(s[1..]) == Number(front[1..]) * 10 + (s[|s| - 1] - '0') as int;
      assert Pow10(|s| - 1) == 10 * p;
      TimesTen(d, p);
    }
  }

  lemma TimesTen(d: int, p: int)
    ensures d * p * 10 == d * (10 * p)
  {
  }

  lemma {:induction false} NumberBounds(s: string)
    requires AllDigits(s)
    ensures Number(s) < Pow10(|s|)
    ensures IsNumeral(s) && s != "0" ==> Pow10(|s| - 1) <= Number(s)
    decreases |s|
  {
    if s != "" {
      NumberFromFront(s);
      NumberBounds(s[1..]);
      var d, p := (s[0] - '0') as int, Pow10(|s| - 1);
      Scale(d, 9, p);
      if d >= 1 {
        Scale(1, d, p);
      }
      assert s[0] == '0' && |s| == 1 ==> s == "0";
    }
  }

  lemma {:induction false} TextOrderIsNumeric(a: string, b: string)
    requires AllDigits(a) && AllDigits(b) && |a| == |b|
    ensures StringLess(a, b) <==> Number(a) < Number(b)
    ensures a == b <==> Number(a) == Number(b)
  {
    hide Number, Pow10;
    EmptyIsZero();
    if a != "" {
      NumberFromFront(a);
      NumberFromFront(b);
      NumberBounds(a[1..]);
      NumberBounds(b[1..]);
      TextOrderIsNumeric(a[1..], b[1..]);
      LeadingDigitDecides((a[0] - '0') as int, (b[0] - '0') as int, Pow10(|a| - 1), Number(a[1..]), Number(b[1..]));
      assert a == [a[0]] + a[1..] && b == [b[0]] + b[1..];
    }
  }

  lemma LeadingDigitDecides(d: nat, e: nat, p: nat, x: nat, y: nat)
    requires x < p && y < p
    ensures d < e ==> d * p + x < e * p + y
    ensures d > e ==> d * p + x > e * p + y
    ensures d == e ==> (d * p + x < e * p + y <==> x < y) && (d * p + x == e * p + y <==> x == y)
  {
    if d < e {
      Scale(d + 1, e, p);
    } else if e < d {
      Scale(e + 1, d, p);
    }
  }

  lemma {:induction false} PowersGrow(j: nat, k: nat)
    requires j <= k
    ensures Pow10(j) <= Pow10(k)
  {
    if j < k {
      PowersGrow(j, k - 1);
    }
  }

  // Comparing numerals by length and then as text compares the numbers.
  lemma NumeralsCompareNumerically(a: string, b: string)
    requires IsNumeral(a) && IsNumeral(b)
    ensures CompareNumerals(a, b) == Sign(Number(a) - Number(b))
    ensures Number(a) == Number(b) ==> a == b
  {
    NumberBounds(a);
    NumberBounds(b);
    if |a| == |b| {
      TextOrderIsNumeric(a, b);
    } else if |a| < |b| {
      PowersGrow(|a|, |b| - 1);
    } else {
      PowersGrow(|b|, |a| - 1);
    }
  }

  lemma IdentifiersCompare(a: string, b: string)
    requires PrereleaseItemOk(a) && PrereleaseItemOk(b)
    ensures CompareIdentifiers(a, b) == IdentifierPrecedence(IdentifierOf(a), IdentifierOf(b))
    ensures CompareIdentifiers(a, b) == 0 <==> a == b
    ensures IdentifierOf(a) == IdentifierOf(b) <==> a == b
  {
    if IsNumeric(a) && IsNumeric(b) {
      NumeralsCompareNumerically(a, b);
    }
  }

  lemma {:induction false} CoresCompare(a: seq<string>, b: seq<string>)
    requires |a| == |b| && AllOf(a, IsNumeral) && AllOf(b, IsNumeral)
    ensures CompareCores(a, b) == CorePrecedence(NumbersOf(a), NumbersOf(b))
    ensures CompareCores(a, b) == 0 <==> a == b
  {
    hide CompareNumerals, IsNumeral, AllDigits, Number;
    if a != [] {
      NumeralHasDigits(a[0]);
      NumeralHasDigits(b[0]);
      NumeralsCompareNumerically(a[0], b[0]);
      CoresCompare(a[1..], b[1..]);
      assert NumbersOf(a)[1..] == NumbersOf(a[1..]) && NumbersOf(b)[1..] == NumbersOf(b[1..]);
      SameHeadAndTail(a, b);
    }
  }

  lemma NumeralHasDigits(a: string)
    requires IsNumeral(a)
    ensures AllDigits(a)
  {
  }

  lemma SameHeadAndTail(a: seq<string>, b: seq<string>)
    requires a != [] && b != []
    ensures a == b <==> a[0] == b[0] && a[1..] == b[1..]
  {
    assert a == [a[0]] + a[1..] && b == [b[0]] + b[1..];
  }

  lemma {:induction false} PrereleasesCompare(a: seq<string>, b: seq<string>)
    requires AllOf(a, PrereleaseItemOk) && AllOf(b, PrereleaseItemOk)
    ensures ComparePrereleases(a, b) == PrereleasePrecedence(IdentifiersOf(a), IdentifiersOf(b))
    ensures ComparePrereleases(a, b) == 0 <==> a == b
  {
    hide CompareIdentifiers, IdentifierPrecedence, IdentifierOf, PrereleaseItemOk;
    if a != [] && b != [] {
      IdentifiersCompare(a[0], b[0]);
      PrereleasesCompare(a[1..], b[1..]);
      assert IdentifiersOf(a)[1..] == IdentifiersOf(a[1..]) && IdentifiersOf(b)[1..] == IdentifiersOf(b[1..]);
      SameHeadAndTail(a, b);
    }
  }

  // On accepted versions the comparison is the precedence of item 11.
  lemma CompareIsPrecedence(left: string, right: string)
    requires Accepted(left) && Accepted(right)
    ensures Compare(left, right) == Precedence(Parse(left), Parse(right))
  {
    hide CoreItems, PrereleaseItems, PrecedencePart;
    CoresCompare(CoreItems(left), CoreItems(right));
    PrereleasesCompare(PrereleaseItems(left), PrereleaseItems(right));
  }

  // Two accepted versions compare equal exactly if they agree up to build metadata.
  lemma EqualUpToBuild(left: string, right: string)
    requires Accepted(left) && Accepted(right)
    ensures Compare(left, right) == 0 <==> PrecedencePart(left) == PrecedencePart(right)
  {
    CoresCompare(CoreItems(left), CoreItems(right));
    PrereleasesCompare(PrereleaseItems(left), PrereleaseItems(right));
    Rebuilt(PrecedencePart(left));
    Rebuilt(PrecedencePart(right));
  }

  lemma Rebuilt(s: string)
    ensures var p := PartitionAt(s, '-');
      && (p.found ==> s == Join(Split(p.head, '.'), '.') + "-" + Join(Split(p.tail, '.'), '.'))
      && (!p.found ==> s == Join(Split(p.head, '.'), '.'))
  {
    var p := PartitionAt(s, '-');
    JoinOfSplit(p.head, '.');
    JoinOfSplit(p.tail, '.');
    var i := Find(s, '-');
    if i < |s| {
      assert s == s[..i] + [s[i]] + s[i + 1..];
    }
  }

  // ---- It is a total preorder ----

  lemma IdentifiersAreOrdered(a: Identifier, b: Identifier)
    ensures IdentifierPrecedence(a, b) == -IdentifierPrecedence(b, a)
    ensures IdentifierPrecedence(a, b) == 0 <==> a == b
  {
    if a.Alphanumeric? && b.Alphanumeric? {
      StringOrder(a.text, b.text);
    }
  }

  lemma IdentifiersAreTransitive(a: Identifier, b: Identifier, c: Identifier)
    requires IdentifierPrecedence(a, b) < 0 && IdentifierPrecedence(b, c) < 0
    ensures IdentifierPrecedence(a, c) < 0
  {
    if a.Alphanumeric? && b.Alphanumeric? && c.Alphanumeric? {
      StringTransitive(a.text, b.text, c.text);
      StringOrder(a.text, c.text);
    }
  }

  lemma {:induction false} CoresAreOrdered(a: seq<nat>, b: seq<nat>)
    ensures CorePrecedence(a, b) == -CorePrecedence(b, a)
  {
    if a != [] && b != [] {
      CoresAreOrdered(a[1..], b[1..]);
    }
  }

  lemma {:induction false} CoresAreTransitive(a: seq<nat>, b: seq<nat>, c: seq<nat>)
    requires |a| == |b| == |c| && CorePrecedence(a, b) <= 0 && CorePrecedence(b, c) <= 0
    ensures CorePrecedence(a, c) <= 0
    ensures CorePrecedence(a, b) < 0 || CorePrecedence(b, c) < 0 ==> CorePrecedence(a, c) < 0
  {
    if a != [] && a[0] == b[0] == c[0] {
      CoresAreTransitive(a[1..], b[1..], c[1..]);
    }
  }

  lemma {:induction false} PrereleasesAreOrdered(a: seq<Identifier>, b: seq<Identifier>)
    ensures PrereleasePrecedence(a, b) == -PrereleasePrecedence(b, a)
  {
    if a != [] && b != [] {
      IdentifiersAreOrdered(a[0], b[0]);
      PrereleasesAreOrdered(a[1..], b[1..]);
    }
  }

  lemma {:induction false} PrereleasesAreTransitive(a: seq<Identifier>, b: seq<Identifier>, c: seq<Identifier>)
    requires PrereleasePrecedence(a, b) <= 0 && PrereleasePrecedence(b, c) <= 0
    ensures PrereleasePrecedence(a, c) <= 0
  {
    if a != [] && b != [] && c != [] {
      IdentifiersAreOrdered(a[0], b[0]);
      IdentifiersAreOrdered(b[0], c[0]);
      if a[0] == b[0] == c[0] {
        PrereleasesAreTransitive(a[1..], b[1..], c[1..]);
      } else if a[0] != b[0] && b[0] != c[0] {
        IdentifiersAreTransitive(a[0], b[0], c[0]);
        IdentifiersAreOrdered(a[0], c[0]);
      }
    }
  }

  lemma Antisymmetric(left: string, right: string)
    requires Accepted(left) && Accepted(right)
    ensures Compare(left, right) == -Compare(right, left)
  {
    hide Compare, CoreItems, PrereleaseItems;
    CompareIsPrecedence(left, right);
    CompareIsPrecedence(right, left);
    CoresAreOrdered(Parse(left).core, Parse(right).core);
    PrereleasesAreOrdered(Parse(left).prerelease, Parse(right).prerelease);
  }

  lemma PrecedenceIsTransitive(a: Version, b: Version, c: Version)
    requires |a.core| == |b.core| == |c.core| && Precedence(a, b) <= 0 && Precedence(b, c) <= 0
    ensures Precedence(a, c) <= 0
  {
    CoresAreTransitive(a.core, b.core, c.core);
    CoresAreOrdered(a.core, b.core);
    CoresAreOrdered(b.core, c.core);
    if CorePrecedence(a.core, b.core) == 0 && CorePrecedence(b.core, c.core) == 0 {
      if a.prerelease != [] && b.prerelease != [] && c.prerelease != [] {
        PrereleasesAreTransitive(a.prerelease, b.prerelease, c.prerelease);
      }
    }
  }

  lemma Transitive(a: string, b: string, c: string)
    requires Accepted(a) && Accepted(b) && Accepted(c) && Compare(a, b) <= 0 && Compare(b, c) <= 0
    ensures Compare(a, c) <= 0
  {
    hide Compare, CoreItems, PrereleaseItems, Precedence;
    CompareIsPrecedence(a, b);
    CompareIsPrecedence(b, c);
    CompareIsPrecedence(a, c);
    PrecedenceIsTransitive(Parse(a), Parse(b), Parse(c));
  }
}
