/**
 Version comparison as section 3.3 of the Gentoo Package Manager Specification defines it
 on parsed versions (algorithms 3.1 to 3.7), and exactly when the client agrees with it.
 */
module PmsVersions {
  import opened Common
  import opened Versions

  datatype SuffixName = Alpha | Beta | Pre | Rc | P

  datatype VersionSuffix = VersionSuffix(name: SuffixName, digits: string)

  datatype PmsVersion = PmsVersion(
    numbers: seq<string>,
    letter: Option<char>,
    suffixes: seq<VersionSuffix>,
    revision: Option<string>
  )

  // ── The specification ─────────────────────────────────────────────

  function StripTrailingZeros(s: string): string {
    if s != [] && s[|s|-1] == '0' then StripTrailingZeros(s[..|s|-1]) else s
  }

  /** Algorithm 3.3: components after the first. */
  function SpecComponent(x: string, y: string): Ordering
    requires x != [] && y != [] && AllDigits(x) && AllDigits(y)
  {
    if x[0] == '0' || y[0] == '0' then CompareString(StripTrailingZeros(x), StripTrailingZeros(y))
    else CompareInt(DigitsValue(x), DigitsValue(y))
  }

  predicate NumbersOk(numbers: seq<string>) {
    forall i :: 0 <= i < |numbers| ==> numbers[i] != [] && AllDigits(numbers[i])
  }

  function SpecComponents(a: seq<string>, b: seq<string>): Ordering
    requires NumbersOk(a) && NumbersOk(b)
  {
    if a == [] || b == [] then CompareInt(|a|, |b|)
    else Then(SpecComponent(a[0], b[0]), SpecComponents(a[1..], b[1..]))
  }

  /** Algorithm 3.2: the first component is always compared as an integer. */
  function SpecNumbers(a: seq<string>, b: seq<string>): Ordering
    requires NumbersOk(a) && NumbersOk(b) && a != [] && b != []
  {
    Then(CompareInt(DigitsValue(a[0]), DigitsValue(b[0])), SpecComponents(a[1..], b[1..]))
  }

  function NameOrder(name: SuffixName): int {
    match name
    case Alpha => 0
    case Beta => 1
    case Pre => 2
    case Rc => 3
    case P => 4
  }

  predicate SuffixesOk(suffixes: seq<VersionSuffix>) {
    forall i :: 0 <= i < |suffixes| ==> AllDigits(suffixes[i].digits)
  }

  /** Algorithms 3.5 and 3.6. */
  function SpecSuffixes(a: seq<VersionSuffix>, b: seq<VersionSuffix>): Ordering
    requires SuffixesOk(a) && SuffixesOk(b)
  {
    if a == [] && b == [] then Equal
    else if b == [] then (if a[0].name.P? then Greater else Less)
    else if a == [] then (if b[0].name.P? then Less else Greater)
    else if a[0].name == b[0].name then
      Then(CompareInt(DigitsValue(a[0].digits), DigitsValue(b[0].digits)), SpecSuffixes(a[1..], b[1..]))
    else CompareInt(NameOrder(a[0].name), NameOrder(b[0].name))
  }

  predicate WellFormed(v: PmsVersion) {
    && v.numbers != [] && NumbersOk(v.numbers)
    && (v.letter.Some? ==> 'a' <= v.letter.value <= 'z')
    && SuffixesOk(v.suffixes)
    && (v.revision.Some? ==> v.revision.value != [] && AllDigits(v.revision.value))
  }

  function SpecRevision(revision: Option<string>): nat
    requires revision.Some? ==> AllDigits(revision.value)
  {
    if revision.Some? then DigitsValue(revision.value) else 0
  }

  /** Algorithm 3.1. */
  function SpecCompare(a: PmsVersion, b: PmsVersion): Ordering
    requires WellFormed(a) && WellFormed(b)
  {
    Then(SpecNumbers(a.numbers, b.numbers),
    Then(CompareLetters(a.letter, b.letter),
    Then(SpecSuffixes(a.suffixes, b.suffixes),
         CompareInt(SpecRevision(a.revision), SpecRevision(b.revision)))))
  }

  // ── Versions as strings ───────────────────────────────────────────

  function NameText(name: SuffixName): string {
    match name
    case Alpha => "alpha"
    case Beta => "beta"
    case Pre => "pre"
    case Rc => "rc"
    case P => "p"
  }

  function LetterText(letter: Option<char>): string {
    if letter.Some? then [letter.value] else ""
  }

  function NumbersText(numbers: seq<string>): string {
    if |numbers| == 0 then ""
    else if |numbers| == 1 then numbers[0]
    else numbers[0] + "." + NumbersText(numbers[1..])
  }

  function SuffixesText(suffixes: seq<VersionSuffix>): string {
    if suffixes == [] then "" else "_" + NameText(suffixes[0].name) + suffixes[0].digits + SuffixesText(suffixes[1..])
  }

  function BaseText(v: PmsVersion): string {
    NumbersText(v.numbers) + LetterText(v.letter) + SuffixesText(v.suffixes)
  }

  function Render(v: PmsVersion): string {
    BaseText(v) + if v.revision.Some? then "-r" + v.revision.value else ""
  }

  // ── Domain of the comparison ──────────────────────────────────────

  predicate FitsU64(s: string) {
    AllDigits(s) && DigitsValue(s) < TWO64
  }

  predicate Canonical(s: string) {
    s == "0" || (s != [] && s[0] != '0')
  }

  /** Numbers fit 64 bits, and components after the first have no superfluous leading zeros. */
  predicate InDomain(v: PmsVersion) {
    && WellFormed(v)
    && (forall i :: 0 <= i < |v.numbers| ==> FitsU64(v.numbers[i]))
    && (forall i :: 1 <= i < |v.numbers| ==> Canonical(v.numbers[i]))
    && (forall i :: 0 <= i < |v.suffixes| ==> FitsU64(v.suffixes[i].digits))
    && (v.revision.Some? ==> FitsU64(v.revision.value))
  }

  predicate SameValues(a: seq<string>, b: seq<string>)
    requires NumbersOk(a) && NumbersOk(b) && |a| <= |b|
  {
    forall i :: 0 <= i < |a| ==> DigitsValue(a[i]) == DigitsValue(b[i])
  }

  /**
   The shorter version's numbers begin the longer one's, and a letter or a patch suffix
   follows them: the client ranks that letter or suffix against the next number.
   */
  predicate Shadows(a: PmsVersion, b: PmsVersion)
    requires WellFormed(a) && WellFormed(b)
  {
    && |a.numbers| < |b.numbers|
    && SameValues(a.numbers, b.numbers)
    && (a.letter.Some? || (a.suffixes != [] && a.suffixes[0].name.P?))
  }

  // ── What the client sees of a rendered version ────────────────────

  function NumberParts(numbers: seq<string>, letter: Option<char>): seq<string> {
    if |numbers| == 0 then []
    else if |numbers| == 1 then [numbers[0] + LetterText(letter)]
    else [numbers[0]] + NumberParts(numbers[1..], letter)
  }

  function SuffixParts(suffixes: seq<VersionSuffix>): seq<string> {
    if suffixes == [] then [] else [NameText(suffixes[0].name) + suffixes[0].digits] + SuffixParts(suffixes[1..])
  }

  predicate NoSeparator(s: string) {
    forall i :: 0 <= i < |s| ==> !IsSeparator(s[i])
  }

  lemma SplitNext(s: string)
    requires s != []
    ensures SplitParts(s) == if IsSeparator(s[0]) then [""] + SplitParts(s[1..])
                             else [[s[0]] + SplitParts(s[1..])[0]] + SplitParts(s[1..])[1..]
  {
  }

  lemma NothingToSplit()
    ensures SplitParts([]) == [""]
  {
  }

  lemma {:induction false} SplitWord(s: string, rest: string)
    requires NoSeparator(s) && (rest != [] ==> IsSeparator(rest[0]))
    ensures SplitParts(s + rest) == if rest == [] then [s] else [s] + SplitParts(rest[1..])
  {
    hide SplitParts, IsSeparator;
    if s == [] {
      assert s + rest == rest;
      if rest == [] { NothingToSplit(); } else { SplitNext(rest); }
    } else {
      SplitWord(s[1..], rest);
      SplitNext(s + rest);
      assert (s + rest)[1..] == s[1..] + rest;
      assert [s[0]] + s[1..] == s;
    }
  }

  lemma {:induction false} SplitSuffixes(head: string, suffixes: seq<VersionSuffix>)
    requires NoSeparator(head) && SuffixesOk(suffixes)
    ensures SplitParts(head + SuffixesText(suffixes)) == [head] + SuffixParts(suffixes)
    decreases |suffixes|
  {
    hide SplitParts;
    SplitWord(head, SuffixesText(suffixes));
    if suffixes != [] {
      var word := NameText(suffixes[0].name) + suffixes[0].digits;
      assert SuffixesText(suffixes)[1..] == word + SuffixesText(suffixes[1..]);
      SplitSuffixes(word, suffixes[1..]);
    }
  }

  lemma {:induction false} SplitNumbers(numbers: seq<string>, letter: Option<char>, suffixes: seq<VersionSuffix>)
    requires numbers != [] && NumbersOk(numbers) && SuffixesOk(suffixes)
    requires letter.Some? ==> 'a' <= letter.value <= 'z'
    ensures SplitParts(NumbersText(numbers) + LetterText(letter) + SuffixesText(suffixes))
            == NumberParts(numbers, letter) + SuffixParts(suffixes)
    decreases |numbers|
  {
    hide SplitParts, SuffixesText, SuffixParts;
    if |numbers| == 1 {
      SplitSuffixes(numbers[0] + LetterText(letter), suffixes);
    } else {
      var rest := NumbersText(numbers[1..]) + LetterText(letter) + SuffixesText(suffixes);
      assert NumbersText(numbers) + LetterText(letter) + SuffixesText(suffixes) == numbers[0] + ("." + rest);
      SplitWord(numbers[0], "." + rest);
      SplitNumbers(numbers[1..], letter, suffixes);
      assert ("." + rest)[1..] == rest;
    }
  }

  predicate NoDash(s: string) {
    forall i :: 0 <= i < |s| ==> s[i] != '-'
  }

  lemma {:induction false} NumbersNoDash(numbers: seq<string>)
    requires NumbersOk(numbers)
    ensures NoDash(NumbersText(numbers))
  {
    if |numbers| > 1 { NumbersNoDash(numbers[1..]); }
  }

  lemma {:induction false} SuffixesNoDash(suffixes: seq<VersionSuffix>)
    requires SuffixesOk(suffixes)
    ensures NoDash(SuffixesText(suffixes))
  {
    if suffixes != [] { SuffixesNoDash(suffixes[1..]); }
  }

  lemma {:induction false} NoDashNoRevision(s: string, n: nat)
    requires n <= |s| && forall i :: 0 <= i < n ==> s[i] != '-'
    ensures LastDashR(s, n) == None
  {
    if n > 0 { NoDashNoRevision(s, n - 1); }
  }

  lemma {:induction false} DashRFound(s: string, pos: nat, n: nat)
    requires pos < n <= |s| && pos + 1 < |s| && s[pos] == '-' && s[pos + 1] == 'r'
    requires forall i :: pos < i < n ==> s[i] != '-'
    ensures LastDashR(s, n) == Some(pos)
  {
    if n - 1 != pos { DashRFound(s, pos, n - 1); }
  }

  lemma RenderedPieces(v: PmsVersion)
    requires WellFormed(v)
    ensures SplitRevision(Render(v)) == (BaseText(v), if v.revision.Some? then Some("r" + v.revision.value) else None)
    ensures SplitParts(BaseText(v)) == NumberParts(v.numbers, v.letter) + SuffixParts(v.suffixes)
  {
    hide SplitParts, NumbersText, SuffixesText, NumberParts, SuffixParts, LastDashR;
    SplitNumbers(v.numbers, v.letter, v.suffixes);
    NumbersNoDash(v.numbers);
    SuffixesNoDash(v.suffixes);
    var base := BaseText(v);
    var s := Render(v);
    if v.revision.Some? {
      DashRFound(s, |base|, |s|);
      assert s[|base| + 2..] == v.revision.value;
      assert s[|base| + 1..] == "r" + v.revision.value;
    } else {
      NoDashNoRevision(s, |s|);
      assert s == base;
    }
  }

  // ── Keys of rendered components ───────────────────────────────────

  lemma {:induction false} DigitPrefixIs(s: string, n: nat)
    requires n <= |s| && AllDigits(s[..n]) && (n < |s| ==> !IsDigit(s[n]))
    ensures DigitPrefix(s) == n
  {
    if n > 0 {
      assert s[0] == s[..n][0];
      assert s[1..][..n-1] == s[..n][1..];
      DigitPrefixIs(s[1..], n - 1);
    }
  }

  lemma NumberKey(digits: string, letter: Option<char>)
    requires digits != [] && FitsU64(digits) && (letter.Some? ==> 'a' <= letter.value <= 'z')
    ensures KeyOf(digits + LetterText(letter)) == Number(DigitsValue(digits), letter)
  {
    var s := digits + LetterText(letter);
    assert s[..|digits|] == digits;
    DigitPrefixIs(s, |digits|);
    assert IsDigit(s[0]);
    assert !("alpha" <= s) && !("beta" <= s) && !("pre" <= s) && !("rc" <= s) && !("p" <= s);
  }

  function KindOf(name: SuffixName): int {
    match name
    case Alpha => -4
    case Beta => -3
    case Pre => -2
    case Rc => -1
    case P => 1
  }

  lemma SuffixKey(suffix: VersionSuffix)
    requires FitsU64(suffix.digits)
    ensures KeyOf(NameText(suffix.name) + suffix.digits) == Suffix(KindOf(suffix.name), DigitsValue(suffix.digits))
  {
    var name := NameText(suffix.name);
    var s := name + suffix.digits;
    assert s[|name|..] == suffix.digits;
    assert s[0] == name[0];
    assert suffix.name.P? && suffix.digits != [] ==> s[1] == suffix.digits[0] && !("pre" <= s);
    SuffixKindWithNumberIs(suffix);
  }

  lemma SuffixKindWithNumberIs(suffix: VersionSuffix)
    requires FitsU64(suffix.digits)
    ensures var s := NameText(suffix.name) + suffix.digits;
            SuffixKindWithNumber(s, NameText(suffix.name), KindOf(suffix.name)) == Some((KindOf(suffix.name), DigitsValue(suffix.digits)))
  {
    var name := NameText(suffix.name);
    assert (name + suffix.digits)[|name|..] == suffix.digits;
  }

  // ── Agreement ─────────────────────────────────────────────────────

  predicate AllFit(numbers: seq<string>) {
    NumbersOk(numbers) && forall i :: 0 <= i < |numbers| ==> FitsU64(numbers[i])
  }

  predicate AllCanonical(numbers: seq<string>) {
    forall i :: 0 <= i < |numbers| ==> Canonical(numbers[i])
  }

  predicate SuffixesFit(suffixes: seq<VersionSuffix>) {
    forall i :: 0 <= i < |suffixes| ==> FitsU64(suffixes[i].digits)
  }

  lemma {:induction false} SuffixesAgree(a: seq<VersionSuffix>, b: seq<VersionSuffix>)
    requires SuffixesFit(a) && SuffixesFit(b)
    ensures CompareParts(SuffixParts(a), SuffixParts(b)) == SpecSuffixes(a, b)
    decreases |a| + |b|
  {
    hide ComparePart, KeyOf, CompareParts, NameText, DigitsValue;
    PartsUnfold(SuffixParts(a), SuffixParts(b));
    PartByKey(Head(SuffixParts(a)), Head(SuffixParts(b)));
    EmptyKey();
    if a != [] { SuffixKey(a[0]); }
    if b != [] { SuffixKey(b[0]); }
    if a != [] && b != [] {
      SuffixesAgree(a[1..], b[1..]);
    } else if a == [] && b == [] {
      NothingCompared();
    }
  }

  lemma NothingCompared()
    ensures CompareParts([], []) == Equal
  {
  }

  lemma EmptyKey()
    ensures KeyOf("") == Word("")
  {
  }

  lemma {:induction false} NonzeroValue(s: string)
    requires s != [] && AllDigits(s) && s[0] != '0'
    ensures DigitsValue(s) > 0 && StripTrailingZeros(s) != []
  {
    if |s| > 1 {
      NonzeroValue(s[..|s|-1]);
    }
  }

  /** Without superfluous leading zeros algorithm 3.3 is integer comparison. */
  lemma CanonicalComponent(x: string, y: string)
    requires x != [] && y != [] && AllDigits(x) && AllDigits(y) && Canonical(x) && Canonical(y)
    ensures SpecComponent(x, y) == CompareInt(DigitsValue(x), DigitsValue(y))
  {
    if x[0] != '0' { NonzeroValue(x); }
    if y[0] != '0' { NonzeroValue(y); }
    assert DigitsValue("0") == 0 && StripTrailingZeros("0") == "";
  }

  /** Components compared as integers, the longer list winning a tie. */
  function ValueOrder(a: seq<string>, b: seq<string>): Ordering
    requires NumbersOk(a) && NumbersOk(b)
  {
    if a == [] || b == [] then CompareInt(|a|, |b|)
    else Then(CompareInt(DigitsValue(a[0]), DigitsValue(b[0])), ValueOrder(a[1..], b[1..]))
  }

  lemma {:induction false} SpecIsValueOrder(a: seq<string>, b: seq<string>)
    requires NumbersOk(a) && NumbersOk(b) && AllCanonical(a) && AllCanonical(b)
    ensures SpecComponents(a, b) == ValueOrder(a, b)
  {
    if a != [] && b != [] {
      CanonicalComponent(a[0], b[0]);
      SpecIsValueOrder(a[1..], b[1..]);
    }
  }

  /** What follows a version's numbers. */
  datatype Ending = Ending(letter: Option<char>, suffixes: seq<VersionSuffix>)

  predicate EndingOk(e: Ending) {
    (e.letter.Some? ==> 'a' <= e.letter.value <= 'z') && SuffixesFit(e.suffixes)
  }

  function Parts(numbers: seq<string>, e: Ending): seq<string> {
    NumberParts(numbers, e.letter) + SuffixParts(e.suffixes)
  }

  function Expected(a: seq<string>, ea: Ending, b: seq<string>, eb: Ending): Ordering
    requires NumbersOk(a) && NumbersOk(b) && EndingOk(ea) && EndingOk(eb)
  {
    Then(ValueOrder(a, b), Then(CompareLetters(ea.letter, eb.letter), SpecSuffixes(ea.suffixes, eb.suffixes)))
  }

  predicate Eclipses(a: seq<string>, ea: Ending, b: seq<string>)
    requires NumbersOk(a) && NumbersOk(b)
  {
    |a| < |b| && SameValues(a, b) && (ea.letter.Some? || (ea.suffixes != [] && ea.suffixes[0].name.P?))
  }

  lemma HeadPart(numbers: seq<string>, e: Ending)
    requires numbers != []
    ensures Head(Parts(numbers, e)) == numbers[0] + LetterText(if |numbers| == 1 then e.letter else None)
    ensures Tail(Parts(numbers, e)) == if |numbers| == 1 then SuffixParts(e.suffixes) else Parts(numbers[1..], e)
  {
    if |numbers| > 1 {
      assert numbers[0] + "" == numbers[0];
    }
  }

  /** The first components decide the same way on both sides, letters aside. */
  lemma HeadsCompared(a: seq<string>, ea: Ending, b: seq<string>, eb: Ending)
    requires AllFit(a) && AllFit(b) && a != [] && b != [] && EndingOk(ea) && EndingOk(eb)
    ensures CompareParts(Parts(a, ea), Parts(b, eb))
            == Then(CompareInt(DigitsValue(a[0]), DigitsValue(b[0])),
               Then(CompareLetters(if |a| == 1 then ea.letter else None, if |b| == 1 then eb.letter else None),
                    CompareParts(Tail(Parts(a, ea)), Tail(Parts(b, eb)))))
  {
    hide ComparePart, KeyOf;
    HeadPart(a, ea);
    HeadPart(b, eb);
    PartsUnfold(Parts(a, ea), Parts(b, eb));
    PartByKey(Head(Parts(a, ea)), Head(Parts(b, eb)));
    NumberKey(a[0], if |a| == 1 then ea.letter else None);
    NumberKey(b[0], if |b| == 1 then eb.letter else None);
  }

  /** A suffix or nothing against a further number. */
  lemma SuffixAgainstNumber(suffixes: seq<VersionSuffix>, b: seq<string>, eb: Ending)
    requires SuffixesFit(suffixes) && AllFit(b) && b != [] && EndingOk(eb)
    ensures CompareParts(SuffixParts(suffixes), Parts(b, eb)) == if suffixes != [] && suffixes[0].name.P? then Greater else Less
  {
    hide ComparePart, KeyOf, CompareParts, Parts, LetterText, FitsU64, NameText;
    HeadPart(b, eb);
    PartsUnfold(SuffixParts(suffixes), Parts(b, eb));
    PartByKey(Head(SuffixParts(suffixes)), Head(Parts(b, eb)));
    NumberKey(b[0], if |b| == 1 then eb.letter else None);
    EmptyKey();
    if suffixes != [] { SuffixKey(suffixes[0]); }
  }

  lemma ShorterAgainstLonger(a: seq<string>, ea: Ending, b: seq<string>, eb: Ending)
    requires AllFit(a) && AllFit(b) && |a| == 1 && |b| > 1 && EndingOk(ea) && EndingOk(eb)
    ensures CompareParts(Parts(a, ea), Parts(b, eb)) == Expected(a, ea, b, eb) <==> !Eclipses(a, ea, b)
  {
    hide CompareParts, SpecSuffixes;
    HeadsCompared(a, ea, b, eb);
    HeadPart(a, ea);
    HeadPart(b, eb);
    SuffixAgainstNumber(ea.suffixes, b[1..], eb);
    assert ValueOrder(a[1..], b[1..]) == Less;
  }

  lemma {:induction false} PartsAgree(a: seq<string>, ea: Ending, b: seq<string>, eb: Ending)
    requires AllFit(a) && AllFit(b) && a != [] && b != [] && EndingOk(ea) && EndingOk(eb)
    ensures CompareParts(Parts(a, ea), Parts(b, eb)) == Expected(a, ea, b, eb) <==> !Eclipses(a, ea, b) && !Eclipses(b, eb, a)
    decreases |a| + |b|
  {
    hide CompareParts, Expected, Eclipses;
    if |a| == 1 && |b| == 1 {
      OneAgainstOne(a, ea, b, eb);
    } else if |a| == 1 {
      ShorterAgainstLonger(a, ea, b, eb);
      NotLonger(b, eb, a);
    } else if |b| == 1 {
      ShorterAgainstLonger(b, eb, a, ea);
      NotLonger(a, ea, b);
      PartsReverse(Parts(b, eb), Parts(a, ea));
      ExpectedReverse(b, eb, a, ea);
    } else {
      PartsAgree(a[1..], ea, b[1..], eb);
      MoreAgainstMore(a, ea, b, eb);
      EclipseTail(a, ea, b);
      EclipseTail(b, eb, a);
    }
  }

  lemma NotLonger(a: seq<string>, ea: Ending, b: seq<string>)
    requires NumbersOk(a) && NumbersOk(b) && |a| >= |b|
    ensures !Eclipses(a, ea, b)
  {
  }

  lemma OneAgainstOne(a: seq<string>, ea: Ending, b: seq<string>, eb: Ending)
    requires AllFit(a) && AllFit(b) && |a| == 1 && |b| == 1 && EndingOk(ea) && EndingOk(eb)
    ensures CompareParts(Parts(a, ea), Parts(b, eb)) == Expected(a, ea, b, eb)
    ensures !Eclipses(a, ea, b) && !Eclipses(b, eb, a)
  {
    hide CompareParts, SpecSuffixes;
    HeadsCompared(a, ea, b, eb);
    HeadPart(a, ea);
    HeadPart(b, eb);
    SuffixesAgree(ea.suffixes, eb.suffixes);
    assert ValueOrder(a[1..], b[1..]) == Equal;
  }

  lemma MoreAgainstMore(a: seq<string>, ea: Ending, b: seq<string>, eb: Ending)
    requires AllFit(a) && AllFit(b) && |a| > 1 && |b| > 1 && EndingOk(ea) && EndingOk(eb)
    ensures CompareParts(Parts(a, ea), Parts(b, eb)) == Expected(a, ea, b, eb)
            <==> (DigitsValue(a[0]) == DigitsValue(b[0]) ==>
                    CompareParts(Parts(a[1..], ea), Parts(b[1..], eb)) == Expected(a[1..], ea, b[1..], eb))
  {
    hide CompareParts, SpecSuffixes, Parts;
    HeadsCompared(a, ea, b, eb);
    HeadPart(a, ea);
    HeadPart(b, eb);
  }

  lemma EclipseTail(a: seq<string>, ea: Ending, b: seq<string>)
    requires NumbersOk(a) && NumbersOk(b) && |a| > 1 && |b| > 1
    ensures Eclipses(a, ea, b) <==> DigitsValue(a[0]) == DigitsValue(b[0]) && Eclipses(a[1..], ea, b[1..])
  {
    if |a| < |b| {
      if SameValues(a[1..], b[1..]) && DigitsValue(a[0]) == DigitsValue(b[0]) {
        forall i | 0 <= i < |a| ensures DigitsValue(a[i]) == DigitsValue(b[i]) {
          if i > 0 { assert a[1..][i-1] == a[i] && b[1..][i-1] == b[i]; }
        }
      }
      if SameValues(a, b) {
        assert forall i :: 0 <= i < |a[1..]| ==> a[1..][i] == a[i + 1] && b[1..][i] == b[i + 1];
      }
    }
  }

  lemma {:induction false} ValueOrderReverse(a: seq<string>, b: seq<string>)
    requires NumbersOk(a) && NumbersOk(b)
    ensures ValueOrder(b, a) == Reverse(ValueOrder(a, b))
  {
    if a != [] && b != [] { ValueOrderReverse(a[1..], b[1..]); }
  }

  lemma {:induction false} SuffixesReverse(a: seq<VersionSuffix>, b: seq<VersionSuffix>)
    requires SuffixesOk(a) && SuffixesOk(b)
    ensures SpecSuffixes(b, a) == Reverse(SpecSuffixes(a, b))
    decreases |a| + |b|
  {
    if a != [] && b != [] { SuffixesReverse(a[1..], b[1..]); }
  }

  lemma ExpectedReverse(a: seq<string>, ea: Ending, b: seq<string>, eb: Ending)
    requires NumbersOk(a) && NumbersOk(b) && EndingOk(ea) && EndingOk(eb)
    ensures Expected(b, eb, a, ea) == Reverse(Expected(a, ea, b, eb))
  {
    ValueOrderReverse(a, b);
    SuffixesReverse(ea.suffixes, eb.suffixes);
  }

  /**
   On versions whose numbers fit 64 bits and carry no superfluous leading zeros, the client's
   comparison of the version strings is the specification's, except exactly when one version
   shadows the other.
   */
  lemma AgreesWithSpecificationExactly(a: PmsVersion, b: PmsVersion)
    requires InDomain(a) && InDomain(b)
    ensures CompareVersions(Render(a), Render(b)) == SpecCompare(a, b) <==> !Shadows(a, b) && !Shadows(b, a)
  {
    hide CompareParts, SpecSuffixes, SplitRevision, SplitParts, Render, BaseText;
    RenderedPieces(a);
    RenderedPieces(b);
    var ea := Ending(a.letter, a.suffixes);
    var eb := Ending(b.letter, b.suffixes);
    PartsAgree(a.numbers, ea, b.numbers, eb);
    SpecIsValueOrder(a.numbers[1..], b.numbers[1..]);
    RevisionRead(a.revision);
    RevisionRead(b.revision);
    EclipsedIsStrict(a, b);
  }

  lemma RevisionRead(revision: Option<string>)
    requires revision.Some? ==> revision.value != [] && FitsU64(revision.value)
    ensures RevisionNumber(if revision.Some? then Some("r" + revision.value) else None) == SpecRevision(revision)
  {
    if revision.Some? {
      assert ("r" + revision.value)[1..] == revision.value;
    }
  }

  /** A shadowed pair differs in its base, so revisions do not rescue the answer. */
  lemma EclipsedIsStrict(a: PmsVersion, b: PmsVersion)
    requires InDomain(a) && InDomain(b)
    ensures var ea := Ending(a.letter, a.suffixes);
            var eb := Ending(b.letter, b.suffixes);
            (Shadows(a, b) || Shadows(b, a)) ==>
              Expected(a.numbers, ea, b.numbers, eb) != Equal
              && CompareParts(Parts(a.numbers, ea), Parts(b.numbers, eb)) != Equal
  {
    if Shadows(a, b) {
      StrictlyEclipsed(a.numbers, Ending(a.letter, a.suffixes), b.numbers, Ending(b.letter, b.suffixes));
    } else if Shadows(b, a) {
      var ea := Ending(a.letter, a.suffixes);
      var eb := Ending(b.letter, b.suffixes);
      StrictlyEclipsed(b.numbers, eb, a.numbers, ea);
      PartsReverse(Parts(a.numbers, ea), Parts(b.numbers, eb));
      ExpectedReverse(a.numbers, ea, b.numbers, eb);
    }
  }

  lemma {:induction false} StrictlyEclipsed(a: seq<string>, ea: Ending, b: seq<string>, eb: Ending)
    requires AllFit(a) && AllFit(b) && a != [] && EndingOk(ea) && EndingOk(eb) && Eclipses(a, ea, b)
    ensures Expected(a, ea, b, eb) == Less && CompareParts(Parts(a, ea), Parts(b, eb)) == Greater
    decreases |a|
  {
    hide CompareParts, SpecSuffixes, Parts, SuffixParts, LetterText;
    HeadsCompared(a, ea, b, eb);
    HeadPart(a, ea);
    HeadPart(b, eb);
    if |a| == 1 {
      SuffixAgainstNumber(ea.suffixes, b[1..], eb);
      assert ValueOrder(a[1..], b[1..]) == Less;
    } else {
      EclipseTail(a, ea, b);
      StrictlyEclipsed(a[1..], ea, b[1..], eb);
    }
  }

  // ── Superfluous leading zeros ─────────────────────────────────────

  lemma {:induction false} StringEqual(a: string, b: string)
    ensures CompareString(a, b) == Equal <==> a == b
  {
    if a != [] && b != [] {
      StringEqual(a[1..], b[1..]);
      assert a == [a[0]] + a[1..] && b == [b[0]] + b[1..];
    }
  }

  lemma {:induction false} ZeroStrips(s: string)
    requires AllDigits(s) && DigitsValue(s) == 0
    ensures StripTrailingZeros(s) == [] && (s != [] ==> s[0] == '0')
  {
    if s != [] { ZeroStrips(s[..|s| - 1]); }
  }

  lemma {:induction false} StripOnlyLowers(s: string)
    requires AllDigits(s)
    ensures AllDigits(StripTrailingZeros(s)) && DigitsValue(StripTrailingZeros(s)) <= DigitsValue(s)
  {
    if s != [] && s[|s| - 1] == '0' { StripOnlyLowers(s[..|s| - 1]); }
  }

  /** A number other than zero is determined by its value and its digits without trailing zeros. */
  lemma {:induction false} StrippedAndValue(x: string, y: string)
    requires AllDigits(x) && AllDigits(y) && DigitsValue(x) == DigitsValue(y) > 0 && StripTrailingZeros(x) == StripTrailingZeros(y)
    ensures x == y
    decreases |x|
  {
    var px, py := x[..|x| - 1], y[..|y| - 1];
    StripOnlyLowers(px);
    StripOnlyLowers(py);
    if x[|x| - 1] == '0' && y[|y| - 1] == '0' {
      StrippedAndValue(px, py);
      assert x == px + [x[|x| - 1]] && y == py + [y[|y| - 1]];
    }
  }

  /** Without leading zeros the value determines the digits. */
  lemma {:induction false} ValueDetermines(x: string, y: string)
    requires AllDigits(x) && AllDigits(y) && DigitsValue(x) == DigitsValue(y) && (x != [] ==> x[0] != '0') && (y != [] ==> y[0] != '0')
    ensures x == y
    decreases |x|
  {
    if x != [] { NonzeroValue(x); }
    if y != [] { NonzeroValue(y); }
    if x != [] && y != [] {
      var px, py := x[..|x| - 1], y[..|y| - 1];
      SameLastDigit(DigitsValue(px), x[|x| - 1] as int - '0' as int, DigitsValue(py), y[|y| - 1] as int - '0' as int);
      ValueDetermines(px, py);
      assert x == px + [x[|x| - 1]] && y == py + [y[|y| - 1]];
    }
  }

  lemma SameLastDigit(p: nat, d: nat, q: nat, e: nat)
    requires p * 10 + d == q * 10 + e && d < 10 && e < 10
    ensures p == q && d == e
  {
  }

  lemma SameValueComponent(x: string, y: string)
    requires x != [] && y != [] && AllDigits(x) && AllDigits(y) && DigitsValue(x) == DigitsValue(y)
    ensures SpecComponent(x, y) == Equal <==> DigitsValue(x) == 0 || x == y
  {
    StringEqual(StripTrailingZeros(x), StripTrailingZeros(y));
    if DigitsValue(x) == 0 {
      ZeroStrips(x);
      ZeroStrips(y);
    } else if x[0] != '0' && y[0] != '0' {
      ValueDetermines(x, y);
    } else if StripTrailingZeros(x) == StripTrailingZeros(y) {
      StrippedAndValue(x, y);
    }
  }

  /** From this component on the same digits, except for components that are zero. */
  predicate SameDigits(a: seq<string>, b: seq<string>, from: nat)
    requires NumbersOk(a) && |a| == |b|
  {
    forall i :: from <= i < |a| ==> DigitsValue(a[i]) == 0 || a[i] == b[i]
  }

  /** Every number can be read as 64 bits. */
  predicate ReadableNumbers(v: PmsVersion) {
    && WellFormed(v) && AllFit(v.numbers) && SuffixesFit(v.suffixes)
    && (v.revision.Some? ==> FitsU64(v.revision.value))
  }

  /** The same numbers, letter, suffixes and revision, leading zeros aside. */
  predicate SameUpToZeros(a: PmsVersion, b: PmsVersion)
    requires WellFormed(a) && WellFormed(b)
  {
    && |a.numbers| == |b.numbers| && SameValues(a.numbers, b.numbers)
    && a.letter == b.letter && a.suffixes == b.suffixes && a.revision == b.revision
  }

  lemma {:induction false} SameValueNumbers(a: seq<string>, b: seq<string>)
    requires NumbersOk(a) && NumbersOk(b) && |a| == |b| && SameValues(a, b)
    ensures ValueOrder(a, b) == Equal
    ensures SpecComponents(a, b) == Equal <==> SameDigits(a, b, 0)
  {
    if a != [] {
      SameValueComponent(a[0], b[0]);
      SameValueNumbers(a[1..], b[1..]);
      SameDigitsTail(a, b);
    }
  }

  lemma SameDigitsTail(a: seq<string>, b: seq<string>)
    requires NumbersOk(a) && a != [] && |a| == |b|
    ensures SameDigits(a[1..], b[1..], 0) <==> SameDigits(a, b, 1)
    ensures SameDigits(a, b, 0) <==> (DigitsValue(a[0]) == 0 || a[0] == b[0]) && SameDigits(a, b, 1)
  {
    forall i | 1 <= i < |a| ensures a[i] == a[1..][i - 1] && b[i] == b[1..][i - 1] {}
  }

  lemma {:induction false} SuffixesEqual(suffixes: seq<VersionSuffix>)
    requires SuffixesOk(suffixes)
    ensures SpecSuffixes(suffixes, suffixes) == Equal
  {
    if suffixes != [] { SuffixesEqual(suffixes[1..]); }
  }

  /**
   The domain matters. Of two versions that differ only in how many leading zeros their
   numbers carry, the client always says they are equal; the specification says so if and
   only if every component after the first is zero or spelled the same.
   */
  lemma LeadingZerosDisagreeExactly(a: PmsVersion, b: PmsVersion)
    requires ReadableNumbers(a) && ReadableNumbers(b) && SameUpToZeros(a, b)
    ensures CompareVersions(Render(a), Render(b)) == Equal
    ensures SpecCompare(a, b) == Equal <==> SameDigits(a.numbers, b.numbers, 1)
  {
    hide CompareParts, SpecSuffixes, SplitRevision, SplitParts, Render, BaseText, SameDigits, AllDigits, DigitsValue;
    RenderedPieces(a);
    RenderedPieces(b);
    var e := Ending(a.letter, a.suffixes);
    PartsAgree(a.numbers, e, b.numbers, e);
    SameValueNumbers(a.numbers, b.numbers);
    SameValueNumbers(a.numbers[1..], b.numbers[1..]);
    SameDigitsTail(a.numbers, b.numbers);
    SuffixesEqual(a.suffixes);
  }
}
