/** Portage version comparison as the client performs it on raw strings. */
module Versions {
  import opened Common

  datatype Ordering = Less | Equal | Greater

  function Reverse(o: Ordering): Ordering {
    match o
    case Less => Greater
    case Equal => Equal
    case Greater => Less
  }

  function Then(first: Ordering, second: Ordering): Ordering {
    if first == Equal then second else first
  }

  function CompareInt(a: int, b: int): Ordering {
    if a < b then Less else if a == b then Equal else Greater
  }

  /** Lexicographic order of strings by code point. */
  function CompareString(a: string, b: string): Ordering {
    if a == [] && b == [] then Equal
    else if a == [] then Less
    else if b == [] then Greater
    else Then(CompareInt(a[0] as int, b[0] as int), CompareString(a[1..], b[1..]))
  }

  // ── Pieces of a version string ────────────────────────────────────

  predicate IsDigit(c: char) {
    '0' <= c <= '9'
  }

  predicate AllDigits(s: string) {
    forall i :: 0 <= i < |s| ==> IsDigit(s[i])
  }

  function DigitsValue(s: string): nat
    requires AllDigits(s)
  {
    if s == [] then 0 else DigitsValue(s[..|s|-1]) * 10 + (s[|s|-1] as int - '0' as int)
  }

  /** Parsing fails on an empty string and on overflow of 64 bits. */
  function ParseU64(s: string): Option<nat> {
    if s != [] && AllDigits(s) && DigitsValue(s) < TWO64 then Some(DigitsValue(s)) else None
  }

  /** The last position below n where "-r" starts. */
  function LastDashR(s: string, n: nat): Option<nat>
    requires n <= |s|
    ensures LastDashR(s, n).Some? ==>
              LastDashR(s, n).value < n && LastDashR(s, n).value + 1 < |s| && s[LastDashR(s, n).value] == '-'
  {
    if n == 0 then None
    else if n < |s| && s[n - 1] == '-' && s[n] == 'r' then Some(n - 1)
    else LastDashR(s, n - 1)
  }

  function SplitRevision(version: string): (string, Option<string>) {
    match LastDashR(version, |version|)
    case None => (version, None)
    case Some(pos) =>
      var after := version[pos + 2..];
      if after != [] && AllDigits(after) then (version[..pos], Some(version[pos + 1..])) else (version, None)
  }

  predicate IsSeparator(c: char) {
    c == '.' || c == '_'
  }

  function SplitParts(s: string): (parts: seq<string>)
    ensures |parts| >= 1
  {
    if s == [] then [""]
    else if IsSeparator(s[0]) then [""] + SplitParts(s[1..])
    else
      var rest := SplitParts(s[1..]);
      [[s[0]] + rest[0]] + rest[1..]
  }

  function SuffixKindWithNumber(s: string, prefix: string, kind: int): Option<(int, nat)> {
    if !(prefix <= s) then None
    else
      var rest := s[|prefix|..];
      if rest == [] then Some((kind, 0))
      else if !AllDigits(rest) then None
      else
        match ParseU64(rest)
        case None => None
        case Some(n) => Some((kind, n))
  }

  function OrElse(a: Option<(int, nat)>, b: Option<(int, nat)>): Option<(int, nat)> {
    if a.Some? then a else b
  }

  function SuffixOrder(s: string): Option<(int, nat)> {
    OrElse(SuffixKindWithNumber(s, "alpha", -4),
    OrElse(SuffixKindWithNumber(s, "beta", -3),
    OrElse(SuffixKindWithNumber(s, "pre", -2),
    OrElse(SuffixKindWithNumber(s, "rc", -1),
           SuffixKindWithNumber(s, "p", 1)))))
  }

  /** Length of the leading run of digits. */
  function DigitPrefix(s: string): (n: nat)
    ensures n <= |s| && AllDigits(s[..n]) && (n < |s| ==> !IsDigit(s[n]))
  {
    if s != [] && IsDigit(s[0]) then
      var n := 1 + DigitPrefix(s[1..]);
      assert s[..n] == [s[0]] + s[1..][..n-1];
      n
    else 0
  }

  function SplitNumericLetter(s: string): (Option<nat>, Option<char>) {
    var n := DigitPrefix(s);
    (ParseU64(s[..n]), if n < |s| && 'a' <= s[n] <= 'z' then Some(s[n]) else None)
  }

  function CompareLetters(la: Option<char>, lb: Option<char>): Ordering {
    match (la, lb)
    case (None, None) => Equal
    case (None, Some(_)) => Less
    case (Some(_), None) => Greater
    case (Some(a), Some(b)) => CompareInt(a as int, b as int)
  }

  function ComparePart(pa: string, pb: string): Ordering {
    match (SuffixOrder(pa), SuffixOrder(pb))
    case (Some(a), Some(b)) => Then(CompareInt(a.0, b.0), CompareInt(a.1, b.1))
    case (Some(a), None) => CompareInt(a.0, 0)
    case (None, Some(b)) => CompareInt(0, b.0)
    case (None, None) =>
      var (na, la) := SplitNumericLetter(pa);
      var (nb, lb) := SplitNumericLetter(pb);
      match (na, nb)
      case (Some(a), Some(b)) => Then(CompareInt(a, b), CompareLetters(la, lb))
      case (Some(_), None) => Greater
      case (None, Some(_)) => Less
      case (None, None) => CompareString(pa, pb)
  }

  function Head(parts: seq<string>): string {
    if parts == [] then "" else parts[0]
  }

  function Tail(parts: seq<string>): seq<string> {
    if parts == [] then [] else parts[1..]
  }

  /** Missing components count as empty strings. */
  function CompareParts(a: seq<string>, b: seq<string>): Ordering
    decreases |a| + |b|
  {
    if a == [] && b == [] then Equal
    else Then(ComparePart(Head(a), Head(b)), CompareParts(Tail(a), Tail(b)))
  }

  function RevisionNumber(revision: Option<string>): nat {
    if revision.Some? && revision.value != [] && revision.value[0] == 'r' && ParseU64(revision.value[1..]).Some?
    then ParseU64(revision.value[1..]).value else 0
  }

  function CompareVersions(a: string, b: string): Ordering {
    var (aBase, aRev) := SplitRevision(a);
    var (bBase, bRev) := SplitRevision(b);
    Then(CompareParts(SplitParts(aBase), SplitParts(bBase)), CompareInt(RevisionNumber(aRev), RevisionNumber(bRev)))
  }

  // ── compare_versions is a total preorder on all strings ───────────

  /** How three comparisons of a preorder fit together. */
  predicate Chains(ab: Ordering, bc: Ordering, ac: Ordering) {
    ab != Greater && bc != Greater ==> ac == if ab == Equal && bc == Equal then Equal else Less
  }

  lemma {:induction false} StringReverse(a: string, b: string)
    ensures CompareString(b, a) == Reverse(CompareString(a, b))
  {
    if a != [] && b != [] {
      StringReverse(a[1..], b[1..]);
    }
  }

  lemma {:induction false} StringChains(a: string, b: string, c: string)
    ensures Chains(CompareString(a, b), CompareString(b, c), CompareString(a, c))
  {
    if a != [] && b != [] && c != [] {
      StringChains(a[1..], b[1..], c[1..]);
    }
  }

  /** A component is a suffix, a number with an optional letter, or a word. */
  datatype Key = Suffix(kind: int, num: nat) | Number(n: nat, letter: Option<char>) | Word(s: string)

  function KeyOf(part: string): Key {
    match SuffixOrder(part)
    case Some(k) => Suffix(k.0, k.1)
    case None =>
      var (n, letter) := SplitNumericLetter(part);
      if n.Some? then Number(n.value, letter) else Word(part)
  }

  /** Early suffixes, then words, then numbers, then the patch suffix. */
  function Tier(k: Key): int {
    match k
    case Suffix(kind, _) => if kind < 0 then kind else 2
    case Word(_) => 0
    case Number(_, _) => 1
  }

  function CompareKey(a: Key, b: Key): Ordering {
    Then(CompareInt(Tier(a), Tier(b)),
      if a.Suffix? && b.Suffix? then CompareInt(a.num, b.num)
      else if a.Number? && b.Number? then Then(CompareInt(a.n, b.n), CompareLetters(a.letter, b.letter))
      else if a.Word? && b.Word? then CompareString(a.s, b.s)
      else Equal)
  }

  lemma SuffixKinds(s: string)
    ensures SuffixOrder(s).Some? ==> SuffixOrder(s).value.0 in {-4, -3, -2, -1, 1}
  {
  }

  lemma PartByKey(pa: string, pb: string)
    ensures ComparePart(pa, pb) == CompareKey(KeyOf(pa), KeyOf(pb))
  {
    SuffixKinds(pa);
    SuffixKinds(pb);
  }

  lemma KeyReverse(a: Key, b: Key)
    ensures CompareKey(b, a) == Reverse(CompareKey(a, b))
  {
    if a.Word? && b.Word? { StringReverse(a.s, b.s); }
  }

  lemma KeyChains(a: Key, b: Key, c: Key)
    ensures Chains(CompareKey(a, b), CompareKey(b, c), CompareKey(a, c))
  {
    if a.Word? && b.Word? && c.Word? { StringChains(a.s, b.s, c.s); }
  }

  lemma PartReverse(a: string, b: string)
    ensures ComparePart(b, a) == Reverse(ComparePart(a, b))
  {
    PartByKey(a, b);
    PartByKey(b, a);
    KeyReverse(KeyOf(a), KeyOf(b));
  }

  lemma PartChains(a: string, b: string, c: string)
    ensures Chains(ComparePart(a, b), ComparePart(b, c), ComparePart(a, c))
  {
    hide ComparePart, KeyOf, CompareKey;
    PartByKey(a, b);
    PartByKey(b, c);
    PartByKey(a, c);
    KeyChains(KeyOf(a), KeyOf(b), KeyOf(c));
  }

  /** The recursion also describes two exhausted lists. */
  lemma PartsUnfold(a: seq<string>, b: seq<string>)
    ensures CompareParts(a, b) == Then(ComparePart(Head(a), Head(b)), CompareParts(Tail(a), Tail(b)))
  {
    if a == [] && b == [] {
      PartReverse("", "");
    }
  }

  lemma {:induction false} PartsReverse(a: seq<string>, b: seq<string>)
    ensures CompareParts(b, a) == Reverse(CompareParts(a, b))
    decreases |a| + |b|
  {
    if a != [] || b != [] {
      PartReverse(Head(a), Head(b));
      PartsReverse(Tail(a), Tail(b));
    }
  }

  lemma {:induction false} PartsChain(a: seq<string>, b: seq<string>, c: seq<string>)
    ensures Chains(CompareParts(a, b), CompareParts(b, c), CompareParts(a, c))
    decreases |a| + |b| + |c|
  {
    hide ComparePart;
    if a != [] || b != [] || c != [] {
      PartsUnfold(a, b);
      PartsUnfold(b, c);
      PartsUnfold(a, c);
      PartChains(Head(a), Head(b), Head(c));
      PartsChain(Tail(a), Tail(b), Tail(c));
    }
  }

  /** Swapping the arguments reverses the answer, for every pair of strings. */
  lemma VersionReverse(a: string, b: string)
    ensures CompareVersions(b, a) == Reverse(CompareVersions(a, b))
  {
    PartsReverse(SplitParts(SplitRevision(a).0), SplitParts(SplitRevision(b).0));
  }

  /** Comparison is transitive on all strings, overflowing numbers and missing components included. */
  lemma VersionsChain(a: string, b: string, c: string)
    ensures Chains(CompareVersions(a, b), CompareVersions(b, c), CompareVersions(a, c))
  {
    hide CompareParts, SplitRevision, SplitParts, RevisionNumber;
    PartsChain(SplitParts(SplitRevision(a).0), SplitParts(SplitRevision(b).0), SplitParts(SplitRevision(c).0));
  }
}
