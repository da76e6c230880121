/** Relative paths as sequences of names, and the strings that carry them in a parity manifest. */
module Paths {
  import opened Common
  import opened Text

  type Path = seq<string>

  /** A name a file system can hold. */
  predicate Name(n: string) {
    n != "" && n != "." && n != ".." && forall i :: 0 <= i < |n| ==> n[i] != '/'
  }

  predicate Names(p: Path) {
    forall i :: 0 <= i < |p| ==> Name(p[i])
  }

  predicate NoBackslash(n: string) {
    forall i :: 0 <= i < |n| ==> n[i] != '\\'
  }

  function Parent(p: Path): Path
    requires p != []
  {
    p[..|p| - 1]
  }

  function Last(p: Path): string
    requires p != []
  {
    p[|p| - 1]
  }

  // ── Writing and reading ───────────────────────────────────────────

  function Joined(p: Path): string {
    if p == [] then "" else if |p| == 1 then p[0] else p[0] + "/" + Joined(p[1..])
  }

  /** Backslashes become slashes in manifest keys. */
  function Slashed(s: string): (r: string)
    ensures |r| == |s| && forall i :: 0 <= i < |s| ==> r[i] == if s[i] == '\\' then '/' else s[i]
  {
    if s == [] then [] else [if s[0] == '\\' then '/' else s[0]] + Slashed(s[1..])
  }

  function Key(p: Path): string {
    Slashed(Joined(p))
  }

  function Segments(s: string): seq<string> {
    var n := IndexOf(s, '/');
    if n == |s| then [s] else [s[..n]] + Segments(s[n + 1..])
  }

  datatype PathError = Absolute | Traversal | EmptyPath

  /** Empty segments and inner dots vanish; a parent segment is refused. */
  function Collect(segments: seq<string>): Result<Path, PathError> {
    if segments == [] then Ok([])
    else if segments[0] == ".." then Err(Traversal)
    else
      var rest := Collect(segments[1..]);
      if rest.Err? || segments[0] == "" || segments[0] == "." then rest else Ok([segments[0]] + rest.value)
  }

  function Sanitize(s: string): Result<Path, PathError> {
    if s != [] && s[0] == '/' then Err(Absolute)
    else
      var segments := Segments(s);
      if segments[0] == "." then Err(Traversal)
      else
        var p := Collect(segments);
        if p.Err? then p else if p.value == [] then Err(EmptyPath) else p
  }

  function After(p: Path, rest: Result<Path, PathError>): Result<Path, PathError> {
    if rest.Err? then rest else Ok(p + rest.value)
  }

  lemma AfterNothing(rest: Result<Path, PathError>)
    ensures After([], rest) == rest
  {
    if rest.Ok? { assert [] + rest.value == rest.value; }
  }

  lemma AfterStep(p: Path, n: string, rest: Result<Path, PathError>)
    ensures rest.Ok? ==> p + ([n] + rest.value) == (p + [n]) + rest.value
  {
  }

  /** The loop that rebuilds a path component by component. */
  method SanitizePath(s: string) returns (r: Result<Path, PathError>)
    ensures r == Sanitize(s)
  {
    if s != [] && s[0] == '/' { return Err(Absolute); }
    var segments := Segments(s);
    if segments[0] == "." { return Err(Traversal); }
    var sanitized: Path := [];
    var i := 0;
    assert segments[0..] == segments;
    AfterNothing(Collect(segments));
    while i < |segments|
      invariant i <= |segments|
      invariant Collect(segments) == After(sanitized, Collect(segments[i..]))
    {
      assert segments[i..][1..] == segments[i + 1..];
      AfterStep(sanitized, segments[i], Collect(segments[i + 1..]));
      if segments[i] == ".." { return Err(Traversal); }
      if segments[i] != "" && segments[i] != "." { sanitized := sanitized + [segments[i]]; }
      i := i + 1;
    }
    assert sanitized + [] == sanitized;
    if sanitized == [] { return Err(EmptyPath); }
    return Ok(sanitized);
  }

  lemma {:induction false} SegmentsOfJoined(p: Path)
    requires p != [] && Names(p)
    ensures Segments(Joined(p)) == p
  {
    var s := Joined(p);
    assert Name(p[0]);
    if |p| == 1 {
      assert IndexOf(s, '/') == |s|;
    } else {
      IndexIs(s, '/', |p[0]|);
      assert s[..|p[0]|] == p[0] && s[|p[0]| + 1..] == Joined(p[1..]);
      assert Names(p[1..]);
      SegmentsOfJoined(p[1..]);
      assert p == [p[0]] + p[1..];
    }
  }

  lemma {:induction false} CollectNames(p: Path)
    requires Names(p)
    ensures Collect(p) == Ok(p)
  {
    if p != [] {
      CollectNames(p[1..]);
      assert Name(p[0]) && p == [p[0]] + p[1..];
    }
  }

  lemma {:induction false} JoinedHasNoBackslash(p: Path)
    requires forall i :: 0 <= i < |p| ==> NoBackslash(p[i])
    ensures NoBackslash(Joined(p))
  {
    if |p| > 1 { JoinedHasNoBackslash(p[1..]); }
  }

  /** A key without backslashes reads back as the path it was made from. */
  lemma KeyRoundTrip(p: Path)
    requires p != [] && Names(p) && forall i :: 0 <= i < |p| ==> NoBackslash(p[i])
    ensures Key(p) == Joined(p) && Sanitize(Key(p)) == Ok(p)
  {
    JoinedHasNoBackslash(p);
    assert Key(p) == Joined(p);
    SegmentsOfJoined(p);
    CollectNames(p);
    assert Joined(p)[0] == p[0][0];
  }

  lemma {:induction false} SegmentsHaveNoBackslash(s: string)
    requires NoBackslash(s)
    ensures forall i :: 0 <= i < |Segments(s)| ==> NoBackslash(Segments(s)[i])
    decreases |s|
  {
    var n := IndexOf(s, '/');
    if n < |s| { SegmentsHaveNoBackslash(s[n + 1..]); }
  }

  lemma {:induction false} CollectHasNoBackslash(segments: seq<string>)
    requires forall i :: 0 <= i < |segments| ==> NoBackslash(segments[i])
    ensures Collect(segments).Ok? ==> forall i :: 0 <= i < |Collect(segments).value| ==> NoBackslash(Collect(segments).value[i])
  {
    if segments != [] { CollectHasNoBackslash(segments[1..]); }
  }

  /** A key reads back as its path exactly when no name has a backslash. */
  lemma KeyReadsBackExactly(p: Path)
    requires p != [] && Names(p)
    ensures Sanitize(Key(p)) == Ok(p) <==> forall i :: 0 <= i < |p| ==> NoBackslash(p[i])
  {
    if forall i :: 0 <= i < |p| ==> NoBackslash(p[i]) {
      KeyRoundTrip(p);
    } else {
      SegmentsHaveNoBackslash(Key(p));
      CollectHasNoBackslash(Segments(Key(p)));
    }
  }

  // ── The approved set and run-time noise ───────────────────────────

  predicate Approved(p: Path) {
    || p == ["var", "cache", "binpkgs", "Packages"]
    || ["var", "cache", "eclass"] <= p
    || (|p| == 5 && ["var", "db", "repos"] <= p && p[4] == "Packages")
    || (|p| >= 5 && ["var", "db", "repos"] <= p && p[4] == "metadata")
    || ["var", "lib", "portage"] <= p
  }

  predicate EndsWith(s: string, suffix: string) {
    |s| >= |suffix| && s[|s| - |suffix|..] == suffix
  }

  predicate Noise(n: string) {
    || n == ".lock" || EndsWith(n, ".lock") || EndsWith(n, ".tmp") || EndsWith(n, ".temp") || EndsWith(n, ".part")
    || EndsWith(n, ".swp") || EndsWith(n, ".pid") || EndsWith(n, ".running") || EndsWith(n, "~")
  }

  // ── Temporary names ───────────────────────────────────────────────

  /** Position of the last dot, or the length. */
  function LastDot(s: string): (n: nat)
    ensures n <= |s|
  {
    if s == [] then 0
    else if s[|s| - 1] == '.' then |s| - 1
    else if LastDot(s[..|s| - 1]) == |s| - 1 then |s| else LastDot(s[..|s| - 1])
  }

  /** The name with its extension replaced; a leading dot does not start an extension. */
  function WithExtension(n: string, ext: string): string {
    var k := LastDot(n);
    (if 0 < k < |n| then n[..k] else n) + "." + ext
  }

  const FILE_PART: string := "remerge-parity.part"
  const LINK_PART: string := "remerge-parity-symlink.part"
  const LINK_LINK: string := "remerge-parity-symlink.link"

  function Sibling(p: Path, ext: string): Path
    requires p != []
  {
    Parent(p) + [WithExtension(Last(p), ext)]
  }

  lemma SiblingIsTemporary(p: Path, ext: string)
    requires p != []
    ensures Sibling(p, ext) != [] && EndsWith(Last(Sibling(p, ext)), "." + ext) && Parent(Sibling(p, ext)) == Parent(p)
  {
    var n := WithExtension(Last(p), ext);
    var stem := var k := LastDot(Last(p)); if 0 < k < |Last(p)| then Last(p)[..k] else Last(p);
    assert n == stem + ("." + ext);
    assert n[|stem|..] == "." + ext;
    assert |n| - |"." + ext| == |stem|;
  }

  lemma {:induction false} NoDotAfterLast(s: string)
    ensures forall i :: LastDot(s) < i < |s| ==> s[i] != '.'
  {
    if s != [] && s[|s| - 1] != '.' {
      NoDotAfterLast(s[..|s| - 1]);
      assert forall i :: 0 <= i < |s| - 1 ==> s[..|s| - 1][i] == s[i];
    }
  }

  /** A temporary sibling of p is not p. */
  lemma SiblingDiffers(p: Path, ext: string, k: nat)
    requires p != [] && k < |ext| && ext[k] == '.'
    ensures Sibling(p, ext) != p
  {
    var n, d := Last(p), LastDot(Last(p));
    NoDotAfterLast(n);
    var t := WithExtension(n, ext);
    if 0 < d < |n| {
      assert t[d + 1 + k] == '.';
    }
    assert t != n;
    assert Last(Sibling(p, ext)) == t;
  }

  lemma ExtensionsHaveDots()
    ensures FILE_PART[14] == '.' && LINK_PART[22] == '.' && LINK_LINK[22] == '.'
    ensures |FILE_PART| == 19 && |LINK_PART| == 27 && |LINK_LINK| == 27
  {
  }

  /** Names of partial downloads are run-time noise. */
  lemma PartIsNoise(n: string)
    requires EndsWith(n, "." + FILE_PART) || EndsWith(n, "." + LINK_PART)
    ensures Noise(n)
  {
    hide EndsWith, FILE_PART, LINK_PART;
    PartSuffixes();
    if EndsWith(n, "." + FILE_PART) { EndsTransitive(n, "." + FILE_PART, ".part"); } else { EndsTransitive(n, "." + LINK_PART, ".part"); }
  }

  lemma PartSuffixes()
    ensures EndsWith("." + FILE_PART, ".part") && EndsWith("." + LINK_PART, ".part")
  {
    ExtensionsHaveDots();
    var a, b := "." + FILE_PART, "." + LINK_PART;
    assert a[15] == '.' && a[16] == 'p' && a[17] == 'a' && a[18] == 'r' && a[19] == 't';
    assert b[23] == '.' && b[24] == 'p' && b[25] == 'a' && b[26] == 'r' && b[27] == 't';
    assert a[15..] == ".part" && b[23..] == ".part";
  }

  lemma EndsTransitive(n: string, a: string, b: string)
    requires EndsWith(n, a) && EndsWith(a, b)
    ensures EndsWith(n, b)
  {
    assert n == n[..|n| - |a|] + a;
    assert a == a[..|a| - |b|] + b;
    assert n[|n| - |b|..] == b;
  }

  /** The three kinds of temporary names have nothing in common. */
  lemma TemporaryNamesDiffer(n: string)
    ensures !(EndsWith(n, "." + FILE_PART) && EndsWith(n, "." + LINK_PART))
    ensures !(EndsWith(n, "." + FILE_PART) && EndsWith(n, "." + LINK_LINK))
    ensures !(EndsWith(n, "." + LINK_PART) && EndsWith(n, "." + LINK_LINK))
  {
    EndsAt(n, "." + FILE_PART, 0);
    EndsAt(n, "." + LINK_PART, 8);
    EndsAt(n, "." + LINK_LINK, 8);
    EndsAt(n, "." + FILE_PART, 19);
    EndsAt(n, "." + LINK_PART, 27);
    EndsAt(n, "." + LINK_LINK, 27);
    assert ("." + FILE_PART)[0] == '.' && ("." + LINK_PART)[8] == '-' && ("." + LINK_LINK)[8] == '-';
    assert ("." + FILE_PART)[19] == 't' && ("." + LINK_PART)[27] == 't' && ("." + LINK_LINK)[27] == 'k';
  }

  lemma EndsAt(n: string, suffix: string, i: nat)
    requires i < |suffix|
    ensures EndsWith(n, suffix) ==> |n| >= |suffix| && n[|n| - |suffix| + i] == suffix[i]
  {
    if EndsWith(n, suffix) { assert n[|n| - |suffix|..][i] == suffix[i]; }
  }
}
