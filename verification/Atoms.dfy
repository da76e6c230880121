/** Package atoms: operators, the name-version split, and the installed-package check. */
module Atoms {
  import opened Common
  import opened Versions

  /** The version starts after the last '-' that precedes a digit. */
  function SplitAt(s: string, n: nat): (string, Option<string>)
    requires n <= |s|
  {
    if n == 0 then (s, None)
    else if s[n - 1] == '-' && n < |s| && IsDigit(s[n]) then (s[..n - 1], Some(s[n..]))
    else SplitAt(s, n - 1)
  }

  function SplitNameVersion(s: string): (string, Option<string>) {
    SplitAt(s, |s|)
  }

  datatype AtomOp = NoOp | Eq | EqGlob | Tilde | Ge | Le | Gt | Lt

  function ParseAtomOperator(atom: string): (AtomOp, string) {
    if ">=" <= atom then (Ge, atom[2..])
    else if "<=" <= atom then (Le, atom[2..])
    else if "=" <= atom then (if atom[|atom| - 1] == '*' && |atom| > 1 then (EqGlob, atom[1..]) else (Eq, atom[1..]))
    else if "~" <= atom then (Tilde, atom[1..])
    else if ">" <= atom then (Gt, atom[1..])
    else if "<" <= atom then (Lt, atom[1..])
    else (NoOp, atom)
  }

  function FirstSlash(s: string): (n: nat)
    ensures n <= |s|
  {
    if s == [] || s[0] == '/' then 0 else 1 + FirstSlash(s[1..])
  }

  function TrimStars(s: string): string {
    if s != [] && s[|s| - 1] == '*' then TrimStars(s[..|s| - 1]) else s
  }

  /** Whether one installed version satisfies the constraint. */
  predicate VersionMatches(op: AtomOp, installed: string, constraint: string) {
    match op
    case NoOp => true
    case Eq => installed == constraint
    case EqGlob => TrimStars(constraint) <= installed
    case Tilde => SplitRevision(installed).0 == SplitRevision(constraint).0
    case Ge => CompareVersions(installed, constraint) != Less
    case Le => CompareVersions(installed, constraint) != Greater
    case Gt => CompareVersions(installed, constraint) == Greater
    case Lt => CompareVersions(installed, constraint) == Less
  }

  /** Whether one entry of the package database satisfies the atom. */
  predicate EntryMatches(op: AtomOp, name: string, constraint: Option<string>, entry: string) {
    var (installedName, installedVersion) := SplitNameVersion(entry);
    && installedName == name
    && (constraint.None? || (installedVersion.Some? && VersionMatches(op, installedVersion.value, constraint.value)))
  }

  /** The installed packages by category: each entry is a directory named name-version. */
  type Vdb = map<string, seq<string>>

  datatype Query = Never | Lookup(category: string, op: AtomOp, name: string, constraint: Option<string>)

  function ParseQuery(atom: string): Query {
    if atom != [] && atom[0] == '@' then Never
    else
      var (op, stripped) := ParseAtomOperator(atom);
      var n := FirstSlash(stripped);
      if n == |stripped| then Never
      else
        var rest := stripped[n + 1..];
        if op == NoOp then Lookup(stripped[..n], op, rest, None)
        else
          var (name, version) := SplitNameVersion(rest);
          Lookup(stripped[..n], op, name, version)
  }

  ghost predicate Installed(vdb: Vdb, atom: string) {
    var q := ParseQuery(atom);
    q.Lookup? && q.category in vdb && exists i :: 0 <= i < |vdb[q.category]| && EntryMatches(q.op, q.name, q.constraint, vdb[q.category][i])
  }

  method IsInstalled(vdb: Vdb, atom: string) returns (found: bool)
    ensures found <==> Installed(vdb, atom)
  {
    var q := ParseQuery(atom);
    if q.Never? || q.category !in vdb {
      return false;
    }
    var entries := vdb[q.category];
    for i := 0 to |entries|
      invariant forall j :: 0 <= j < i ==> !EntryMatches(q.op, q.name, q.constraint, entries[j])
    {
      var (installedName, installedVersion) := SplitNameVersion(entries[i]);
      if installedName != q.name {
        continue;
      }
      if q.constraint.None? {
        assert EntryMatches(q.op, q.name, q.constraint, entries[i]);
        return true;
      }
      if installedVersion.None? {
        continue;
      }
      if VersionMatches(q.op, installedVersion.value, q.constraint.value) {
        assert EntryMatches(q.op, q.name, q.constraint, entries[i]);
        return true;
      }
    }
    return false;
  }

  // ── The split is a round trip ─────────────────────────────────────

  /** A version starts with a digit and has no '-' before a digit. */
  predicate IsVersion(v: string) {
    v != [] && IsDigit(v[0]) && forall i :: 0 <= i < |v| - 1 ==> !(v[i] == '-' && IsDigit(v[i + 1]))
  }

  lemma {:induction false} SplitFinds(name: string, v: string, n: nat)
    requires IsVersion(v) && |name| < n <= |name| + 1 + |v|
    ensures SplitAt(name + "-" + v, n) == (name, Some(v))
  {
    var s := name + "-" + v;
    if n == |name| + 1 {
      assert s[..n - 1] == name && s[n..] == v;
    } else {
      var k := n - 1 - |name| - 1;
      assert s[n - 1] == v[k];
      assert n < |s| ==> s[n] == v[k + 1];
      SplitFinds(name, v, n - 1);
    }
  }

  /** Joining any name with a version and splitting again gives both back. */
  lemma SplitRoundTrip(name: string, v: string)
    requires IsVersion(v)
    ensures SplitNameVersion(name + "-" + v) == (name, Some(v))
  {
    SplitFinds(name, v, |name + "-" + v|);
  }

  /** Splitting loses nothing, and what it calls a version is one. */
  lemma {:induction false} SplitIsExact(s: string, n: nat)
    requires n <= |s| && forall i :: n <= i < |s| - 1 ==> !(s[i] == '-' && IsDigit(s[i + 1]))
    ensures var (name, v) := SplitAt(s, n);
            if v.Some? then s == name + "-" + v.value && IsVersion(v.value) else name == s
  {
    if n > 0 && !(s[n - 1] == '-' && n < |s| && IsDigit(s[n])) {
      SplitIsExact(s, n - 1);
    } else if n > 0 {
      assert s == s[..n - 1] + "-" + s[n..];
      assert forall i :: 0 <= i < |s[n..]| ==> s[n..][i] == s[n + i];
    }
  }

  // ── Version constraints are monotone ──────────────────────────────

  predicate IsCategory(c: string) {
    forall i :: 0 <= i < |c| ==> c[i] != '/'
  }

  function OpText(op: AtomOp): string {
    match op
    case Ge => ">="
    case Le => "<="
    case Gt => ">"
    case Lt => "<"
    case Tilde => "~"
    case Eq => "="
    case EqGlob => "="
    case NoOp => ""
  }

  function AtomText(op: AtomOp, category: string, name: string, v: string): string {
    OpText(op) + category + "/" + name + "-" + v
  }

  lemma {:induction false} SlashFound(c: string, rest: string)
    requires IsCategory(c)
    ensures FirstSlash(c + "/" + rest) == |c|
  {
    if c == [] {
      assert (c + "/" + rest)[0] == '/';
    } else {
      assert (c + "/" + rest)[1..] == c[1..] + "/" + rest;
      SlashFound(c[1..], rest);
    }
  }

  /** An atom whose text can be read back: `>` and `<` must not run into '=', nor `=` end in a glob star. */
  predicate Readable(op: AtomOp, category: string, v: string) {
    && op in {Ge, Le, Gt, Lt, Tilde, Eq}
    && IsCategory(category) && IsVersion(v)
    && (op in {Gt, Lt} && category != [] ==> category[0] != '=')
    && (op == Eq ==> v[|v| - 1] != '*')
  }

  lemma OperatorRoundTrip(op: AtomOp, tail: string)
    requires op in {Ge, Le, Gt, Lt, Tilde, Eq} && tail != []
    requires (op in {Gt, Lt} ==> tail[0] != '=') && (op == Eq ==> tail[|tail| - 1] != '*')
    ensures ParseAtomOperator(OpText(op) + tail) == (op, tail)
  {
    var atom := OpText(op) + tail;
    assert atom[|OpText(op)|..] == tail;
    assert atom[|atom| - 1] == tail[|tail| - 1];
    assert atom[0] == OpText(op)[0];
    assert op in {Ge, Le} ==> atom[1] == '=';
    assert op in {Gt, Lt} ==> atom[1] == tail[0];
    assert OpText(op) <= atom;
  }

  /** Reading an atom back: category, name and version are found again. */
  lemma QueryRoundTrip(op: AtomOp, category: string, name: string, v: string)
    requires Readable(op, category, v)
    ensures ParseQuery(AtomText(op, category, name, v)) == Lookup(category, op, name, Some(v))
  {
    hide ParseAtomOperator, SplitNameVersion, FirstSlash, OpText;
    var rest := name + "-" + v;
    var tail := category + "/" + rest;
    AtomTextIs(op, category, name, v);
    Halves(category, rest);
    assert tail[|tail| - 1] == v[|v| - 1];
    OperatorRoundTrip(op, tail);
    SlashFound(category, rest);
    SplitRoundTrip(name, v);
    StartsLikeOperator(op, tail);
  }

  lemma AtomTextIs(op: AtomOp, category: string, name: string, v: string)
    ensures AtomText(op, category, name, v) == OpText(op) + (category + "/" + (name + "-" + v))
  {
    hide OpText;
  }

  lemma Halves(category: string, rest: string)
    ensures var tail := category + "/" + rest;
            && tail[..|category|] == category && tail[|category| + 1..] == rest
            && tail[0] == (if category == [] then '/' else category[0])
  {
  }

  lemma StartsLikeOperator(op: AtomOp, tail: string)
    requires op in {Ge, Le, Gt, Lt, Tilde, Eq}
    ensures OpText(op) + tail != [] && (OpText(op) + tail)[0] != '@'
  {
  }

  lemma EntryFound(vdb: Vdb, op: AtomOp, category: string, name: string, v: string) returns (entry: string)
    requires Readable(op, category, v)
    requires Installed(vdb, AtomText(op, category, name, v))
    ensures category in vdb && entry in vdb[category] && SplitNameVersion(entry).0 == name
    ensures SplitNameVersion(entry).1.Some? && VersionMatches(op, SplitNameVersion(entry).1.value, v)
  {
    QueryRoundTrip(op, category, name, v);
    var i :| 0 <= i < |vdb[category]| && EntryMatches(op, name, Some(v), vdb[category][i]);
    entry := vdb[category][i];
  }

  lemma EntrySuffices(vdb: Vdb, op: AtomOp, category: string, name: string, v: string, entry: string)
    requires Readable(op, category, v)
    requires category in vdb && entry in vdb[category] && SplitNameVersion(entry).0 == name
    requires SplitNameVersion(entry).1.Some? && VersionMatches(op, SplitNameVersion(entry).1.value, v)
    ensures Installed(vdb, AtomText(op, category, name, v))
  {
    QueryRoundTrip(op, category, name, v);
    var i :| 0 <= i < |vdb[category]| && vdb[category][i] == entry;
    assert EntryMatches(op, name, Some(v), vdb[category][i]);
  }

  /** If `>=c/p-v` is satisfied then so is `>=c/p-u` for every u that is not greater than v; same for `>`. */
  lemma LowerBoundsAreMonotone(vdb: Vdb, op: AtomOp, category: string, name: string, u: string, v: string)
    requires op in {Ge, Gt} && Readable(op, category, u) && Readable(op, category, v)
    requires CompareVersions(u, v) != Greater && Installed(vdb, AtomText(op, category, name, v))
    ensures Installed(vdb, AtomText(op, category, name, u))
  {
    hide CompareVersions, SplitNameVersion, Installed, AtomText;
    var entry := EntryFound(vdb, op, category, name, v);
    var w := SplitNameVersion(entry).1.value;
    VersionReverse(v, w);
    VersionReverse(u, w);
    VersionsChain(u, v, w);
    EntrySuffices(vdb, op, category, name, u, entry);
  }

  /** Upper bounds the other way round. */
  lemma UpperBoundsAreMonotone(vdb: Vdb, op: AtomOp, category: string, name: string, u: string, v: string)
    requires op in {Le, Lt} && Readable(op, category, u) && Readable(op, category, v)
    requires CompareVersions(v, u) != Greater && Installed(vdb, AtomText(op, category, name, v))
    ensures Installed(vdb, AtomText(op, category, name, u))
  {
    hide CompareVersions, SplitNameVersion, Installed, AtomText;
    var entry := EntryFound(vdb, op, category, name, v);
    var w := SplitNameVersion(entry).1.value;
    VersionsChain(w, v, u);
    EntrySuffices(vdb, op, category, name, u, entry);
  }

  /** An exact match satisfies both inclusive bounds and the any-revision atom. */
  lemma ExactMatchImpliesBounds(vdb: Vdb, op: AtomOp, category: string, name: string, v: string)
    requires op in {Ge, Le, Tilde} && Readable(Eq, category, v) && Installed(vdb, AtomText(Eq, category, name, v))
    ensures Installed(vdb, AtomText(op, category, name, v))
  {
    hide CompareVersions, SplitNameVersion, Installed, AtomText;
    var entry := EntryFound(vdb, Eq, category, name, v);
    VersionReverse(v, v);
    EntrySuffices(vdb, op, category, name, v, entry);
  }
}
