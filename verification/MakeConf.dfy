/** The make.conf reader of the client and the make.conf writer of the worker. */
module MakeConf {
  import opened Common
  import opened Text

  // ── Reader ────────────────────────────────────────────────────────

  predicate IsVarStart(c: char) {
    c == '_' || 'a' <= c <= 'z' || 'A' <= c <= 'Z'
  }

  predicate IsVarChar(c: char) {
    IsVarStart(c) || '0' <= c <= '9'
  }

  type Vars = map<string, string>

  predicate IsBlank(c: char) {
    IsWhitespace(c) && c != '\n'
  }

  function SkipBlank(s: string): (r: string)
    ensures |r| <= |s|
  {
    if s != [] && IsBlank(s[0]) then SkipBlank(s[1..]) else s
  }

  /** Up to, not including, the end of the line. */
  function SkipLine(s: string): (r: string)
    ensures |r| <= |s| && (s != [] && s[0] != '\n' ==> |r| < |s|)
  {
    if s != [] && s[0] != '\n' then SkipLine(s[1..]) else s
  }

  function SkipSpace(s: string): (r: string)
    ensures |r| <= |s| && (r != [] ==> !IsWhitespace(r[0]))
  {
    if s != [] && IsWhitespace(s[0]) then SkipSpace(s[1..]) else s
  }

  function KeyLength(s: string): (n: nat)
    ensures n <= |s|
  {
    if s != [] && IsVarChar(s[0]) then 1 + KeyLength(s[1..]) else 0
  }

  datatype Read = Read(value: string, terminated: bool, rest: string)

  predicate Escapable(c: char) {
    c == '\\' || c == '"' || c == '$' || c == '`'
  }

  function ReadQuoted(s: string, quote: char): (r: Read)
    ensures |r.rest| <= |s|
  {
    if s == [] then Read("", false, [])
    else if s[0] == quote then Read("", true, s[1..])
    else if s[0] == '\\' && |s| > 1 && s[1] == '\n' then ReadQuoted(s[2..], quote)
    else if s[0] == '\\' && quote == '"' && |s| > 1 && Escapable(s[1]) then
      var r := ReadQuoted(s[2..], quote);
      r.(value := [s[1]] + r.value)
    else
      var r := ReadQuoted(s[1..], quote);
      r.(value := [s[0]] + r.value)
  }

  function ReadBare(s: string): (r: Read)
    ensures |r.rest| <= |s|
  {
    if s == [] then Read("", true, [])
    else if s[0] == '\\' && |s| > 1 && s[1] == '\n' then ReadBare(s[2..])
    else if IsWhitespace(s[0]) || s[0] == '#' then Read("", true, s)
    else
      var r := ReadBare(s[1..]);
      r.(value := [s[0]] + r.value)
  }

  /** An unterminated quote is kept at the front of the value. */
  function ReadValue(s: string): (r: Read)
    ensures |r.rest| <= |s|
  {
    if s != [] && (s[0] == '"' || s[0] == '\'') then
      var r := ReadQuoted(s[1..], s[0]);
      if r.terminated then r else r.(value := [s[0]] + r.value)
    else ReadBare(s)
  }

  function SkipComment(s: string): (r: string)
    ensures |r| <= |s|
  {
    if s != [] && s[0] == '#' then SkipLine(s) else s
  }

  function ParseFrom(s: string, vars: Vars): Vars
    decreases |s|
  {
    var start := SkipSpace(s);
    if start == [] then vars
    else if !IsVarStart(start[0]) then ParseFrom(SkipLine(start), vars)
    else
      var n := 1 + KeyLength(start[1..]);
      var afterKey := SkipBlank(start[n..]);
      if afterKey == [] || afterKey[0] != '=' then ParseFrom(SkipLine(afterKey), vars)
      else
        var r := ReadValue(SkipBlank(afterKey[1..]));
        ParseFrom(SkipComment(SkipBlank(r.rest)), vars[start[..n] := r.value])
  }

  function Parse(content: string): Vars {
    ParseFrom(content, map[])
  }

  /** The index loop, which terminates on every input. */
  method ParseMakeConfVars(content: string) returns (vars: Vars)
    ensures vars == Parse(content)
  {
    hide SkipSpace, SkipBlank, SkipLine, SkipComment, KeyLength, ReadValue;
    vars := map[];
    var index := 0;
    while index < |content|
      invariant 0 <= index <= |content|
      invariant Parse(content) == ParseFrom(content[index..], vars)
    {
      index := PastSpace(content, index);
      if index >= |content| {
        break;
      }
      if !IsVarStart(content[index]) {
        index := PastLine(content, index);
        continue;
      }
      var keyStart := index;
      index := PastKey(content, index + 1);
      var key := content[keyStart..index];
      ghost var start := content[keyStart..];
      assert start[1..] == content[keyStart + 1..];
      assert start[..index - keyStart] == key && start[index - keyStart..] == content[index..];
      index := PastBlank(content, index);
      if index >= |content| || content[index] != '=' {
        index := PastLine(content, index);
        continue;
      }
      assert content[index..][1..] == content[index + 1..];
      var value;
      value, index := TakeAssigned(content, index + 1);
      vars := vars[key := value];
    }
  }

  /** The value after an equals sign, and the position past it and any comment behind it. */
  method TakeAssigned(content: string, from: nat) returns (value: string, index: nat)
    requires from <= |content|
    ensures from <= index <= |content|
    ensures var r := ReadValue(SkipBlank(content[from..])); value == r.value && content[index..] == SkipComment(SkipBlank(r.rest))
  {
    hide SkipBlank, SkipLine, ReadValue;
    index := PastBlank(content, from);
    value, index := TakeValue(content, index);
    index := PastBlank(content, index);
    if index < |content| && content[index] == '#' {
      index := PastLine(content, index);
    }
  }

  method PastSpace(content: string, from: nat) returns (index: nat)
    requires from <= |content|
    ensures from <= index <= |content| && content[index..] == SkipSpace(content[from..])
  {
    index := from;
    while index < |content| && IsWhitespace(content[index])
      invariant from <= index <= |content| && SkipSpace(content[from..]) == SkipSpace(content[index..])
    {
      assert content[index..][1..] == content[index + 1..];
      index := index + 1;
    }
  }

  method PastBlank(content: string, from: nat) returns (index: nat)
    requires from <= |content|
    ensures from <= index <= |content| && content[index..] == SkipBlank(content[from..])
  {
    index := from;
    while index < |content| && IsBlank(content[index])
      invariant from <= index <= |content| && SkipBlank(content[from..]) == SkipBlank(content[index..])
    {
      assert content[index..][1..] == content[index + 1..];
      index := index + 1;
    }
  }

  method PastLine(content: string, from: nat) returns (index: nat)
    requires from <= |content|
    ensures from <= index <= |content| && content[index..] == SkipLine(content[from..])
  {
    index := from;
    while index < |content| && content[index] != '\n'
      invariant from <= index <= |content| && SkipLine(content[from..]) == SkipLine(content[index..])
    {
      assert content[index..][1..] == content[index + 1..];
      index := index + 1;
    }
  }

  method PastKey(content: string, from: nat) returns (index: nat)
    requires from <= |content|
    ensures from <= index <= |content| && index - from == KeyLength(content[from..])
  {
    index := from;
    while index < |content| && IsVarChar(content[index])
      invariant from <= index <= |content| && KeyLength(content[from..]) == index - from + KeyLength(content[index..])
    {
      assert content[index..][1..] == content[index + 1..];
      index := index + 1;
    }
  }

  method TakeValue(content: string, from: nat) returns (value: string, index: nat)
    requires from <= |content|
    ensures from <= index <= |content|
    ensures value == ReadValue(content[from..]).value && content[index..] == ReadValue(content[from..]).rest
  {
    if from < |content| && (content[from] == '"' || content[from] == '\'') {
      var terminated;
      value, terminated, index := TakeQuoted(content, from + 1, content[from]);
      assert content[from..][1..] == content[from + 1..];
      if !terminated {
        value := [content[from]] + value;
      }
    } else {
      value, index := TakeBare(content, from);
    }
  }

  /** What is read in all when this much has been read already. */
  function QuotedAfter(value: string, s: string, quote: char): Read {
    var r := ReadQuoted(s, quote);
    r.(value := value + r.value)
  }

  lemma QuotedEnd(value: string, quote: char)
    ensures QuotedAfter(value, [], quote) == Read(value, false, [])
  {
    assert value + "" == value;
  }

  lemma QuotedNext(value: string, s: string, quote: char)
    requires s != []
    ensures QuotedAfter(value, s, quote) ==
            if s[0] == quote then Read(value, true, s[1..])
            else if s[0] == '\\' && |s| > 1 && s[1] == '\n' then QuotedAfter(value, s[2..], quote)
            else if s[0] == '\\' && quote == '"' && |s| > 1 && Escapable(s[1]) then QuotedAfter(value + [s[1]], s[2..], quote)
            else QuotedAfter(value + [s[0]], s[1..], quote)
  {
    assert value + "" == value;
    if |s| > 1 { assert value + ([s[1]] + ReadQuoted(s[2..], quote).value) == value + [s[1]] + ReadQuoted(s[2..], quote).value; }
    assert value + ([s[0]] + ReadQuoted(s[1..], quote).value) == value + [s[0]] + ReadQuoted(s[1..], quote).value;
  }

  method TakeQuoted(content: string, from: nat, quote: char) returns (value: string, terminated: bool, index: nat)
    requires from <= |content|
    ensures from <= index <= |content|
    ensures Read(value, terminated, content[index..]) == ReadQuoted(content[from..], quote)
  {
    hide ReadQuoted, QuotedAfter, Escapable;
    value, terminated, index := "", false, from;
    QuotedFromStart(content[from..], quote);
    while index < |content|
      invariant from <= index <= |content| && !terminated
      invariant ReadQuoted(content[from..], quote) == QuotedAfter(value, content[index..], quote)
    {
      ghost var here := content[index..];
      QuotedNext(value, here, quote);
      assert here[1..] == content[index + 1..];
      var ch := content[index];
      if ch == quote { return value, true, index + 1; }
      if ch == '\\' && index + 1 < |content| {
        assert here[2..] == content[index + 2..];
        if content[index + 1] == '\n' {
          index := index + 2;
          continue;
        }
        if quote == '"' && Escapable(content[index + 1]) {
          value := value + [content[index + 1]];
          index := index + 2;
          continue;
        }
      }
      value := value + [ch];
      index := index + 1;
    }
    assert content[index..] == [];
    QuotedEnd(value, quote);
  }

  lemma QuotedFromStart(s: string, quote: char)
    ensures QuotedAfter("", s, quote) == ReadQuoted(s, quote)
  {
    assert "" + ReadQuoted(s, quote).value == ReadQuoted(s, quote).value;
  }

  method TakeBare(content: string, from: nat) returns (value: string, index: nat)
    requires from <= |content|
    ensures from <= index <= |content|
    ensures Read(value, true, content[index..]) == ReadBare(content[from..])
  {
    value, index := "", from;
    while index < |content|
      invariant from <= index <= |content|
      invariant ReadBare(content[from..]) == var r := ReadBare(content[index..]); r.(value := value + r.value)
    {
      ghost var here := content[index..];
      assert here[1..] == content[index + 1..];
      var ch := content[index];
      if ch == '\\' && index + 1 < |content| && content[index + 1] == '\n' {
        assert here[2..] == content[index + 2..];
        index := index + 2;
        continue;
      }
      if IsWhitespace(ch) || ch == '#' {
        break;
      }
      ghost var r := ReadBare(content[index + 1..]).value;
      assert value + ([ch] + r) == value + [ch] + r;
      value := value + [ch];
      index := index + 1;
    }
    assert value + "" == value;
  }

  // ── Writer ────────────────────────────────────────────────────────

  datatype MakeConfig = MakeConfig(
    chost: string,
    cflags: string,
    cxxflags: string,
    ldflags: string,
    makeopts: string,
    useFlags: seq<string>,
    useFlagsResolved: bool,
    acceptLicense: string,
    acceptKeywords: string,
    features: seq<string>,
    emergeDefaultOpts: string,
    cpuFlags: Option<(string, seq<string>)>,
    useExpand: seq<(string, seq<string>)>,
    extra: seq<(string, string)>
  )

  datatype Signing = Signing(key: string, home: string)

  datatype Line = Blank | Comment(text: string) | Assign(key: string, value: string)

  function LineText(line: Line): string {
    match line
    case Blank => "\n"
    case Comment(text) => "#" + text + "\n"
    case Assign(key, value) => key + "=\"" + value + "\"\n"
  }

  function LinesText(lines: seq<Line>): string {
    if lines == [] then "" else LineText(lines[0]) + LinesText(lines[1..])
  }

  function Join(words: seq<string>): string {
    if |words| == 0 then "" else if |words| == 1 then words[0] else words[0] + " " + Join(words[1..])
  }

  function Without(words: seq<string>, banned: set<string>): seq<string> {
    if words == [] then []
    else if words[0] in banned then Without(words[1..], banned)
    else [words[0]] + Without(words[1..], banned)
  }

  function WithWord(words: seq<string>, word: string): seq<string> {
    if word in words then words else words + [word]
  }

  const STRIPPED: set<string> := {"ccache", "distcc"}

  function WorkerFeatures(features: seq<string>, signing: bool): seq<string> {
    var base := if features != [] then WithWord(features, "buildpkg") else ["buildpkg", "noclean"];
    var signed := if signing then WithWord(WithWord(base, "binpkg-signing"), "gpg-keepalive") else base;
    Without(signed, STRIPPED)
  }

  function Arch(chost: string): string {
    chost[..IndexOf(chost, '-')]
  }

  predicate ValidKey(key: string) {
    key != [] && IsVarStart(key[0]) && forall i :: 0 <= i < |key| ==> IsVarChar(key[i])
  }

  predicate UnsafeChar(c: char) {
    c == '`' || c == '$' || c == '\\' || c == '"' || c == '\n' || c == '\r' || c == '\0'
  }

  predicate AcceptedExtra(entry: (string, string)) {
    ValidKey(entry.0) && forall i :: 0 <= i < |entry.1| ==> !UnsafeChar(entry.1[i])
  }

  function ExtraLines(extra: seq<(string, string)>): seq<Line> {
    if extra == [] then []
    else if AcceptedExtra(extra[0]) then [Assign(extra[0].0, extra[0].1)] + ExtraLines(extra[1..])
    else ExtraLines(extra[1..])
  }

  function ExpandLines(entries: seq<(string, seq<string>)>): seq<Line> {
    if entries == [] then [] else [Assign(entries[0].0, Join(entries[0].1))] + ExpandLines(entries[1..])
  }

  function HeaderLines(mc: MakeConfig): seq<Line> {
    [Comment(" Generated by remerge-worker \U{2014} do not edit."), Blank, Assign("CHOST", mc.chost)]
  }

  function CrossLines(mc: MakeConfig, workerChost: string): seq<Line> {
    if Arch(mc.chost) != Arch(workerChost) then [Assign("CBUILD", workerChost)] else []
  }

  function FlagLines(mc: MakeConfig): seq<Line> {
    [Blank, Assign("CFLAGS", mc.cflags), Assign("CXXFLAGS", mc.cxxflags), Assign("LDFLAGS", mc.ldflags), Assign("MAKEOPTS", mc.makeopts)]
  }

  function UseLines(mc: MakeConfig): seq<Line> {
    if mc.useFlags == [] then []
    else if mc.useFlagsResolved then [Assign("USE", "-* " + Join(mc.useFlags))]
    else [Assign("USE", Join(mc.useFlags))]
  }

  function AcceptLines(mc: MakeConfig): seq<Line> {
    [Assign("ACCEPT_LICENSE", mc.acceptLicense), Assign("ACCEPT_KEYWORDS", mc.acceptKeywords)]
  }

  /** Everything written before FEATURES. */
  function EarlyLines(mc: MakeConfig, workerChost: string): seq<Line> {
    HeaderLines(mc) + CrossLines(mc, workerChost) + FlagLines(mc) + UseLines(mc) + AcceptLines(mc)
  }

  function FeaturesLine(mc: MakeConfig, signing: Option<Signing>): Line {
    Assign("FEATURES", Join(WorkerFeatures(mc.features, signing.Some?)))
  }

  /** What the client's own settings add after FEATURES. */
  function ClientLines(mc: MakeConfig): seq<Line> {
    EmergeLines(mc) + CpuLines(mc) + ExpandLines(mc.useExpand) + ExtraLines(mc.extra)
  }

  const PKGDIR_LINES: seq<Line> :=
    [Blank, Comment(" remerge: output directory for binpkgs"), Assign("PKGDIR", "/var/cache/binpkgs")]

  function SigningLines(signing: Option<Signing>): seq<Line> {
    if signing.None? then []
    else
      [Blank, Comment(" Binary package OpenPGP signing" + " (injected by remerge-server)"), Assign("BINPKG_FORMAT", "gpkg"),
       Assign("BINPKG_GPG_SIGNING_KEY", signing.value.key), Assign("BINPKG_GPG_SIGNING_GPG_HOME", signing.value.home)]
  }

  /** What the worker fixes at the end. */
  function FixedLines(signing: Option<Signing>): seq<Line> {
    PKGDIR_LINES + SigningLines(signing)
  }

  function EmergeLines(mc: MakeConfig): seq<Line> {
    if mc.emergeDefaultOpts != [] then [Assign("EMERGE_DEFAULT_OPTS", mc.emergeDefaultOpts)] else []
  }

  function CpuLines(mc: MakeConfig): seq<Line> {
    if mc.cpuFlags.Some? then [Assign(mc.cpuFlags.value.0, Join(mc.cpuFlags.value.1))] else []
  }

  function AllLines(mc: MakeConfig, workerChost: string, signing: Option<Signing>): seq<Line> {
    EarlyLines(mc, workerChost) + [FeaturesLine(mc, signing)] + ClientLines(mc) + FixedLines(signing)
  }

  lemma {:induction false} LinesTextAppend(a: seq<Line>, b: seq<Line>)
    ensures LinesText(a + b) == LinesText(a) + LinesText(b)
  {
    if a == [] {
      assert a + b == b;
    } else {
      assert (a + b)[1..] == a[1..] + b;
      LinesTextAppend(a[1..], b);
    }
  }

  lemma PushLine(lines: seq<Line>, line: Line)
    ensures LinesText(lines + [line]) == LinesText(lines) + LineText(line)
  {
    LinesTextAppend(lines, [line]);
    assert [line][1..] == [] && LinesText([line]) == LineText(line) + "";
  }

  method BuildFeatures(features: seq<string>, signing: bool) returns (r: seq<string>)
    ensures r == WorkerFeatures(features, signing)
  {
    var list := features;
    if features != [] {
      if "buildpkg" !in list {
        list := list + ["buildpkg"];
      }
    } else {
      list := ["buildpkg", "noclean"];
    }
    if signing {
      if "binpkg-signing" !in list {
        list := list + ["binpkg-signing"];
      }
      if "gpg-keepalive" !in list {
        list := list + ["gpg-keepalive"];
      }
    }
    r := Strip(list);
  }

  method Strip(list: seq<string>) returns (r: seq<string>)
    ensures r == Without(list, STRIPPED)
  {
    r := [];
    for i := 0 to |list|
      invariant r + Without(list[i..], STRIPPED) == Without(list, STRIPPED)
    {
      assert list[i..][1..] == list[i + 1..];
      if list[i] !in STRIPPED {
        assert r + ([list[i]] + Without(list[i + 1..], STRIPPED)) == r + [list[i]] + Without(list[i + 1..], STRIPPED);
        r := r + [list[i]];
      }
    }
    assert list[|list|..] == [] && r + [] == r;
  }

  /** Appends the text of some lines to what has been written. */
  method Push(content: string, ghost written: seq<Line>, lines: seq<Line>) returns (content': string)
    requires content == LinesText(written)
    ensures content' == LinesText(written + lines)
  {
    hide LinesText, LineText;
    content' := content;
    assert written + lines[..0] == written;
    for i := 0 to |lines|
      invariant content' == LinesText(written + lines[..i])
    {
      PushLine(written + lines[..i], lines[i]);
      assert written + lines[..i] + [lines[i]] == written + lines[..i + 1];
      content' := content' + LineText(lines[i]);
    }
    assert lines[..|lines|] == lines;
  }

  method WriteEarly(mc: MakeConfig, workerChost: string) returns (content: string)
    ensures content == LinesText(EarlyLines(mc, workerChost))
  {
    hide LineText, HeaderLines, CrossLines, FlagLines, UseLines, AcceptLines;
    ghost var written: seq<Line> := [];
    content := "";
    content := Push(content, written, HeaderLines(mc));
    written := written + HeaderLines(mc);
    content := Push(content, written, CrossLines(mc, workerChost));
    written := written + CrossLines(mc, workerChost);
    content := Push(content, written, FlagLines(mc));
    written := written + FlagLines(mc);
    content := Push(content, written, UseLines(mc));
    written := written + UseLines(mc);
    content := Push(content, written, AcceptLines(mc));
    written := written + AcceptLines(mc);
    assert written == EarlyLines(mc, workerChost);
  }

  method WriteExpand(content: string, ghost written: seq<Line>, entries: seq<(string, seq<string>)>) returns (content': string)
    requires content == LinesText(written)
    ensures content' == LinesText(written + ExpandLines(entries))
  {
    hide LinesText, LineText, Join;
    content' := content;
    ghost var lines: seq<Line> := [];
    assert written + lines == written;
    for i := 0 to |entries|
      invariant content' == LinesText(written + lines) && lines + ExpandLines(entries[i..]) == ExpandLines(entries)
    {
      assert entries[i..][1..] == entries[i + 1..];
      var line := Assign(entries[i].0, Join(entries[i].1));
      assert lines + ([line] + ExpandLines(entries[i + 1..])) == lines + [line] + ExpandLines(entries[i + 1..]);
      PushLine(written + lines, line);
      assert written + lines + [line] == written + (lines + [line]);
      content' := content' + LineText(line);
      lines := lines + [line];
    }
    assert entries[|entries|..] == [] && lines + [] == lines;
  }

  /** Entries with an invalid name or an unsafe value are skipped. */
  method WriteExtra(content: string, ghost written: seq<Line>, extra: seq<(string, string)>) returns (content': string)
    requires content == LinesText(written)
    ensures content' == LinesText(written + ExtraLines(extra))
  {
    content' := content;
    ghost var lines: seq<Line> := [];
    assert written + lines == written;
    for i := 0 to |extra|
      invariant content' == LinesText(written + lines) && lines + ExtraLines(extra[i..]) == ExtraLines(extra)
    {
      assert extra[i..][1..] == extra[i + 1..];
      if !AcceptedExtra(extra[i]) {
        continue;
      }
      var line := Assign(extra[i].0, extra[i].1);
      assert lines + ([line] + ExtraLines(extra[i + 1..])) == lines + [line] + ExtraLines(extra[i + 1..]);
      PushLine(written + lines, line);
      assert written + lines + [line] == written + (lines + [line]);
      content' := content' + LineText(line);
      lines := lines + [line];
    }
    assert extra[|extra|..] == [] && lines + [] == lines;
  }

  method WriteMakeConf(mc: MakeConfig, workerChost: string, signing: Option<Signing>) returns (content: string)
    ensures content == LinesText(AllLines(mc, workerChost, signing))
  {
    hide LinesText, LineText, EarlyLines, WorkerFeatures, Join, EmergeLines, CpuLines, SigningLines, ExpandLines, ExtraLines;
    content := WriteEarly(mc, workerChost);
    ghost var early := EarlyLines(mc, workerChost) + [FeaturesLine(mc, signing)];
    var features := BuildFeatures(mc.features, signing.Some?);
    content := Push(content, EarlyLines(mc, workerChost), [Assign("FEATURES", Join(features))]);
    content := Push(content, early, EmergeLines(mc));
    content := Push(content, early + EmergeLines(mc), CpuLines(mc));
    content := WriteExpand(content, early + EmergeLines(mc) + CpuLines(mc), mc.useExpand);
    content := WriteExtra(content, early + EmergeLines(mc) + CpuLines(mc) + ExpandLines(mc.useExpand), mc.extra);
    assert early + EmergeLines(mc) + CpuLines(mc) + ExpandLines(mc.useExpand) + ExtraLines(mc.extra) == early + ClientLines(mc);
    content := Push(content, early + ClientLines(mc), PKGDIR_LINES);
    content := Push(content, early + ClientLines(mc) + PKGDIR_LINES, SigningLines(signing));
    assert early + ClientLines(mc) + PKGDIR_LINES + SigningLines(signing) == AllLines(mc, workerChost, signing);
  }

  // ── Reading back what was written ─────────────────────────────────

  function FoldLines(lines: seq<Line>, vars: Vars): Vars
    decreases |lines|
  {
    if lines == [] then vars
    else FoldLines(lines[1..], if lines[0].Assign? then vars[lines[0].key := lines[0].value] else vars)
  }

  predicate Quotable(value: string) {
    forall i :: 0 <= i < |value| ==> value[i] != '"' && value[i] != '\\'
  }

  predicate Readable(line: Line) {
    match line
    case Blank => true
    case Comment(text) => NoNewline(text)
    case Assign(key, value) => ValidKey(key) && Quotable(value)
  }

  predicate AllReadable(lines: seq<Line>) {
    forall i :: 0 <= i < |lines| ==> Readable(lines[i])
  }

  lemma ParseSkipsSpace(s: string, vars: Vars)
    requires s != [] && IsWhitespace(s[0])
    ensures ParseFrom(s, vars) == ParseFrom(s[1..], vars)
  {
  }

  lemma {:induction false} SkipLineTo(text: string, rest: string)
    requires NoNewline(text)
    ensures SkipLine(text + "\n" + rest) == "\n" + rest
  {
    if text == [] {
      assert text + "\n" + rest == "\n" + rest;
    } else {
      assert (text + "\n" + rest)[1..] == text[1..] + "\n" + rest;
      SkipLineTo(text[1..], rest);
    }
  }

  lemma {:induction false} KeyLengthIs(key: string, rest: string)
    requires (forall i :: 0 <= i < |key| ==> IsVarChar(key[i])) && rest != [] && !IsVarChar(rest[0])
    ensures KeyLength(key + rest) == |key|
  {
    if key == [] {
      assert key + rest == rest;
    } else {
      assert (key + rest)[1..] == key[1..] + rest;
      KeyLengthIs(key[1..], rest);
    }
  }

  lemma {:induction false} QuotedReads(value: string, rest: string)
    requires Quotable(value)
    ensures ReadQuoted(value + "\"" + rest, '"') == Read(value, true, rest)
  {
    var s := value + "\"" + rest;
    if value == [] {
      assert s[1..] == rest;
    } else {
      assert s[1..] == value[1..] + "\"" + rest;
      QuotedReads(value[1..], rest);
      assert [value[0]] + value[1..] == value;
    }
  }

  lemma NothingToSkip(s: string)
    ensures s != [] && !IsWhitespace(s[0]) ==> SkipSpace(s) == s
    ensures s != [] && !IsBlank(s[0]) ==> SkipBlank(s) == s
    ensures s != [] && s[0] != '#' ==> SkipComment(s) == s
  {
  }

  lemma QuotedValueReads(value: string, rest: string)
    requires Quotable(value)
    ensures ReadValue("\"" + value + "\"" + rest) == Read(value, true, rest)
  {
    QuotedReads(value, rest);
    assert ("\"" + value + "\"" + rest)[1..] == value + "\"" + rest;
  }

  /** One written assignment is read back as that assignment. */
  lemma AssignReads(key: string, value: string, rest: string, vars: Vars)
    requires ValidKey(key) && Quotable(value)
    ensures ParseFrom(LineText(Assign(key, value)) + rest, vars) == ParseFrom(rest, vars[key := value])
  {
    hide SkipSpace, SkipBlank, SkipComment, ReadValue, KeyLength, SkipLine;
    var s := LineText(Assign(key, value)) + rest;
    var next := "\n" + rest;
    var quoted := "\"" + value + "\"" + next;
    assert s == key + ("=" + quoted);
    assert s[1..] == key[1..] + ("=" + quoted);
    KeyLengthIs(key[1..], "=" + quoted);
    assert s[..|key|] == key && s[|key|..] == "=" + quoted;
    NothingToSkip(s);
    NothingToSkip("=" + quoted);
    assert ("=" + quoted)[1..] == quoted;
    NothingToSkip(quoted);
    QuotedValueReads(value, next);
    NothingToSkip(next);
    ParseSkipsSpace(next, vars[key := value]);
    assert next[1..] == rest;
  }

  lemma CommentReads(text: string, rest: string, vars: Vars)
    requires NoNewline(text)
    ensures ParseFrom(LineText(Comment(text)) + rest, vars) == ParseFrom(rest, vars)
  {
    var s := LineText(Comment(text)) + rest;
    assert s == ("#" + text) + "\n" + rest;
    SkipLineTo("#" + text, rest);
    assert SkipSpace(s) == s;
    ParseSkipsSpace("\n" + rest, vars);
    assert ("\n" + rest)[1..] == rest;
  }

  lemma {:induction false} LinesRead(lines: seq<Line>, vars: Vars)
    requires AllReadable(lines)
    ensures ParseFrom(LinesText(lines), vars) == FoldLines(lines, vars)
    decreases |lines|
  {
    hide ParseFrom;
    if lines == [] {
      NothingReads(vars);
    } else {
      var rest := LinesText(lines[1..]);
      match lines[0] {
        case Blank =>
          ParseSkipsSpace("\n" + rest, vars);
          assert ("\n" + rest)[1..] == rest;
        case Comment(text) => CommentReads(text, rest, vars);
        case Assign(key, value) => AssignReads(key, value, rest, vars);
      }
      LinesRead(lines[1..], if lines[0].Assign? then vars[lines[0].key := lines[0].value] else vars);
    }
  }

  lemma NothingReads(vars: Vars)
    ensures ParseFrom("", vars) == vars
  {
  }

  /** The configured values the worker writes as they are. */
  predicate Writable(mc: MakeConfig, workerChost: string, signing: Option<Signing>) {
    && Quotable(mc.chost) && Quotable(workerChost) && Quotable(mc.cflags) && Quotable(mc.cxxflags) && Quotable(mc.ldflags)
    && Quotable(mc.makeopts) && Quotable(mc.acceptLicense) && Quotable(mc.acceptKeywords) && Quotable(mc.emergeDefaultOpts)
    && (forall i :: 0 <= i < |mc.useFlags| ==> Quotable(mc.useFlags[i]))
    && (forall i :: 0 <= i < |mc.features| ==> Quotable(mc.features[i]))
    && (mc.cpuFlags.Some? ==> ValidKey(mc.cpuFlags.value.0) && AllQuotable(mc.cpuFlags.value.1))
    && (forall i :: 0 <= i < |mc.useExpand| ==> ValidKey(mc.useExpand[i].0) && AllQuotable(mc.useExpand[i].1))
    && (signing.Some? ==> Quotable(signing.value.key) && Quotable(signing.value.home))
  }

  predicate AllQuotable(words: seq<string>) {
    forall i :: 0 <= i < |words| ==> Quotable(words[i])
  }

  lemma {:induction false} JoinQuotable(words: seq<string>)
    requires AllQuotable(words)
    ensures Quotable(Join(words))
  {
    if |words| > 1 { JoinQuotable(words[1..]); }
  }

  lemma {:induction false} WithoutQuotable(words: seq<string>, banned: set<string>)
    requires AllQuotable(words)
    ensures AllQuotable(Without(words, banned))
  {
    if words != [] { WithoutQuotable(words[1..], banned); }
  }

  lemma WithWordQuotable(words: seq<string>, word: string)
    requires AllQuotable(words) && Quotable(word)
    ensures AllQuotable(WithWord(words, word))
  {
  }

  lemma FeaturesQuotable(features: seq<string>, signing: bool)
    requires AllQuotable(features)
    ensures Quotable(Join(WorkerFeatures(features, signing)))
  {
    hide AllQuotable, Join, Without, WithWord;
    FixedWordsQuotable();
    var base := if features != [] then WithWord(features, "buildpkg") else ["buildpkg", "noclean"];
    if features != [] { WithWordQuotable(features, "buildpkg"); }
    WithWordQuotable(base, "binpkg-signing");
    WithWordQuotable(WithWord(base, "binpkg-signing"), "gpg-keepalive");
    var signed := if signing then WithWord(WithWord(base, "binpkg-signing"), "gpg-keepalive") else base;
    WithoutQuotable(signed, STRIPPED);
    JoinQuotable(Without(signed, STRIPPED));
  }

  lemma FixedWordsQuotable()
    ensures Quotable("buildpkg") && Quotable("binpkg-signing") && Quotable("gpg-keepalive")
    ensures AllQuotable(["buildpkg", "noclean"])
  {
    assert Quotable("noclean");
  }

  lemma FixedKeysValid()
    ensures ValidKey("CHOST") && ValidKey("CBUILD") && ValidKey("CFLAGS") && ValidKey("CXXFLAGS") && ValidKey("LDFLAGS")
    ensures ValidKey("MAKEOPTS") && ValidKey("USE") && ValidKey("ACCEPT_LICENSE") && ValidKey("ACCEPT_KEYWORDS")
  {
  }

  lemma LaterKeysValid()
    ensures ValidKey("FEATURES") && ValidKey("EMERGE_DEFAULT_OPTS") && ValidKey("PKGDIR") && ValidKey("BINPKG_FORMAT")
    ensures ValidKey("BINPKG_GPG_SIGNING_KEY") && ValidKey("BINPKG_GPG_SIGNING_GPG_HOME")
  {
  }

  lemma EarlyReadable(mc: MakeConfig, workerChost: string, signing: Option<Signing>)
    requires Writable(mc, workerChost, signing)
    ensures AllReadable(EarlyLines(mc, workerChost))
  {
    hide ValidKey, Join;
    JoinQuotable(mc.useFlags);
    FixedKeysValid();
    assert Quotable("-* ");
    assert NoNewline(" Generated by remerge-worker \U{2014} do not edit.");
    assert AllReadable(HeaderLines(mc));
    assert AllReadable(CrossLines(mc, workerChost));
    assert AllReadable(FlagLines(mc));
    assert AllReadable(UseLines(mc));
    assert AllReadable(AcceptLines(mc));
  }

  lemma FixedReadable(signing: Option<Signing>)
    requires signing.Some? ==> Quotable(signing.value.key) && Quotable(signing.value.home)
    ensures AllReadable(FixedLines(signing))
  {
    hide ValidKey, NoNewline, Quotable;
    LaterKeysValid();
    FixedTexts();
    assert AllReadable(PKGDIR_LINES);
    assert AllReadable(SigningLines(signing));
  }

  lemma SigningComment()
    ensures NoNewline(" Binary package OpenPGP signing" + " (injected by remerge-server)")
  {
    var a, b := " Binary package OpenPGP signing", " (injected by remerge-server)";
    assert NoNewline(a) && NoNewline(b);
  }

  lemma FixedTexts()
    ensures Quotable("/var/cache/binpkgs") && Quotable("gpkg")
    ensures NoNewline(" remerge: output directory for binpkgs")
    ensures NoNewline(" Binary package OpenPGP signing" + " (injected by remerge-server)")
  {
    SigningComment();
  }

  lemma {:induction false} ExpandReadable(entries: seq<(string, seq<string>)>)
    requires forall i :: 0 <= i < |entries| ==> ValidKey(entries[i].0) && AllQuotable(entries[i].1)
    ensures AllReadable(ExpandLines(entries))
  {
    if entries != [] {
      JoinQuotable(entries[0].1);
      ExpandReadable(entries[1..]);
    }
  }

  lemma {:induction false} ExtraReadable(extra: seq<(string, string)>)
    ensures AllReadable(ExtraLines(extra))
  {
    if extra != [] { ExtraReadable(extra[1..]); }
  }

  lemma AllLinesReadable(mc: MakeConfig, workerChost: string, signing: Option<Signing>)
    requires Writable(mc, workerChost, signing)
    ensures AllReadable(AllLines(mc, workerChost, signing))
  {
    hide EarlyLines, WorkerFeatures, FixedLines, ValidKey, Join, Quotable;
    EarlyReadable(mc, workerChost, signing);
    FeaturesQuotable(mc.features, signing.Some?);
    LaterKeysValid();
    if mc.cpuFlags.Some? { JoinQuotable(mc.cpuFlags.value.1); }
    ExpandReadable(mc.useExpand);
    ExtraReadable(mc.extra);
    FixedReadable(signing);
    assert AllReadable(EmergeLines(mc)) && AllReadable(CpuLines(mc));
    assert AllReadable(ClientLines(mc));
    assert Readable(FeaturesLine(mc, signing));
  }

  /**
   The client's reader, applied to the make.conf the worker writes, yields exactly the
   last-wins fold of the assignments written, whatever the extra variables hold.
   */
  lemma MakeConfRoundTrip(mc: MakeConfig, workerChost: string, signing: Option<Signing>)
    requires Writable(mc, workerChost, signing)
    ensures Parse(LinesText(AllLines(mc, workerChost, signing))) == FoldLines(AllLines(mc, workerChost, signing), map[])
  {
    AllLinesReadable(mc, workerChost, signing);
    LinesRead(AllLines(mc, workerChost, signing), map[]);
  }

  // ── PKGDIR and FEATURES ───────────────────────────────────────────

  lemma {:induction false} FoldAppend(a: seq<Line>, b: seq<Line>, vars: Vars)
    ensures FoldLines(a + b, vars) == FoldLines(b, FoldLines(a, vars))
    decreases |a|
  {
    if a == [] {
      assert a + b == b;
    } else {
      assert (a + b)[1..] == a[1..] + b;
      FoldAppend(a[1..], b, if a[0].Assign? then vars[a[0].key := a[0].value] else vars);
    }
  }

  /** What a run of lines last assigns to a key. */
  function LastValue(lines: seq<Line>, key: string): Option<string> {
    if lines == [] then None
    else
      var later := LastValue(lines[1..], key);
      if later.Some? then later
      else if lines[0].Assign? && lines[0].key == key then Some(lines[0].value)
      else None
  }

  lemma {:induction false} FoldIsLastValue(lines: seq<Line>, key: string, vars: Vars)
    ensures var r := FoldLines(lines, vars);
            var last := LastValue(lines, key);
            && (last.Some? ==> key in r && r[key] == last.value)
            && (last.None? ==> (key in r <==> key in vars) && (key in vars ==> r[key] == vars[key]))
    decreases |lines|
  {
    if lines != [] {
      FoldIsLastValue(lines[1..], key, if lines[0].Assign? then vars[lines[0].key := lines[0].value] else vars);
    }
  }

  lemma LastOfFixed(signing: Option<Signing>)
    ensures LastValue(FixedLines(signing), "PKGDIR") == Some("/var/cache/binpkgs")
    ensures LastValue(FixedLines(signing), "FEATURES") == None
  {
    var lines := FixedLines(signing);
    assert lines[..3] == PKGDIR_LINES;
    LastInTail(lines, 3, "PKGDIR");
    LastInTail(lines, 0, "FEATURES");
    LastOfLast(PKGDIR_LINES[..2], PKGDIR_LINES[2]);
    assert PKGDIR_LINES == PKGDIR_LINES[..2] + [PKGDIR_LINES[2]];
    assert lines[..0] == [];
  }

  /** Lines that do not assign the key do not matter to its last value. */
  lemma {:induction false} LastInTail(lines: seq<Line>, n: nat, key: string)
    requires n <= |lines| && forall i :: n <= i < |lines| ==> !(lines[i].Assign? && lines[i].key == key)
    ensures LastValue(lines, key) == LastValue(lines[..n], key)
    decreases |lines|
  {
    if lines != [] {
      if n == 0 {
        LastInTail(lines[1..], 0, key);
        assert lines[1..][..0] == [];
      } else {
        LastInTail(lines[1..], n - 1, key);
        assert lines[..n][1..] == lines[1..][..n - 1];
      }
    }
  }

  /** Packages always go to the mounted volume, whatever the client configured. */
  lemma PkgdirIsFixed(mc: MakeConfig, workerChost: string, signing: Option<Signing>)
    requires Writable(mc, workerChost, signing)
    ensures var vars := Parse(LinesText(AllLines(mc, workerChost, signing)));
            "PKGDIR" in vars && vars["PKGDIR"] == "/var/cache/binpkgs"
  {
    hide EarlyLines, WorkerFeatures, FixedLines, ClientLines;
    MakeConfRoundTrip(mc, workerChost, signing);
    var front := EarlyLines(mc, workerChost) + [FeaturesLine(mc, signing)] + ClientLines(mc);
    FoldAppend(front, FixedLines(signing), map[]);
    FoldIsLastValue(FixedLines(signing), "PKGDIR", FoldLines(front, map[]));
    LastOfFixed(signing);
  }

  /**
   FEATURES is what the worker computed exactly when no client setting written after it
   assigns FEATURES something else; the worker does not filter that name.
   */
  lemma FeaturesExactly(mc: MakeConfig, workerChost: string, signing: Option<Signing>)
    requires Writable(mc, workerChost, signing)
    ensures var vars := Parse(LinesText(AllLines(mc, workerChost, signing)));
            var wanted := Join(WorkerFeatures(mc.features, signing.Some?));
            var override := LastValue(ClientLines(mc), "FEATURES");
            && "FEATURES" in vars
            && vars["FEATURES"] == (if override.Some? then override.value else wanted)
            && (vars["FEATURES"] == wanted <==> override.None? || override.value == wanted)
  {
    hide EarlyLines, WorkerFeatures, FixedLines, ClientLines;
    MakeConfRoundTrip(mc, workerChost, signing);
    var early := EarlyLines(mc, workerChost) + [FeaturesLine(mc, signing)];
    FoldAppend(early + ClientLines(mc), FixedLines(signing), map[]);
    FoldAppend(early, ClientLines(mc), map[]);
    FoldAppend(EarlyLines(mc, workerChost), [FeaturesLine(mc, signing)], map[]);
    var v0 := FoldLines(early, map[]);
    var v1 := FoldLines(ClientLines(mc), v0);
    FoldIsLastValue([FeaturesLine(mc, signing)], "FEATURES", FoldLines(EarlyLines(mc, workerChost), map[]));
    assert [FeaturesLine(mc, signing)][1..] == [];
    FoldIsLastValue(ClientLines(mc), "FEATURES", v0);
    FoldIsLastValue(FixedLines(signing), "FEATURES", v1);
    LastOfFixed(signing);
  }

  lemma {:induction false} WithoutMember(words: seq<string>, banned: set<string>, word: string)
    ensures word in Without(words, banned) <==> word in words && word !in banned
  {
    if words != [] {
      WithoutMember(words[1..], banned, word);
      assert words == [words[0]] + words[1..];
    }
  }

  /** The worker's list has buildpkg, never ccache or distcc, and keeps everything else the client asked for. */
  lemma WorkerFeaturesContain(features: seq<string>, signing: bool, word: string)
    ensures "buildpkg" in WorkerFeatures(features, signing)
    ensures "ccache" !in WorkerFeatures(features, signing) && "distcc" !in WorkerFeatures(features, signing)
    ensures word in features && word !in STRIPPED ==> word in WorkerFeatures(features, signing)
    ensures signing ==> "binpkg-signing" in WorkerFeatures(features, signing) && "gpg-keepalive" in WorkerFeatures(features, signing)
  {
    var base := if features != [] then WithWord(features, "buildpkg") else ["buildpkg", "noclean"];
    var signed := if signing then WithWord(WithWord(base, "binpkg-signing"), "gpg-keepalive") else base;
    WithoutMember(signed, STRIPPED, "buildpkg");
    WithoutMember(signed, STRIPPED, "ccache");
    WithoutMember(signed, STRIPPED, "distcc");
    WithoutMember(signed, STRIPPED, "binpkg-signing");
    WithoutMember(signed, STRIPPED, "gpg-keepalive");
    WithoutMember(signed, STRIPPED, word);
  }

  function SplitWords(s: string): seq<string>
    decreases |s|
  {
    var t := SkipSpace(s);
    if t == [] then [] else [t[..WordLength(t)]] + SplitWords(t[WordLength(t)..])
  }

  function WordLength(s: string): (n: nat)
    ensures n <= |s| && (s != [] && !IsWhitespace(s[0]) ==> n > 0)
  {
    if s != [] && !IsWhitespace(s[0]) then 1 + WordLength(s[1..]) else 0
  }

  predicate IsWord(s: string) {
    s != [] && forall i :: 0 <= i < |s| ==> !IsWhitespace(s[i])
  }

  lemma {:induction false} WordLengthIs(word: string, rest: string)
    requires (forall i :: 0 <= i < |word| ==> !IsWhitespace(word[i])) && (rest != [] ==> IsWhitespace(rest[0]))
    ensures WordLength(word + rest) == |word|
  {
    if word == [] {
      assert word + rest == rest;
    } else {
      assert (word + rest)[1..] == word[1..] + rest;
      WordLengthIs(word[1..], rest);
    }
  }

  /** Splitting a joined list on white space gives the list back. */
  lemma {:induction false} SplitInvertsJoin(words: seq<string>)
    requires forall i :: 0 <= i < |words| ==> IsWord(words[i])
    ensures SplitWords(Join(words)) == words
    decreases |words|
  {
    if words != [] {
      var rest := if |words| == 1 then "" else " " + Join(words[1..]);
      assert Join(words) == words[0] + rest;
      assert SkipSpace(words[0] + rest) == words[0] + rest;
      WordLengthIs(words[0], rest);
      assert (words[0] + rest)[..|words[0]|] == words[0] && (words[0] + rest)[|words[0]|..] == rest;
      SplitInvertsJoin(words[1..]);
      if |words| > 1 {
        assert rest[1..] == Join(words[1..]);
        assert SplitWords(rest) == SplitWords(Join(words[1..]));
      }
      assert words == [words[0]] + words[1..];
    }
  }

  /** The words of several texts, in order. */
  function WordsOf(texts: seq<string>): seq<string> {
    if texts == [] then [] else SplitWords(texts[0]) + WordsOf(texts[1..])
  }

  lemma {:induction false} SkipSpaceAppend(a: string, b: string)
    ensures SkipSpace(a + b) == if SkipSpace(a) == [] then SkipSpace(b) else SkipSpace(a) + b
  {
    if a == [] {
      assert a + b == b;
    } else {
      assert (a + b)[1..] == a[1..] + b;
      SkipSpaceAppend(a[1..], b);
    }
  }

  lemma {:induction false} WordLengthAppend(a: string, b: string)
    requires b != [] && IsWhitespace(b[0])
    ensures WordLength(a + b) == WordLength(a)
  {
    if a == [] {
      assert a + b == b;
    } else {
      assert (a + b)[1..] == a[1..] + b;
      WordLengthAppend(a[1..], b);
    }
  }

  lemma {:induction false} SplitAppend(a: string, b: string)
    requires b != [] && IsWhitespace(b[0])
    ensures SplitWords(a + b) == SplitWords(a) + SplitWords(b)
    decreases |a|
  {
    var t := SkipSpace(a);
    SkipSpaceAppend(a, b);
    if t != [] {
      var n := WordLength(t);
      WordLengthAppend(t, b);
      assert (t + b)[..n] == t[..n] && (t + b)[n..] == t[n..] + b;
      SplitAppend(t[n..], b);
    }
  }

  lemma LeadingSpace(s: string)
    ensures SplitWords(" " + s) == SplitWords(s)
  {
    assert (" " + s)[1..] == s;
  }

  /** Splitting joined texts gives all their words, whether or not each text is one word. */
  lemma {:induction false} SplitJoined(texts: seq<string>)
    ensures SplitWords(Join(texts)) == WordsOf(texts)
  {
    if |texts| > 1 {
      var rest := " " + Join(texts[1..]);
      SplitJoined(texts[1..]);
      SplitAppend(texts[0], rest);
      LeadingSpace(Join(texts[1..]));
      assert Join(texts) == texts[0] + rest;
    } else if |texts| == 1 {
      assert texts[1..] == [];
    }
  }

  /** Some text other than the banned ones has the word. */
  ghost predicate HasWord(texts: seq<string>, banned: set<string>, word: string) {
    exists text :: text in texts && text !in banned && word in SplitWords(text)
  }

  lemma {:induction false} WordsOfMember(texts: seq<string>, banned: set<string>, word: string)
    ensures word in WordsOf(Without(texts, banned)) <==> HasWord(texts, banned, word)
  {
    hide SplitWords;
    if texts != [] {
      WordsOfMember(texts[1..], banned, word);
      assert texts == [texts[0]] + texts[1..];
      var rest := Without(texts[1..], banned);
      if texts[0] !in banned {
        assert ([texts[0]] + rest)[1..] == rest;
        if word in SplitWords(texts[0]) { assert texts[0] in texts; }
      }
      if HasWord(texts, banned, word) {
        var text :| text in texts && text !in banned && word in SplitWords(text);
        assert text == texts[0] || text in texts[1..];
      }
    }
  }

  /** What the worker adds to the requested features. */
  function AddedFeatures(features: seq<string>, signing: bool): set<string> {
    {"buildpkg"} + (if features == [] then {"noclean"} else {}) + (if signing then {"binpkg-signing", "gpg-keepalive"} else {})
  }

  lemma OneWord(word: string)
    requires IsWord(word)
    ensures SplitWords(word) == [word]
  {
    SplitInvertsJoin([word]);
  }

  lemma AddedAreWords(features: seq<string>, signing: bool, word: string)
    requires word in AddedFeatures(features, signing)
    ensures word !in STRIPPED && SplitWords(word) == [word]
  {
    hide SplitWords, IsWord;
    AddedWords();
    LongerThanStripped(word);
    OneWord(word);
  }

  lemma AddedWords()
    ensures IsWord("buildpkg") && IsWord("noclean")
    ensures IsWord("binpkg-signing") && IsWord("gpg-keepalive")
  {
  }

  lemma LongerThanStripped(word: string)
    ensures |word| > 6 ==> word !in STRIPPED
  {
  }

  lemma HasWordSplit(all: seq<string>, asked: seq<string>, added: set<string>, banned: set<string>, word: string)
    requires forall f :: f in all <==> f in asked || f in added
    requires forall f :: f in added ==> f !in banned && SplitWords(f) == [f]
    ensures HasWord(all, banned, word) <==> word in added || HasWord(asked, banned, word)
  {
    hide SplitWords;
  }

  /** The worker's list has exactly the words of the features it keeps and those it adds. */
  lemma WorkerFeatureWords(features: seq<string>, signing: bool, word: string)
    ensures word in SplitWords(Join(WorkerFeatures(features, signing))) <==>
            word in AddedFeatures(features, signing) || HasWord(features, STRIPPED, word)
  {
    hide Without, SplitWords, Join, WithWord, HasWord, AddedFeatures;
    var base := if features != [] then WithWord(features, "buildpkg") else ["buildpkg", "noclean"];
    var signed := if signing then WithWord(WithWord(base, "binpkg-signing"), "gpg-keepalive") else base;
    SplitJoined(Without(signed, STRIPPED));
    WordsOfMember(signed, STRIPPED, word);
    SignedFeatures(features, signing, signed);
    forall f | f in AddedFeatures(features, signing) ensures f !in STRIPPED && SplitWords(f) == [f] { AddedAreWords(features, signing, f); }
    HasWordSplit(signed, features, AddedFeatures(features, signing), STRIPPED, word);
  }

  lemma SignedFeatures(features: seq<string>, signing: bool, signed: seq<string>)
    requires var base := if features != [] then WithWord(features, "buildpkg") else ["buildpkg", "noclean"];
             signed == if signing then WithWord(WithWord(base, "binpkg-signing"), "gpg-keepalive") else base
    ensures forall f :: f in signed <==> f in features || f in AddedFeatures(features, signing)
  {
  }

  /** A setting the client's part writes after FEATURES has that name: cpu flags, a USE_EXPAND variable or an extra variable. */
  ghost predicate ReassignsFeatures(mc: MakeConfig) {
    || (mc.cpuFlags.Some? && mc.cpuFlags.value.0 == "FEATURES")
    || (exists i :: 0 <= i < |mc.useExpand| && mc.useExpand[i].0 == "FEATURES")
    || (exists i :: 0 <= i < |mc.extra| && mc.extra[i].0 == "FEATURES" && AcceptedExtra(mc.extra[i]))
  }

  ghost predicate Assigns(lines: seq<Line>, key: string) {
    exists i :: 0 <= i < |lines| && lines[i].Assign? && lines[i].key == key
  }

  lemma {:induction false} LastValueExists(lines: seq<Line>, key: string)
    ensures LastValue(lines, key).Some? <==> Assigns(lines, key)
  {
    if lines != [] {
      LastValueExists(lines[1..], key);
      AssignsSplit([lines[0]], lines[1..], key);
      assert lines == [lines[0]] + lines[1..];
    }
  }

  lemma AssignsSplit(a: seq<Line>, b: seq<Line>, key: string)
    ensures Assigns(a + b, key) <==> Assigns(a, key) || Assigns(b, key)
  {
    forall i | 0 <= i < |a| ensures (a + b)[i] == a[i] {}
    forall i | 0 <= i < |b| ensures (a + b)[|a| + i] == b[i] {}
    if Assigns(b, key) {
      var i :| 0 <= i < |b| && b[i].Assign? && b[i].key == key;
      assert (a + b)[|a| + i].Assign?;
    }
  }

  lemma {:induction false} ExpandAssigns(entries: seq<(string, seq<string>)>, key: string)
    ensures Assigns(ExpandLines(entries), key) <==> exists i :: 0 <= i < |entries| && entries[i].0 == key
  {
    if entries != [] {
      ExpandAssigns(entries[1..], key);
      var first := Assign(entries[0].0, Join(entries[0].1));
      AssignsSplit([first], ExpandLines(entries[1..]), key);
      assert Assigns([first], key) <==> entries[0].0 == key by { assert [first][0] == first; }
      assert forall i :: 0 <= i < |entries| - 1 ==> entries[1..][i] == entries[i + 1];
      if exists i :: 0 <= i < |entries| && entries[i].0 == key {
        var i :| 0 <= i < |entries| && entries[i].0 == key;
        if i > 0 { assert entries[1..][i - 1].0 == key; }
      }
    }
  }

  lemma {:induction false} ExtraAssigns(extra: seq<(string, string)>, key: string)
    ensures Assigns(ExtraLines(extra), key) <==> exists i :: 0 <= i < |extra| && extra[i].0 == key && AcceptedExtra(extra[i])
  {
    hide AcceptedExtra;
    if extra != [] {
      ExtraAssigns(extra[1..], key);
      var first := Assign(extra[0].0, extra[0].1);
      AssignsSplit([first], ExtraLines(extra[1..]), key);
      assert Assigns([first], key) <==> extra[0].0 == key by { assert [first][0] == first; }
      assert forall i :: 0 <= i < |extra| - 1 ==> extra[1..][i] == extra[i + 1];
      if exists i :: 0 <= i < |extra| && extra[i].0 == key && AcceptedExtra(extra[i]) {
        var i :| 0 <= i < |extra| && extra[i].0 == key && AcceptedExtra(extra[i]);
        if i > 0 { assert extra[1..][i - 1].0 == key; }
      }
    }
  }

  lemma OverrideExactly(mc: MakeConfig)
    ensures LastValue(ClientLines(mc), "FEATURES").Some? <==> ReassignsFeatures(mc)
  {
    hide AcceptedExtra, LastValue, ExtraLines, ExpandLines, Assigns;
    LastValueExists(ClientLines(mc), "FEATURES");
    AssignsSplit(EmergeLines(mc) + CpuLines(mc) + ExpandLines(mc.useExpand), ExtraLines(mc.extra), "FEATURES");
    AssignsSplit(EmergeLines(mc) + CpuLines(mc), ExpandLines(mc.useExpand), "FEATURES");
    AssignsSplit(EmergeLines(mc), CpuLines(mc), "FEATURES");
    ExpandAssigns(mc.useExpand, "FEATURES");
    ExtraAssigns(mc.extra, "FEATURES");
    HeadAssigns(mc);
  }

  lemma HeadAssigns(mc: MakeConfig)
    ensures !Assigns(EmergeLines(mc), "FEATURES")
    ensures Assigns(CpuLines(mc), "FEATURES") <==> mc.cpuFlags.Some? && mc.cpuFlags.value.0 == "FEATURES"
  {
    if mc.cpuFlags.Some? { assert CpuLines(mc)[0].Assign?; }
  }

  /**
   The words of the FEATURES portage reads in make.conf. When no later setting has that name
   they are what the worker adds and the words of every requested feature other than ccache
   and distcc themselves: ccache is among them if and only if such a feature carries it as one
   word of several, and so for distcc.
   */
  lemma FeaturesAsRead(mc: MakeConfig, workerChost: string, signing: Option<Signing>, word: string)
    requires Writable(mc, workerChost, signing)
    ensures var vars := Parse(LinesText(AllLines(mc, workerChost, signing)));
            && "FEATURES" in vars
            && (!ReassignsFeatures(mc) ==>
                  && "buildpkg" in SplitWords(vars["FEATURES"])
                  && (word in SplitWords(vars["FEATURES"]) <==> word in AddedFeatures(mc.features, signing.Some?) || HasWord(mc.features, STRIPPED, word))
                  && (word in STRIPPED ==> (word in SplitWords(vars["FEATURES"]) <==> HasWord(mc.features, STRIPPED, word))))
  {
    hide EarlyLines, ClientLines, FixedLines, ParseFrom, WorkerFeatures, Join, SplitWords, Writable, ReassignsFeatures, HasWord;
    FeaturesExactly(mc, workerChost, signing);
    OverrideExactly(mc);
    WorkerFeatureWords(mc.features, signing.Some?, word);
    WorkerFeatureWords(mc.features, signing.Some?, "buildpkg");
  }

  lemma TwoWords(a: string, b: string)
    requires IsWord(a) && IsWord(b)
    ensures SplitWords(a + " " + b) == [a, b]
  {
    hide SplitWords;
    assert a + " " + b == Join([a, b]) by { assert [a, b][1..] == [b]; }
    SplitInvertsJoin([a, b]);
  }

  /** Such features exist: one that carries ccache as its second word is kept whole. */
  lemma FeatureOfTwoWords(first: string, signing: bool)
    requires IsWord(first)
    ensures "ccache" in SplitWords(Join(WorkerFeatures([first + " " + "ccache"], signing)))
  {
    hide SplitWords, Join, WorkerFeatures;
    var feature := first + " " + "ccache";
    assert IsWord("ccache");
    TwoWords(first, "ccache");
    assert |feature| > 6;
    assert feature in [feature];
    WorkerFeatureWords([feature], signing, "ccache");
  }

  /** An extra variable named FEATURES passes the worker's filter, whatever its value, and the last one wins. */
  lemma ExtraCanReplaceFeatures(mc: MakeConfig, workerChost: string, signing: Option<Signing>, earlier: seq<(string, string)>, value: string)
    requires Writable(mc, workerChost, signing) && mc.extra == earlier + [("FEATURES", value)] && AcceptedExtra(("FEATURES", value))
    ensures var vars := Parse(LinesText(AllLines(mc, workerChost, signing)));
            "FEATURES" in vars && vars["FEATURES"] == value
  {
    hide EarlyLines, FixedLines, ParseFrom, Writable, WorkerFeatures, Join, LinesText, AllLines, AcceptedExtra, ExtraLines;
    FeaturesExactly(mc, workerChost, signing);
    ExtraLast(earlier, ("FEATURES", value));
    var front := EmergeLines(mc) + CpuLines(mc) + ExpandLines(mc.useExpand) + ExtraLines(earlier);
    LastOfLast(front, Assign("FEATURES", value));
    assert ClientLines(mc) == front + [Assign("FEATURES", value)];
  }

  lemma {:induction false} ExtraLast(earlier: seq<(string, string)>, last: (string, string))
    requires AcceptedExtra(last)
    ensures ExtraLines(earlier + [last]) == ExtraLines(earlier) + [Assign(last.0, last.1)]
  {
    hide AcceptedExtra;
    if earlier == [] {
      assert earlier + [last] == [last] && [last][1..] == [];
    } else {
      assert (earlier + [last])[1..] == earlier[1..] + [last];
      ExtraLast(earlier[1..], last);
    }
  }

  lemma {:induction false} LastOfLast(lines: seq<Line>, line: Line)
    requires line.Assign?
    ensures LastValue(lines + [line], line.key) == Some(line.value)
  {
    if lines == [] {
      assert lines + [line] == [line] && [line][1..] == [];
    } else {
      assert (lines + [line])[1..] == lines[1..] + [line];
      LastOfLast(lines[1..], line);
    }
  }
}
