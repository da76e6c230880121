/** The repos.conf reader, and the rewriter that moves a repository to another location. */
module ReposConf {
  import opened Common
  import opened Text

  datatype RepoSection = RepoSection(name: string, location: string, syncUri: Option<string>)

  /** The section being read, after the sections already finished. */
  datatype Reading = Reading(repos: seq<RepoSection>, name: string, location: Option<string>, syncUri: Option<string>)

  const NOTHING: Reading := Reading([], "", None, None)

  function Flush(r: Reading): seq<RepoSection> {
    if r.name != [] && !EqIgnoreCase(r.name, "DEFAULT") && r.location.Some?
    then r.repos + [RepoSection(r.name, r.location.value, r.syncUri)]
    else r.repos
  }

  predicate IsHeader(trimmed: string) {
    |trimmed| >= 2 && trimmed[0] == '[' && trimmed[|trimmed| - 1] == ']'
  }

  datatype Setting = NoSetting | Setting(key: string, value: string)

  function ReadSetting(trimmed: string): Setting {
    var n := IndexOf(trimmed, '=');
    if n == |trimmed| then NoSetting else Setting(Trim(trimmed[..n]), Trim(trimmed[n + 1..]))
  }

  function ReadLine(r: Reading, line: string): Reading {
    var trimmed := Trim(line);
    if IsHeader(trimmed) then Reading(Flush(r), trimmed[1..|trimmed| - 1], None, None)
    else
      match ReadSetting(trimmed)
      case NoSetting => r
      case Setting(key, value) =>
        if EqIgnoreCase(key, "location") then r.(location := Some(value))
        else if EqIgnoreCase(key, "sync-uri") then r.(syncUri := Some(value))
        else r
  }

  function ReadLines(r: Reading, lines: seq<string>): Reading
    decreases |lines|
  {
    if lines == [] then r else ReadLines(ReadLine(r, lines[0]), lines[1..])
  }

  function ParseRepoSections(content: string): seq<RepoSection> {
    Flush(ReadLines(NOTHING, Lines(content)))
  }

  method ParseRepoSectionsFull(content: string) returns (repos: seq<RepoSection>)
    ensures repos == ParseRepoSections(content)
  {
    var lines := Lines(content);
    repos := [];
    var name, location, syncUri := "", None, None;
    for i := 0 to |lines|
      invariant ReadLines(NOTHING, lines) == ReadLines(Reading(repos, name, location, syncUri), lines[i..])
    {
      assert lines[i..][1..] == lines[i + 1..];
      var trimmed := Trim(lines[i]);
      if IsHeader(trimmed) {
        if name != [] && !EqIgnoreCase(name, "DEFAULT") && location.Some? {
          repos := repos + [RepoSection(name, location.value, syncUri)];
        }
        location, syncUri := None, None;
        name := trimmed[1..|trimmed| - 1];
      } else {
        var setting := ReadSetting(trimmed);
        if setting.Setting? {
          if EqIgnoreCase(setting.key, "location") {
            location := Some(setting.value);
          } else if EqIgnoreCase(setting.key, "sync-uri") {
            syncUri := Some(setting.value);
          }
        }
      }
    }
    assert lines[|lines|..] == [];
    if name != [] && !EqIgnoreCase(name, "DEFAULT") && location.Some? {
      repos := repos + [RepoSection(name, location.value, syncUri)];
    }
  }

  // ── Rewriting a location ──────────────────────────────────────────

  predicate SetsLocation(line: string, location: string) {
    var s := ReadSetting(Trim(line));
    s.Setting? && EqIgnoreCase(s.key, "location") && s.value == location
  }

  function RewriteLine(line: string, before: string, after: string): string {
    if SetsLocation(line, before) then "location = " + after else line
  }

  function RewriteLines(lines: seq<string>, before: string, after: string): (r: seq<string>)
    ensures |r| == |lines|
  {
    seq(|lines|, i requires 0 <= i < |lines| => RewriteLine(lines[i], before, after))
  }

  function Rewrite(content: string, before: string, after: string): string {
    Unlines(RewriteLines(Lines(content), before, after))
  }

  lemma {:induction false} UnlinesAppend(lines: seq<string>, line: string)
    ensures Unlines(lines + [line]) == Unlines(lines) + line + "\n"
  {
    if lines == [] {
      assert lines + [line] == [line] && [line][1..] == [];
    } else {
      assert (lines + [line])[1..] == lines[1..] + [line];
      UnlinesAppend(lines[1..], line);
    }
  }

  method RewriteRepoLocation(content: string, before: string, after: string) returns (output: string)
    ensures output == Rewrite(content, before, after)
  {
    var lines := Lines(content);
    ghost var rewritten := RewriteLines(lines, before, after);
    output := "";
    for i := 0 to |lines|
      invariant output == Unlines(rewritten[..i])
    {
      var setting := ReadSetting(Trim(lines[i]));
      UnlinesAppend(rewritten[..i], rewritten[i]);
      assert rewritten[..i + 1] == rewritten[..i] + [rewritten[i]];
      if setting.Setting? && EqIgnoreCase(setting.key, "location") && setting.value == before {
        output := output + ("location = " + after) + "\n";
      } else {
        output := output + lines[i] + "\n";
      }
    }
    assert rewritten[..|lines|] == rewritten;
  }

  function Moved(location: string, before: string, after: string): string {
    if location == before then after else location
  }

  function MoveSections(repos: seq<RepoSection>, before: string, after: string): (r: seq<RepoSection>)
    ensures |r| == |repos|
  {
    seq(|repos|, i requires 0 <= i < |repos| => repos[i].(location := Moved(repos[i].location, before, after)))
  }

  function MoveReading(r: Reading, before: string, after: string): Reading {
    r.(repos := MoveSections(r.repos, before, after),
       location := if r.location.Some? then Some(Moved(r.location.value, before, after)) else None)
  }

  lemma FlushMoved(r: Reading, before: string, after: string)
    ensures Flush(MoveReading(r, before, after)) == MoveSections(Flush(r), before, after)
  {
  }

  /** The written line is read back as the new location. */
  lemma WrittenLineReads(after: string)
    requires Trimmed(after)
    ensures !IsHeader(Trim("location = " + after))
    ensures ReadSetting(Trim("location = " + after)) == Setting("location", after)
  {
    hide Trim;
    WrittenLineTrims(after);
    var trimmed := WrittenTrimmed(after);
    IndexIs(trimmed, '=', 9);
    assert trimmed[..9] == "location" + [' '];
    TrimIgnoresEnd("location", ' ');
    TrimOfTrimmed("location");
    assert trimmed[10..] == if after == [] then "" else " " + after;
    SpacedValueTrims(after);
  }

  function WrittenTrimmed(after: string): string {
    if after == [] then "location =" else "location = " + after
  }

  lemma WrittenLineTrims(after: string)
    requires Trimmed(after)
    ensures Trim("location = " + after) == WrittenTrimmed(after)
  {
    hide Trim;
    if after == [] {
      assert "location = " + after == "location =" + [' '];
      TrimIgnoresEnd("location =", ' ');
    }
    TrimOfTrimmed(WrittenTrimmed(after));
  }

  lemma SpacedValueTrims(after: string)
    requires Trimmed(after)
    ensures Trim(if after == [] then "" else " " + after) == after
  {
    TrimOfTrimmed(after);
    assert (" " + after)[1..] == after;
  }

  /** A line that sets the old location is not a section header. */
  lemma LocationLineIsNoHeader(line: string, before: string)
    requires SetsLocation(line, before)
    ensures !IsHeader(Trim(line))
  {
    TrimIsTrimmed(line);
    var trimmed := Trim(line);
    if IsHeader(trimmed) {
      TrimKeepsHead(trimmed[..IndexOf(trimmed, '=')]);
    }
  }

  lemma TrimKeepsHead(s: string)
    requires s != [] && !IsWhitespace(s[0])
    ensures Trim(s) != [] && Trim(s)[0] == s[0]
  {
    TrimEndKeepsHead(s);
  }

  lemma ReadRewrittenLine(r: Reading, line: string, before: string, after: string)
    requires Trimmed(after)
    ensures ReadLine(MoveReading(r, before, after), StripCarriageReturn(RewriteLine(line, before, after)))
            == MoveReading(ReadLine(r, line), before, after)
  {
    var written := RewriteLine(line, before, after);
    TrimIgnoresCarriageReturn(written);
    if SetsLocation(line, before) {
      WrittenLineReads(after);
      LocationLineIsNoHeader(line, before);
      LocationIsLocation();
    } else {
      FlushMoved(r, before, after);
    }
  }

  lemma LocationIsLocation()
    ensures EqIgnoreCase("location", "location")
  {
  }

  lemma {:induction false} ReadRewrittenLines(r: Reading, lines: seq<string>, before: string, after: string)
    requires Trimmed(after)
    ensures ReadLines(MoveReading(r, before, after), StripAll(RewriteLines(lines, before, after)))
            == MoveReading(ReadLines(r, lines), before, after)
    decreases |lines|
  {
    if lines != [] {
      var rewritten := RewriteLines(lines, before, after);
      assert rewritten[1..] == RewriteLines(lines[1..], before, after);
      ReadRewrittenLine(r, lines[0], before, after);
      ReadRewrittenLines(ReadLine(r, lines[0]), lines[1..], before, after);
      assert StripAll(rewritten)[1..] == StripAll(rewritten[1..]);
    }
  }

  /**
   Parsing the rewritten text gives the original sections, in order, with the old location
   replaced by the new one and names and sync URIs untouched, for every text.
   */
  lemma RewriteCommutesWithParse(content: string, before: string, after: string)
    requires Trimmed(after) && NoNewline(after)
    ensures ParseRepoSections(Rewrite(content, before, after)) == MoveSections(ParseRepoSections(content), before, after)
  {
    var lines := Lines(content);
    var rewritten := RewriteLines(lines, before, after);
    LinesHaveNoNewline(content);
    forall i | 0 <= i < |rewritten| ensures NoNewline(rewritten[i]) {
      assert NoNewline("location = " + after);
    }
    LinesOfUnlines(rewritten);
    ReadRewrittenLines(NOTHING, lines, before, after);
    assert MoveReading(NOTHING, before, after) == NOTHING;
    FlushMoved(ReadLines(NOTHING, lines), before, after);
  }
}
