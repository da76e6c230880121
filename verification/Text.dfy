/** The string operations the configuration files are read and written with. */
module Text {
  import opened Common

  /** Unicode White_Space. */
  predicate IsWhitespace(c: char) {
    var n := c as int;
    || 0x09 <= n <= 0x0D || n == 0x20 || n == 0x85 || n == 0xA0 || n == 0x1680
    || 0x2000 <= n <= 0x200A || n == 0x2028 || n == 0x2029 || n == 0x202F || n == 0x205F || n == 0x3000
  }

  function TrimStart(s: string): string {
    if s != [] && IsWhitespace(s[0]) then TrimStart(s[1..]) else s
  }

  function TrimEnd(s: string): string {
    if s != [] && IsWhitespace(s[|s| - 1]) then TrimEnd(s[..|s| - 1]) else s
  }

  function Trim(s: string): string {
    TrimEnd(TrimStart(s))
  }

  predicate Trimmed(s: string) {
    s == [] || (!IsWhitespace(s[0]) && !IsWhitespace(s[|s| - 1]))
  }

  function Lower(c: char): char {
    if 'A' <= c <= 'Z' then (c as int - 'A' as int + 'a' as int) as char else c
  }

  predicate EqIgnoreCase(a: string, b: string) {
    |a| == |b| && forall i :: 0 <= i < |a| ==> Lower(a[i]) == Lower(b[i])
  }

  /** Position of the first occurrence, or the length. */
  function IndexOf(s: string, c: char): (n: nat)
    ensures n <= |s| && (n < |s| ==> s[n] == c) && forall i :: 0 <= i < n ==> s[i] != c
  {
    if s == [] || s[0] == c then 0 else 1 + IndexOf(s[1..], c)
  }

  lemma IndexIs(s: string, c: char, n: nat)
    requires n < |s| && s[n] == c && forall i :: 0 <= i < n ==> s[i] != c
    ensures IndexOf(s, c) == n
  {
  }

  function StripCarriageReturn(s: string): string {
    if s != [] && s[|s| - 1] == '\r' then s[..|s| - 1] else s
  }

  /** Lines end in LF or CRLF; a final line may lack its end. */
  function Lines(s: string): seq<string> {
    if s == [] then []
    else
      var n := IndexOf(s, '\n');
      if n == |s| then [s] else [StripCarriageReturn(s[..n])] + Lines(s[n + 1..])
  }

  function Unlines(lines: seq<string>): string {
    if lines == [] then "" else lines[0] + "\n" + Unlines(lines[1..])
  }

  predicate NoNewline(s: string) {
    forall i :: 0 <= i < |s| ==> s[i] != '\n'
  }

  function StripAll(lines: seq<string>): seq<string> {
    if lines == [] then [] else [StripCarriageReturn(lines[0])] + StripAll(lines[1..])
  }

  lemma {:induction false} LinesOfUnlines(lines: seq<string>)
    requires forall i :: 0 <= i < |lines| ==> NoNewline(lines[i])
    ensures Lines(Unlines(lines)) == StripAll(lines)
  {
    if lines != [] {
      var s := Unlines(lines);
      IndexIs(s, '\n', |lines[0]|);
      assert s[..|lines[0]|] == lines[0] && s[|lines[0]| + 1..] == Unlines(lines[1..]);
      LinesOfUnlines(lines[1..]);
    }
  }

  lemma {:induction false} LinesHaveNoNewline(s: string)
    ensures forall i :: 0 <= i < |Lines(s)| ==> NoNewline(Lines(s)[i])
  {
    if s != [] {
      var n := IndexOf(s, '\n');
      if n < |s| { LinesHaveNoNewline(s[n + 1..]); }
    }
  }

  // ── Trimming ──────────────────────────────────────────────────────

  lemma {:induction false} TrimStartIdle(s: string)
    ensures TrimStart(s) != [] ==> !IsWhitespace(TrimStart(s)[0])
  {
    if s != [] && IsWhitespace(s[0]) { TrimStartIdle(s[1..]); }
  }

  lemma {:induction false} TrimEndKeepsHead(s: string)
    requires s != [] && !IsWhitespace(s[0])
    ensures TrimEnd(s) != [] && TrimEnd(s)[0] == s[0] && !IsWhitespace(TrimEnd(s)[|TrimEnd(s)| - 1])
  {
    if IsWhitespace(s[|s| - 1]) { TrimEndKeepsHead(s[..|s| - 1]); }
  }

  lemma TrimIsTrimmed(s: string)
    ensures Trimmed(Trim(s))
  {
    TrimStartIdle(s);
    if TrimStart(s) != [] { TrimEndKeepsHead(TrimStart(s)); }
  }

  lemma TrimOfTrimmed(s: string)
    requires Trimmed(s)
    ensures Trim(s) == s
  {
  }

  /** One more whitespace character at the end makes no difference. */
  lemma {:induction false} TrimIgnoresEnd(s: string, c: char)
    requires IsWhitespace(c)
    ensures Trim(s + [c]) == Trim(s)
  {
    if s == [] {
      assert TrimStart([c]) == TrimStart([c][1..]);
    } else if IsWhitespace(s[0]) {
      assert (s + [c])[1..] == s[1..] + [c];
      TrimIgnoresEnd(s[1..], c);
    } else {
      assert (s + [c])[..|s|] == s;
    }
  }

  lemma TrimIgnoresCarriageReturn(s: string)
    ensures Trim(StripCarriageReturn(s)) == Trim(s)
  {
    if s != [] && s[|s| - 1] == '\r' {
      TrimIgnoresEnd(s[..|s| - 1], '\r');
      assert s == s[..|s| - 1] + ['\r'];
    }
  }
}
