/** Line detection on the worker's output stream, whose chunks may split lines anywhere. */
module LineBuffers {
  import opened Common

  const NEWLINE: Byte := 10
  const CARRIAGE_RETURN: Byte := 13
  const MAX_LINE_BUF: nat := 64 * 1024

  function FirstNewline(buf: Bytes): (n: nat)
    ensures n <= |buf| && (n < |buf| ==> buf[n] == NEWLINE) && NEWLINE !in buf[..n]
  {
    if buf == [] || buf[0] == NEWLINE then 0
    else
      var n := 1 + FirstNewline(buf[1..]);
      assert buf[..n] == [buf[0]] + buf[1..][..n - 1];
      n
  }

  function TrimCarriageReturns(line: Bytes): Bytes {
    if line != [] && line[|line| - 1] == CARRIAGE_RETURN then TrimCarriageReturns(line[..|line| - 1]) else line
  }

  datatype Drained = Drained(lines: seq<Bytes>, rest: Bytes)

  /** All complete lines of a buffer, and what is left after the last newline. */
  function Drain(buf: Bytes): Drained {
    var n := FirstNewline(buf);
    if n == |buf| then Drained([], buf)
    else
      var d := Drain(buf[n + 1..]);
      Drained([TrimCarriageReturns(buf[..n])] + d.lines, d.rest)
  }

  function Cap(buf: Bytes): Bytes {
    if |buf| > MAX_LINE_BUF then buf[|buf| - MAX_LINE_BUF..] else buf
  }

  function Feed(buf: Bytes, chunk: Bytes): Drained {
    Drain(Cap(buf + chunk))
  }

  function FeedAll(buf: Bytes, chunks: seq<Bytes>): Drained
    decreases |chunks|
  {
    if chunks == [] then Drained([], buf)
    else
      var first := Feed(buf, chunks[0]);
      var rest := FeedAll(first.rest, chunks[1..]);
      Drained(first.lines + rest.lines, rest.rest)
  }

  function Flatten(chunks: seq<Bytes>): Bytes {
    if chunks == [] then [] else chunks[0] + Flatten(chunks[1..])
  }

  /** The cap never bites: carry plus chunk stays within 64 KiB at every step. */
  predicate Fits(buf: Bytes, chunks: seq<Bytes>)
    decreases |chunks|
  {
    chunks == [] || (|buf + chunks[0]| <= MAX_LINE_BUF && Fits(Drain(buf + chunks[0]).rest, chunks[1..]))
  }

  lemma {:induction false} DrainRest(buf: Bytes)
    ensures NEWLINE !in Drain(buf).rest && |Drain(buf).rest| <= |buf|
  {
    var n := FirstNewline(buf);
    if n < |buf| {
      DrainRest(buf[n + 1..]);
    } else {
      assert buf[..n] == buf;
    }
  }

  lemma {:induction false} FirstNewlineAppend(a: Bytes, b: Bytes)
    ensures FirstNewline(a + b) == if FirstNewline(a) < |a| then FirstNewline(a) else |a| + FirstNewline(b)
  {
    if a == [] {
      assert a + b == b;
    } else if a[0] != NEWLINE {
      assert (a + b)[1..] == a[1..] + b;
      FirstNewlineAppend(a[1..], b);
    }
  }

  /** Draining in two goes, carrying the rest, is draining at once. */
  lemma {:induction false} DrainAppend(a: Bytes, b: Bytes)
    ensures Drain(a + b).lines == Drain(a).lines + Drain(Drain(a).rest + b).lines
    ensures Drain(a + b).rest == Drain(Drain(a).rest + b).rest
    decreases |a|
  {
    hide FirstNewline, TrimCarriageReturns;
    var n := FirstNewline(a);
    if n < |a| {
      FirstNewlineAppend(a, b);
      assert (a + b)[..n] == a[..n] && (a + b)[n + 1..] == a[n + 1..] + b;
      DrainAppend(a[n + 1..], b);
    }
  }

  lemma DrainNext(buf: Bytes)
    requires FirstNewline(buf) < |buf|
    ensures var n := FirstNewline(buf);
            Drain(buf) == Drained([TrimCarriageReturns(buf[..n])] + Drain(buf[n + 1..]).lines, Drain(buf[n + 1..]).rest)
  {
  }

  lemma NothingToDrain(buf: Bytes)
    requires NEWLINE !in buf
    ensures Drain(buf) == Drained([], buf)
  {
  }

  /** However the output is split, the lines found are those of the whole stream. */
  lemma {:induction false} ChunkingIsIrrelevant(buf: Bytes, chunks: seq<Bytes>)
    requires NEWLINE !in buf && Fits(buf, chunks)
    ensures FeedAll(buf, chunks) == Drain(buf + Flatten(chunks))
    decreases |chunks|
  {
    hide Drain;
    if chunks == [] {
      assert buf + Flatten(chunks) == buf;
      NothingToDrain(buf);
    } else {
      var joined := buf + chunks[0];
      var rest := Drain(joined).rest;
      DrainRest(joined);
      ChunkingIsIrrelevant(rest, chunks[1..]);
      DrainAppend(joined, Flatten(chunks[1..]));
      assert buf + Flatten(chunks) == joined + Flatten(chunks[1..]);
    }
  }

  /** For every split at all, the carry holds no newline and never exceeds 64 KiB. */
  lemma {:induction false} CarryIsBounded(buf: Bytes, chunks: seq<Bytes>)
    requires NEWLINE !in buf && |buf| <= MAX_LINE_BUF
    ensures NEWLINE !in FeedAll(buf, chunks).rest && |FeedAll(buf, chunks).rest| <= MAX_LINE_BUF
    decreases |chunks|
  {
    if chunks != [] {
      DrainRest(Cap(buf + chunks[0]));
      CarryIsBounded(Feed(buf, chunks[0]).rest, chunks[1..]);
    }
  }

  function Newlines(buf: Bytes): nat {
    multiset(buf)[NEWLINE]
  }

  lemma {:induction false} OneLinePerNewline(buf: Bytes)
    ensures |Drain(buf).lines| == Newlines(buf)
  {
    hide FirstNewline, TrimCarriageReturns;
    var n := FirstNewline(buf);
    if n < |buf| {
      OneLinePerNewline(buf[n + 1..]);
      assert buf == buf[..n] + [NEWLINE] + buf[n + 1..];
    } else {
      assert buf[..n] == buf;
    }
  }

  predicate EndsIn(line: Bytes, tail: Bytes) {
    |tail| <= |line| && line[|line| - |tail|..] == tail
  }

  /** Cutting the front of a line cuts the front of what is left after trimming. */
  lemma {:induction false} TrimKeepsEnd(front: Bytes, line: Bytes)
    ensures EndsIn(TrimCarriageReturns(front + line), TrimCarriageReturns(line))
  {
    if line != [] && line[|line| - 1] == CARRIAGE_RETURN {
      TrimKeepsEnd(front, line[..|line| - 1]);
      assert (front + line)[..|front + line| - 1] == front + line[..|line| - 1];
    } else if line != [] {
      assert (front + line)[|front|..] == line;
    }
  }

  /** Without a newline in it, a front lengthens the first line and changes no other. */
  lemma FrontReachesFirstLine(front: Bytes, buf: Bytes)
    requires NEWLINE !in front
    ensures var all, some := Drain(front + buf), Drain(buf);
            && |all.lines| == |some.lines|
            && (some.lines != [] ==> EndsIn(all.lines[0], some.lines[0]) && all.lines[1..] == some.lines[1..] && all.rest == some.rest)
            && (some.lines == [] ==> all.rest == front + buf && some.rest == buf)
  {
    hide FirstNewline, TrimCarriageReturns, Drain;
    FirstNewlineAppend(front, buf);
    NoNewlineFirst(front);
    var n := FirstNewline(buf);
    if n < |buf| {
      DrainNext(buf);
      DrainNext(front + buf);
      assert (front + buf)[..|front| + n] == front + buf[..n] && (front + buf)[|front| + n + 1..] == buf[n + 1..];
      TrimKeepsEnd(front, buf[..n]);
    } else {
      NoNewlineDrain(buf);
      NoNewlineDrain(front + buf);
    }
  }

  lemma NoNewlineFirst(buf: Bytes)
    requires NEWLINE !in buf
    ensures FirstNewline(buf) == |buf|
  {
  }

  lemma NoNewlineDrain(buf: Bytes)
    requires FirstNewline(buf) == |buf|
    ensures Drain(buf) == Drained([], buf)
  {
  }

  /**
   When the cap bites, exactly the lines that end in the dropped bytes are lost: those left are
   the last ones of the whole buffer, the first of them cut at its front unless a newline ends
   the dropped bytes.
   */
  lemma CapLosesDroppedLines(buf: Bytes, chunk: Bytes)
    ensures var joined := buf + chunk;
            var dropped := joined[..|joined| - |Cap(joined)|];
            var all, some, n := Drain(joined), Feed(buf, chunk), Newlines(dropped);
            && |all.lines| == n + |some.lines|
            && (some.lines != [] ==> EndsIn(all.lines[n], some.lines[0]) && all.lines[n + 1..] == some.lines[1..] && all.rest == some.rest)
            && (some.lines == [] ==> EndsIn(all.rest, some.rest))
            && (Drain(dropped).rest == [] ==> all.lines[n..] == some.lines && all.rest == some.rest)
  {
    hide Drain, FirstNewline, TrimCarriageReturns;
    var joined := buf + chunk;
    var k := |joined| - |Cap(joined)|;
    var dropped, kept := joined[..k], joined[k..];
    assert Cap(joined) == kept && joined == dropped + kept;
    var front := Drain(dropped).rest;
    DrainAppend(dropped, kept);
    OneLinePerNewline(dropped);
    DrainRest(dropped);
    FrontReachesFirstLine(front, kept);
    var lost := Drain(dropped).lines;
    assert Drain(joined).lines[|lost|..] == Drain(front + kept).lines;
    if Drain(kept).lines != [] { assert Drain(joined).lines[|lost| + 1..] == Drain(front + kept).lines[1..]; }
    if front == [] { assert front + kept == kept; }
  }

  class LineBuffer {
    var buf: Bytes

    constructor ()
      ensures buf == []
    {
      buf := [];
    }

    method Extend(chunk: Bytes) returns (lines: seq<Bytes>)
      modifies this
      ensures Drained(lines, buf) == Feed(old(buf), chunk)
      ensures NEWLINE !in buf && |buf| <= MAX_LINE_BUF
    {
      hide FirstNewline, TrimCarriageReturns, Drain;
      buf := buf + chunk;
      if |buf| > MAX_LINE_BUF {
        buf := buf[|buf| - MAX_LINE_BUF..];
      }
      ghost var capped := buf;
      lines := [];
      var n := FirstNewline(buf);
      assert lines + Drain(buf).lines == Drain(buf).lines;
      while n < |buf|
        invariant n == FirstNewline(buf) && |buf| <= |capped|
        invariant Drain(capped) == Drained(lines + Drain(buf).lines, Drain(buf).rest)
        decreases |buf|
      {
        ghost var after := Drain(buf[n + 1..]).lines;
        DrainNext(buf);
        var line := TrimCarriageReturns(buf[..n]);
        assert lines + ([line] + after) == lines + [line] + after;
        lines := lines + [line];
        buf := buf[n + 1..];
        n := FirstNewline(buf);
      }
      NothingToDrain(buf);
      assert lines + [] == lines;
      DrainRest(capped);
    }
  }
}
