/** The bounded splitter of a server-sent-event byte stream into lines
    (bc250_llm_mode/chat_service.py:51-67).

    A line is kept as the bytes handed to the UTF-8 decoder; whether a line
    decodes is an arbitrary predicate of those bytes. */
module SseLines {

  type Byte = b: int | 0 <= b < 256

  type Line = seq<Byte>

  const LF: Byte := 10
  const CR: Byte := 13
  const MAX_SSE_LINE_BYTES := 64 * 1024
  const MAX_SSE_BYTES := 8 * 1024 * 1024

  /** The bytes up to the first line feed, which must exist. */
  function FirstLine(b: Line): (raw: Line)
    requires LF in b
    ensures LF !in raw && |raw| < |b| && b == raw + [LF] + b[|raw| + 1..]
  {
    if b[0] == LF then [] else [b[0]] + FirstLine(b[1..])
  }

  /** The terminated lines of a byte string, without their line feeds. */
  function Complete(b: Line): (raws: seq<Line>)
    decreases |b|
  {
    if LF !in b then [] else [FirstLine(b)] + Complete(b[|FirstLine(b)| + 1..])
  }

  /** What follows the last line feed. */
  function Rest(b: Line): (tail: Line)
    ensures LF !in tail
    decreases |b|
  {
    if LF !in b then b else Rest(b[|FirstLine(b)| + 1..])
  }

  /** `raw.rstrip(b"\r")`. */
  function Stripped(raw: Line): (line: Line) {
    if raw != [] && raw[|raw| - 1] == CR then Stripped(raw[..|raw| - 1]) else raw
  }

  function StrippedAll(raws: seq<Line>): (lines: seq<Line>)
    ensures |lines| == |raws|
  {
    if raws == [] then [] else [Stripped(raws[0])] + StrippedAll(raws[1..])
  }

  // ------------------------------------------------------------- specification

  /** The lines of a whole response. */
  function BatchLines(b: Line): (lines: seq<Line>) {
    StrippedAll(Complete(b)) + (if Rest(b) == [] then [] else [Rest(b)])
  }

  predicate LineFits(raw: Line, decodes: Line -> bool) {
    |raw| <= 65536 && decodes(Stripped(raw))
  }

  /** When a whole response is accepted. */
  predicate Accepted(b: Line, decodes: Line -> bool) {
    && |b| <= 8388608
    && (forall raw | raw in Complete(b) :: LineFits(raw, decodes))
    && |Rest(b)| <= 65536
    && (Rest(b) != [] ==> decodes(Rest(b)))
  }

  function Joined(chunks: seq<Line>): (b: Line) {
    if chunks == [] then [] else Joined(chunks[..|chunks| - 1]) + chunks[|chunks| - 1]
  }

  // --------------------------------------------------------------------- laws

  lemma {:induction false} FirstLineOf(raw: Line, tail: Line)
    requires LF !in raw
    ensures FirstLine(raw + ([LF] + tail)) == raw
    ensures (raw + ([LF] + tail))[|raw| + 1..] == tail
  {
    if raw != [] {
      assert (raw + ([LF] + tail))[1..] == raw[1..] + ([LF] + tail);
      FirstLineOf(raw[1..], tail);
    }
  }

  lemma OneLine(b: Line)
    ensures if LF in b then
              var tail := b[|FirstLine(b)| + 1..];
              && b == FirstLine(b) + ([LF] + tail)
              && Complete(b) == [FirstLine(b)] + Complete(tail) && Rest(b) == Rest(tail)
            else Complete(b) == [] && Rest(b) == b
  {
  }

  lemma Associative<T>(a: seq<T>, b: seq<T>, c: seq<T>)
    ensures a + (b + c) == a + b + c
  {
  }

  function Terminated(raws: seq<Line>): (b: Line) {
    if raws == [] then [] else raws[0] + ([LF] + Terminated(raws[1..]))
  }

  /** The split is the right one: no line holds a line feed, and putting the
      line feeds back gives the bytes. */
  lemma {:induction false} SplitLosesNothing(b: Line)
    ensures Terminated(Complete(b)) + Rest(b) == b
    ensures forall raw | raw in Complete(b) :: LF !in raw
    decreases |b|
  {
    hide Complete, Rest;
    OneLine(b);
    if LF in b {
      var raw := FirstLine(b);
      var tail := b[|raw| + 1..];
      SplitLosesNothing(tail);
      assert ([raw] + Complete(tail))[1..] == Complete(tail);
      Associative(raw, [LF] + Terminated(Complete(tail)), Rest(tail));
      Associative([LF], Terminated(Complete(tail)), Rest(tail));
    }
  }

  /** Splitting can be resumed: only the unterminated tail carries over. */
  lemma {:induction false} SplitResumes(a: Line, c: Line)
    ensures Complete(a + c) == Complete(a) + Complete(Rest(a) + c)
    ensures Rest(a + c) == Rest(Rest(a) + c)
    decreases |a|
  {
    hide Complete, Rest, FirstLine;
    OneLine(a);
    if LF in a {
      var raw := FirstLine(a);
      var tail := a[|raw| + 1..];
      Associative(raw, [LF] + tail, c);
      Associative([LF], tail, c);
      FirstLineOf(raw, tail + c);
      OneLine(a + c);
      SplitResumes(tail, c);
      Associative([raw], Complete(tail), Complete(Rest(tail) + c));
    }
  }

  /** An overlong tail makes some line of every continuation overlong. */
  lemma LongTailIsRejected(a: Line, c: Line, decodes: Line -> bool)
    requires |Rest(a)| > MAX_SSE_LINE_BYTES
    ensures !Accepted(a + c, decodes)
  {
    hide Complete, Rest, FirstLine;
    SplitResumes(a, c);
    var t := Rest(a) + c;
    OneLine(t);
    if LF in t {
      var raw := FirstLine(t);
      assert forall k | 0 <= k < |Rest(a)| :: t[k] == Rest(a)[k];
      assert t[|raw|] == LF;
      assert raw in Complete(t);
      assert raw in Complete(a + c);
      assert !LineFits(raw, decodes);
    }
  }

  /** A terminated line that does not fit is never repaired by later bytes. */
  lemma BadLineIsRejected(a: Line, c: Line, raw: Line, decodes: Line -> bool)
    requires raw in Complete(a) && !LineFits(raw, decodes)
    ensures !Accepted(a + c, decodes)
  {
    hide Complete, Rest;
    SplitResumes(a, c);
    assert raw in Complete(a + c);
  }

  function Returns(n: nat): (b: Line) {
    if n == 0 then [] else Returns(n - 1) + [CR]
  }

  /** Stripping takes all carriage returns off the end, and nothing else. */
  lemma {:induction false} StrippedExactly(raw: Line, line: Line)
    ensures line == Stripped(raw) <==>
            (line == [] || line[|line| - 1] != 13) && exists n: nat :: raw == line + Returns(n)
    decreases |raw|
  {
    StrippedEnds(raw);
    forall n: nat | (line == [] || line[|line| - 1] != 13) && raw == line + Returns(n) ensures line == Stripped(raw) {
      ReturnsAreStripped(line, n);
    }
  }

  lemma {:induction false} StrippedEnds(raw: Line)
    ensures Stripped(raw) == [] || Stripped(raw)[|Stripped(raw)| - 1] != 13
    ensures exists n: nat :: raw == Stripped(raw) + Returns(n)
    decreases |raw|
  {
    if raw != [] && raw[|raw| - 1] == CR {
      StrippedEnds(raw[..|raw| - 1]);
      var n: nat :| raw[..|raw| - 1] == Stripped(raw) + Returns(n);
      assert raw == raw[..|raw| - 1] + [CR];
      Associative(Stripped(raw), Returns(n), [CR]);
      assert raw == Stripped(raw) + Returns(n + 1);
    } else {
      assert raw == raw + Returns(0);
    }
  }

  lemma {:induction false} ReturnsAreStripped(line: Line, n: nat)
    requires line == [] || line[|line| - 1] != 13
    ensures Stripped(line + Returns(n)) == line
  {
    if n == 0 {
      assert line + [] == line;
    } else {
      Associative(line, Returns(n - 1), [CR]);
      ReturnsAreStripped(line, n - 1);
      var raw := line + Returns(n);
      assert raw[..|raw| - 1] == line + Returns(n - 1);
    }
  }

  lemma {:induction false} StrippedAllAt(raws: seq<Line>, i: nat)
    requires i < |raws|
    ensures StrippedAll(raws)[i] == Stripped(raws[i])
  {
    if i > 0 {
      StrippedAllAt(raws[1..], i - 1);
    }
  }

  lemma {:induction false} StrippedAllOfConcat(a: seq<Line>, b: seq<Line>)
    ensures StrippedAll(a + b) == StrippedAll(a) + StrippedAll(b)
  {
    if a == [] {
      assert a + b == b;
    } else {
      assert (a + b)[1..] == a[1..] + b;
      StrippedAllOfConcat(a[1..], b);
    }
  }

  lemma {:induction false} JoinedExtends(chunks: seq<Line>, i: nat)
    requires i <= |chunks|
    ensures Joined(chunks[..i]) <= Joined(chunks)
    decreases |chunks| - i
  {
    if i < |chunks| {
      assert chunks[..i + 1][..i] == chunks[..i];
      JoinedExtends(chunks, i + 1);
    } else {
      assert chunks[..i] == chunks;
    }
  }

  /** The lines of a prefix come first among the lines of the whole. */
  lemma PrefixLines(a: Line, b: Line, done: seq<Line>, todo: seq<Line>)
    requires a <= b && Complete(a) == done + todo
    ensures StrippedAll(done) <= BatchLines(b)
  {
    hide Complete, Rest, StrippedAll;
    var c := b[|a|..];
    assert b == a + c;
    SplitResumes(a, c);
    var later := todo + Complete(Rest(a) + c);
    Associative(done, todo, Complete(Rest(a) + c));
    StrippedAllOfConcat(done, later);
    Associative(StrippedAll(done), StrippedAll(later), if Rest(b) == [] then [] else [Rest(b)]);
  }

  lemma StrippedNone()
    ensures StrippedAll([]) == []
  {
  }

  lemma StrippedAllOfOne(done: seq<Line>, raw: Line)
    ensures StrippedAll(done + [raw]) == StrippedAll(done) + [Stripped(raw)]
  {
    StrippedAllOfConcat(done, [raw]);
    assert [raw][1..] == [];
  }

  lemma TooLongIsRejected(b: Line, decodes: Line -> bool)
    requires |b| > MAX_SSE_BYTES
    ensures !Accepted(b, decodes)
  {
  }

  /** What is left to decide once every chunk has been split. */
  lemma AtTheEnd(b: Line, lines: seq<Line>, decodes: Line -> bool)
    requires |b| <= MAX_SSE_BYTES && |Rest(b)| <= MAX_SSE_LINE_BYTES
    requires forall raw | raw in Complete(b) :: LineFits(raw, decodes)
    requires lines == StrippedAll(Complete(b))
    ensures Accepted(b, decodes) <==> Rest(b) == [] || decodes(Rest(b))
    ensures BatchLines(b) == if Rest(b) == [] then lines else lines + [Rest(b)]
  {
    assert lines + [] == lines;
  }

  // ------------------------------------------------------------------ splitter

  /** `_bounded_lines`: acceptance and, on acceptance, the lines depend on the
      bytes alone, not on how they were cut into chunks; on a rejection the
      lines already handed out are the first ones. */
  method BoundedLines(chunks: seq<Line>, decodes: Line -> bool) returns (lines: seq<Line>, accepted: bool)
    ensures accepted <==> Accepted(Joined(chunks), decodes)
    ensures accepted ==> lines == BatchLines(Joined(chunks))
    ensures lines <= BatchLines(Joined(chunks))
  {
    hide Complete, Rest, FirstLine, StrippedAll, Stripped, Accepted, BatchLines;
    var pending: Line := [];
    var total := 0;
    ghost var done: seq<Line> := [];
    lines := [];
    ghost var everything := Joined(chunks);
    var i := 0;
    OneLine([]);
    StrippedNone();
    while i < |chunks|
      invariant 0 <= i <= |chunks|
      invariant var b := Joined(chunks[..i]);
                && total == |b| <= MAX_SSE_BYTES
                && pending == Rest(b) && |pending| <= MAX_SSE_LINE_BYTES && done == Complete(b)
      invariant lines == StrippedAll(done)
      invariant forall raw | raw in done :: LineFits(raw, decodes)
    {
      ghost var before := Joined(chunks[..i]);
      ghost var b := Joined(chunks[..i + 1]);
      assert chunks[..i + 1][..i] == chunks[..i];
      assert b == before + chunks[i];
      SplitResumes(before, chunks[i]);
      JoinedExtends(chunks, i + 1);
      ghost var after := everything[|b|..];
      assert everything == b + after;
      total := total + |chunks[i]|;
      if total > MAX_SSE_BYTES {
        PrefixLines(b, everything, done, Complete(pending + chunks[i]));
        TooLongIsRejected(everything, decodes);
        return lines, false;
      }
      pending := pending + chunks[i];
      while LF in pending
        invariant Complete(b) == done + Complete(pending) && Rest(b) == Rest(pending)
        invariant lines == StrippedAll(done)
        invariant forall raw | raw in done :: LineFits(raw, decodes)
        decreases |pending|
      {
        OneLine(pending);
        var raw := FirstLine(pending);
        Associative(done, [raw], Complete(pending[|raw| + 1..]));
        if |raw| > MAX_SSE_LINE_BYTES || !decodes(Stripped(raw)) {
          PrefixLines(b, everything, done, Complete(pending));
          BadLineIsRejected(b, after, raw, decodes);
          return lines, false;
        }
        StrippedAllOfOne(done, raw);
        done := done + [raw];
        pending := pending[|raw| + 1..];
        lines := lines + [Stripped(raw)];
      }
      OneLine(pending);
      assert done + [] == done;
      if |pending| > MAX_SSE_LINE_BYTES {
        PrefixLines(b, everything, done, []);
        LongTailIsRejected(b, after, decodes);
        return lines, false;
      }
      i := i + 1;
    }
    assert chunks[..i] == chunks;
    AtTheEnd(everything, lines, decodes);
    if pending != [] {
      if !decodes(pending) {
        return lines, false;
      }
      lines := lines + [pending];
    }
    return lines, true;
  }
}
