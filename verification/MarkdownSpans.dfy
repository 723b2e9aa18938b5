/** The bounded Markdown scanner of the chat view
    (bc250_llm_mode/chat_markdown.py:12-73).

    The specification cuts the source into pieces, each shown as one styled span
    or left out as markup; the scanner's spans are the shown pieces. The lemmas
    say that the pieces cover the source without gap or overlap, that only
    recognised markup is left out, and that the span bound holds. */
module MarkdownSpans {
  import opened Outcomes

  const MAX_SPANS := 2048
  const MAX_CODE_BLOCKS := 128
  const MAX_INLINE := 2048

  datatype Style = Body | Code | Heading | Quote | Strong | InlineCode

  datatype Span = Span(text: string, style: Style)

  datatype Fence = Backticks | Tildes

  datatype Markup = FenceLine(fence: Fence) | HeadingMark | QuoteMark | Indent

  /** A stretch [lo, hi) of the source: shown, shown without its two inline
      marks, or left out. */
  datatype Piece =
    | Shown(lo: nat, hi: nat, span: Span)
    | Marked(lo: nat, hi: nat, span: Span)
    | Hidden(lo: nat, hi: nat, markup: Markup)

  // ------------------------------------------------------------------ line shapes

  /** The end of the line that starts at `i`, its line feed included. */
  function LineEnd(text: string, i: nat): (e: nat)
    requires i < |text|
    ensures i < e <= |text|
    ensures e == |text| || text[e - 1] == '\n'
    ensures forall k | i <= k < e - 1 :: text[k] != '\n'
    decreases |text| - i
  {
    if text[i] == '\n' || i + 1 == |text| then i + 1 else LineEnd(text, i + 1)
  }

  /** How many spaces the line starts with. */
  function Lead(line: string): (n: nat)
    ensures n <= |line|
  {
    if line != "" && line[0] == ' ' then 1 + Lead(line[1..]) else 0
  }

  predicate StartsWith(s: string, prefix: string) {
    prefix <= s
  }

  function FenceOf(stripped: string): (f: Option<Fence>) {
    if StartsWith(stripped, "```") then Some(Backticks)
    else if StartsWith(stripped, "~~~") then Some(Tildes)
    else None
  }

  /** The number of leading `#` when they make the line a heading, else 0. */
  function HeadingLevel(stripped: string): (n: nat)
    ensures n <= 6
    ensures n > 0 ==> n < |stripped| && stripped[n] == ' ' && forall k | 0 <= k < n :: stripped[k] == '#'
  {
    var n := Hashes(stripped);
    if 1 <= n <= 6 && n < |stripped| && stripped[n] == ' ' then n else 0
  }

  function Hashes(s: string): (n: nat)
    ensures n <= |s| && forall k | 0 <= k < n :: s[k] == '#'
  {
    if s != "" && s[0] == '#' then 1 + Hashes(s[1..]) else 0
  }

  predicate IsBullet(stripped: string) {
    StartsWith(stripped, "- ") || StartsWith(stripped, "* ")
  }

  // ---------------------------------------------------------------- inline markup

  /** How many characters from `i` on are neither `stop` nor a line feed. */
  function RunLength(line: string, i: nat, stop: char): (n: nat)
    requires i <= |line|
    ensures i + n <= |line| && forall k | i <= k < i + n :: line[k] != stop && line[k] != '\n'
    decreases |line| - i
  {
    if i < |line| && line[i] != stop && line[i] != '\n' then 1 + RunLength(line, i + 1, stop) else 0
  }

  /** A non-empty bounded run between two equal marks, free of the mark's
      character and of line feeds. */
  predicate IsPair(source: string, mark: string, stop: char) {
    && 2 * |mark| < |source| <= 2 * |mark| + 2048
    && source[..|mark|] == mark && source[|source| - |mark|..] == mark
    && forall k | |mark| <= k < |source| - |mark| :: source[k] != stop && source[k] != '\n'
  }

  /** The length of the bold or inline-code token that starts at `i`, else 0. */
  function TokenAt(line: string, i: nat): (n: nat)
    requires i <= |line|
    ensures i + n <= |line|
    ensures n > 0 ==> n > 2 * MarkLength(line, i)
    ensures n > 0 ==> if IsBold(line, i) then IsPair(line[i..i + n], "**", '*') else IsPair(line[i..i + n], "`", '`')
  {
    if IsBold(line, i) then
      var n := RunLength(line, i + 2, '*');
      if 1 <= n <= MAX_INLINE && i + 2 + n + 2 <= |line| && line[i + 2 + n..i + 2 + n + 2] == "**" then
        SliceSlice(line, i, i + n + 4, 0, 2);
        SliceSlice(line, i, i + n + 4, n + 2, n + 4);
        n + 4
      else 0
    else if i < |line| && line[i] == '`' then
      var n := RunLength(line, i + 1, '`');
      if 1 <= n <= MAX_INLINE && i + 1 + n < |line| && line[i + 1 + n] == '`' then n + 2 else 0
    else 0
  }

  predicate IsBold(line: string, i: nat) {
    i + 2 <= |line| && line[i..i + 2] == "**"
  }

  function MarkLength(line: string, i: nat): (n: nat) {
    if IsBold(line, i) then 2 else 1
  }

  /** Where the next token starts, or the end of the line. */
  function NextToken(line: string, i: nat): (k: nat)
    requires i <= |line|
    ensures i <= k <= |line|
    ensures k < |line| ==> TokenAt(line, k) > 0
    decreases |line| - i
  {
    if i == |line| || TokenAt(line, i) > 0 then i else NextToken(line, i + 1)
  }

  /** Text between tokens, if there is any. */
  function Plain(line: string, base: nat, i: nat, j: nat): (pieces: seq<Piece>)
    requires i <= j <= |line|
  {
    if i < j then [Shown(base + i, base + j, Span(line[i..j], Body))] else []
  }

  /** The span a token is shown as. */
  function TokenSpan(line: string, k: nat): (span: Span)
    requires k <= |line| && TokenAt(line, k) > 0
  {
    var m := MarkLength(line, k);
    Span(line[k + m..k + TokenAt(line, k) - m], if IsBold(line, k) then Strong else InlineCode)
  }

  function Token(line: string, base: nat, k: nat): (piece: Piece)
    requires k <= |line| && TokenAt(line, k) > 0
  {
    Marked(base + k, base + k + TokenAt(line, k), TokenSpan(line, k))
  }

  /** The pieces of a line of text from `previous` on; the line starts at `base`
      in the source and `n` spans exist already. */
  function Inline(line: string, base: nat, previous: nat, n: nat, max: nat): (pieces: seq<Piece>)
    requires previous <= |line|
    decreases |line| - previous
  {
    var k := NextToken(line, previous);
    if k == |line| || n + 3 >= max then Plain(line, base, previous, |line|)
    else
      Plain(line, base, previous, k)
      + ([Token(line, base, k)]
         + Inline(line, base, k + TokenAt(line, k), n + (if previous < k then 2 else 1), max))
  }

  /** The pieces of a line outside any fence. */
  function LinePieces(line: string, base: nat, n: nat, max: nat): (pieces: seq<Piece>) {
    var lead := Lead(line);
    var stripped := line[lead..];
    var level := HeadingLevel(stripped);
    var start := base + lead;
    if level > 0 then
      [Hidden(base, start + level + 1, HeadingMark)]
      + [Shown(start + level + 1, base + |line|, Span(stripped[level + 1..], Heading))]
    else if IsBullet(stripped) then
      [Hidden(base, start, Indent)] + Inline("• " + stripped[2..], start, 0, n, max)
    else if StartsWith(stripped, "> ") then
      [Hidden(base, start + 2, QuoteMark)] + [Shown(start + 2, base + |line|, Span(stripped[2..], Quote))]
    else Inline(line, base, 0, n, max)
  }

  function ShownCount(pieces: seq<Piece>): (n: nat) {
    if pieces == [] then 0 else (if pieces[0].Hidden? then 0 else 1) + ShownCount(pieces[1..])
  }

  /** Where the scan stands: the current line, the open fence if any and where
      its code starts, the code blocks opened and the spans made so far. */
  datatype Place = Place(offset: nat, fence: Option<Fence>, codeStart: nat, blocks: nat, spans: nat)

  /** The first byte not yet in any piece. */
  function Frontier(p: Place): (i: nat) {
    if p.fence.Some? then p.codeStart else p.offset
  }

  /** The pieces of the rest of the source. */
  function Scan(text: string, p: Place, max: nat): (pieces: seq<Piece>)
    requires p.codeStart <= p.offset <= |text|
    decreases |text| - p.offset
  {
    if p.offset == |text| then
      if p.fence.Some? then [Shown(p.codeStart, |text|, Span(text[p.codeStart..], Code))] else []
    else if p.spans + 2 >= max then
      [Shown(Frontier(p), |text|, Span(text[Frontier(p)..], if p.fence.Some? then Code else Body))]
    else
      var end := LineEnd(text, p.offset);
      var line := text[p.offset..end];
      var marker := FenceOf(line[Lead(line)..]);
      if p.fence.Some? then
        if marker == p.fence then
          [Shown(p.codeStart, p.offset, Span(text[p.codeStart..p.offset], Code))]
          + ([Hidden(p.offset, end, FenceLine(p.fence.value))] + Scan(text, Place(end, None, p.codeStart, p.blocks, p.spans + 1), max))
        else Scan(text, p.(offset := end), max)
      else if marker.Some? && p.blocks < MAX_CODE_BLOCKS then
        [Hidden(p.offset, end, FenceLine(marker.value))] + Scan(text, Place(end, marker, end, p.blocks + 1, p.spans), max)
      else
        var pieces := LinePieces(line, p.offset, p.spans, max);
        pieces + Scan(text, p.(offset := end, spans := p.spans + ShownCount(pieces)), max)
  }

  const START := Place(0, None, 0, 0, 0)

  function Spans(pieces: seq<Piece>): (spans: seq<Span>)
    ensures |spans| == ShownCount(pieces)
  {
    if pieces == [] then []
    else (if pieces[0].Hidden? then [] else [pieces[0].span]) + Spans(pieces[1..])
  }

  // --------------------------------------------------------- what pieces may be

  predicate AllSpaces(s: string) {
    forall i | 0 <= i < |s| :: s[i] == ' '
  }

  /** A line starts or the text ends at `i`. */
  predicate LineBreakAt(text: string, i: nat)
    requires i <= |text|
  {
    i == 0 || i == |text| || text[i - 1] == '\n'
  }

  /** One to six `#` and a space. */
  predicate IsHeadingMark(stripped: string) {
    1 <= |stripped| - 1 <= 6 && stripped[|stripped| - 1] == ' ' && forall k | 0 <= k < |stripped| - 1 :: stripped[k] == '#'
  }

  /** A line starts at `i`. */
  predicate LineStart(text: string, i: nat)
    requires i <= |text|
  {
    i == 0 || text[i - 1] == '\n'
  }

  /** No line ends inside [lo, hi), except with its last character. */
  predicate InsideLine(text: string, lo: nat, hi: nat)
    requires lo <= hi <= |text|
  {
    forall k | lo <= k < hi - 1 :: text[k] != '\n'
  }

  /** [lo, hi) reaches exactly to the end of the line it starts in. */
  predicate RestOfLine(text: string, lo: nat, hi: nat)
    requires lo <= hi <= |text|
  {
    (hi == |text| || (lo < hi && text[hi - 1] == '\n')) && InsideLine(text, lo, hi)
  }

  /** [lo, hi) is exactly one line. */
  predicate OneLine(text: string, lo: nat, hi: nat)
    requires lo <= hi <= |text|
  {
    lo < hi && LineStart(text, lo) && RestOfLine(text, lo, hi)
  }

  /** The source of a left-out piece is markup of its kind: a whole line for a
      fence, the start of a line for every other mark. */
  predicate IsMarkup(text: string, lo: nat, hi: nat, markup: Markup)
    requires lo <= hi <= |text|
  {
    var source := text[lo..hi];
    var stripped := source[Lead(source)..];
    && LineStart(text, lo)
    && match markup
       case FenceLine(fence) => OneLine(text, lo, hi) && FenceOf(stripped) == Some(fence)
       case HeadingMark => IsHeadingMark(stripped)
       case QuoteMark => stripped == "> "
       case Indent => AllSpaces(source) && IsBullet(text[hi..])
  }

  /** The fence, if any, that the line from `i` on makes. */
  function FenceAt(text: string, i: nat): (f: Option<Fence>)
    requires i < |text|
  {
    var line := text[i..LineEnd(text, i)];
    FenceOf(line[Lead(line)..])
  }

  /** No line that starts in [lo, hi) is a fence of this kind. */
  predicate NoFence(text: string, lo: nat, hi: nat, fence: Fence)
    requires hi <= |text|
  {
    forall i | lo <= i < hi && LineStart(text, i) :: FenceAt(text, i) != Some(fence)
  }

  /** Bold and code are shown without their marks, and nothing else is bold or
      code inside a line. */
  predicate IsToken(source: string, span: Span) {
    match span.style
    case Strong => IsPair(source, "**", '*') && span.text == source[2..|source| - 2]
    case InlineCode => IsPair(source, "`", '`') && span.text == source[1..|source| - 1]
    case _ => false
  }

  /** A token of inline markup from `i` to `j`. */
  predicate PairAt(text: string, i: nat, j: nat)
    requires i <= j <= |text|
  {
    IsPair(text[i..j], "**", '*') || IsPair(text[i..j], "`", '`')
  }

  predicate NoPair(text: string, lo: nat, hi: nat)
    requires hi <= |text|
  {
    forall i, j | lo <= i <= j <= hi :: !PairAt(text, i, j)
  }

  /** A line from `i` on that is markup: a heading, a bullet, a quote, or a fence
      while code blocks are left. */
  predicate SpecialLine(text: string, i: nat, blocks: nat)
    requires i < |text|
  {
    var line := text[i..LineEnd(text, i)];
    var stripped := line[Lead(line)..];
    || HeadingLevel(stripped) > 0 || IsBullet(stripped) || StartsWith(stripped, "> ")
    || (FenceOf(stripped).Some? && blocks < 128)
  }

  /** Where shown text starts a line, that line is no markup. */
  predicate PlainStart(text: string, i: nat, blocks: nat)
    requires i <= |text|
  {
    i < |text| && LineStart(text, i) ==> !SpecialLine(text, i, blocks)
  }

  /** What the pieces so far call for: anything, the rest of a heading, quote or
      bullet line, the code of an open fence, or that fence's closing line; and
      how many code blocks have been opened. */
  datatype Context =
    | Open(blocks: nat)
    | AfterHeading(blocks: nat)
    | AfterQuote(blocks: nat)
    | AfterIndent(blocks: nat)
    | InFence(fence: Fence, blocks: nat)
    | FenceDue(fence: Fence, blocks: nat)

  /** The piece is what its context calls for. Plain text stays within a line that
      is no markup, and holds no token; code is all that stands between an opening
      fence and the first line that closes it, or the end. Only when the span bound
      has `cut` the scan, tokens may be shown as plain text and what remains in one
      piece. */
  predicate Fits(text: string, cut: bool, p: Piece, before: Context) {
    && p.lo <= p.hi <= |text|
    && var source := text[p.lo..p.hi];
    match before
    case Open(blocks) =>
      (match p
       case Shown(lo, hi, span) =>
         && span == Span(source, Body)
         && ((cut && hi == |text|)
             || (InsideLine(text, lo, hi) && PlainStart(text, lo, blocks) && (cut || NoPair(text, lo, hi))))
       case Marked(lo, _, span) => IsToken(source, span) && PlainStart(text, lo, blocks)
       case Hidden(lo, hi, markup) => IsMarkup(text, lo, hi, markup) && (markup.FenceLine? ==> blocks < 128))
    case AfterHeading(_) => p.Shown? && p.span == Span(source, Heading) && RestOfLine(text, p.lo, p.hi)
    case AfterQuote(_) => p.Shown? && p.span == Span(source, Quote) && RestOfLine(text, p.lo, p.hi)
    case AfterIndent(_) =>
      && p.Shown? && |source| >= 2 && IsBullet(source) && p.span == Span("• " + source[2..], Body)
      && InsideLine(text, p.lo, p.hi) && (cut || NoPair(text, p.lo + 2, p.hi))
    case InFence(fence, _) =>
      p.Shown? && p.span == Span(source, Code) && (NoFence(text, p.lo, p.hi, fence) || (cut && p.hi == |text|))
    case FenceDue(fence, _) => p.Hidden? && p.markup == FenceLine(fence) && IsMarkup(text, p.lo, p.hi, p.markup)
  }

  function Next(p: Piece, before: Context): (after: Context) {
    match p
    case Hidden(_, _, FenceLine(fence)) =>
      if before.FenceDue? then Open(before.blocks) else InFence(fence, before.blocks + 1)
    case Hidden(_, _, HeadingMark) => AfterHeading(before.blocks)
    case Hidden(_, _, QuoteMark) => AfterQuote(before.blocks)
    case Hidden(_, _, Indent) => AfterIndent(before.blocks)
    case Shown(_, _, _) => if before.InFence? then FenceDue(before.fence, before.blocks) else Open(before.blocks)
    case Marked(_, _, _) => Open(before.blocks)
  }

  /** The pieces cover [lo, hi) in order, without gap or overlap, each fitting
      the context the ones before it leave. */
  predicate Covers(text: string, cut: bool, pieces: seq<Piece>, lo: nat, hi: nat, before: Context, after: Context) {
    if pieces == [] then lo == hi && before == after
    else
      && pieces[0].lo == lo && Fits(text, cut, pieces[0], before)
      && Covers(text, cut, pieces[1..], pieces[0].hi, hi, Next(pieces[0], before), after)
  }

  /** A text may end anywhere but inside a marked line; a fence may stay open. */
  predicate MayEnd(c: Context) { c.Open? || c.FenceDue? }

  // ------------------------------------------------------------------------ laws

  lemma {:induction false} CoversJoin(text: string, cut: bool, a: seq<Piece>, b: seq<Piece>, lo: nat, mid: nat, hi: nat,
                                      before: Context, between: Context, after: Context)
    requires Covers(text, cut, a, lo, mid, before, between) && Covers(text, cut, b, mid, hi, between, after)
    ensures Covers(text, cut, a + b, lo, hi, before, after)
  {
    hide Fits, Next;
    if a == [] {
      assert a + b == b;
    } else {
      assert (a + b)[1..] == a[1..] + b;
      CoversJoin(text, cut, a[1..], b, a[0].hi, mid, hi, Next(a[0], before), between, after);
    }
  }

  lemma CoversOne(text: string, cut: bool, p: Piece, before: Context)
    requires Fits(text, cut, p, before)
    ensures Covers(text, cut, [p], p.lo, p.hi, before, Next(p, before))
  {
    hide Fits, Next;
    assert [p][1..] == [];
  }

  lemma {:induction false} CountsJoin(a: seq<Piece>, b: seq<Piece>)
    ensures ShownCount(a + b) == ShownCount(a) + ShownCount(b)
    ensures Spans(a + b) == Spans(a) + Spans(b)
  {
    if a == [] {
      assert a + b == b;
    } else {
      assert (a + b)[1..] == a[1..] + b;
      CountsJoin(a[1..], b);
    }
  }

  // ------------------------------------------------- recognition is complete

  /** The spaces a line starts with, all of them and no more. */
  lemma LeadExactly(line: string, n: nat)
    requires n <= |line|
    ensures Lead(line) == n <==> AllSpaces(line[..n]) && (n < |line| ==> line[n] != ' ')
  {
    var lead := Lead(line);
    LeadIsSpaces(line);
    LeadStops(line);
    assert lead < n ==> line[..n][lead] == line[lead];
    assert n < lead ==> line[..lead][n] == line[n];
  }

  lemma {:induction false} LeadStops(line: string)
    ensures Lead(line) < |line| ==> line[Lead(line)] != ' '
  {
    if line != "" && line[0] == ' ' {
      LeadStops(line[1..]);
    }
  }

  /** The marks a line can start with, character by character. */
  lemma LineMarksExactly(stripped: string)
    ensures IsBullet(stripped) <==> |stripped| >= 2 && (stripped[0] == '-' || stripped[0] == '*') && stripped[1] == ' '
    ensures StartsWith(stripped, "> ") <==> |stripped| >= 2 && stripped[0] == '>' && stripped[1] == ' '
    ensures FenceOf(stripped) == Some(Backticks) <==> |stripped| >= 3 && forall k | 0 <= k < 3 :: stripped[k] == '`'
    ensures FenceOf(stripped) == Some(Tildes) <==> |stripped| >= 3 && forall k | 0 <= k < 3 :: stripped[k] == '~'
  {
  }

  /** A heading is one to six `#` and a space, and every such line is one. */
  lemma HeadingLevelExactly(stripped: string, n: nat)
    ensures n > 0 && HeadingLevel(stripped) == n <==>
            1 <= n <= 6 && n < |stripped| && stripped[n] == ' ' && forall k | 0 <= k < n :: stripped[k] == '#'
  {
    HashesStop(stripped);
  }

  lemma {:induction false} HashesStop(s: string)
    ensures Hashes(s) < |s| ==> s[Hashes(s)] != '#'
  {
    if s != "" && s[0] == '#' {
      HashesStop(s[1..]);
    }
  }

  lemma {:induction false} RunLengthIs(line: string, i: nat, n: nat, stop: char)
    requires i + n < |line| && line[i + n] == stop && forall k | i <= k < i + n :: line[k] != stop && line[k] != '\n'
    ensures RunLength(line, i, stop) == n
    decreases n
  {
    if n > 0 {
      RunLengthIs(line, i + 1, n - 1, stop);
    }
  }

  lemma PairIsFound(line: string, i: nat, j: nat, mark: string, stop: char)
    requires i <= j <= |line| && IsPair(line[i..j], mark, stop)
    requires (mark == "**" && stop == '*') || (mark == "`" && stop == '`')
    ensures TokenAt(line, i) == j - i > 0
  {
    var m := |mark|;
    var n := j - i - 2 * m;
    PairParts(line, i, j, mark, stop);
    hide IsPair, RunLength;
    assert line[i] == line[i..i + m][0] && line[i + m + n] == line[i + m + n..j][0];
    RunLengthIs(line, i + m, n, stop);
    if m == 2 {
      assert IsBold(line, i) && line[i + 2 + n..i + 2 + n + 2] == "**";
    } else {
      assert line[i] == '`';
      assert i + 2 <= |line| ==> line[i..i + 2][0] == '`';
      assert !IsBold(line, i);
    }
  }

  lemma PairParts(line: string, i: nat, j: nat, mark: string, stop: char)
    requires i <= j <= |line| && IsPair(line[i..j], mark, stop) && mark != ""
    ensures var m := |mark|;
            && 2 * m < j - i <= 2 * m + MAX_INLINE
            && line[i..i + m] == mark && line[j - m..j] == mark
            && forall k | i + m <= k < j - m :: line[k] != stop && line[k] != '\n'
  {
    var source, m := line[i..j], |mark|;
    SliceSlice(line, i, j, 0, m);
    SliceSlice(line, i, j, |source| - m, |source|);
    assert source[0..m] == source[..m] && source[|source| - m..|source|] == source[|source| - m..];
    forall k | i + m <= k < j - m ensures line[k] != stop && line[k] != '\n' {
      assert line[k] == source[k - i];
    }
  }

  /** A token is found exactly where there is one: a pair of equal marks around a
      non-empty bounded run without the mark's character or a line end. */
  lemma TokenAtExactly(line: string, i: nat, j: nat)
    requires i <= j <= |line|
    ensures i < j && TokenAt(line, i) == j - i <==> PairAt(line, i, j)
  {
    if IsPair(line[i..j], "**", '*') {
      PairIsFound(line, i, j, "**", '*');
    } else if IsPair(line[i..j], "`", '`') {
      PairIsFound(line, i, j, "`", '`');
    }
  }

  /** And the scanner passes over none. */
  lemma {:induction false} NoPairBeforeNext(line: string, i: nat)
    requires i <= |line|
    ensures NoPair(line, i, NextToken(line, i))
    decreases |line| - i
  {
    hide TokenAt, PairAt, IsPair;
    if i < |line| && TokenAt(line, i) == 0 {
      NoPairBeforeNext(line, i + 1);
      var k := NextToken(line, i + 1);
      forall a, c | i <= a <= c <= k ensures !PairAt(line, a, c) {
        if a == i {
          TokenAtExactly(line, a, c);
        }
      }
    } else {
      TokenAtExactly(line, i, i);
    }
  }

  /** The line, as the inline scanner sees it, against the source: the same, or
      with its bullet's first two characters replaced. */
  predicate LineOf(text: string, line: string, base: nat, bullet: bool) {
    && base + |line| <= |text| && InsideLine(text, base, base + |line|)
    && if bullet then
         |line| >= 2 && IsBullet(text[base..base + |line|]) && line == "• " + text[base + 2..base + |line|]
       else line == text[base..base + |line|]
  }

  /** The context of the inline scanner at `i`. */
  function At(bullet: bool, i: nat, b: nat): (c: Context) {
    if bullet && i == 0 then AfterIndent(b) else Open(b)
  }

  lemma SliceOf(text: string, line: string, base: nat, bullet: bool, i: nat, j: nat)
    requires LineOf(text, line, base, bullet) && i <= j <= |line| && (bullet ==> i >= 2)
    ensures line[i..j] == text[base + i..base + j]
  {
    if bullet {
      assert line[2..|line|] == line[2..] == text[base + 2..base + |line|];
      SliceSlice(line, 2, |line|, i - 2, j - 2);
      SliceSlice(text, base + 2, base + |line|, i - 2, j - 2);
    } else {
      SliceSlice(text, base, base + |line|, i, j);
    }
  }

  lemma SliceSlice(s: string, a: nat, b: nat, i: nat, j: nat)
    requires a <= b <= |s| && i <= j <= b - a
    ensures s[a..b][i..j] == s[a + i..a + j]
  {
    var x, y := s[a..b][i..j], s[a + i..a + j];
    forall k | 0 <= k < j - i ensures x[k] == y[k] {
      assert x[k] == s[a..b][i + k] == s[a + i + k];
    }
    assert |x| == |y| && x == y;
  }

  /** No pair stands in text that the inline scanner found none in. */
  lemma NoPairInSource(text: string, line: string, base: nat, bullet: bool, i: nat, j: nat)
    requires LineOf(text, line, base, bullet) && i <= j <= |line| && (bullet ==> i >= 2) && NoPair(line, i, j)
    ensures NoPair(text, base + i, base + j)
  {
    hide LineOf, IsPair;
    LineInText(text, line, base, bullet);
    forall a, c | base + i <= a <= c <= base + j ensures !PairAt(text, a, c) {
      SliceOf(text, line, base, bullet, a - base, c - base);
      assert !PairAt(line, a - base, c - base);
    }
  }

  lemma LineInText(text: string, line: string, base: nat, bullet: bool)
    requires LineOf(text, line, base, bullet)
    ensures base + |line| <= |text|
  {
  }

  lemma NoStartInside(text: string, line: string, base: nat, bullet: bool, k: nat)
    requires LineOf(text, line, base, bullet) && 0 < k < |line|
    ensures base + k <= |text| && !LineStart(text, base + k)
  {
  }

  lemma PlainPiece(text: string, cut: bool, b: nat, line: string, base: nat, bullet: bool, i: nat, j: nat)
    requires LineOf(text, line, base, bullet) && i < j <= |line| && (!bullet ==> PlainStart(text, base, b))
    requires bullet ==> i >= 2 || (i == 0 && j >= 2)
    requires cut || NoPair(line, i, j)
    ensures Fits(text, cut, Shown(base + i, base + j, Span(line[i..j], Body)), At(bullet, i, b))
  {
    hide PlainStart, SpecialLine, NoPair, IsPair;
    LineInText(text, line, base, bullet);
    if bullet && i == 0 {
      if !cut {
        SubNoPair(line, 0, 2, j);
        NoPairInSource(text, line, base, bullet, 2, j);
      }
      SliceOf(text, line, base, bullet, 2, j);
      assert line[0..j] == line[0..2] + line[2..j];
      assert line[0..2] == "• ";
      var source := text[base..base + j];
      assert source[..2] == text[base..base + |line|][..2];
    } else {
      if !cut {
        NoPairInSource(text, line, base, bullet, i, j);
      }
      SliceOf(text, line, base, bullet, i, j);
      if i > 0 {
        NoStartInside(text, line, base, bullet, i);
      }
      PlainInside(text, base, i, b);
    }
  }

  lemma PlainInside(text: string, base: nat, i: nat, b: nat)
    requires base + i <= |text| && (i == 0 ==> PlainStart(text, base, b)) && (i > 0 ==> !LineStart(text, base + i))
    ensures PlainStart(text, base + i, b)
  {
  }

  lemma SubNoPair(line: string, lo: nat, mid: nat, hi: nat)
    requires lo <= mid <= hi <= |line| && NoPair(line, lo, hi)
    ensures NoPair(line, mid, hi)
  {
  }

  /** A bullet sign never starts a token. */
  lemma TokensFollowTheBullet(text: string, line: string, base: nat, previous: nat)
    requires LineOf(text, line, base, true) && previous <= |line| && (previous == 0 || previous >= 2)
    ensures NextToken(line, previous) >= 2
  {
    assert line[0] == '•' && line[1] == ' ';
    if previous == 0 {
      assert !IsBold(line, 0) by { if 2 <= |line| { assert line[0..2][0] == '•'; } }
      assert !IsBold(line, 1) by { if 3 <= |line| { assert line[1..3][0] == ' '; } }
      assert TokenAt(line, 0) == 0 && TokenAt(line, 1) == 0;
    }
  }

  lemma InlineStep(line: string, base: nat, previous: nat, n: nat, max: nat)
    requires previous <= |line|
    ensures var k := NextToken(line, previous);
            Inline(line, base, previous, n, max) ==
            if k == |line| || n + 3 >= max then Plain(line, base, previous, |line|)
            else
              Plain(line, base, previous, k)
              + ([Token(line, base, k)]
                 + Inline(line, base, k + TokenAt(line, k), n + (if previous < k then 2 else 1), max))
  {
    hide TokenAt, NextToken, Token, Plain;
  }

  lemma PlainCount(line: string, base: nat, i: nat, j: nat)
    requires i <= j <= |line|
    ensures ShownCount(Plain(line, base, i, j)) == if i < j then 1 else 0
  {
  }

  lemma PlainCovers(text: string, cut: bool, b: nat, line: string, base: nat, bullet: bool, i: nat, j: nat)
    requires LineOf(text, line, base, bullet) && i <= j <= |line| && (!bullet ==> PlainStart(text, base, b))
    requires bullet ==> i >= 2 || (i == 0 && j >= 2)
    requires cut || NoPair(line, i, j)
    ensures Covers(text, cut, Plain(line, base, i, j), base + i, base + j, At(bullet, i, b), Open(b))
    ensures ShownCount(Plain(line, base, i, j)) == if i < j then 1 else 0
  {
    hide NoPair, PlainStart;
    if i < j {
      PlainPiece(text, cut, b, line, base, bullet, i, j);
      hide Fits, LineOf;
      CoversOne(text, cut, Shown(base + i, base + j, Span(line[i..j], Body)), At(bullet, i, b));
    }
  }

  lemma TokenIsToken(line: string, k: nat)
    requires k <= |line| && TokenAt(line, k) > 0
    ensures IsToken(line[k..k + TokenAt(line, k)], TokenSpan(line, k))
  {
    var length, m := TokenAt(line, k), MarkLength(line, k);
    SliceSlice(line, k, k + length, m, length - m);
    assert if IsBold(line, k) then IsPair(line[k..k + length], "**", '*') else IsPair(line[k..k + length], "`", '`');
    hide TokenAt, IsPair;
  }

  lemma TokenCovers(text: string, cut: bool, b: nat, line: string, base: nat, bullet: bool, k: nat)
    requires LineOf(text, line, base, bullet) && k <= |line| && TokenAt(line, k) > 0 && (bullet ==> k >= 2)
    requires !bullet ==> PlainStart(text, base, b)
    ensures Covers(text, cut, [Token(line, base, k)], base + k, base + k + TokenAt(line, k), Open(b), Open(b))
    ensures ShownCount([Token(line, base, k)]) == 1
  {
    hide TokenAt, IsToken, TokenSpan, PlainStart;
    LineInText(text, line, base, bullet);
    if k > 0 {
      NoStartInside(text, line, base, bullet, k);
    }
    PlainInside(text, base, k, b);
    var length := TokenAt(line, k);
    TokenIsToken(line, k);
    SliceOf(text, line, base, bullet, k, k + length);
    CoversOne(text, cut, Token(line, base, k), Open(b));
    CountOne(Token(line, base, k));
  }

  lemma CountOne(p: Piece)
    ensures ShownCount([p]) == (if p.Hidden? then 0 else 1) && Spans([p]) == if p.Hidden? then [] else [p.span]
    ensures ShownCount([]) == 0 && Spans([]) == []
  {
    assert [p][1..] == [];
  }

  /** The inline pieces cover the rest of the line and stay below the bound. */
  lemma {:induction false} InlineCovers(text: string, cut: bool, b: nat, line: string, base: nat, bullet: bool, previous: nat, n: nat, max: nat)
    requires LineOf(text, line, base, bullet) && previous <= |line| && (bullet ==> previous == 0 || previous >= 2)
    requires !bullet ==> PlainStart(text, base, b)
    requires n + ShownCount(Inline(line, base, previous, n, max)) + 2 >= max ==> cut
    ensures Covers(text, cut, Inline(line, base, previous, n, max), base + previous, base + |line|, At(bullet, previous, b), Open(b))
    ensures n + 2 <= max ==> n + ShownCount(Inline(line, base, previous, n, max)) + 1 <= max
    decreases |line| - previous
  {
    hide Inline, Covers, ShownCount, TokenAt, Token, Plain, LineOf, NextToken, NoPair, PlainStart;
    InlineStep(line, base, previous, n, max);
    NoPairBeforeNext(line, previous);
    var k := NextToken(line, previous);
    if bullet {
      TokensFollowTheBullet(text, line, base, previous);
    }
    if k == |line| || n + 3 >= max {
      PlainCount(line, base, previous, |line|);
      PlainCovers(text, cut, b, line, base, bullet, previous, |line|);
    } else {
      var after := k + TokenAt(line, k);
      var n' := n + if previous < k then 2 else 1;
      var token, rest := [Token(line, base, k)], Inline(line, base, after, n', max);
      PlainCovers(text, cut, b, line, base, bullet, previous, k);
      TokenCovers(text, cut, b, line, base, bullet, k);
      CountsJoin(token, rest);
      CountsJoin(Plain(line, base, previous, k), token + rest);
      InlineCovers(text, cut, b, line, base, bullet, after, n', max);
      CoversJoin(text, cut, token, rest, base + k, base + after, base + |line|, Open(b), Open(b), Open(b));
      CoversJoin(text, cut, Plain(line, base, previous, k), token + rest, base + previous, base + k, base + |line|,
                 At(bullet, previous, b), Open(b), Open(b));
    }
  }

  lemma NothingCovered(text: string, cut: bool, i: nat, c: Context)
    ensures Covers(text, cut, [], i, i, c, c) && ShownCount([]) == 0
  {
  }

  // ------------------------------------------------------------------ whole lines

  /** The line is the source from `base` on. */
  predicate IsSlice(text: string, base: nat, line: string) {
    base + |line| <= |text| && line == text[base..base + |line|]
  }

  lemma {:induction false} LeadIsSpaces(line: string)
    ensures AllSpaces(line[..Lead(line)])
  {
    if line != "" && line[0] == ' ' {
      LeadIsSpaces(line[1..]);
      assert line[..Lead(line)][1..] == line[1..][..Lead(line) - 1];
      assert forall i | 1 <= i < Lead(line) :: line[..Lead(line)][i] == line[..Lead(line)][1..][i - 1];
    }
  }

  lemma SliceOfLine(text: string, base: nat, line: string, i: nat, j: nat)
    requires IsSlice(text, base, line) && i <= j <= |line|
    ensures base + |line| <= |text| && text[base + i..base + j] == line[i..j]
  {
    SliceSlice(text, base, base + |line|, i, j);
  }

  lemma SliceIsLine(text: string, base: nat, line: string)
    requires IsSlice(text, base, line) && InsideLine(text, base, base + |line|)
    ensures LineOf(text, line, base, false)
  {
  }

  lemma BulletLine(text: string, base: nat, line: string, lead: nat)
    requires IsSlice(text, base, line) && InsideLine(text, base, base + |line|) && lead <= |line| && IsBullet(line[lead..])
    ensures var shown := "• " + line[lead..][2..];
            LineOf(text, shown, base + lead, true) && |shown| == |line| - lead
  {
    hide IsSlice;
    SliceOfLine(text, base, line, lead, |line|);
    SliceOfLine(text, base, line, lead + 2, |line|);
    TailOfTail(line, lead, 2);
    assert line[lead..|line|] == line[lead..];
    assert line[lead + 2..|line|] == line[lead + 2..];
  }

  lemma TailOfTail(line: string, lead: nat, k: nat)
    requires lead + k <= |line|
    ensures line[lead..][k..] == line[lead + k..]
  {
  }

  /** The pieces of a leading mark and of what follows it. */
  lemma MarkedLine(text: string, cut: bool, b: nat, base: nat, line: string, mark: nat, markup: Markup, style: Style)
    requires IsSlice(text, base, line) && mark <= |line| && base + |line| <= |text|
    requires (markup == HeadingMark && style == Heading) || (markup == QuoteMark && style == Quote)
    requires RestOfLine(text, base + mark, base + |line|) && IsMarkup(text, base, base + mark, markup)
    ensures var pieces := [Hidden(base, base + mark, markup)] + [Shown(base + mark, base + |line|, Span(line[mark..], style))];
            Covers(text, cut, pieces, base, base + |line|, Open(b), Open(b)) && ShownCount(pieces) == 1
  {
    hide IsSlice, IsMarkup, Covers, ShownCount, RestOfLine;
    var first := Hidden(base, base + mark, markup);
    var rest := Shown(base + mark, base + |line|, Span(line[mark..], style));
    SliceOfLine(text, base, line, mark, |line|);
    assert line[mark..] == line[mark..|line|];
    CoversOne(text, cut, first, Open(b));
    CoversOne(text, cut, rest, Next(first, Open(b)));
    hide Fits;
    CoversJoin(text, cut, [first], [rest], base, base + mark, base + |line|, Open(b), Next(first, Open(b)), Open(b));
    CountOne(first);
    CountOne(rest);
    CountsJoin([first], [rest]);
  }

  /** After `lead` spaces, what is left of the source is `stripped`. */
  lemma {:induction false} StrippedPrefix(line: string, k: nat)
    requires Lead(line) <= k <= |line|
    ensures Lead(line[..k]) == Lead(line) && line[..k][Lead(line)..] == line[Lead(line)..k]
  {
    if line != "" && line[0] == ' ' {
      assert line[..k][1..] == line[1..][..k - 1];
      StrippedPrefix(line[1..], k - 1);
    }
  }

  /** The first `k` characters of a line, against the source. */
  lemma MarkSource(text: string, base: nat, line: string, k: nat)
    requires IsSlice(text, base, line) && Lead(line) <= k <= |line|
    ensures base + k <= |text|
    ensures var source := text[base..base + k];
            Lead(source) == Lead(line) && source[Lead(line)..] == line[Lead(line)..][..k - Lead(line)]
  {
    hide Lead, IsSlice;
    SliceOfLine(text, base, line, 0, k);
    assert line[0..k] == line[..k];
    StrippedPrefix(line, k);
    HeadOfTail(line, Lead(line), k);
  }

  lemma HeadOfTail(line: string, lead: nat, k: nat)
    requires lead <= k <= |line|
    ensures line[lead..][..k - lead] == line[lead..k]
  {
  }

  /** The two marks that start a line, said of their source. */
  lemma MarkOf(text: string, lo: nat, hi: nat)
    requires lo <= hi <= |text|
    ensures var stripped := text[lo..hi][Lead(text[lo..hi])..];
            && IsMarkup(text, lo, hi, HeadingMark) == (LineStart(text, lo) && IsHeadingMark(stripped))
            && IsMarkup(text, lo, hi, QuoteMark) == (LineStart(text, lo) && stripped == "> ")
  {
    hide Lead, IsHeadingMark;
  }

  lemma HeadingIsMarkup(text: string, base: nat, line: string)
    requires IsSlice(text, base, line) && base <= |text| && LineStart(text, base)
    requires HeadingLevel(line[Lead(line)..]) > 0
    ensures var mark := Lead(line) + HeadingLevel(line[Lead(line)..]) + 1;
            mark <= |line| && base + mark <= |text| && IsMarkup(text, base, base + mark, HeadingMark)
  {
    hide Lead, HeadingLevel, IsSlice, IsHeadingMark, IsMarkup;
    var mark := Lead(line) + HeadingLevel(line[Lead(line)..]) + 1;
    MarkSource(text, base, line, mark);
    HeadingPrefix(line[Lead(line)..]);
    MarkOf(text, base, base + mark);
  }

  /** Both marks end in a space, so the line goes on after them. */
  lemma RestAfterMark(text: string, lo: nat, mid: nat, hi: nat, markup: Markup)
    requires lo <= mid <= hi <= |text| && OneLine(text, lo, hi) && IsMarkup(text, lo, mid, markup)
    requires markup == HeadingMark || markup == QuoteMark
    ensures RestOfLine(text, mid, hi)
  {
    hide Lead;
    var source := text[lo..mid];
    var stripped := source[Lead(source)..];
    assert stripped[|stripped| - 1] == ' ';
    assert text[mid - 1] == source[|source| - 1] == stripped[|stripped| - 1];
  }

  lemma HeadingPrefix(stripped: string)
    requires HeadingLevel(stripped) > 0
    ensures IsHeadingMark(stripped[..HeadingLevel(stripped) + 1])
  {
    hide HeadingLevel;
  }

  lemma QuoteIsMarkup(text: string, base: nat, line: string)
    requires IsSlice(text, base, line) && base <= |text| && LineStart(text, base)
    requires StartsWith(line[Lead(line)..], "> ")
    ensures Lead(line) + 2 <= |line| && base + Lead(line) + 2 <= |text|
            && IsMarkup(text, base, base + Lead(line) + 2, QuoteMark)
  {
    hide Lead, IsSlice, StartsWith, IsMarkup;
    QuotePrefix(line[Lead(line)..]);
    MarkSource(text, base, line, Lead(line) + 2);
    MarkOf(text, base, base + Lead(line) + 2);
  }

  lemma QuotePrefix(stripped: string)
    requires StartsWith(stripped, "> ")
    ensures |stripped| >= 2 && stripped[..2] == "> "
  {
  }

  lemma IndentIsMarkup(text: string, base: nat, line: string)
    requires IsSlice(text, base, line) && base <= |text| && LineStart(text, base)
    requires IsBullet(line[Lead(line)..])
    ensures base + Lead(line) <= |text| && IsMarkup(text, base, base + Lead(line), Indent)
  {
    hide Lead, IsSlice, IsBullet, AllSpaces;
    var lead := Lead(line);
    BulletLength(line[lead..]);
    SliceOfLine(text, base, line, 0, lead);
    assert line[0..lead] == line[..lead];
    LeadIsSpaces(line);
    SliceOfLine(text, base, line, lead, lead + 2);
    HeadOfTail(line, lead, lead + 2);
    HeadOfTail(text, base + lead, base + lead + 2);
    SamePrefix(text[base + lead..], line[lead..]);
  }

  lemma BulletLength(s: string)
    requires IsBullet(s)
    ensures |s| >= 2
  {
  }

  lemma SamePrefix(a: string, b: string)
    requires |a| >= 2 && |b| >= 2 && a[..2] == b[..2] && IsBullet(b)
    ensures IsBullet(a)
  {
    assert a[0] == a[..2][0] && a[1] == a[..2][1];
    assert b[0] == b[..2][0] && b[1] == b[..2][1];
  }

  lemma FenceIsMarkup(text: string, lo: nat, hi: nat)
    requires lo <= hi <= |text| && OneLine(text, lo, hi)
    requires FenceOf(text[lo..hi][Lead(text[lo..hi])..]).Some?
    ensures IsMarkup(text, lo, hi, FenceLine(FenceOf(text[lo..hi][Lead(text[lo..hi])..]).value))
  {
  }

  lemma BulletCovers(text: string, cut: bool, b: nat, line: string, base: nat, n: nat, max: nat)
    requires IsSlice(text, base, line) && base <= |text| && LineStart(text, base) && InsideLine(text, base, base + |line|)
    requires IsBullet(line[Lead(line)..])
    requires n + ShownCount(Inline("• " + line[Lead(line)..][2..], base + Lead(line), 0, n, max)) + 2 >= max ==> cut
    ensures |line[Lead(line)..]| >= 2
    ensures var pieces := [Hidden(base, base + Lead(line), Indent)]
                          + Inline("• " + line[Lead(line)..][2..], base + Lead(line), 0, n, max);
            && Covers(text, cut, pieces, base, base + |line|, Open(b), Open(b))
            && (n + 2 < max ==> n + ShownCount(pieces) + 1 <= max)
  {
    hide Inline, Covers, ShownCount, IsMarkup, LineOf, Lead, IsBullet, IsSlice;
    var lead := Lead(line);
    BulletLength(line[lead..]);
    BulletLine(text, base, line, lead);
    var shown := "• " + line[lead..][2..];
    IndentIsMarkup(text, base, line);
    InlineCovers(text, cut, b, shown, base + lead, true, 0, n, max);
    var indent := Hidden(base, base + lead, Indent);
    CoversOne(text, cut, indent, Open(b));
    hide Fits;
    CoversJoin(text, cut, [indent], Inline(shown, base + lead, 0, n, max), base, base + lead, base + |line|,
               Open(b), AfterIndent(b), Open(b));
    CountOne(indent);
    CountsJoin([indent], Inline(shown, base + lead, 0, n, max));
  }

  lemma OneLineParts(text: string, lo: nat, hi: nat)
    requires lo <= hi <= |text| && OneLine(text, lo, hi)
    ensures LineStart(text, lo) && InsideLine(text, lo, hi)
  {
  }

  lemma NoSpecialLine(text: string, base: nat, line: string, blocks: nat)
    requires base < |text| && IsSlice(text, base, line) && base + |line| == LineEnd(text, base)
    requires var stripped := line[Lead(line)..];
             HeadingLevel(stripped) == 0 && !IsBullet(stripped) && !StartsWith(stripped, "> ")
    requires FenceAt(text, base).Some? ==> blocks >= MAX_CODE_BLOCKS
    ensures PlainStart(text, base, blocks)
  {
    hide Lead, HeadingLevel, IsBullet, StartsWith, FenceOf, LineEnd;
  }

  lemma HiddenCountsNothing(p: Piece, rest: seq<Piece>)
    requires p.Hidden?
    ensures ShownCount([p] + rest) == ShownCount(rest)
  {
    CountOne(p);
    CountsJoin([p], rest);
  }

  /** A line outside any fence is covered, and the bound is respected. */
  lemma LineCovers(text: string, cut: bool, b: nat, line: string, base: nat, n: nat, max: nat)
    requires IsSlice(text, base, line) && base < |text| && base + |line| == LineEnd(text, base)
    requires OneLine(text, base, base + |line|) && (FenceAt(text, base).Some? ==> b >= MAX_CODE_BLOCKS)
    requires n + ShownCount(LinePieces(line, base, n, max)) + 2 >= max ==> cut
    ensures Covers(text, cut, LinePieces(line, base, n, max), base, base + |line|, Open(b), Open(b))
    ensures n + 2 < max ==> n + ShownCount(LinePieces(line, base, n, max)) + 1 <= max
  {
    hide Inline, Covers, ShownCount, HeadingLevel, IsMarkup, LineOf, Lead, IsBullet, StartsWith, IsSlice, RestOfLine,
      OneLine, LineStart, InsideLine, Fits, FenceAt, PlainStart, LineEnd;
    var lead := Lead(line);
    var stripped := line[lead..];
    var level := HeadingLevel(stripped);
    assert LineStart(text, base) && InsideLine(text, base, base + |line|) by { OneLineParts(text, base, base + |line|); }
    if level > 0 {
      HeadingIsMarkup(text, base, line);
      RestAfterMark(text, base, base + lead + level + 1, base + |line|, HeadingMark);
      MarkedLine(text, cut, b, base, line, lead + level + 1, HeadingMark, Heading);
      TailOfTail(line, lead, level + 1);
    } else if IsBullet(stripped) {
      BulletLength(stripped);
      HiddenCountsNothing(Hidden(base, base + lead, Indent), Inline("• " + stripped[2..], base + lead, 0, n, max));
      BulletCovers(text, cut, b, line, base, n, max);
    } else if StartsWith(stripped, "> ") {
      QuoteIsMarkup(text, base, line);
      RestAfterMark(text, base, base + lead + 2, base + |line|, QuoteMark);
      MarkedLine(text, cut, b, base, line, lead + 2, QuoteMark, Quote);
      TailOfTail(line, lead, 2);
    } else {
      SliceIsLine(text, base, line);
      NoSpecialLine(text, base, line, b);
      InlineCovers(text, cut, b, line, base, false, 0, n, max);
    }
  }

  // ------------------------------------------------------------------- whole texts

  /** One line of the scan. */
  lemma ScanStep(text: string, p: Place, max: nat)
    requires p.codeStart <= p.offset < |text| && p.spans + 2 < max
    ensures var end := LineEnd(text, p.offset);
            var line := text[p.offset..end];
            var marker := FenceOf(line[Lead(line)..]);
            Scan(text, p, max) ==
            if p.fence.Some? then
              if marker == p.fence then
                [Shown(p.codeStart, p.offset, Span(text[p.codeStart..p.offset], Code))]
                + ([Hidden(p.offset, end, FenceLine(p.fence.value))] + Scan(text, Place(end, None, p.codeStart, p.blocks, p.spans + 1), max))
              else Scan(text, p.(offset := end), max)
            else if marker.Some? && p.blocks < MAX_CODE_BLOCKS then
              [Hidden(p.offset, end, FenceLine(marker.value))] + Scan(text, Place(end, marker, end, p.blocks + 1, p.spans), max)
            else
              var pieces := LinePieces(line, p.offset, p.spans, max);
              pieces + Scan(text, p.(offset := end, spans := p.spans + ShownCount(pieces)), max)
  {
    hide LinePieces, ShownCount, Lead, LineEnd, FenceOf;
  }

  lemma ScanLast(text: string, p: Place, max: nat)
    requires p.codeStart <= p.offset <= |text| && (p.offset == |text| || p.spans + 2 >= max)
    ensures var last := Shown(Frontier(p), |text|, Span(text[Frontier(p)..], if p.fence.Some? then Code else Body));
            Scan(text, p, max) == if p.offset == |text| && p.fence == None then [] else [last]
  {
  }

  /** The context at a place of the scan, and what it knows of an open fence. */
  function ContextOf(p: Place): (c: Context) {
    if p.fence.Some? then InFence(p.fence.value, p.blocks) else Open(p.blocks)
  }

  predicate IsPlace(text: string, p: Place) {
    && p.codeStart <= p.offset <= |text| && LineBreakAt(text, p.offset)
    && (p.fence.Some? ==> NoFence(text, p.codeStart, p.offset, p.fence.value))
  }

  /** The scan may have been cut short: there was room for two more spans at most. */
  predicate WasCut(text: string, p: Place, max: nat)
    requires p.codeStart <= p.offset <= |text|
  {
    p.spans + ShownCount(Scan(text, p, max)) + 2 >= max
  }

  /** The rest of the text, shown as one span. */
  lemma LastCovers(text: string, p: Place, max: nat)
    requires IsPlace(text, p) && (p.offset == |text| || p.spans + 2 >= max)
    ensures exists after :: MayEnd(after)
              && Covers(text, WasCut(text, p, max), Scan(text, p, max), Frontier(p), |text|, ContextOf(p), after)
    ensures p.spans < max ==> p.spans + ShownCount(Scan(text, p, max)) <= max
  {
    hide Scan, NoFence;
    ScanLast(text, p, max);
    var last := Shown(Frontier(p), |text|, Span(text[Frontier(p)..], if p.fence.Some? then Code else Body));
    assert text[Frontier(p)..|text|] == text[Frontier(p)..];
    CountOne(last);
    var cut := WasCut(text, p, max);
    if p.offset == |text| && p.fence == None {
      NothingCovered(text, cut, |text|, Open(p.blocks));
    } else {
      CoversOne(text, cut, last, ContextOf(p));
    }
    hide Covers;
    assert MayEnd(Open(p.blocks)) && (p.fence.Some? ==> MayEnd(FenceDue(p.fence.value, p.blocks)));
  }

  /** A line that is no fence of this kind leaves the code free of them. */
  lemma NoFenceExtends(text: string, lo: nat, mid: nat, fence: Fence)
    requires lo <= mid < |text| && NoFence(text, lo, mid, fence) && FenceAt(text, mid) != Some(fence)
    ensures NoFence(text, lo, LineEnd(text, mid), fence)
  {
    hide FenceAt;
  }

  lemma OneLineAt(text: string, i: nat)
    requires i < |text| && LineBreakAt(text, i)
    ensures OneLine(text, i, LineEnd(text, i)) && LineBreakAt(text, LineEnd(text, i))
  {
  }

  /** The code of an open fence and its closing line. */
  lemma BlockCovers(text: string, cut: bool, b: nat, lo: nat, mid: nat, fence: Fence)
    requires lo <= mid < |text| && LineBreakAt(text, mid) && NoFence(text, lo, mid, fence) && FenceAt(text, mid) == Some(fence)
    ensures var end := LineEnd(text, mid);
            var pieces := [Shown(lo, mid, Span(text[lo..mid], Code))] + [Hidden(mid, end, FenceLine(fence))];
            Covers(text, cut, pieces, lo, end, InFence(fence, b), Open(b)) && ShownCount(pieces) == 1
  {
    var end := LineEnd(text, mid);
    var code, closing := Shown(lo, mid, Span(text[lo..mid], Code)), Hidden(mid, end, FenceLine(fence));
    OneLineAt(text, mid);
    FenceIsMarkup(text, mid, end);
    hide IsMarkup, NoFence;
    CoversOne(text, cut, code, InFence(fence, b));
    CoversOne(text, cut, closing, FenceDue(fence, b));
    hide Fits, Covers;
    CoversJoin(text, cut, [code], [closing], lo, mid, end, InFence(fence, b), FenceDue(fence, b), Open(b));
    CountOne(code);
    CountOne(closing);
    CountsJoin([code], [closing]);
  }

  lemma OpeningCovers(text: string, cut: bool, b: nat, i: nat)
    requires i < |text| && LineBreakAt(text, i) && FenceAt(text, i).Some? && b < MAX_CODE_BLOCKS
    ensures var fence, end := FenceAt(text, i).value, LineEnd(text, i);
            var pieces := [Hidden(i, end, FenceLine(fence))];
            && Covers(text, cut, pieces, i, end, Open(b), InFence(fence, b + 1)) && ShownCount(pieces) == 0
            && NoFence(text, end, end, fence)
  {
    var fence, end := FenceAt(text, i).value, LineEnd(text, i);
    OneLineAt(text, i);
    FenceIsMarkup(text, i, end);
    hide IsMarkup;
    CoversOne(text, cut, Hidden(i, end, FenceLine(fence)), Open(b));
    CountOne(Hidden(i, end, FenceLine(fence)));
  }

  /** From any place the scan can be in, the remaining pieces cover the
      remaining source, and the number of spans stays within the bound. */
  lemma {:induction false} ScanCovers(text: string, p: Place, max: nat)
    requires IsPlace(text, p)
    ensures exists after :: MayEnd(after)
              && Covers(text, WasCut(text, p, max), Scan(text, p, max), Frontier(p), |text|, ContextOf(p), after)
    ensures p.spans < max ==> p.spans + ShownCount(Scan(text, p, max)) <= max
    decreases |text| - p.offset
  {
    hide Scan, Covers, ShownCount, LinePieces, Lead, LineEnd, FenceOf, NoFence, OneLine, MayEnd;
    if p.offset == |text| || p.spans + 2 >= max {
      LastCovers(text, p, max);
    } else {
      ScanStep(text, p, max);
      var end := LineEnd(text, p.offset);
      var line := text[p.offset..end];
      var marker := FenceAt(text, p.offset);
      OneLineAt(text, p.offset);
      if p.fence.Some? && marker == p.fence {
        var code := Shown(p.codeStart, p.offset, Span(text[p.codeStart..p.offset], Code));
        var closing := Hidden(p.offset, end, FenceLine(p.fence.value));
        var rest := Place(end, None, p.codeStart, p.blocks, p.spans + 1);
        ScanCovers(text, rest, max);
        var cut := WasCut(text, rest, max);
        BlockCovers(text, cut, p.blocks, p.codeStart, p.offset, p.fence.value);
        Regroup(code, closing, Scan(text, rest, max));
        Continue(text, cut, [code] + [closing], Scan(text, rest, max), p.codeStart, end, ContextOf(p), Open(p.blocks));
      } else if p.fence.Some? {
        NoFenceExtends(text, p.codeStart, p.offset, p.fence.value);
        ScanCovers(text, p.(offset := end), max);
      } else if marker.Some? && p.blocks < MAX_CODE_BLOCKS {
        var rest := Place(end, marker, end, p.blocks + 1, p.spans);
        var cut := WasCut(text, rest, max);
        OpeningCovers(text, cut, p.blocks, p.offset);
        ScanCovers(text, rest, max);
        Continue(text, cut, [Hidden(p.offset, end, FenceLine(marker.value))], Scan(text, rest, max), p.offset, end,
                 Open(p.blocks), ContextOf(rest));
      } else {
        var pieces := LinePieces(line, p.offset, p.spans, max);
        var rest := p.(offset := end, spans := p.spans + ShownCount(pieces));
        assert IsSlice(text, p.offset, line);
        var cut := WasCut(text, rest, max);
        LineCovers(text, cut, p.blocks, line, p.offset, p.spans, max);
        ScanCovers(text, rest, max);
        Continue(text, cut, pieces, Scan(text, rest, max), p.offset, end, Open(p.blocks), Open(p.blocks));
      }
    }
  }

  lemma Regroup(a: Piece, b: Piece, rest: seq<Piece>)
    ensures [a] + ([b] + rest) == [a] + [b] + rest
  {
  }

  /** Pieces put before pieces that reach a proper end. */
  lemma Continue(text: string, cut: bool, pieces: seq<Piece>, rest: seq<Piece>, lo: nat, mid: nat, before: Context, between: Context)
    requires Covers(text, cut, pieces, lo, mid, before, between)
    requires exists after :: MayEnd(after) && Covers(text, cut, rest, mid, |text|, between, after)
    ensures exists after :: MayEnd(after) && Covers(text, cut, pieces + rest, lo, |text|, before, after)
    ensures ShownCount(pieces + rest) == ShownCount(pieces) + ShownCount(rest)
  {
    hide Covers, ShownCount, MayEnd;
    var after :| MayEnd(after) && Covers(text, cut, rest, mid, |text|, between, after);
    CoversJoin(text, cut, pieces, rest, lo, mid, |text|, before, between, after);
    CountsJoin(pieces, rest);
  }

  /** For every text and bound: the pieces cover the whole source in order
      without gap or overlap, each as its context calls for, and there are at
      most `max` spans. The scan is not cut short when three spans are to spare. */
  lemma NothingIsLost(text: string, max: nat)
    requires max >= 1
    ensures var pieces := Scan(text, START, max);
            && (exists after :: MayEnd(after) && Covers(text, |Spans(pieces)| + 2 >= max, pieces, 0, |text|, Open(0), after))
            && |Spans(pieces)| <= max
  {
    ScanCovers(text, START, max);
  }

  lemma BoundHolds(text: string, max: nat)
    requires max >= 1
    ensures |Spans(Scan(text, START, max))| <= max
  {
    ScanCovers(text, START, max);
  }

  // ------------------------------------------------------------- the way back

  function MarkOfStyle(style: Style): (mark: string) {
    if style == Strong then "**" else if style == InlineCode then "`" else ""
  }

  /** The source of a piece from what is shown of it and what is left out: the
      text of the span, its inline marks put back, the bullet sign taken for the
      mark it replaces; and the left-out mark itself. */
  function Unmarked(text: string, p: Piece, before: Context): (source: string)
    requires p.lo <= p.hi <= |text| && (before.AfterIndent? && p.Shown? ==> p.lo + 2 <= |text| && |p.span.text| >= 2)
  {
    match p
    case Shown(lo, _, span) => if before.AfterIndent? then text[lo..lo + 2] + span.text[2..] else span.text
    case Marked(_, _, span) => MarkOfStyle(span.style) + span.text + MarkOfStyle(span.style)
    case Hidden(lo, hi, _) => text[lo..hi]
  }

  function Rebuilt(text: string, cut: bool, pieces: seq<Piece>, lo: nat, hi: nat, before: Context, after: Context): (source: string)
    requires Covers(text, cut, pieces, lo, hi, before, after)
  {
    if pieces == [] then ""
    else
      Unmarked(text, pieces[0], before)
      + Rebuilt(text, cut, pieces[1..], pieces[0].hi, hi, Next(pieces[0], before), after)
  }

  lemma FittingPieceIsItsSource(text: string, cut: bool, p: Piece, before: Context)
    requires Fits(text, cut, p, before)
    ensures Unmarked(text, p, before) == text[p.lo..p.hi]
  {
    hide IsMarkup, NoFence, RestOfLine, InsideLine, IsToken, NoPair, PlainStart, IsBullet;
    var source := text[p.lo..p.hi];
    if p.Marked? {
      TokenBetweenMarks(source, p.span);
    } else if p.Shown? && before.AfterIndent? {
      assert source == source[..2] + source[2..];
      SliceSlice(text, p.lo, p.hi, 0, 2);
      assert source[0..2] == source[..2];
    }
  }

  lemma TokenBetweenMarks(source: string, span: Span)
    requires IsToken(source, span)
    ensures source == MarkOfStyle(span.style) + span.text + MarkOfStyle(span.style)
  {
    var m := |MarkOfStyle(span.style)|;
    assert m == 1 || m == 2;
    assert source[..m] == MarkOfStyle(span.style) == source[|source| - m..];
    assert span.text == source[m..|source| - m];
    ThreeParts(source, m);
  }

  lemma ThreeParts(s: string, m: nat)
    requires 2 * m <= |s|
    ensures s == s[..m] + s[m..|s| - m] + s[|s| - m..]
  {
  }

  /** The spans, with the left-out marks and the inline marks put back, are the
      source. */
  lemma {:induction false} SpansAndMarksAreTheSource(text: string, cut: bool, pieces: seq<Piece>, lo: nat, hi: nat,
                                                     before: Context, after: Context)
    requires Covers(text, cut, pieces, lo, hi, before, after) && lo <= |text|
    ensures lo <= hi <= |text| && Rebuilt(text, cut, pieces, lo, hi, before, after) == text[lo..hi]
  {
    hide Fits, Unmarked;
    if pieces != [] {
      var p := pieces[0];
      FitsInside(text, cut, p, before);
      FittingPieceIsItsSource(text, cut, p, before);
      SpansAndMarksAreTheSource(text, cut, pieces[1..], p.hi, hi, Next(p, before), after);
      assert text[lo..hi] == text[lo..p.hi] + text[p.hi..hi];
    }
  }

  lemma FitsInside(text: string, cut: bool, p: Piece, before: Context)
    requires Fits(text, cut, p, before)
    ensures p.lo <= p.hi <= |text|
    ensures before.AfterIndent? && p.Shown? ==> p.lo + 2 <= |text| && |p.span.text| >= 2
  {
  }

  // -------------------------------------------------------------------- the scanner

  /** One line of text with its inline tokens, appended to the spans. */
  method ScanInline(line: string, base: nat, spans: seq<Span>, max: nat) returns (all: seq<Span>)
    ensures all == spans + Spans(Inline(line, base, 0, |spans|, max))
  {
    hide Inline, Spans, TokenAt, NextToken, ShownCount, Plain, TokenSpan;
    all := spans;
    var previous := 0;
    ghost var goal := spans + Spans(Inline(line, base, 0, |spans|, max));
    while NextToken(line, previous) < |line| && |all| + 3 < max
      invariant previous <= |line|
      invariant all + Spans(Inline(line, base, previous, |all|, max)) == goal
      decreases |line| - previous
    {
      var start := NextToken(line, previous);
      var length := TokenAt(line, start);
      var added: seq<Span> := if previous < start then [Span(line[previous..start], Body)] else [];
      var content := TokenContent(line, start);
      InlineTurn(all, line, base, previous, max, added, content);
      all := all + added + [content];
      previous := start + length;
    }
    InlineLast(all, line, base, previous, max);
    if previous < |line| {
      all := all + [Span(line[previous..], Body)];
    }
  }

  /** One turn of the token loop moves spans from what remains to what is done. */
  lemma InlineTurn(all: seq<Span>, line: string, base: nat, previous: nat, max: nat, added: seq<Span>, content: Span)
    requires previous <= |line| && NextToken(line, previous) < |line| && |all| + 3 < max
    requires added == if previous < NextToken(line, previous) then [Span(line[previous..NextToken(line, previous)], Body)] else []
    requires content == TokenSpan(line, NextToken(line, previous))
    ensures var k, done := NextToken(line, previous), all + added + [content];
            all + Spans(Inline(line, base, previous, |all|, max))
            == done + Spans(Inline(line, base, k + TokenAt(line, k), |done|, max))
  {
    hide Inline, Spans, TokenAt, NextToken, ShownCount, TokenSpan;
    InlineSpans(line, base, previous, |all|, max);
    var k := NextToken(line, previous);
    var n := |all| + (if previous < k then 2 else 1);
    assert |all + added + [content]| == n;
    AppendTwo(all, added, content, Spans(Inline(line, base, k + TokenAt(line, k), n, max)));
  }

  lemma InlineLast(all: seq<Span>, line: string, base: nat, previous: nat, max: nat)
    requires previous <= |line| && (NextToken(line, previous) == |line| || |all| + 3 >= max)
    ensures all + Spans(Inline(line, base, previous, |all|, max))
            == if previous < |line| then all + [Span(line[previous..], Body)] else all
  {
    hide Inline, Spans, TokenAt, NextToken, ShownCount;
    InlineStep(line, base, previous, |all|, max);
    PlainSpans(line, base, previous, |line|);
    assert line[previous..|line|] == line[previous..];
  }

  method TokenContent(line: string, start: nat) returns (span: Span)
    requires start <= |line| && TokenAt(line, start) > 0
    ensures span == TokenSpan(line, start)
  {
    var length := TokenAt(line, start);
    hide TokenAt;
    var value := line[start..start + length];
    if IsBold(line, start) {
      SliceSlice(line, start, start + length, 2, length - 2);
      return Span(value[2..|value| - 2], Strong);
    }
    SliceSlice(line, start, start + length, 1, length - 1);
    return Span(value[1..|value| - 1], InlineCode);
  }

  lemma AppendTwo(a: seq<Span>, b: seq<Span>, c: Span, d: seq<Span>)
    ensures a + (b + ([c] + d)) == a + b + [c] + d
  {
  }

  lemma PlainSpans(line: string, base: nat, i: nat, j: nat)
    requires i <= j <= |line|
    ensures Spans(Plain(line, base, i, j)) == if i < j then [Span(line[i..j], Body)] else []
  {
  }

  /** The spans one turn of the token loop adds. */
  lemma InlineSpans(line: string, base: nat, previous: nat, n: nat, max: nat)
    requires previous <= |line| && NextToken(line, previous) < |line| && n + 3 < max
    ensures var k := NextToken(line, previous);
            var end := k + TokenAt(line, k);
            Spans(Inline(line, base, previous, n, max)) ==
            (if previous < k then [Span(line[previous..k], Body)] else [])
            + ([TokenSpan(line, k)]
               + Spans(Inline(line, base, end, n + (if previous < k then 2 else 1), max)))
  {
    hide Inline, Spans, TokenAt, NextToken, Plain, TokenSpan, ShownCount;
    InlineStep(line, base, previous, n, max);
    var k := NextToken(line, previous);
    var end := k + TokenAt(line, k);
    var rest := Inline(line, base, end, n + (if previous < k then 2 else 1), max);
    PlainSpans(line, base, previous, k);
    CountsJoin(Plain(line, base, previous, k), [Token(line, base, k)] + rest);
    CountsJoin([Token(line, base, k)], rest);
    CountOne(Token(line, base, k));
  }

  lemma MarkedSpans(a: Piece, b: Piece)
    requires a.Hidden? && b.Shown?
    ensures Spans([a] + [b]) == [b.span]
  {
    hide Spans, ShownCount;
    CountsJoin([a], [b]);
    CountOne(a);
    CountOne(b);
  }

  method ScanLine(line: string, base: nat, spans: seq<Span>, max: nat) returns (all: seq<Span>)
    ensures all == spans + Spans(LinePieces(line, base, |spans|, max))
  {
    hide Inline, HeadingLevel, Lead, Spans, ShownCount;
    var lead := Lead(line);
    var stripped := line[lead..];
    var level := HeadingLevel(stripped);
    var start := base + lead;
    if level > 0 {
      MarkedSpans(Hidden(base, start + level + 1, HeadingMark),
                  Shown(start + level + 1, base + |line|, Span(stripped[level + 1..], Heading)));
      return spans + [Span(stripped[level + 1..], Heading)];
    }
    if IsBullet(stripped) {
      all := ScanInline("• " + stripped[2..], start, spans, max);
      CountsJoin([Hidden(base, start, Indent)], Inline("• " + stripped[2..], start, 0, |spans|, max));
      CountOne(Hidden(base, start, Indent));
      return all;
    }
    if StartsWith(stripped, "> ") {
      MarkedSpans(Hidden(base, start + 2, QuoteMark), Shown(start + 2, base + |line|, Span(stripped[2..], Quote)));
      return spans + [Span(stripped[2..], Quote)];
    }
    all := ScanInline(line, base, spans, max);
  }

  /** markdown_spans. */
  method Markdown(text: string, max: int) returns (r: Option<seq<Span>>)
    ensures r == if 1 <= max <= 2048 then Some(Spans(Scan(text, START, max))) else None
    ensures r.Some? ==> |r.value| <= max
  {
    hide Scan, Spans, LinePieces, Lead, LineEnd, FenceOf, ShownCount;
    if !(1 <= max <= MAX_SPANS) {
      return None;
    }
    BoundHolds(text, max);
    var spans: seq<Span> := [];
    var codeStart, fence: Option<Fence>, blocks, offset := 0, None, 0, 0;
    ghost var goal := Spans(Scan(text, START, max));
    assert spans + goal == goal;
    while offset < |text|
      invariant codeStart <= offset <= |text| && blocks >= 0
      invariant spans + Spans(Scan(text, Place(offset, fence, codeStart, blocks, |spans|), max)) == goal
      decreases |text| - offset
    {
      ghost var p := Place(offset, fence, codeStart, blocks, |spans|);
      if |spans| + 2 >= max {
        LastSpans(text, p, max);
        return Some(spans + [Span(text[if fence.Some? then codeStart else offset..], if fence.Some? then Code else Body)]);
      }
      StepSpans(text, p, max);
      ghost var next := NextPlace(text, p, max);
      JoinSpans(spans, NewSpans(text, p, max), Spans(Scan(text, next, max)));
      var end := LineEnd(text, offset);
      var line := text[offset..end];
      var marker := FenceOf(line[Lead(line)..]);
      if fence.Some? {
        if marker == fence {
          spans := spans + [Span(text[codeStart..offset], Code)];
          fence := None;
        }
      } else if marker.Some? && blocks < MAX_CODE_BLOCKS {
        fence, codeStart, blocks := marker, end, blocks + 1;
      } else {
        spans := ScanLine(line, offset, spans, max);
      }
      offset := end;
    }
    LastSpans(text, Place(offset, fence, codeStart, blocks, |spans|), max);
    if fence.Some? {
      return Some(spans + [Span(text[codeStart..], Code)]);
    }
    assert spans + [] == spans;
    return Some(spans);
  }

  /** What the last piece, if any, adds. */
  lemma LastSpans(text: string, p: Place, max: nat)
    requires p.codeStart <= p.offset <= |text| && (p.offset == |text| || p.spans + 2 >= max)
    ensures var from := if p.fence.Some? then p.codeStart else p.offset;
            Spans(Scan(text, p, max)) ==
            if p.offset == |text| && p.fence == None then []
            else [Span(text[from..], if p.fence.Some? then Code else Body)]
  {
    hide Scan;
    ScanLast(text, p, max);
    var from := if p.fence.Some? then p.codeStart else p.offset;
    CountOne(Shown(from, |text|, Span(text[from..], if p.fence.Some? then Code else Body)));
  }

  lemma JoinSpans(a: seq<Span>, b: seq<Span>, c: seq<Span>)
    ensures a + (b + c) == a + b + c && (b == [] ==> a + b == a)
  {
  }

  /** The spans one line adds, and where the scan stands after it. */
  function NewSpans(text: string, p: Place, max: nat): (added: seq<Span>)
    requires p.codeStart <= p.offset < |text|
  {
    var line := text[p.offset..LineEnd(text, p.offset)];
    var marker := FenceOf(line[Lead(line)..]);
    if p.fence.Some? then
      if marker == p.fence then [Span(text[p.codeStart..p.offset], Code)] else []
    else if marker.Some? && p.blocks < MAX_CODE_BLOCKS then []
    else Spans(LinePieces(line, p.offset, p.spans, max))
  }

  function NextPlace(text: string, p: Place, max: nat): (next: Place)
    requires p.codeStart <= p.offset < |text|
    ensures p.offset < next.offset <= |text| && next.codeStart <= next.offset
  {
    var end := LineEnd(text, p.offset);
    var line := text[p.offset..end];
    var marker := FenceOf(line[Lead(line)..]);
    var n := p.spans + |NewSpans(text, p, max)|;
    if p.fence.Some? then Place(end, if marker == p.fence then None else p.fence, p.codeStart, p.blocks, n)
    else if marker.Some? && p.blocks < MAX_CODE_BLOCKS then Place(end, marker, end, p.blocks + 1, n)
    else Place(end, None, p.codeStart, p.blocks, n)
  }

  lemma StepSpans(text: string, p: Place, max: nat)
    requires p.codeStart <= p.offset < |text| && p.spans + 2 < max
    ensures Spans(Scan(text, p, max)) == NewSpans(text, p, max) + Spans(Scan(text, NextPlace(text, p, max), max))
  {
    hide Scan, Spans, LinePieces, Lead, LineEnd, FenceOf, ShownCount;
    ScanStep(text, p, max);
    var next := NextPlace(text, p, max);
    var rest := Scan(text, next, max);
    var end := LineEnd(text, p.offset);
    var line := text[p.offset..end];
    if p.fence.Some? {
      var fence := Hidden(p.offset, end, FenceLine(p.fence.value));
      CountTwo(Shown(p.codeStart, p.offset, Span(text[p.codeStart..p.offset], Code)), fence, rest);
    } else if FenceOf(line[Lead(line)..]).Some? && p.blocks < MAX_CODE_BLOCKS {
      var fence := Hidden(p.offset, end, FenceLine(FenceOf(line[Lead(line)..]).value));
      CountsJoin([fence], rest);
      CountOne(fence);
    } else {
      CountsJoin(LinePieces(line, p.offset, p.spans, max), rest);
    }
  }

  lemma CountTwo(a: Piece, b: Piece, rest: seq<Piece>)
    requires a.Shown? && b.Hidden?
    ensures Spans([a] + ([b] + rest)) == [a.span] + Spans(rest)
  {
    hide Spans, ShownCount;
    CountsJoin([a], [b] + rest);
    CountsJoin([b], rest);
    CountOne(a);
    CountOne(b);
  }
}
