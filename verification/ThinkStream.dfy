/** The streaming filter that hides `<think>...</think>` reasoning from the
    terminal (bc250_llm_mode/chat.py:198-235).

    The class is proved against two functions of all the text received so far:
    `Emitted` (what has been printed) and `Settle` (what is still held back).
    The lemmas then show that neither depends on where the text was cut, and
    relate both to `Visible`, a stripper that sees the whole text at once. */
module ThinkStream {

  /** The opening and closing tag. The laws below hold for any two non-empty
      tags; the filter uses THINK. */
  datatype Tags = Tags(open: string, close: string)

  predicate Usable(t: Tags) { t.open != "" && t.close != "" }

  const THINK := Tags("<think>", "</think>")

  /** The tag that ends the current span. */
  function Tag(t: Tags, inside: bool): (tag: string) {
    if inside then t.close else t.open
  }

  predicate OccursAt(s: string, tag: string, i: int) {
    0 <= i && i + |tag| <= |s| && forall k | 0 <= k < |tag| :: s[i + k] == tag[k]
  }

  /** `str.find`, from index `from` on: the first occurrence, or -1. */
  function FindFrom(s: string, tag: string, from: nat): (i: int)
    requires from <= |s|
    ensures i == -1 || (from <= i && i + |tag| <= |s|)
    decreases |s| - from
  {
    if OccursAt(s, tag, from) then from
    else if from == |s| then -1
    else FindFrom(s, tag, from + 1)
  }

  function Find(s: string, tag: string): (i: int)
    ensures i == -1 || (0 <= i && i + |tag| <= |s|)
  {
    FindFrom(s, tag, 0)
  }

  lemma {:induction false} FindFromIsFirst(s: string, tag: string, from: nat)
    requires from <= |s|
    ensures var i := FindFrom(s, tag, from);
            && (i != -1 ==> OccursAt(s, tag, i))
            && forall j | from <= j && (i == -1 || j < i) :: !OccursAt(s, tag, j)
    decreases |s| - from
  {
    if !OccursAt(s, tag, from) && from < |s| {
      FindFromIsFirst(s, tag, from + 1);
    }
  }

  /** `Find` is the first occurrence, and nothing else is. */
  lemma FindIsFirst(s: string, tag: string, i: int)
    ensures Find(s, tag) == i <==>
            if i == -1 then forall j | 0 <= j :: !OccursAt(s, tag, j)
            else OccursAt(s, tag, i) && forall j | 0 <= j < i :: !OccursAt(s, tag, j)
  {
    FindFromIsFirst(s, tag, 0);
  }

  /** How many characters of `s`, which holds no tag, are certainly text. */
  function Certain(s: string, tag: string): (n: nat)
    requires tag != ""
    ensures n <= |s| < n + |tag|
  {
    if |s| > |tag| - 1 then |s| - (|tag| - 1) else 0
  }

  datatype FilterState = FilterState(inside: bool, pending: string)

  function Shown(inside: bool, piece: string): (out: string) {
    if inside then "" else piece
  }

  // ---------------------------------------------------------------- batch

  /** The whole text with every reasoning span removed; a span that is never
      closed runs to the end. */
  function Visible(t: Tags, inside: bool, s: string): (out: string)
    requires Usable(t)
    decreases |s|
  {
    var tag := Tag(t, inside);
    var i := Find(s, tag);
    if i == -1 then Shown(inside, s)
    else Shown(inside, s[..i]) + Visible(t, !inside, s[i + |tag|..])
  }

  // ------------------------------------------------------------ streaming

  /** What a filter that has received `s` has printed. */
  function Emitted(t: Tags, inside: bool, s: string): (out: string)
    requires Usable(t)
    decreases |s|
  {
    var tag := Tag(t, inside);
    var i := Find(s, tag);
    if i == -1 then Shown(inside, s[..Certain(s, tag)])
    else Shown(inside, s[..i]) + Emitted(t, !inside, s[i + |tag|..])
  }

  /** What a filter that has received `s` still holds. */
  function Settle(t: Tags, inside: bool, s: string): (st: FilterState)
    requires Usable(t)
    decreases |s|
  {
    var tag := Tag(t, inside);
    var i := Find(s, tag);
    if i == -1 then FilterState(inside, s[Certain(s, tag)..])
    else Settle(t, !inside, s[i + |tag|..])
  }

  function Flushed(st: FilterState): (out: string) {
    Shown(st.inside, st.pending)
  }

  /** One step of all three definitions. The proofs below hide the definitions
      and take the steps they need from here, which keeps them small. */
  lemma OneSpan(t: Tags, inside: bool, s: string)
    requires Usable(t)
    ensures var tag := Tag(t, inside);
            var i := Find(s, tag);
            if i == -1 then
              var n := Certain(s, tag);
              && Visible(t, inside, s) == Shown(inside, s)
              && Emitted(t, inside, s) == Shown(inside, s[..n])
              && Settle(t, inside, s) == FilterState(inside, s[n..])
            else
              var rest := s[i + |tag|..];
              && Visible(t, inside, s) == Shown(inside, s[..i]) + Visible(t, !inside, rest)
              && Emitted(t, inside, s) == Shown(inside, s[..i]) + Emitted(t, !inside, rest)
              && Settle(t, inside, s) == Settle(t, !inside, rest)
  {
  }

  /** An occurrence found early stays the first one when text is appended. */
  lemma FindInPrefix(s: string, c: string, tag: string)
    requires Find(s, tag) != -1
    ensures Find(s + c, tag) == Find(s, tag)
  {
    var i := Find(s, tag);
    FindIsFirst(s, tag, i);
    forall j | 0 <= j <= i ensures OccursAt(s + c, tag, j) == OccursAt(s, tag, j) {
      assert j + |tag| <= |s|;
      assert (s + c)[j..j + |tag|] == s[j..j + |tag|];
    }
    FindIsFirst(s + c, tag, i);
  }

  /** When `s` holds no tag, only its last |tag|-1 characters can take part in
      an occurrence that the appended text completes. */
  lemma FindAcross(s: string, c: string, tag: string)
    requires tag != "" && Find(s, tag) == -1
    ensures var cut := Certain(s, tag);
            var j := Find(s[cut..] + c, tag);
            Find(s + c, tag) == if j == -1 then -1 else cut + j
  {
    var cut := Certain(s, tag);
    var tail := s[cut..] + c;
    FindIsFirst(s, tag, -1);
    forall k | 0 <= k ensures OccursAt(s + c, tag, k) == (cut <= k && OccursAt(tail, tag, k - cut)) {
      if k + |tag| <= |s| {
        assert (s + c)[k..k + |tag|] == s[k..k + |tag|];
        assert !OccursAt(s, tag, k);
      } else if k + |tag| <= |s + c| {
        assert tail[k - cut..k - cut + |tag|] == (s + c)[k..k + |tag|];
      }
    }
    var j := Find(tail, tag);
    FindIsFirst(tail, tag, j);
    FindIsFirst(s + c, tag, if j == -1 then -1 else cut + j);
  }

  lemma Associative(a: string, b: string, c: string)
    ensures a + (b + c) == a + b + c
  {
  }

  /** Receiving `s` and then `c` is the same as receiving `s + c` at once. */
  lemma {:induction false} Resume(t: Tags, inside: bool, s: string, c: string)
    requires Usable(t)
    ensures var st := Settle(t, inside, s);
            && Settle(t, inside, s + c) == Settle(t, st.inside, st.pending + c)
            && Emitted(t, inside, s + c) == Emitted(t, inside, s) + Emitted(t, st.inside, st.pending + c)
    decreases |s|
  {
    hide Visible, Emitted, Settle, Find;
    OneSpan(t, inside, s);
    OneSpan(t, inside, s + c);
    var tag := Tag(t, inside);
    var i := Find(s, tag);
    if i == -1 {
      ResumeNoTag(t, inside, s, c);
    } else {
      FindInPrefix(s, c, tag);
      var rest := s[i + |tag|..];
      assert (s + c)[i + |tag|..] == rest + c;
      assert (s + c)[..i] == s[..i];
      Resume(t, !inside, rest, c);
      var st := Settle(t, !inside, rest);
      Associative(Shown(inside, s[..i]), Emitted(t, !inside, rest), Emitted(t, st.inside, st.pending + c));
    }
  }

  lemma ResumeNoTag(t: Tags, inside: bool, s: string, c: string)
    requires Usable(t)
    requires Find(s, Tag(t, inside)) == -1
    ensures var p := s[Certain(s, Tag(t, inside))..];
            && Settle(t, inside, s + c) == Settle(t, inside, p + c)
            && Emitted(t, inside, s + c) == Emitted(t, inside, s) + Emitted(t, inside, p + c)
  {
    hide Visible, Emitted, Settle, Find, Shown;
    var tag := Tag(t, inside);
    var cut := Certain(s, tag);
    var tail := s[cut..] + c;
    OneSpan(t, inside, s);
    OneSpan(t, inside, s + c);
    OneSpan(t, inside, tail);
    FindAcross(s, c, tag);
    var j := Find(tail, tag);
    if j == -1 {
      var n := Certain(tail, tag);
      assert Certain(s + c, tag) == cut + n;
      TailsMeet(s, c, cut, n);
      ShownSplits(inside, s, c, cut, n);
    } else {
      var n := j + |tag|;
      TailsMeet(s, c, cut, n);
      ShownSplits(inside, s, c, cut, j);
      Associative(Shown(inside, s[..cut]), Shown(inside, tail[..j]), Emitted(t, !inside, tail[n..]));
    }
  }

  lemma TailsMeet(s: string, c: string, cut: nat, n: nat)
    requires cut <= |s| && n <= |s[cut..] + c|
    ensures (s + c)[cut + n..] == (s[cut..] + c)[n..]
  {
  }

  lemma ShownSplits(inside: bool, s: string, c: string, cut: nat, n: nat)
    requires cut <= |s| && n <= |s[cut..] + c|
    ensures Shown(inside, (s + c)[..cut + n]) == Shown(inside, s[..cut]) + Shown(inside, (s[cut..] + c)[..n])
  {
    assert (s + c)[..cut + n] == s[..cut] + (s[cut..] + c)[..n];
  }

  /** Printing now and flushing at the end shows exactly the batch result. */
  lemma {:induction false} FlushCompletes(t: Tags, inside: bool, s: string)
    requires Usable(t)
    ensures Visible(t, inside, s) == Emitted(t, inside, s) + Flushed(Settle(t, inside, s))
    decreases |s|
  {
    hide Visible, Emitted, Settle, Find;
    OneSpan(t, inside, s);
    var tag := Tag(t, inside);
    var i := Find(s, tag);
    if i == -1 {
      assert s == s[..Certain(s, tag)] + s[Certain(s, tag)..];
    } else {
      var rest := s[i + |tag|..];
      FlushCompletes(t, !inside, rest);
      Associative(Shown(inside, s[..i]), Emitted(t, !inside, rest), Flushed(Settle(t, !inside, rest)));
    }
  }

  // --------------------------------------------------------- whole sessions

  function Joined(chunks: seq<string>): (text: string) {
    if chunks == [] then "" else chunks[0] + Joined(chunks[1..])
  }

  /** Feeding the chunks one after the other, from any state. */
  function FeedAll(t: Tags, st: FilterState, chunks: seq<string>): (r: (FilterState, string))
    requires Usable(t)
    decreases |chunks|
  {
    if chunks == [] then (st, "")
    else
      var text := st.pending + chunks[0];
      var (last, out) := FeedAll(t, Settle(t, st.inside, text), chunks[1..]);
      (last, Emitted(t, st.inside, text) + out)
  }

  /** A held-back text contains no complete tag, so settling it again is a no-op. */
  lemma {:induction false} SettleIsStable(t: Tags, inside: bool, s: string)
    requires Usable(t)
    ensures var st := Settle(t, inside, s);
            Settle(t, st.inside, st.pending) == st && Emitted(t, st.inside, st.pending) == ""
    decreases |s|
  {
    var tag := Tag(t, inside);
    var i := Find(s, tag);
    if i != -1 {
      SettleIsStable(t, !inside, s[i + |tag|..]);
    } else {
      assert |s[Certain(s, tag)..]| < |tag|;
    }
  }

  lemma {:induction false} FeedAllFrom(t: Tags, inside: bool, s: string, chunks: seq<string>)
    requires Usable(t)
    ensures FeedAll(t, Settle(t, inside, s), chunks).0 == Settle(t, inside, s + Joined(chunks))
    ensures Emitted(t, inside, s) + FeedAll(t, Settle(t, inside, s), chunks).1 == Emitted(t, inside, s + Joined(chunks))
    decreases |chunks|
  {
    hide Visible, Emitted, Settle, Find;
    var st := Settle(t, inside, s);
    if chunks == [] {
      assert s + "" == s;
    } else {
      Resume(t, inside, s, chunks[0]);
      FeedAllFrom(t, inside, s + chunks[0], chunks[1..]);
      Associative(s, chunks[0], Joined(chunks[1..]));
      Associative(Emitted(t, inside, s), Emitted(t, st.inside, st.pending + chunks[0]),
                  FeedAll(t, Settle(t, inside, s + chunks[0]), chunks[1..]).1);
    }
  }

  /** For every cutting of a text, the printed pieces followed by the flush are
      the batch result, and what the filter ends up holding depends on the text
      alone. */
  lemma ChunkingIsInvisible(t: Tags, chunks: seq<string>)
    requires Usable(t)
    ensures var (last, out) := FeedAll(t, FilterState(false, ""), chunks);
            && last == Settle(t, false, Joined(chunks))
            && out + Flushed(last) == Visible(t, false, Joined(chunks))
  {
    hide Visible, Emitted, Settle, Find;
    NothingYet(t, false);
    FeedAllFrom(t, false, "", chunks);
    assert "" + Joined(chunks) == Joined(chunks);
    FlushCompletes(t, false, Joined(chunks));
  }

  lemma NothingYet(t: Tags, inside: bool)
    requires Usable(t)
    ensures Settle(t, inside, "") == FilterState(inside, "") && Emitted(t, inside, "") == ""
  {
  }

  /** Output is never taken back, whatever arrives later, and trails what is
      visible so far by less than the opening tag. */
  lemma NeverRetractsAndLags(t: Tags, text: string, more: string)
    requires Usable(t)
    ensures Emitted(t, false, text) <= Visible(t, false, text + more)
    ensures Emitted(t, false, text) <= Visible(t, false, text)
    ensures |Visible(t, false, text)| < |Emitted(t, false, text)| + |t.open|
  {
    Resume(t, false, text, more);
    FlushCompletes(t, false, text);
    FlushCompletes(t, false, text + more);
    HeldIsShort(t, false, text);
  }

  /** With the real tags the lag is at most six characters. */
  lemma ThinkLagIsSix(text: string)
    ensures |Visible(THINK, false, text)| <= |Emitted(THINK, false, text)| + 6
  {
    NeverRetractsAndLags(THINK, text, "");
  }

  /** The tag's first character does not occur again inside it. */
  predicate Distinctive(tag: string) {
    tag != "" && forall k | 0 < k < |tag| :: tag[k] != tag[0]
  }

  /** Such a tag is found where it was put, after any text without it. */
  lemma FindPlaced(a: string, tag: string, c: string)
    requires Distinctive(tag)
    requires Find(a, tag) == -1
    ensures Find(a + (tag + c), tag) == |a|
  {
    hide Find;
    var s := a + (tag + c);
    FindIsFirst(a, tag, -1);
    forall j | 0 <= j < |a| ensures !OccursAt(s, tag, j) {
      if j + |tag| <= |a| {
        assert !OccursAt(a, tag, j);
        var k :| 0 <= k < |tag| && a[j + k] != tag[k];
        assert s[j + k] == a[j + k];
      } else {
        assert s[j + (|a| - j)] == tag[0];
        assert tag[|a| - j] != tag[0];
      }
    }
    FindIsFirst(s, tag, |a|);
  }

  /** One tag, and what follows it, after a text that does not contain it. */
  lemma PassTag(t: Tags, inside: bool, a: string, c: string)
    requires Usable(t) && Distinctive(Tag(t, inside)) && Find(a, Tag(t, inside)) == -1
    ensures Visible(t, inside, a + (Tag(t, inside) + c)) == Shown(inside, a) + Visible(t, !inside, c)
  {
    hide Visible, Find;
    var tag := Tag(t, inside);
    var s := a + (tag + c);
    FindPlaced(a, tag, c);
    OneSpan(t, inside, s);
    assert s[..|a|] == a && s[|a| + |tag|..] == c;
  }

  /** What the filter promises its reader: text outside the tags is shown as it
      is, a closed reasoning span disappears with its tags, and an unclosed one
      hides everything after it. */
  lemma SpansDisappear(t: Tags, a: string, b: string, c: string)
    requires Distinctive(t.open) && Distinctive(t.close)
    requires Find(a, t.open) == -1 && Find(b, t.close) == -1
    ensures Visible(t, false, a) == a
    ensures Visible(t, false, a + (t.open + b)) == a
    ensures Visible(t, false, a + (t.open + (b + (t.close + c)))) == a + Visible(t, false, c)
  {
    hide Visible, Find;
    OneSpan(t, false, a);
    OneSpan(t, true, b);
    PassTag(t, false, a, b);
    PassTag(t, true, b, c);
    PassTag(t, false, a, b + (t.close + c));
  }

  lemma ThinkTagsAreDistinctive()
    ensures Distinctive(THINK.open) && Distinctive(THINK.close)
  {
  }

  lemma {:induction false} HeldIsShort(t: Tags, inside: bool, s: string)
    requires Usable(t)
    ensures var st := Settle(t, inside, s); |st.pending| < |Tag(t, st.inside)|
    decreases |s|
  {
    var tag := Tag(t, inside);
    var i := Find(s, tag);
    if i != -1 {
      HeldIsShort(t, !inside, s[i + |tag|..]);
    }
  }

  // ------------------------------------------------------------- the object

  class ThinkFilter {
    var inside: bool
    var pending: string

    function State(): (st: FilterState)
      reads this
    {
      FilterState(inside, pending)
    }

    constructor ()
      ensures State() == FilterState(false, "")
    {
      inside, pending := false, "";
    }

    /** One chunk: everything decidable is printed, the rest stays pending. */
    method Feed(chunk: string) returns (out: string)
      modifies this
      ensures State() == Settle(THINK, old(inside), old(pending) + chunk)
      ensures out == Emitted(THINK, old(inside), old(pending) + chunk)
    {
      hide Visible, Emitted, Settle, Find;
      pending := pending + chunk;
      out := "";
      ghost var finally := Settle(THINK, inside, pending);
      ghost var printed := Emitted(THINK, inside, pending);
      while pending != ""
        invariant Settle(THINK, inside, pending) == finally
        invariant out + Emitted(THINK, inside, pending) == printed
        decreases |pending|
      {
        OneSpan(THINK, inside, pending);
        var tag := Tag(THINK, inside);
        var index := Find(pending, tag);
        if index == -1 {
          var keep := |tag| - 1;
          assert Certain(pending, tag) == if |pending| > keep then |pending| - keep else 0;
          if |pending| > keep {
            var emit := pending[..|pending| - keep];
            if !inside {
              out := out + emit;
            }
            pending := pending[|emit|..];
          }
          return;
        }
        var before := pending[..index];
        var rest := pending[index + |tag|..];
        Associative(out, Shown(inside, before), Emitted(THINK, !inside, rest));
        if before != "" && !inside {
          out := out + before;
        }
        pending := rest;
        inside := !inside;
      }
      NothingYet(THINK, inside);
    }

    method Flush() returns (rest: string)
      modifies this
      ensures rest == Flushed(old(State()))
      ensures State() == FilterState(old(inside), "")
    {
      rest := if inside then "" else pending;
      pending := "";
    }
  }

  /** A whole session with the object: the reader sees the batch result. */
  method Session(chunks: seq<string>) returns (seen: string)
    ensures seen == Visible(THINK, false, Joined(chunks))
  {
    hide Visible, Emitted, Settle, Find;
    var filter := new ThinkFilter();
    seen := "";
    var i := 0;
    assert chunks[0..] == chunks;
    while i < |chunks|
      invariant 0 <= i <= |chunks|
      invariant fresh(filter)
      invariant FeedAll(THINK, FilterState(false, ""), chunks).0 == FeedAll(THINK, filter.State(), chunks[i..]).0
      invariant FeedAll(THINK, FilterState(false, ""), chunks).1 == seen + FeedAll(THINK, filter.State(), chunks[i..]).1
    {
      var out := filter.Feed(chunks[i]);
      assert chunks[i..][0] == chunks[i] && chunks[i..][1..] == chunks[i + 1..];
      Associative(seen, out, FeedAll(THINK, filter.State(), chunks[i + 1..]).1);
      seen := seen + out;
      i := i + 1;
    }
    ChunkingIsInvisible(THINK, chunks);
    var rest := filter.Flush();
    seen := seen + rest;
  }
}
