/** Admission of a chat request and the attempt loop that streams the answer
    (bc250_llm_mode/chat_service.py:124-417, chat_lifecycle.py:39-45, 170-204).

    The outside world is a script: for each attempt what opening the request,
    every line and the end of the stream do, and what the error handler then
    observes. All theorems hold for every script. */
module ChatTransport {
  import opened Outcomes
  import opened ContextSelection

  const MAX_CHAT_MESSAGES := 500
  const MAX_CHAT_MESSAGE_BYTES := 256 * 1024

  // ----------------------------------------------------------------- admission

  /** estimate_message_tokens. */
  function EstimateMessageTokens(messages: seq<Message>): (n: nat) {
    if messages == [] then 0
    else |messages[0].content| / 4 + 4 + EstimateMessageTokens(messages[1..])
  }

  function GeneratedCap(maxGenerated: int, context: int): (cap: int) {
    Min(maxGenerated, Max(64, context / 2))
  }

  /** _validated_messages accepts. */
  predicate Validated(messages: seq<Message>, maxPrompt: int, prepared: Option<int>) {
    && 0 < |messages| <= MAX_CHAT_MESSAGES
    && (forall i | 0 <= i < |messages| ::
          messages[i].role != Other && EncodedSize(messages[i].content) <= MAX_CHAT_MESSAGE_BYTES)
    && (match prepared
        case None => EstimateMessageTokens(messages) <= maxPrompt
        case Some(tokens) => tokens <= maxPrompt)
  }

  /** The checks _stream makes before it contacts the server. */
  predicate Admitted(messages: seq<Message>, context: int, maxGenerated: int, plan: Option<ContextPlan>) {
    var cap := GeneratedCap(maxGenerated, context);
    && 1 <= maxGenerated <= 8192
    && (plan.Some? ==>
          messages == plan.value.messages && plan.value.responseTokens == cap
          && plan.value.promptLimit == context - cap && plan.value.Fits())
    && Validated(messages, Max(128, context - cap), if plan.Some? then Some(plan.value.promptTokens) else None)
  }

  /** Preflight and transport agree: a plan made for this context and response
      allowance, if it fits and is not empty, passes every check, and prompt
      and answer together stay within the context. */
  lemma PreflightIsAdmitted(items: seq<Message>, context: int, maxGenerated: int, counter: Counter, k: nat)
    requires k < |Starts(items)| && ArgumentProblem(items, context, maxGenerated) == None
    requires 1 <= maxGenerated <= 8192
    ensures var p := PlanFrom(items, context, maxGenerated, counter, k);
            p.Fits() && p.messages != [] ==>
              && Admitted(p.messages, context, maxGenerated, Some(p))
              && p.promptTokens + GeneratedCap(maxGenerated, context) <= context
  {
    hide PlanFrom, Starts, EncodedSize;
    PlanIsFaithful(items, context, maxGenerated, counter, k);
    AllowanceIsTheCap(items, context, maxGenerated, counter, k);
  }

  lemma AllowanceIsTheCap(items: seq<Message>, context: int, maxGenerated: int, counter: Counter, k: nat)
    requires k < |Starts(items)|
    ensures PlanFrom(items, context, maxGenerated, counter, k).responseTokens == GeneratedCap(maxGenerated, context)
  {
  }

  /** The other direction: with a plan nothing is admitted that is not within
      every bound, sends other messages than the plan's, or overruns the context. */
  lemma AdmittedWithPlanIsBounded(messages: seq<Message>, context: int, maxGenerated: int, p: ContextPlan)
    requires Admitted(messages, context, maxGenerated, Some(p))
    ensures messages == p.messages && 1 <= |messages| <= 500
    ensures p.promptTokens + GeneratedCap(maxGenerated, context) <= context
    ensures forall m | m in messages :: m.role != Other && EncodedSize(m.content) <= 262144
  {
    hide EncodedSize;
  }

  /** The rough estimate: a quarter of the characters, rounded down for each
      message, and four more. */
  lemma {:induction false} RoughEstimateAdds(a: seq<Message>, b: seq<Message>)
    ensures EstimateMessageTokens(a + b) == EstimateMessageTokens(a) + EstimateMessageTokens(b)
    ensures |a| == 1 ==> 4 * (EstimateMessageTokens(a) - 4) <= |a[0].content| < 4 * (EstimateMessageTokens(a) - 4) + 4
  {
    if a == [] {
      assert a + b == b;
    } else {
      assert (a + b)[1..] == a[1..] + b;
      RoughEstimateAdds(a[1..], b);
    }
  }

  lemma {:induction false} SizeAtMostFourPerChar(content: string)
    ensures EncodedSize(content) <= 4 * |content|
  {
    if content != "" {
      SizeAtMostFourPerChar(content[1..]);
    }
  }

  /** Without a plan the transport's floor of 128 prompt tokens can overrun a
      small context: every admitted request stays inside it exactly when at
      least 128 tokens are left beside the answer. */
  lemma WithoutPlanStaysInsideExactlyWhen(context: int, maxGenerated: int)
    requires 1 <= maxGenerated <= 8192
    ensures var cap := GeneratedCap(maxGenerated, context);
            (forall messages | Admitted(messages, context, maxGenerated, None) ::
               EstimateMessageTokens(messages) + cap <= context)
            <==> context - cap >= 128
  {
    var cap := GeneratedCap(maxGenerated, context);
    if context - cap < 128 {
      var content := seq(496, _ => 'a');
      var messages := [Message(User, content)];
      SizeAtMostFourPerChar(content);
      assert EstimateMessageTokens(messages[1..]) == 0;
      assert EstimateMessageTokens(messages) == 128;
      assert Admitted(messages, context, maxGenerated, None);
    }
  }

  // ------------------------------------------------------------- the outside

  datatype Classification = COMPLETED | CANCELLED | TIMEOUT | SERVER_UNAVAILABLE
                          | MODEL_MISMATCH | THERMAL_STOP | MALFORMED_RESPONSE | UNKNOWN

  /** classify_exception never answers COMPLETED. */
  type FailureKind = kind: Classification | kind != COMPLETED witness UNKNOWN

  /** A raised exception: the cancellation sentinel, or one that
      classify_exception puts in a class. */
  datatype Failure = Sentinel | Raised(kind: FailureKind)

  /** The text of a delta; `callback` is what handing it to the reader raises. */
  datatype Text = NoText | NotText | Chunk(text: string, callback: Option<Failure>)

  datatype Payload = NotData | Done | Malformed | UsageOnly | Delta(otherModel: bool, text: Text)

  /** One turn of the line loop, or an exception while fetching or checking. */
  datatype Step = Line(cancelled: bool, late: bool, hot: bool, modelChanged: bool, payload: Payload)
                | Broken(failure: Failure)

  /** One attempt; lines that run out are the end of the stream. The last three
      fields are what is observed after it: an exception on closing, the token
      when the stream has ended, and the token and the clock in the handler. */
  datatype Attempt = Attempt(cancelledFirst: bool, lateFirst: bool, opening: Option<Failure>, steps: seq<Step>,
                             closing: Option<Failure>, cancelledLast: bool, handlerCancelled: bool, timeLeft: bool)

  datatype StreamResult = StreamResult(classification: Classification, text: string, chunks: nat,
                                       tokens: nat, attempts: nat, code: string)

  // ------------------------------------------------------------ specification

  function Concat(chunks: seq<string>): (text: string) {
    if chunks == [] then "" else Concat(chunks[..|chunks| - 1]) + chunks[|chunks| - 1]
  }

  /** _token_count. */
  function TokenCount(chunks: seq<string>): (n: nat) {
    var text := Concat(chunks);
    if text == "" then 0 else Max(1, |text| / 4)
  }

  function ByteLimit(cap: nat): (n: nat) {
    Min(4 * 1024 * 1024, cap * 16)
  }

  predicate Blank(text: string, space: char -> bool) {
    forall i | 0 <= i < |text| :: space(text[i])
  }

  /** should_retry with its default of one retry. */
  predicate ShouldRetry(kind: Classification, tokens: nat, attempts: nat) {
    tokens == 0 && (kind == SERVER_UNAVAILABLE || kind == TIMEOUT) && attempts <= 1
  }

  /** How the line loop ends: it falls through, returns a result, or raises. */
  datatype Ending = Fell(done: bool, malformed: bool) | Returned(kind: Classification, code: string) | Threw(failure: Failure)

  /** The line loop from line `i`, having passed on `chunks` of `bytes` bytes:
      how it ends and everything passed on by then. */
  function Lines(steps: seq<Step>, i: nat, cap: nat, chunks: seq<string>, bytes: nat): (r: (Ending, seq<string>))
    requires i <= |steps|
    decreases |steps| - i
  {
    if i == |steps| then (Fell(false, false), chunks)
    else match steps[i]
      case Broken(failure) => (Threw(failure), chunks)
      case Line(cancelled, late, hot, modelChanged, payload) =>
        if cancelled then (Threw(Sentinel), chunks)
        else if late then (Threw(Raised(TIMEOUT)), chunks)
        else if hot then (Returned(THERMAL_STOP, "THERMAL_LATCH"), chunks)
        else if modelChanged then (Returned(MODEL_MISMATCH, "ACTIVE_MODEL_CHANGED"), chunks)
        else match payload
          case NotData => Lines(steps, i + 1, cap, chunks, bytes)
          case UsageOnly => Lines(steps, i + 1, cap, chunks, bytes)
          case Done => (Fell(true, false), chunks)
          case Malformed => (Fell(false, true), chunks)
          case Delta(true, _) => (Returned(MODEL_MISMATCH, "RESPONSE_MODEL_MISMATCH"), chunks)
          case Delta(false, NoText) => Lines(steps, i + 1, cap, chunks, bytes)
          case Delta(false, NotText) => (Fell(false, true), chunks)
          case Delta(false, Chunk(text, callback)) =>
            if text == "" then Lines(steps, i + 1, cap, chunks, bytes)
            else if bytes + EncodedSize(text) > ByteLimit(cap) then (Fell(false, true), chunks)
            else if callback.Some? then (Threw(callback.value), chunks + [text])
            else Lines(steps, i + 1, cap, chunks + [text], bytes + EncodedSize(text))
  }

  /** Everything between `try` and `except` of one attempt. */
  function Tried(a: Attempt, cap: nat): (r: (Ending, seq<string>)) {
    if a.cancelledFirst then (Threw(Sentinel), [])
    else if a.lateFirst then (Threw(Raised(TIMEOUT)), [])
    else if a.opening.Some? then (Threw(a.opening.value), [])
    else
      var (ending, chunks) := Lines(a.steps, 0, cap, [], 0);
      if a.closing.Some? then (Threw(a.closing.value), chunks)
      else if ending.Fell? && a.cancelledLast then (Threw(Sentinel), chunks)
      else (ending, chunks)
  }

  function Report(kind: Classification, chunks: seq<string>, attempts: nat, code: string): (r: StreamResult) {
    StreamResult(kind, Concat(chunks), |chunks|, TokenCount(chunks), attempts, code)
  }

  /** The result of an attempt, or None when it is to be tried again. */
  function Concluded(a: Attempt, cap: nat, attempts: nat, space: char -> bool): (r: Option<StreamResult>) {
    var (ending, chunks) := Tried(a, cap);
    match ending
    case Returned(kind, code) => Some(Report(kind, chunks, attempts, code))
    case Fell(done, malformed) =>
      Some(if malformed || !done then Report(MALFORMED_RESPONSE, chunks, attempts, "MALFORMED_SSE")
           else if Blank(Concat(chunks), space) then Report(MALFORMED_RESPONSE, chunks, attempts, "EMPTY_RESPONSE")
           else Report(COMPLETED, chunks, attempts, ""))
    case Threw(Sentinel) => Some(Report(CANCELLED, chunks, attempts, "CANCELLED"))
    case Threw(Raised(raised)) =>
      var kind := if a.handlerCancelled then CANCELLED else raised;
      if a.timeLeft && ShouldRetry(kind, TokenCount(chunks), attempts) then None
      else Some(Report(kind, chunks, attempts, "EXCEPTION"))
  }

  // --------------------------------------------------------------------- laws

  lemma ConcatOne(chunks: seq<string>, text: string)
    ensures Concat(chunks + [text]) == Concat(chunks) + text
  {
    assert (chunks + [text])[..|chunks|] == chunks;
  }

  lemma {:induction false} ConcatEmpty(chunks: seq<string>)
    requires forall i | 0 <= i < |chunks| :: chunks[i] != ""
    ensures Concat(chunks) == "" <==> chunks == []
  {
  }

  lemma {:induction false} SizeOfConcat(a: string, b: string)
    ensures EncodedSize(a + b) == EncodedSize(a) + EncodedSize(b)
  {
    if a == "" {
      assert a + b == b;
    } else {
      assert (a + b)[1..] == a[1..] + b;
      SizeOfConcat(a[1..], b);
    }
  }

  /** Sixteen bytes for each token of the answer, and four mebibytes at most. */
  lemma ByteLimitIs(cap: nat)
    ensures ByteLimit(cap) == if cap < 262144 then 16 * cap else 4194304
  {
  }

  /** A quarter of the characters, but one for any text at all. */
  lemma TokenCountIs(chunks: seq<string>)
    ensures var text, n := Concat(chunks), TokenCount(chunks);
            && (n == 0 <==> text == "")
            && (0 < |text| < 8 ==> n == 1) && (|text| >= 4 ==> 4 * n <= |text| < 4 * n + 4)
  {
  }

  predicate Sound(chunks: seq<string>, bytes: nat, cap: nat) {
    && bytes == EncodedSize(Concat(chunks)) <= ByteLimit(cap)
    && forall i | 0 <= i < |chunks| :: chunks[i] != ""
  }

  /** Some line of the attempt said `[DONE]`. */
  predicate SawDone(steps: seq<Step>, from: nat) {
    exists j | from <= j < |steps| :: steps[j].Line? && steps[j].payload == Done
  }

  /** How a loop or an attempt can end. */
  predicate ProperEnding(ending: Ending, steps: seq<Step>, from: nat) {
    match ending
    case Fell(done, malformed) => done ==> !malformed && SawDone(steps, from)
    case Returned(kind, _) => kind == THERMAL_STOP || kind == MODEL_MISMATCH
    case Threw(_) => true
  }

  lemma Appended(chunks: seq<string>, bytes: nat, cap: nat, text: string)
    requires Sound(chunks, bytes, cap) && text != "" && bytes + EncodedSize(text) <= ByteLimit(cap)
    ensures Sound(chunks + [text], bytes + EncodedSize(text), cap)
  {
    ConcatOne(chunks, text);
    SizeOfConcat(Concat(chunks), text);
  }

  /** Line by line: what is passed on only grows, its pieces are not empty and
      its size stays under the limit; falling through as done means that a
      `[DONE]` line was read. */
  lemma {:induction false} LinesAreSound(steps: seq<Step>, i: nat, cap: nat, chunks: seq<string>, bytes: nat)
    requires i <= |steps| && Sound(chunks, bytes, cap)
    ensures var (ending, all) := Lines(steps, i, cap, chunks, bytes);
            && chunks <= all && Sound(all, EncodedSize(Concat(all)), cap) && ProperEnding(ending, steps, i)
    decreases |steps| - i
  {
    hide Concat, EncodedSize;
    if i < |steps| && steps[i].Line? {
      var payload := steps[i].payload;
      if payload.Delta? && payload.text.Chunk? && payload.text.text != "" {
        var text := payload.text.text;
        if bytes + EncodedSize(text) <= ByteLimit(cap) {
          Appended(chunks, bytes, cap, text);
          LinesAreSound(steps, i + 1, cap, chunks + [text], bytes + EncodedSize(text));
        }
      } else {
        LinesAreSound(steps, i + 1, cap, chunks, bytes);
      }
    }
  }

  lemma AttemptIsSound(a: Attempt, cap: nat)
    ensures var (ending, all) := Tried(a, cap);
            && Sound(all, EncodedSize(Concat(all)), cap) && ProperEnding(ending, a.steps, 0)
            && (ending.Fell? ==> !a.cancelledFirst && !a.lateFirst && a.opening == None && a.closing == None && !a.cancelledLast)
  {
    assert Sound([], 0, cap);
    hide Lines;
    LinesAreSound(a.steps, 0, cap, [], 0);
  }

  /** An attempt is only repeated if nothing was passed on, and never after the
      second. */
  lemma RetryDeliversNothing(a: Attempt, cap: nat, attempts: nat, space: char -> bool)
    requires Concluded(a, cap, attempts, space) == None
    ensures Tried(a, cap).1 == [] && attempts <= 1
    ensures Tried(a, cap).0.Threw? && !a.handlerCancelled && a.timeLeft
  {
    hide Tried;
    AttemptIsSound(a, cap);
    ConcatEmpty(Tried(a, cap).1);
  }

  /** A concluded attempt reports exactly what it passed on. */
  lemma ConclusionIsSound(a: Attempt, cap: nat, attempts: nat, space: char -> bool)
    requires Concluded(a, cap, attempts, space).Some?
    ensures var result := Concluded(a, cap, attempts, space).value;
            var (ending, chunks) := Tried(a, cap);
            && result.attempts == attempts && result.text == Concat(chunks) && result.chunks == |chunks|
            && result.tokens == TokenCount(chunks) && EncodedSize(result.text) <= ByteLimit(cap)
            && (result.classification == COMPLETED <==> ending == Fell(true, false) && !Blank(result.text, space))
            && (result.classification == COMPLETED ==>
                  && SawDone(a.steps, 0) && !a.cancelledFirst && !a.lateFirst
                  && a.opening == None && a.closing == None && !a.cancelledLast)
  {
    hide Tried, Concat, EncodedSize, TokenCount, SawDone;
    AttemptIsSound(a, cap);
    match Tried(a, cap).0 {
      case Threw(Raised(kind)) => assert kind != COMPLETED;
      case _ =>
    }
  }

  /** Whatever happens outside: there is exactly one result, after one or two
      attempts; its text is everything the reader was given, within the byte
      limit; and it says COMPLETED exactly when the last attempt ended by
      reading `[DONE]`, with no cancellation or error around it, and the text is
      not blank. */
  lemma StreamIsSound(world: nat -> Attempt, cap: nat, space: char -> bool)
    ensures var (result, passedOn) := Streamed(world, cap, space);
            var last := world(result.attempts);
            && 1 <= result.attempts <= 2
            && (result.attempts == 2 <==> Concluded(world(1), cap, 1, space) == None)
            && Some(result) == Concluded(last, cap, result.attempts, space)
            && result.text == Concat(passedOn) && result.chunks == |passedOn| && result.tokens == TokenCount(passedOn)
            && EncodedSize(result.text) <= ByteLimit(cap)
            && (result.classification == COMPLETED <==> Tried(last, cap).0 == Fell(true, false) && !Blank(result.text, space))
            && (result.classification == COMPLETED ==>
                  && SawDone(last.steps, 0) && !last.cancelledFirst && !last.lateFirst
                  && last.opening == None && last.closing == None && !last.cancelledLast)
  {
    hide Tried, Concluded, Concat, EncodedSize, TokenCount, SawDone;
    if Concluded(world(1), cap, 1, space) == None {
      RetryDeliversNothing(world(1), cap, 1, space);
      if Concluded(world(2), cap, 2, space) == None {
        RetryDeliversNothing(world(2), cap, 2, space);
        assert false;
      }
      ConclusionIsSound(world(2), cap, 2, space);
      assert [] + Tried(world(2), cap).1 == Tried(world(2), cap).1;
    } else {
      ConclusionIsSound(world(1), cap, 1, space);
    }
  }

  // ------------------------------------------- what the reader is given, and why

  /** The non-empty text of this model that a line brings. */
  function Said(step: Step): (texts: seq<string>) {
    if step.Line? && step.payload.Delta? && !step.payload.otherModel && step.payload.text.Chunk? && step.payload.text.text != ""
    then [step.payload.text.text] else []
  }

  /** Everything said by the lines from `i` to `j`, in order. */
  function Texts(steps: seq<Step>, i: nat, j: nat): (texts: seq<string>)
    requires i <= j <= |steps|
    decreases j - i
  {
    if i == j then [] else Said(steps[i]) + Texts(steps, i + 1, j)
  }

  /** A line that neither stops the loop nor raises. */
  predicate Quiet(step: Step) {
    && step.Line? && !step.cancelled && !step.late && !step.hot && !step.modelChanged
    && match step.payload
       case NotData => true
       case UsageOnly => true
       case Delta(false, NoText) => true
       case Delta(false, Chunk(text, callback)) => text == "" || callback == None
       case _ => false
  }

  function SizeOf(texts: seq<string>): (n: nat) {
    EncodedSize(Concat(texts))
  }

  lemma TextsSplit(chunks: seq<string>, a: seq<string>, b: seq<string>)
    ensures chunks + (a + b) == (chunks + a) + b && chunks + [] == chunks
  {
  }

  lemma {:induction false} ConcatJoin(a: seq<string>, b: seq<string>)
    ensures Concat(a + b) == Concat(a) + Concat(b)
    decreases |b|
  {
    if b == [] {
      assert a + b == a;
      assert Concat(a) + "" == Concat(a);
    } else {
      var front, last := b[..|b| - 1], b[|b| - 1];
      assert a + b == (a + front) + [last] && b == front + [last];
      ConcatJoin(a, front);
      ConcatOne(a + front, last);
      ConcatOne(front, last);
    }
  }

  lemma SizesAdd(a: seq<string>, b: seq<string>)
    ensures SizeOf(a + b) == SizeOf(a) + SizeOf(b)
  {
    ConcatJoin(a, b);
    SizeOfConcat(Concat(a), Concat(b));
  }

  lemma OneText(text: string)
    ensures SizeOf([text]) == EncodedSize(text) && SizeOf([]) == 0
  {
    assert [text] == [] + [text];
    ConcatOne([], text);
    assert "" + text == text;
  }

  /** Quiet lines whose text stays under the limit are passed on, all of them and
      in order, and the loop goes on after them. */
  lemma {:induction false} QuietLinesArePassedOn(steps: seq<Step>, i: nat, j: nat, cap: nat, chunks: seq<string>, bytes: nat)
    requires i <= j <= |steps| && forall k | i <= k < j :: Quiet(steps[k])
    requires bytes + SizeOf(Texts(steps, i, j)) <= ByteLimit(cap)
    ensures Lines(steps, i, cap, chunks, bytes)
            == Lines(steps, j, cap, chunks + Texts(steps, i, j), bytes + SizeOf(Texts(steps, i, j)))
    decreases j - i
  {
    hide SizeOf;
    OneText("");
    TextsSplit(chunks, [], []);
    if i < j {
      assert Quiet(steps[i]);
      var said, rest := Said(steps[i]), Texts(steps, i + 1, j);
      SizesAdd(said, rest);
      TextsSplit(chunks, said, rest);
      if said != [] {
        OneText(said[0]);
      }
      QuietLinesArePassedOn(steps, i + 1, j, cap, chunks + said, bytes + SizeOf(said));
    }
  }

  /** The first line that stops the loop, after `given` was passed on: how the
      loop ends and what is added. The order of the tests decides between
      several reasons in one line. */
  predicate StopsWith(step: Step, given: seq<string>, cap: nat, ending: Ending, added: seq<string>) {
    match step
    case Broken(failure) => ending == Threw(failure) && added == []
    case Line(cancelled, late, hot, modelChanged, payload) =>
      && (cancelled ==> ending == Threw(Sentinel) && added == [])
      && (late && !cancelled ==> ending == Threw(Raised(TIMEOUT)) && added == [])
      && (hot && !cancelled && !late ==> ending == Returned(THERMAL_STOP, "THERMAL_LATCH") && added == [])
      && (modelChanged && !cancelled && !late && !hot ==>
            ending == Returned(MODEL_MISMATCH, "ACTIVE_MODEL_CHANGED") && added == [])
      && (!cancelled && !late && !hot && !modelChanged ==>
            && (payload == Done ==> ending == Fell(true, false) && added == [])
            && (payload == Malformed ==> ending == Fell(false, true) && added == [])
            && (payload.Delta? && payload.otherModel ==>
                  ending == Returned(MODEL_MISMATCH, "RESPONSE_MODEL_MISMATCH") && added == [])
            && (payload.Delta? && !payload.otherModel && payload.text == NotText ==> ending == Fell(false, true) && added == [])
            && (payload.Delta? && !payload.otherModel && payload.text.Chunk? && payload.text.text != "" ==>
                  if SizeOf(given) + EncodedSize(payload.text.text) > ByteLimit(cap) then
                    ending == Fell(false, true) && added == []
                  else
                    payload.text.callback.Some? ==>
                      ending == Threw(payload.text.callback.value) && added == [payload.text.text]))
  }

  /** A line stops the loop when it is not quiet, or says more than may be said. */
  predicate Stops(step: Step, given: seq<string>, cap: nat) {
    !Quiet(step) || SizeOf(given) + SizeOf(Said(step)) > ByteLimit(cap)
  }

  /** For every stop reason, and whatever comes after: when the lines before `j`
      are quiet and stay under the limit and line `j` stops the loop, the reader
      was given exactly what they said, and the loop ends for that reason. */
  lemma LinesStopAt(steps: seq<Step>, j: nat, cap: nat)
    requires j < |steps| && forall k | 0 <= k < j :: Quiet(steps[k])
    requires SizeOf(Texts(steps, 0, j)) <= ByteLimit(cap) && Stops(steps[j], Texts(steps, 0, j), cap)
    ensures var (ending, all) := Lines(steps, 0, cap, [], 0);
            exists added :: all == Texts(steps, 0, j) + added && StopsWith(steps[j], Texts(steps, 0, j), cap, ending, added)
  {
    hide SizeOf, Texts, EncodedSize;
    var given := Texts(steps, 0, j);
    QuietLinesArePassedOn(steps, 0, j, cap, [], 0);
    TextsSplit([], given, []);
    TextsSplit(given, [], []);
    assert [] + given == given;
    var (ending, all) := Lines(steps, j, cap, given, SizeOf(given));
    var step := steps[j];
    if step.Line? && step.payload.Delta? && step.payload.text.Chunk? {
      OneText(step.payload.text.text);
      var text := step.payload.text.text;
      assert StopsWith(step, given, cap, ending, []) || StopsWith(step, given, cap, ending, [text]);
    } else {
      OneText("");
      assert StopsWith(step, given, cap, ending, []);
    }
  }

  /** Without a line that stops it, the loop runs out of lines. */
  lemma QuietLinesRunOut(steps: seq<Step>, cap: nat)
    requires forall k | 0 <= k < |steps| :: Quiet(steps[k])
    requires SizeOf(Texts(steps, 0, |steps|)) <= ByteLimit(cap)
    ensures Lines(steps, 0, cap, [], 0) == (Fell(false, false), Texts(steps, 0, |steps|))
  {
    hide SizeOf, Texts;
    QuietLinesArePassedOn(steps, 0, |steps|, cap, [], 0);
    assert [] + Texts(steps, 0, |steps|) == Texts(steps, 0, |steps|);
  }

  /** One of the two is the case for every script. */
  lemma {:induction false} EveryScriptStopsOnce(steps: seq<Step>, n: nat, cap: nat) returns (j: nat)
    requires n <= |steps| && (forall k | 0 <= k < n :: Quiet(steps[k])) && SizeOf(Texts(steps, 0, n)) <= ByteLimit(cap)
    ensures n <= j <= |steps| && (forall k | 0 <= k < j :: Quiet(steps[k])) && SizeOf(Texts(steps, 0, j)) <= ByteLimit(cap)
    ensures j == |steps| || Stops(steps[j], Texts(steps, 0, j), cap)
    decreases |steps| - n
  {
    hide SizeOf, Quiet;
    if n == |steps| || Stops(steps[n], Texts(steps, 0, n), cap) {
      j := n;
    } else {
      TextsGrow(steps, 0, n);
      SizesAdd(Texts(steps, 0, n), Said(steps[n]));
      j := EveryScriptStopsOnce(steps, n + 1, cap);
    }
  }

  lemma {:induction false} TextsGrow(steps: seq<Step>, i: nat, j: nat)
    requires i <= j < |steps|
    ensures Texts(steps, i, j + 1) == Texts(steps, i, j) + Said(steps[j])
    decreases j - i
  {
    if i == j {
      assert Said(steps[j]) + [] == [] + Said(steps[j]);
    } else {
      TextsGrow(steps, i + 1, j);
      TextsSplit(Said(steps[i]), Texts(steps, i + 1, j), Said(steps[j]));
    }
  }

  /** Around the loop: a cancellation or a passed deadline before the request, a
      failed opening, a failed closing, and a cancellation after the last line,
      in this order of precedence; otherwise the loop's own ending. */
  lemma AttemptStopsWith(a: Attempt, cap: nat)
    ensures var (ending, chunks) := Tried(a, cap);
            && (a.cancelledFirst ==> ending == Threw(Sentinel) && chunks == [])
            && (!a.cancelledFirst && a.lateFirst ==> ending == Threw(Raised(TIMEOUT)) && chunks == [])
            && (!a.cancelledFirst && !a.lateFirst && a.opening.Some? ==> ending == Threw(a.opening.value) && chunks == [])
            && (!a.cancelledFirst && !a.lateFirst && a.opening == None ==>
                  var (inner, passed) := Lines(a.steps, 0, cap, [], 0);
                  && chunks == passed
                  && (a.closing.Some? ==> ending == Threw(a.closing.value))
                  && (a.closing == None && inner.Fell? && a.cancelledLast ==> ending == Threw(Sentinel))
                  && (a.closing == None && !(inner.Fell? && a.cancelledLast) ==> ending == inner))
  {
    hide Lines;
  }

  /** An attempt is repeated if and only if it is the first, nothing was passed
      on, it ended in a timeout or an unreachable server, and neither a
      cancellation nor the deadline has come in between. */
  lemma RetriedExactlyWhen(a: Attempt, cap: nat, attempts: nat, space: char -> bool)
    ensures Concluded(a, cap, attempts, space) == None <==>
            && (Tried(a, cap).0 == Threw(Raised(TIMEOUT)) || Tried(a, cap).0 == Threw(Raised(SERVER_UNAVAILABLE)))
            && Tried(a, cap).1 == [] && attempts <= 1 && a.timeLeft && !a.handlerCancelled
  {
    hide Tried;
    AttemptIsSound(a, cap);
    ConcatEmpty(Tried(a, cap).1);
  }

  /** The class and code each ending is reported with. */
  lemma ReportedAs(a: Attempt, cap: nat, attempts: nat, space: char -> bool)
    requires Concluded(a, cap, attempts, space).Some?
    ensures var r := Concluded(a, cap, attempts, space).value;
            var (ending, chunks) := Tried(a, cap);
            match ending
            case Returned(kind, code) => r.classification == kind && r.code == code
            case Threw(Sentinel) => r.classification == CANCELLED && r.code == "CANCELLED"
            case Threw(Raised(kind)) =>
              r.classification == (if a.handlerCancelled then CANCELLED else kind) && r.code == "EXCEPTION"
            case Fell(done, malformed) =>
              if !done || malformed then r.classification == MALFORMED_RESPONSE && r.code == "MALFORMED_SSE"
              else if Blank(r.text, space) then r.classification == MALFORMED_RESPONSE && r.code == "EMPTY_RESPONSE"
              else r.classification == COMPLETED && r.code == ""
  {
    hide Tried, TokenCount, Concat;
  }

  /** Nothing goes wrong around the lines of the attempt. */
  predicate Undisturbed(a: Attempt) {
    !a.cancelledFirst && !a.lateFirst && a.opening == None && a.closing == None && !a.cancelledLast
  }

  /** The whole way: when the first attempt is undisturbed and quiet up to a
      `[DONE]`, the reader and the result have exactly what the stream said
      before it, and the answer is complete unless that is blank. */
  lemma StreamDeliversWhatWasSaid(world: nat -> Attempt, cap: nat, space: char -> bool, j: nat)
    requires var a := world(1);
             && Undisturbed(a) && j < |a.steps| && (forall k | 0 <= k < j :: Quiet(a.steps[k]))
             && SizeOf(Texts(a.steps, 0, j)) <= ByteLimit(cap)
             && a.steps[j] == Line(false, false, false, false, Done)
    ensures var (result, passedOn) := Streamed(world, cap, space);
            && passedOn == Texts(world(1).steps, 0, j) && result.text == Concat(passedOn) && result.attempts == 1
            && (Blank(result.text, space) ==> result.classification == MALFORMED_RESPONSE && result.code == "EMPTY_RESPONSE")
            && (!Blank(result.text, space) ==> result.classification == COMPLETED && result.code == "")
  {
    hide Lines, Texts, SizeOf, Concat, TokenCount;
    var a := world(1);
    LinesStopAt(a.steps, j, cap);
    AttemptStopsWith(a, cap);
    hide Tried;
    assert Texts(a.steps, 0, j) + [] == Texts(a.steps, 0, j);
  }

  /** At most two attempts; the second is always conclusive. */
  function Streamed(world: nat -> Attempt, cap: nat, space: char -> bool): (r: (StreamResult, seq<string>)) {
    match Concluded(world(1), cap, 1, space)
    case Some(result) => (result, Tried(world(1), cap).1)
    case None =>
      match Concluded(world(2), cap, 2, space)
      case Some(result) => (result, Tried(world(1), cap).1 + Tried(world(2), cap).1)
      case None => (Report(UNKNOWN, [], 2, "ESCAPED"), [])
  }

  // -------------------------------------------------------------- the loops

  /** The line loop; what is passed on is also handed to the reader. */
  method ReadLines(steps: seq<Step>, cap: nat) returns (ending: Ending, chunks: seq<string>)
    ensures (ending, chunks) == Lines(steps, 0, cap, [], 0)
  {
    chunks := [];
    var done, malformed, outputBytes := false, false, 0;
    var i := 0;
    while i < |steps|
      invariant 0 <= i <= |steps| && !done && !malformed && outputBytes >= 0
      invariant Lines(steps, i, cap, chunks, outputBytes) == Lines(steps, 0, cap, [], 0)
    {
      if steps[i].Broken? {
        return Threw(steps[i].failure), chunks;
      }
      var line := steps[i];
      if line.cancelled {
        return Threw(Sentinel), chunks;
      }
      if line.late {
        return Threw(Raised(TIMEOUT)), chunks;
      }
      if line.hot {
        return Returned(THERMAL_STOP, "THERMAL_LATCH"), chunks;
      }
      if line.modelChanged {
        return Returned(MODEL_MISMATCH, "ACTIVE_MODEL_CHANGED"), chunks;
      }
      match line.payload {
        case NotData =>
        case UsageOnly =>
        case Done => done := true; break;
        case Malformed => malformed := true; break;
        case Delta(otherModel, text) =>
          if otherModel {
            return Returned(MODEL_MISMATCH, "RESPONSE_MODEL_MISMATCH"), chunks;
          }
          if text.NotText? {
            malformed := true;
            break;
          }
          if text.Chunk? && text.text != "" {
            if outputBytes + EncodedSize(text.text) > ByteLimit(cap) {
              malformed := true;
              break;
            }
            outputBytes := outputBytes + EncodedSize(text.text);
            chunks := chunks + [text.text];
            if text.callback.Some? {
              return Threw(text.callback.value), chunks;
            }
          }
      }
      i := i + 1;
    }
    return Fell(done, malformed), chunks;
  }

  method TryOnce(a: Attempt, cap: nat) returns (ending: Ending, chunks: seq<string>)
    ensures (ending, chunks) == Tried(a, cap)
  {
    if a.cancelledFirst {
      return Threw(Sentinel), [];
    }
    if a.lateFirst {
      return Threw(Raised(TIMEOUT)), [];
    }
    if a.opening.Some? {
      return Threw(a.opening.value), [];
    }
    ending, chunks := ReadLines(a.steps, cap);
    if a.closing.Some? {
      ending := Threw(a.closing.value);
    } else if ending.Fell? && a.cancelledLast {
      ending := Threw(Sentinel);
    }
  }

  /** The attempt loop: it leaves through one of its returns. */
  method Stream(world: nat -> Attempt, cap: nat, space: char -> bool) returns (result: StreamResult, passedOn: seq<string>)
    ensures (result, passedOn) == Streamed(world, cap, space)
  {
    hide Tried, Lines, TokenCount, Concat;
    var attempts := 0;
    passedOn := [];
    while attempts < 2
      invariant attempts <= 2
      invariant attempts == 0 ==> passedOn == []
      invariant attempts >= 1 ==> Concluded(world(1), cap, 1, space) == None && passedOn == Tried(world(1), cap).1
      invariant attempts < 2
    {
      attempts := attempts + 1;
      var a := world(attempts);
      var ending, chunks := TryOnce(a, cap);
      assert [] + chunks == chunks;
      passedOn := passedOn + chunks;
      var text := Concat(chunks);
      match ending {
        case Returned(kind, code) =>
          return Report(kind, chunks, attempts, code), passedOn;
        case Fell(done, malformed) =>
          if malformed || !done {
            return Report(MALFORMED_RESPONSE, chunks, attempts, "MALFORMED_SSE"), passedOn;
          }
          if Blank(text, space) {
            return Report(MALFORMED_RESPONSE, chunks, attempts, "EMPTY_RESPONSE"), passedOn;
          }
          return Report(COMPLETED, chunks, attempts, ""), passedOn;
        case Threw(Sentinel) =>
          return Report(CANCELLED, chunks, attempts, "CANCELLED"), passedOn;
        case Threw(Raised(raised)) =>
          var kind := if a.handlerCancelled then CANCELLED else raised;
          if !a.timeLeft || !ShouldRetry(kind, TokenCount(chunks), attempts) {
            return Report(kind, chunks, attempts, "EXCEPTION"), passedOn;
          }
      }
    }
    assert false;
  }
}
