/** Which part of a conversation reaches the model
    (bc250_llm_mode/chat_context.py:18-102): system messages always, and the
    longest suffix of user turns that fits, found by binary search. */
module ContextSelection {
  import opened Outcomes

  const MAX_MESSAGES := 500
  const MAX_REQUEST_BYTES := 4 * 1024 * 1024
  const MAX_MESSAGE_BYTES := 256 * 1024
  const MAX_CONVERSATION := 2010

  /** `Other` stands for any role the code does not know. */
  datatype Role = System | User | Assistant | Other

  datatype Message = Message(role: Role, content: string)

  function CharBytes(c: char): (n: nat)
    ensures 1 <= n <= 4
  {
    if c as int < 0x80 then 1 else if c as int < 0x800 then 2 else if c as int < 0x10000 then 3 else 4
  }

  /** `len(content.encode("utf-8"))`. */
  function EncodedSize(content: string): (n: nat)
    ensures |content| <= n
  {
    if content == "" then 0 else CharBytes(content[0]) + EncodedSize(content[1..])
  }

  function Max(a: int, b: int): int { if a >= b then a else b }

  function Min(a: int, b: int): int { if a <= b then a else b }

  function Cost(size: nat): (n: nat) {
    Max(1, (size + 2) / 3) + 12
  }

  function CostSum(messages: seq<Message>): (n: nat) {
    if messages == [] then 0 else Cost(EncodedSize(messages[0].content)) + CostSum(messages[1..])
  }

  /** estimate_tokens. */
  function EstimateTokens(messages: seq<Message>): (n: nat) {
    CostSum(messages) + 8
  }

  /** The default estimate, or a tokenizer that may answer anything. */
  datatype Counter = Estimate | Tokenizer(count: seq<Message> -> int)

  // ---------------------------------------------------------------- candidates

  predicate Kept(items: seq<Message>, start: nat, i: nat)
    requires i < |items|
  {
    items[i].role == System || i >= start
  }

  /** The kept positions from `i` on, in order. */
  function Included(items: seq<Message>, start: nat, i: nat): (indices: seq<nat>)
    requires i <= |items|
    ensures forall k | 0 <= k < |indices| :: i <= indices[k] < |items|
    decreases |items| - i
  {
    if i == |items| then []
    else if Kept(items, start, i) then [i] + Included(items, start, i + 1)
    else Included(items, start, i + 1)
  }

  function Excluded(items: seq<Message>, start: nat, i: nat): (indices: seq<nat>)
    requires i <= |items|
    decreases |items| - i
  {
    if i == |items| then []
    else if Kept(items, start, i) then Excluded(items, start, i + 1)
    else [i] + Excluded(items, start, i + 1)
  }

  predicate Positions(items: seq<Message>, indices: seq<nat>) {
    forall k | 0 <= k < |indices| :: indices[k] < |items|
  }

  function Selected(items: seq<Message>, indices: seq<nat>): (messages: seq<Message>)
    requires Positions(items, indices)
    ensures |messages| == |indices|
  {
    if indices == [] then [] else [items[indices[0]]] + Selected(items, indices[1..])
  }

  function TotalBytes(items: seq<Message>, indices: seq<nat>): (n: nat)
    requires Positions(items, indices)
  {
    if indices == [] then 0 else EncodedSize(items[indices[0]].content) + TotalBytes(items, indices[1..])
  }

  /** The precomputed costs, summed over the positions. */
  function TotalCost(items: seq<Message>, indices: seq<nat>): (n: nat)
    requires Positions(items, indices)
  {
    if indices == [] then 0 else Cost(EncodedSize(items[indices[0]].content)) + TotalCost(items, indices[1..])
  }

  predicate Bounded(items: seq<Message>, indices: seq<nat>)
    requires Positions(items, indices)
  {
    && |indices| <= MAX_MESSAGES && TotalBytes(items, indices) <= MAX_REQUEST_BYTES
    && forall k | 0 <= k < |indices| :: EncodedSize(items[indices[k]].content) <= MAX_MESSAGE_BYTES
  }

  function CountOf(items: seq<Message>, indices: seq<nat>, context: int, counter: Counter): (n: int)
    requires Positions(items, indices)
  {
    if !Bounded(items, indices) then context + 1
    else match counter
      case Estimate => 8 + TotalCost(items, indices)
      case Tokenizer(count) => count(Selected(items, indices))
  }

  /** Where the user turns start; a conversation without any starts at its end. */
  function UserTurns(items: seq<Message>, i: nat): (starts: seq<nat>)
    requires i <= |items|
    ensures forall k | 0 <= k < |starts| :: i <= starts[k] < |items| && items[starts[k]].role == User
    ensures forall j, k | 0 <= j < k < |starts| :: starts[j] < starts[k]
    ensures |starts| <= |items| - i
    decreases |items| - i
  {
    if i == |items| then []
    else if items[i].role == User then [i] + UserTurns(items, i + 1)
    else UserTurns(items, i + 1)
  }

  function Starts(items: seq<Message>): (starts: seq<nat>)
    ensures 0 < |starts| <= Max(1, |items|)
    ensures forall k | 0 <= k < |starts| :: starts[k] <= |items|
    ensures forall j, k | 0 <= j < k < |starts| :: starts[j] < starts[k]
  {
    if UserTurns(items, 0) == [] then [|items|] else UserTurns(items, 0)
  }

  /** The starts are all the user messages, and nothing else. */
  lemma {:induction false} UserTurnsAreAll(items: seq<Message>, i: nat)
    requires i <= |items|
    ensures forall k: nat :: k in UserTurns(items, i) <==> i <= k < |items| && items[k].role == User
    decreases |items| - i
  {
    if i < |items| {
      UserTurnsAreAll(items, i + 1);
      var rest := UserTurns(items, i + 1);
      assert forall k: nat :: k in [i] + rest <==> k == i || k in rest;
    }
  }

  predicate IsUser(items: seq<Message>, i: nat) {
    i < |items| && items[i].role == User
  }

  lemma StartsAreTheUserTurns(items: seq<Message>)
    ensures Starts(items) == [|items|] <==> forall i: nat :: !IsUser(items, i)
    ensures Starts(items) != [|items|] ==> forall k: nat :: k in Starts(items) <==> IsUser(items, k)
  {
    UserTurnsAreAll(items, 0);
    var turns := UserTurns(items, 0);
    if turns != [] {
      assert turns[0] in turns && IsUser(items, turns[0]);
    } else {
      forall i: nat ensures !IsUser(items, i) {
        assert i !in turns;
      }
    }
  }

  // --------------------------------------------------------------------- plans

  datatype ContextPlan = ContextPlan(messages: seq<Message>, included: seq<nat>, excluded: seq<nat>,
                                     promptTokens: int, promptLimit: int, responseTokens: int, estimated: bool)
  {
    predicate Fits() { promptTokens <= promptLimit }
  }

  datatype Problem = NotPositive | NoRoom | TooManyOrUnknown | BadCount

  function Allowance(context: int, reserve: int): (r: int) {
    Min(reserve, Max(64, context / 2))
  }

  function ArgumentProblem(items: seq<Message>, context: int, reserve: int): (p: Option<Problem>) {
    if context <= 0 || reserve <= 0 then Some(NotPositive)
    else if context <= Allowance(context, reserve) then Some(NoRoom)
    else if |items| > MAX_CONVERSATION || exists i | 0 <= i < |items| :: items[i].role == Other then Some(TooManyOrUnknown)
    else None
  }

  /** The plan that starts at turn `k`. */
  function PlanFrom(items: seq<Message>, context: int, reserve: int, counter: Counter, k: nat): (p: ContextPlan)
    requires k < |Starts(items)|
  {
    PlanAt(items, context, reserve, counter, Starts(items)[k])
  }

  /** The plan that keeps the system messages and everything from `start` on. */
  function PlanAt(items: seq<Message>, context: int, reserve: int, counter: Counter, start: nat): (p: ContextPlan) {
    var indices := Included(items, start, 0);
    var allowance := Allowance(context, reserve);
    ContextPlan(Selected(items, indices), indices, Excluded(items, start, 0),
                CountOf(items, indices, context, counter), context - allowance, allowance, counter == Estimate)
  }

  /** The candidate starting at turn `k` is within every bound. */
  predicate TurnFits(items: seq<Message>, context: int, reserve: int, counter: Counter, k: nat)
    requires k < |Starts(items)|
  {
    FitsAt(items, context, reserve, counter, Starts(items)[k])
  }

  predicate FitsAt(items: seq<Message>, context: int, reserve: int, counter: Counter, start: nat) {
    var indices := Included(items, start, 0);
    Bounded(items, indices) && CountOf(items, indices, context, counter) <= context - Allowance(context, reserve)
  }

  /** The linear scan: the first turn that fits, or the newest. */
  function FirstFit(items: seq<Message>, context: int, reserve: int, counter: Counter, k: nat): (r: nat)
    requires k < |Starts(items)|
    ensures k <= r < |Starts(items)|
    ensures TurnFits(items, context, reserve, counter, r) || r == |Starts(items)| - 1
    ensures forall j | k <= j < r :: !TurnFits(items, context, reserve, counter, j)
    decreases |Starts(items)| - k
  {
    if TurnFits(items, context, reserve, counter, k) || k == |Starts(items)| - 1 then k
    else FirstFit(items, context, reserve, counter, k + 1)
  }

  // ------------------------------------------------------------ small numbers

  /** A third of the bytes, rounded up, at least one, and twelve more. */
  lemma CostIsAThird(size: nat)
    ensures size == 0 ==> Cost(size) == 13
    ensures size > 0 ==> 3 * (Cost(size) - 12) - 2 <= size <= 3 * (Cost(size) - 12)
  {
  }

  /** Text of plain ASCII takes a byte a character. */
  lemma {:induction false} AsciiIsOneByte(content: string)
    requires forall i | 0 <= i < |content| :: content[i] < 128 as char
    ensures EncodedSize(content) == |content|
  {
    if content != "" {
      AsciiIsOneByte(content[1..]);
    }
  }

  /** The reserve is granted whole up to half the context or 64 tokens, whichever
      is more. */
  lemma AllowanceIs(context: int, reserve: int)
    requires context > 0 && reserve > 0
    ensures 0 < Allowance(context, reserve) <= reserve
    ensures Allowance(context, reserve) == reserve <==> reserve <= 64 || 2 * reserve <= context
    ensures Allowance(context, reserve) < reserve && context >= 128 ==> Allowance(context, reserve) == context / 2
  {
  }

  /** What is refused before anything is selected: numbers that are not positive,
      a context of at most 64 tokens that the reserve would fill, too many
      messages, and unknown roles. */
  lemma RefusedExactlyWhen(items: seq<Message>, context: int, reserve: int)
    ensures var problem := ArgumentProblem(items, context, reserve);
            && (problem == Some(NotPositive) <==> context <= 0 || reserve <= 0)
            && (problem == Some(NoRoom) <==> 0 < context <= 64 && context <= reserve)
            && (problem == Some(TooManyOrUnknown) <==>
                  && context > 0 && reserve > 0 && !(context <= 64 && context <= reserve)
                  && (|items| > 2010 || exists i | 0 <= i < |items| :: items[i].role == Other))
            && problem != Some(BadCount)
  {
  }

  // ---------------------------------------------------------------- plan laws

  lemma OnePosition(items: seq<Message>, start: nat, i: nat)
    requires i < |items|
    ensures var kept := Kept(items, start, i);
            && Included(items, start, i) == (if kept then [i] else []) + Included(items, start, i + 1)
            && Excluded(items, start, i) == (if kept then [] else [i]) + Excluded(items, start, i + 1)
  {
  }

  lemma {:induction false} MemberOf(items: seq<Message>, start: nat, i: nat, j: nat)
    requires i <= |items|
    ensures j in Included(items, start, i) <==> i <= j < |items| && Kept(items, start, j)
    ensures j in Excluded(items, start, i) <==> i <= j < |items| && !Kept(items, start, j)
    decreases |items| - i
  {
    if i < |items| {
      hide Included, Excluded;
      OnePosition(items, start, i);
      MemberOf(items, start, i + 1, j);
    }
  }

  lemma IncludedMembers(items: seq<Message>, start: nat, i: nat)
    requires i <= |items|
    ensures forall j :: j in Included(items, start, i) <==> i <= j < |items| && Kept(items, start, j)
    ensures forall j :: j in Excluded(items, start, i) <==> i <= j < |items| && !Kept(items, start, j)
  {
    hide Included, Excluded;
    forall j: nat {
      MemberOf(items, start, i, j);
    }
  }

  lemma {:induction false} PositionsIncrease(items: seq<Message>, start: nat, i: nat)
    requires i <= |items|
    ensures Increasing(Included(items, start, i)) && Increasing(Excluded(items, start, i))
    decreases |items| - i
  {
    if i < |items| {
      hide Included, Excluded;
      OnePosition(items, start, i);
      PositionsIncrease(items, start, i + 1);
      var x, y := Included(items, start, i + 1), Excluded(items, start, i + 1);
      forall k | 0 <= k < |y| ensures i < y[k] {
        MemberOf(items, start, i + 1, y[k]);
      }
      IncreasingFrom(i, x);
      IncreasingFrom(i, y);
      hide Increasing;
      assert [] + x == x && [] + y == y;
    }
  }

  lemma IncreasingFrom(i: nat, s: seq<nat>)
    requires Increasing(s) && forall k | 0 <= k < |s| :: i < s[k]
    ensures Increasing([i] + s)
  {
  }

  predicate Increasing(s: seq<nat>) {
    forall j, k | 0 <= j < k < |s| :: s[j] < s[k]
  }

  lemma {:induction false} SelectedAt(items: seq<Message>, indices: seq<nat>, k: nat)
    requires Positions(items, indices) && k < |indices|
    ensures Selected(items, indices)[k] == items[indices[k]]
  {
    if k > 0 {
      SelectedAt(items, indices[1..], k - 1);
    }
  }

  /** The precomputed costs give the same number as estimating the messages. */
  lemma {:induction false} CostsAreTheEstimate(items: seq<Message>, indices: seq<nat>)
    requires Positions(items, indices)
    ensures TotalCost(items, indices) == CostSum(Selected(items, indices))
  {
    if indices != [] {
      CostsAreTheEstimate(items, indices[1..]);
      assert Selected(items, indices)[1..] == Selected(items, indices[1..]);
    }
  }

  /** What every plan delivers: the messages at the included positions, every
      system message and everything from the chosen turn on, with included and
      excluded splitting the conversation in order. A plan that fits respects
      every size bound, and without a tokenizer its count is the estimate of
      exactly the messages it sends. */
  lemma PlanIsFaithful(items: seq<Message>, context: int, reserve: int, counter: Counter, k: nat)
    requires k < |Starts(items)| && ArgumentProblem(items, context, reserve) == None
    ensures var p := PlanFrom(items, context, reserve, counter, k);
            && |p.messages| == |p.included|
            && (forall j | 0 <= j < |p.included| :: p.included[j] < |items| && p.messages[j] == items[p.included[j]])
            && (forall i | 0 <= i < |items| :: i in p.included <==> items[i].role == System || i >= Starts(items)[k])
            && (forall i | 0 <= i < |items| :: i in p.included <==> i !in p.excluded)
            && (forall i | i in p.excluded :: i < |items|)
            && Increasing(p.included) && Increasing(p.excluded)
            && (p.Fits() <==> TurnFits(items, context, reserve, counter, k))
            && (Bounded(items, p.included) <==>
                  && |p.messages| <= 500 && TotalBytes(items, p.included) <= 4194304
                  && forall m | m in p.messages :: EncodedSize(m.content) <= 262144)
            && (p.Fits() ==> Bounded(items, p.included))
            && (counter == Estimate && Bounded(items, p.included) ==> p.promptTokens == EstimateTokens(p.messages))
            && (counter.Tokenizer? && Bounded(items, p.included) ==> p.promptTokens == counter.count(p.messages))
            && (!Bounded(items, p.included) ==> p.promptTokens == context + 1)
            && (p.estimated <==> counter == Estimate)
            && 0 < p.responseTokens && 0 < p.promptLimit && p.promptLimit + p.responseTokens == context
  {
    var p := PlanFrom(items, context, reserve, counter, k);
    IncludedMembers(items, Starts(items)[k], 0);
    PositionsIncrease(items, Starts(items)[k], 0);
    forall j | 0 <= j < |p.included| ensures p.messages[j] == items[p.included[j]] {
      SelectedAt(items, p.included, j);
    }
    CostsAreTheEstimate(items, p.included);
  }

  // ------------------------------------------------------------- monotonicity

  /** A later start keeps less: fewer messages, bytes and estimated tokens. */
  lemma {:induction false} LaterKeepsLess(items: seq<Message>, a: nat, b: nat, i: nat)
    requires a <= b && i <= |items|
    ensures var x, y := Included(items, a, i), Included(items, b, i);
            && |y| <= |x| && TotalBytes(items, y) <= TotalBytes(items, x) && TotalCost(items, y) <= TotalCost(items, x)
            && forall j | j in y :: j in x
    decreases |items| - i
  {
    if i < |items| {
      LaterKeepsLess(items, a, b, i + 1);
      var x, y := Included(items, a, i + 1), Included(items, b, i + 1);
      assert ([i] + x)[1..] == x && ([i] + y)[1..] == y;
    }
  }

  lemma BoundsAreMonotone(items: seq<Message>, a: nat, b: nat)
    requires a <= b && Bounded(items, Included(items, a, 0))
    ensures Bounded(items, Included(items, b, 0))
  {
    LaterKeepsLess(items, a, b, 0);
    var x, y := Included(items, a, 0), Included(items, b, 0);
    forall k | 0 <= k < |y| ensures EncodedSize(items[y[k]].content) <= MAX_MESSAGE_BYTES {
      assert y[k] in x;
    }
  }

  /** A counter that never counts a later start higher than an earlier one. */
  predicate CountsDown(items: seq<Message>, counter: Counter) {
    counter.Tokenizer? ==>
      forall j, k | 0 <= j < k < |Starts(items)| :: CountFrom(items, counter, k) <= CountFrom(items, counter, j)
  }

  function CountFrom(items: seq<Message>, counter: Counter, k: nat): (n: int)
    requires k < |Starts(items)| && counter.Tokenizer?
  {
    counter.count(Selected(items, Included(items, Starts(items)[k], 0)))
  }

  lemma FitIsMonotone(items: seq<Message>, context: int, reserve: int, counter: Counter, j: nat, k: nat)
    requires j < k < |Starts(items)| && CountsDown(items, counter)
    requires TurnFits(items, context, reserve, counter, j)
    ensures TurnFits(items, context, reserve, counter, k)
  {
    BoundsAreMonotone(items, Starts(items)[j], Starts(items)[k]);
    LaterKeepsLess(items, Starts(items)[j], Starts(items)[k], 0);
    if counter.Tokenizer? {
      assert CountFrom(items, counter, k) <= CountFrom(items, counter, j);
    }
  }

  /** The same, said of the user messages: none is counted higher than an earlier
      one. */
  predicate CountsDownByTurn(items: seq<Message>, counter: Counter) {
    counter.Tokenizer? ==>
      forall i, j | 0 <= i < j < |items| && IsUser(items, i) && IsUser(items, j) ::
        counter.count(Selected(items, Included(items, j, 0))) <= counter.count(Selected(items, Included(items, i, 0)))
  }

  lemma CountsDownEitherWay(items: seq<Message>, counter: Counter)
    requires CountsDownByTurn(items, counter)
    ensures CountsDown(items, counter)
  {
    hide Included, Selected, Starts;
    StartsAreTheUserTurns(items);
    var starts := Starts(items);
    forall j, k | counter.Tokenizer? && 0 <= j < k < |starts| ensures CountFrom(items, counter, k) <= CountFrom(items, counter, j) {
      assert starts[j] in starts && starts[k] in starts;
      assert |starts| > 1;
    }
  }

  /** The turn a conversation is cut at: the earliest user message from which it
      fits, or the last one if it fits from none; without any user message only
      the system messages are kept. */
  ghost predicate IsCut(items: seq<Message>, context: int, reserve: int, counter: Counter, start: nat) {
    if exists i: nat :: IsUser(items, i) then
      && IsUser(items, start)
      && (FitsAt(items, context, reserve, counter, start) || forall j | start < j < |items| :: !IsUser(items, j))
      && forall i | 0 <= i < start && IsUser(items, i) :: !FitsAt(items, context, reserve, counter, i)
    else start == |items|
  }

  lemma LinearScanIsTheCut(items: seq<Message>, context: int, reserve: int, counter: Counter)
    ensures exists start: nat :: IsCut(items, context, reserve, counter, start)
              && PlanFrom(items, context, reserve, counter, FirstFit(items, context, reserve, counter, 0))
                 == PlanAt(items, context, reserve, counter, start)
    ensures CountsDownByTurn(items, counter) ==> CountsDown(items, counter)
  {
    hide PlanAt, IsCut, CountsDown, CountsDownByTurn, Starts, FirstFit;
    FirstFitIsTheCut(items, context, reserve, counter);
    if CountsDownByTurn(items, counter) {
      CountsDownEitherWay(items, counter);
    }
  }

  lemma FirstFitIsTheCut(items: seq<Message>, context: int, reserve: int, counter: Counter)
    ensures IsCut(items, context, reserve, counter, Starts(items)[FirstFit(items, context, reserve, counter, 0)])
  {
    hide Starts, FitsAt;
    StartsAreTheUserTurns(items);
    var starts := Starts(items);
    var k := FirstFit(items, context, reserve, counter, 0);
    assert starts[k] in starts;
    if starts != [|items|] {
      forall i | 0 <= i < starts[k] && IsUser(items, i) ensures !FitsAt(items, context, reserve, counter, i) {
        assert i in starts;
        var j :| 0 <= j < |starts| && starts[j] == i;
        assert !TurnFits(items, context, reserve, counter, j);
      }
      if !FitsAt(items, context, reserve, counter, starts[k]) {
        assert !TurnFits(items, context, reserve, counter, k) && k == |starts| - 1;
        forall j: nat | j in starts ensures j <= starts[k] {
          var l :| 0 <= l < |starts| && starts[l] == j;
        }
      }
    }
  }

  /** The default estimate always counts down. */
  lemma EstimateIsMonotone(items: seq<Message>, a: nat, b: nat)
    requires a <= b
    ensures EstimateTokens(Selected(items, Included(items, b, 0))) <= EstimateTokens(Selected(items, Included(items, a, 0)))
  {
    LaterKeepsLess(items, a, b, 0);
    CostsAreTheEstimate(items, Included(items, a, 0));
    CostsAreTheEstimate(items, Included(items, b, 0));
  }

  // ----------------------------------------------------------------- the search

  function Pow2(n: nat): (p: nat)
    ensures p >= 1
  {
    if n == 0 then 1 else 2 * Pow2(n - 1)
  }

  predicate NeverNegative(items: seq<Message>, counter: Counter) {
    counter.Tokenizer? ==> forall k | 0 <= k < |Starts(items)| :: CountFrom(items, counter, k) >= 0
  }

  /** The precomputed sizes and costs of all messages. */
  predicate Priced(items: seq<Message>, sizes: seq<nat>, costs: seq<nat>) {
    && |sizes| == |costs| == |items|
    && forall i | 0 <= i < |items| :: sizes[i] == EncodedSize(items[i].content) && costs[i] == Cost(sizes[i])
  }

  lemma {:induction false} OneMore(items: seq<Message>, indices: seq<nat>, i: nat)
    requires Positions(items, indices) && i < |items|
    ensures Positions(items, indices + [i])
    ensures Selected(items, indices + [i]) == Selected(items, indices) + [items[i]]
    ensures TotalBytes(items, indices + [i]) == TotalBytes(items, indices) + EncodedSize(items[i].content)
    ensures TotalCost(items, indices + [i]) == TotalCost(items, indices) + Cost(EncodedSize(items[i].content))
  {
    if indices == [] {
      assert ([i])[1..] == [];
    } else {
      assert (indices + [i])[1..] == indices[1..] + [i];
      OneMore(items, indices[1..], i);
    }
  }

  predicate AllSmall(items: seq<Message>, indices: seq<nat>)
    requires Positions(items, indices)
  {
    forall k | 0 <= k < |indices| :: EncodedSize(items[indices[k]].content) <= MAX_MESSAGE_BYTES
  }

  lemma SmallOneMore(items: seq<Message>, indices: seq<nat>, i: nat)
    requires Positions(items, indices) && i < |items|
    ensures Positions(items, indices + [i])
    ensures AllSmall(items, indices + [i]) <==> AllSmall(items, indices) && EncodedSize(items[i].content) <= MAX_MESSAGE_BYTES
  {
    var more := indices + [i];
    if AllSmall(items, more) {
      assert EncodedSize(items[more[|indices|]].content) <= MAX_MESSAGE_BYTES;
      forall k | 0 <= k < |indices| ensures EncodedSize(items[indices[k]].content) <= MAX_MESSAGE_BYTES {
        assert more[k] == indices[k];
      }
    }
  }

  /** One pass over the messages: what is kept from `start` on, and the sums. */
  method SelectFrom(items: seq<Message>, sizes: seq<nat>, costs: seq<nat>, start: nat)
    returns (indices: seq<nat>, excluded: seq<nat>, selected: seq<Message>, bytes: nat, tokens: nat, small: bool)
    requires Priced(items, sizes, costs)
    ensures indices == Included(items, start, 0) && excluded == Excluded(items, start, 0)
    ensures selected == Selected(items, indices) && bytes == TotalBytes(items, indices) && tokens == TotalCost(items, indices)
    ensures small == AllSmall(items, indices)
  {
    hide Included, Excluded, Selected, TotalBytes, TotalCost, EncodedSize, AllSmall;
    indices, excluded, selected, bytes, tokens, small := [], [], [], 0, 0, true;
    Unstarted(items);
    for i := 0 to |items|
      invariant indices + Included(items, start, i) == Included(items, start, 0)
      invariant excluded + Excluded(items, start, i) == Excluded(items, start, 0)
      invariant Positions(items, indices) && selected == Selected(items, indices)
      invariant bytes == TotalBytes(items, indices) && tokens == TotalCost(items, indices)
      invariant small == AllSmall(items, indices)
    {
      OnePosition(items, start, i);
      if items[i].role == System || i >= start {
        OneMore(items, indices, i);
        SmallOneMore(items, indices, i);
        Shift(indices, i, Included(items, start, i + 1));
        Shift(excluded, i, Excluded(items, start, i + 1));
        indices, selected := indices + [i], selected + [items[i]];
        bytes, tokens, small := bytes + sizes[i], tokens + costs[i], small && sizes[i] <= MAX_MESSAGE_BYTES;
      } else {
        Shift(indices, i, Included(items, start, i + 1));
        Shift(excluded, i, Excluded(items, start, i + 1));
        excluded := excluded + [i];
      }
    }
    NoPosition(items, start, indices, excluded);
  }

  /** The candidate at turn `k`, or nothing when the tokenizer answered nonsense:
      it is the plan of that turn, and being bounded and within the limit means
      that the turn fits. */
  method Candidate(items: seq<Message>, sizes: seq<nat>, costs: seq<nat>, context: int, reserve: int, counter: Counter, k: nat)
    returns (plan: Option<ContextPlan>, bounded: bool)
    requires k < |Starts(items)| && context > 0 && Priced(items, sizes, costs)
    ensures plan == None <==> PlanFrom(items, context, reserve, counter, k).promptTokens < 0
    ensures plan.Some? ==> plan.value == PlanFrom(items, context, reserve, counter, k)
    ensures plan.Some? ==>
              (bounded && plan.value.promptTokens <= context - Allowance(context, reserve)
               <==> TurnFits(items, context, reserve, counter, k))
  {
    hide Included, Excluded, Starts, Selected, TotalBytes, TotalCost;
    var indices, excluded, selected, bytes, tokens, small := SelectFrom(items, sizes, costs, Starts(items)[k]);
    bounded := |selected| <= MAX_MESSAGES && bytes <= MAX_REQUEST_BYTES && small;
    var count := if !bounded then context + 1
                 else match counter
                   case Estimate => 8 + tokens
                   case Tokenizer(f) => f(selected);
    var allowance := Allowance(context, reserve);
    plan := if count < 0 then None
            else Some(ContextPlan(selected, indices, excluded, count, context - allowance, allowance, counter == Estimate));
  }

  lemma Unstarted(items: seq<Message>)
    ensures Selected(items, []) == [] && TotalBytes(items, []) == 0 && TotalCost(items, []) == 0 && AllSmall(items, [])
  {
  }

  lemma Shift(done: seq<nat>, i: nat, rest: seq<nat>)
    ensures done + ([i] + rest) == done + [i] + rest && [] + rest == rest
  {
  }

  lemma NoPosition(items: seq<Message>, start: nat, indices: seq<nat>, excluded: seq<nat>)
    ensures Included(items, start, |items|) == [] == Excluded(items, start, |items|)
    ensures indices + [] == indices && excluded + [] == excluded
  {
  }

  /** select_context. For a counter that counts down the result is the linear
      scan's; for any counter it is the plan of one of the turns. The search
      loop asks for at most eleven candidates. */
  method SelectContext(items: seq<Message>, context: int, reserve: int, counter: Counter)
    returns (r: Result<ContextPlan, Problem>, ghost probes: nat)
    ensures var problem := ArgumentProblem(items, context, reserve);
            && (problem.Some? ==> r == Err(problem.value))
            && (problem == None && r.Err? ==> r.error == BadCount && !NeverNegative(items, counter))
            && (r.Ok? ==> exists k | 0 <= k < |Starts(items)| :: r.value == PlanFrom(items, context, reserve, counter, k))
            && (r.Ok? && CountsDown(items, counter) ==>
                  r.value == PlanFrom(items, context, reserve, counter, FirstFit(items, context, reserve, counter, 0)))
    ensures r.Ok? && CountsDownByTurn(items, counter) ==>
              exists start: nat :: IsCut(items, context, reserve, counter, start)
                                   && r.value == PlanAt(items, context, reserve, counter, start)
    ensures probes <= 11
  {
    LinearScanIsTheCut(items, context, reserve, counter);
    hide PlanFrom, PlanAt, IsCut, Starts, TurnFits, Included, Bounded, CountOf, CountsDown, CountsDownByTurn, NeverNegative, FirstFit;
    probes := 0;
    if ArgumentProblem(items, context, reserve).Some? {
      return Err(ArgumentProblem(items, context, reserve).value), probes;
    }
    var limit := context - Allowance(context, reserve);
    var sizes := seq(|items|, i requires 0 <= i < |items| => EncodedSize(items[i].content));
    var costs := seq(|items|, i requires 0 <= i < |items| => Cost(sizes[i]));
    var low, high := 0, |Starts(items)| - 1;
    var first, bounded := Candidate(items, sizes, costs, context, reserve, counter, 0);
    NegativeIsNonsense(items, context, reserve, counter, 0);
    if first == None {
      return Err(BadCount), probes;
    }
    if bounded && first.value.promptTokens <= limit {
      return Ok(first.value), probes;
    }
    assert Pow2(11) == 2048;
    while low < high
      invariant 0 <= low <= high < |Starts(items)|
      invariant probes <= 11 && high - low < Pow2(11 - probes)
      invariant CountsDown(items, counter) ==>
                  && (forall j | 0 <= j < low :: !TurnFits(items, context, reserve, counter, j))
                  && (high == |Starts(items)| - 1 || TurnFits(items, context, reserve, counter, high))
    {
      var middle := (low + high) / 2;
      var plan;
      plan, bounded := Candidate(items, sizes, costs, context, reserve, counter, middle);
      NegativeIsNonsense(items, context, reserve, counter, middle);
      if plan == None {
        return Err(BadCount), probes;
      }
      probes := probes + 1;
      if bounded && plan.value.promptTokens <= limit {
        high := middle;
      } else {
        NothingEarlierFits(items, context, reserve, counter, middle);
        low := middle + 1;
      }
    }
    var chosen;
    chosen, bounded := Candidate(items, sizes, costs, context, reserve, counter, low);
    NegativeIsNonsense(items, context, reserve, counter, low);
    if chosen == None {
      return Err(BadCount), probes;
    }
    return Ok(chosen.value), probes;
  }

  lemma NegativeIsNonsense(items: seq<Message>, context: int, reserve: int, counter: Counter, k: nat)
    requires k < |Starts(items)| && context > 0
    ensures var p := PlanFrom(items, context, reserve, counter, k);
            p.promptTokens < 0 ==> !NeverNegative(items, counter)
  {
    if PlanFrom(items, context, reserve, counter, k).promptTokens < 0 {
      assert CountFrom(items, counter, k) < 0;
    }
  }

  lemma NothingEarlierFits(items: seq<Message>, context: int, reserve: int, counter: Counter, k: nat)
    requires k < |Starts(items)| && !TurnFits(items, context, reserve, counter, k)
    ensures CountsDown(items, counter) ==> forall j | 0 <= j <= k :: !TurnFits(items, context, reserve, counter, j)
  {
    if CountsDown(items, counter) {
      forall j | 0 <= j <= k ensures !TurnFits(items, context, reserve, counter, j) {
        if j < k && TurnFits(items, context, reserve, counter, j) {
          FitIsMonotone(items, context, reserve, counter, j, k);
        }
      }
    }
  }
}
