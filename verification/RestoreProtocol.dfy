/** The profile-restore exchange (bc250_llm_mode/backup_adapter.py:464-632).

    A receipt beside the profile is rewritten around an atomic swap of two
    directories. Every method below is a short sequence of durable writes; the
    process may die between any two of them and a later process may run any of
    the steps again. A `Steps` value lists the state after each durable write,
    so a crash is "stop after the first `cut` of them". */
module RestoreProtocol {

  /** Device and inode of a directory. */
  type Dir = nat

  datatype Phase = Intent | Published | Verified | Promoted | RollbackIntent | RolledBack

  datatype Receipt = Receipt(phase: Phase, prior: Dir, candidate: Dir, databaseDigest: nat)

  /** The one receipt file: absent, left by another restore, or ours. */
  datatype Cell = Empty | Foreign(terminal: bool) | Own(receipt: Receipt)

  /** The row `rs-<operation>` of `restore_attempts` in one profile's database:
      a row can carry this operation's id as its creator, or none. */
  datatype Attempt = NoRow | RowUnowned | RowOwned(published: bool)

  /** The part of a profile directory's database that the steps touch. */
  datatype Profile = Profile(attempt: Attempt, databaseDigest: nat)

  /** Durable state. `exchanges` only counts the swaps that happened. */
  datatype World = World(cell: Cell, active: Dir, sibling: Dir,
                         profiles: map<Dir, Profile>, exchanges: nat)

  predicate WellFormed(w: World) {
    w.active != w.sibling && w.active in w.profiles && w.sibling in w.profiles
  }

  datatype Outcome = Exchanged | PostVerified | RestoreRolledBack | RestorePromoted | Raised

  datatype Steps = Steps(states: seq<World>, outcome: Outcome)

  /** The state a step leaves when the process survives `cut` durable writes. */
  function After(w: World, steps: Steps, cut: nat): (r: World) {
    if cut == 0 || steps.states == [] then w
    else if cut < |steps.states| then steps.states[cut - 1]
    else steps.states[|steps.states| - 1]
  }

  function Finished(w: World, steps: Steps): (r: World) {
    After(w, steps, |steps.states|)
  }

  function Swapped(w: World): (r: World) {
    w.(active := w.sibling, sibling := w.active, exchanges := w.exchanges + 1)
  }

  function WithPhase(w: World, phase: Phase): (r: World)
    requires w.cell.Own?
  {
    w.(cell := Own(w.cell.receipt.(phase := phase)))
  }

  // ------------------------------------------------------------------ probes

  datatype RecoveryClass = ABSENT | COMPLETE | UNCERTAIN_MANUAL

  /** probe_restore_published, for a receipt that can be read. */
  function ProbePublished(w: World): (c: RecoveryClass) {
    match w.cell
    case Own(r) =>
      if (r.phase == RollbackIntent || r.phase == RolledBack) && w.active == r.prior && w.sibling == r.candidate then COMPLETE
      else if w.active == r.candidate && w.sibling == r.prior then COMPLETE
      else if w.active == r.prior && w.sibling == r.candidate && r.phase == Intent then ABSENT
      else UNCERTAIN_MANUAL
    case _ => ABSENT
  }

  predicate Terminal(w: World) {
    w.cell.Own? && (w.cell.receipt.phase == Promoted || w.cell.receipt.phase == RolledBack)
  }

  /** probe_terminal: the receipt, or failing that the attempt row this
      operation created. */
  function ProbeTerminal(w: World): (c: RecoveryClass)
    requires w.active in w.profiles
  {
    if Terminal(w) || w.profiles[w.active].attempt == RowOwned(true) then COMPLETE else ABSENT
  }

  // ------------------------------------------------------- the three steps

  /** What the outside world answers during publish_exchange: is the staged
      profile valid, can the current database be carried over, what does the
      prepared database hash to, and does the swap happen. */
  datatype PublishAnswers = PublishAnswers(stagedValid: bool, preserved: bool, digest: nat, exchange: bool)

  function Prepare(w: World, a: PublishAnswers): (s: Steps)
    requires WellFormed(w)
  {
    if !a.preserved then Steps([], Raised)
    else
      var w1 := w.(profiles := w.profiles[w.sibling := Profile(w.profiles[w.active].attempt, a.digest)]);
      var w2 := w1.(cell := Own(Receipt(Intent, w.active, w.sibling, a.digest)));
      if !a.exchange then Steps([w1, w2], Raised)
      else
        var w3 := Swapped(w2);
        Steps([w1, w2, w3, WithPhase(w3, Published)], Exchanged)
  }

  function Publish(w: World, a: PublishAnswers): (s: Steps)
    requires WellFormed(w)
  {
    match w.cell
    case Foreign(false) => Steps([], Raised)
    case Own(r) =>
      (match ProbePublished(w)
       case COMPLETE => Steps([], Exchanged)
       case UNCERTAIN_MANUAL => Steps([], Raised)
       case ABSENT =>
         if w.profiles[w.sibling].databaseDigest != r.databaseDigest then Steps([], Raised)
         else Prepare(w, a))
    case _ => if a.stagedValid then Prepare(w, a) else Steps([], Raised)
  }

  /** Answers during verify_post_restore: the checks on the restored database,
      the digest of the prior database once the operation rows are carried into
      it, whether a swap happens, and the checks on the prior database. */
  datatype VerifyAnswers = VerifyAnswers(schema: bool, integrity: bool, references: bool, carriedDigest: nat,
                                         exchange: bool, priorIntegrity: bool, priorReferences: bool)

  predicate ChecksPass(v: VerifyAnswers) { v.schema && v.integrity && v.references }

  function RollBack(w: World, v: VerifyAnswers): (s: Steps)
    requires WellFormed(w) && w.cell.Own?
  {
    var w1 := w.(profiles := w.profiles[w.sibling := w.profiles[w.sibling].(databaseDigest := v.carriedDigest)]);
    var w2 := WithPhase(w1, RollbackIntent);
    if !v.exchange then Steps([w1, w2], Raised)
    else
      var w3 := Swapped(w2);
      if !v.priorIntegrity then Steps([w1, w2, w3], Raised)
      else Steps([w1, w2, w3, WithPhase(w3, RolledBack)], RestoreRolledBack)
  }

  function Verify(w: World, v: VerifyAnswers): (s: Steps)
    requires WellFormed(w)
  {
    if !w.cell.Own? then Steps([], Raised)
    else
      var r := w.cell.receipt;
      if (r.phase == RollbackIntent || r.phase == RolledBack) && w.active == r.prior then
        if v.priorIntegrity && v.priorReferences then Steps([WithPhase(w, RolledBack)], RestoreRolledBack)
        else Steps([], Raised)
      else if r.phase != RollbackIntent && w.active == r.candidate && ChecksPass(v) then
        Steps([WithPhase(w, Verified)], PostVerified)
      else if w.sibling != r.prior then Steps([], Raised)
      else RollBack(w, v)
  }

  /** promote_or_rollback. The attempt row is committed before the receipt's
      phase is checked, and a row without a creator is never found again by the
      look-up that precedes the insert. */
  function Promote(w: World, digest: nat): (s: Steps)
    requires WellFormed(w)
  {
    if w.cell == Foreign(false) then Steps([], Raised)
    else if w.cell.Own? && w.cell.receipt.phase == RolledBack then Steps([], RestoreRolledBack)
    else
      var attempt := w.profiles[w.active].attempt;
      if attempt == RowUnowned then Steps([], Raised)
      else
        var row := if attempt == NoRow then RowUnowned else RowOwned(true);
        var w1 := w.(profiles := w.profiles[w.active := Profile(row, digest)]);
        if !w.cell.Own? || w.cell.receipt.phase != Verified then Steps([w1], Raised)
        else Steps([w1, WithPhase(w1, Promoted)], RestorePromoted)
  }

  // -------------------------------------------------------------------- runs

  /** A step executed by some process, which dies after `cut` durable writes.
      Before a receipt exists the candidate may also be staged anew. */
  datatype Action =
    | Stage(dir: Dir, profile: Profile)
    | RunPublish(publish: PublishAnswers, cut: nat)
    | RunVerify(verify: VerifyAnswers, cut: nat)
    | RunPromote(digest: nat, cut: nat)

  function Act(w: World, action: Action): (r: World)
    requires WellFormed(w)
  {
    match action
    case Stage(dir, profile) =>
      if w.cell.Own? || dir == w.active then w
      else w.(sibling := dir, profiles := w.profiles[dir := profile])
    case RunPublish(a, cut) => After(w, Publish(w, a), cut)
    case RunVerify(v, cut) => After(w, Verify(w, v), cut)
    case RunPromote(d, cut) => After(w, Promote(w, d), cut)
  }

  function Run(w: World, actions: seq<Action>): (r: World)
    requires Inv(w)
    decreases |actions|
  {
    if actions == [] then w
    else
      ActKeepsInv(w, actions[0]);
      Run(Act(w, actions[0]), actions[1..])
  }

  /** Before any receipt of this operation exists. */
  predicate Initial(w: World) {
    WellFormed(w) && !w.cell.Own? && w.exchanges == 0
  }

  /** The three places the protocol can be in once a receipt exists: before the
      first swap, between the swaps, and after the swap back. */
  predicate Before(w: World) {
    && w.cell.Own? && w.active == w.cell.receipt.prior && w.sibling == w.cell.receipt.candidate
    && w.cell.receipt.phase == Intent && w.exchanges == 0
  }

  predicate Between(w: World) {
    && w.cell.Own? && w.active == w.cell.receipt.candidate && w.sibling == w.cell.receipt.prior
    && w.cell.receipt.phase != RolledBack && w.exchanges == 1
  }

  predicate Back(w: World) {
    && w.cell.Own? && w.active == w.cell.receipt.prior && w.sibling == w.cell.receipt.candidate
    && (w.cell.receipt.phase == RollbackIntent || w.cell.receipt.phase == RolledBack) && w.exchanges == 2
  }

  predicate Inv(w: World) {
    WellFormed(w) && (Initial(w) || Before(w) || Between(w) || Back(w))
  }

  lemma PublishKeepsInv(w: World, a: PublishAnswers, cut: nat)
    requires Inv(w)
    ensures Inv(After(w, Publish(w, a), cut))
  {
  }

  lemma VerifyKeepsInv(w: World, v: VerifyAnswers, cut: nat)
    requires Inv(w)
    ensures Inv(After(w, Verify(w, v), cut))
  {
  }

  lemma PromoteKeepsInv(w: World, digest: nat, cut: nat)
    requires Inv(w)
    ensures Inv(After(w, Promote(w, digest), cut))
  {
  }

  lemma ActKeepsInv(w: World, action: Action)
    requires Inv(w)
    ensures Inv(Act(w, action))
  {
    hide Publish, Verify, Promote, After;
    match action {
      case Stage(_, _) =>
      case RunPublish(a, cut) => PublishKeepsInv(w, a, cut);
      case RunVerify(v, cut) => VerifyKeepsInv(w, v, cut);
      case RunPromote(d, cut) => PromoteKeepsInv(w, d, cut);
    }
  }

  /** Safety over every run from an initial state: any number of crashes, in
      any place, and any re-running of the steps in any order. */
  lemma {:induction false} RunIsSafe(w: World, actions: seq<Action>)
    requires Inv(w)
    ensures var e := Run(w, actions);
            && Inv(e) && e.exchanges <= 2
            && (e.cell.Own? ==>
                  var r := e.cell.receipt;
                  && {e.active, e.sibling} == {r.prior, r.candidate} && r.prior != r.candidate
                  && (r.phase == Promoted || r.phase == Verified ==> e.active == r.candidate && e.exchanges == 1)
                  && (r.phase == RolledBack ==> e.active == r.prior && e.exchanges == 2)
                  && ProbePublished(e) != UNCERTAIN_MANUAL
                  && (ProbePublished(e) == COMPLETE <==> e.exchanges > 0))
    decreases |actions|
  {
    if actions != [] {
      ActKeepsInv(w, actions[0]);
      RunIsSafe(Act(w, actions[0]), actions[1..]);
    }
  }

  /** Once written, the receipt's identities never change, whatever runs next. */
  lemma {:induction false} IdentitiesAreFixed(w: World, actions: seq<Action>)
    requires Inv(w) && w.cell.Own?
    ensures var e := Run(w, actions);
            e.cell.Own? && e.cell.receipt.prior == w.cell.receipt.prior && e.cell.receipt.candidate == w.cell.receipt.candidate
    decreases |actions|
  {
    if actions != [] {
      var next := Act(w, actions[0]);
      ActKeepsInv(w, actions[0]);
      assert next.cell.Own? && next.cell.receipt.prior == w.cell.receipt.prior
          && next.cell.receipt.candidate == w.cell.receipt.candidate;
      IdentitiesAreFixed(next, actions[1..]);
    }
  }

  predicate RollingBack(w: World) {
    w.cell.Own? && (w.cell.receipt.phase == RollbackIntent || w.cell.receipt.phase == RolledBack)
  }

  /** A recorded rollback can never turn into a verified or promoted restore,
      and a finished rollback stays finished. */
  lemma {:induction false} RollbackIsIrrevocable(w: World, actions: seq<Action>)
    requires Inv(w) && RollingBack(w)
    ensures RollingBack(Run(w, actions))
    ensures w.cell.receipt.phase == RolledBack ==>
              Run(w, actions).cell == w.cell && Run(w, actions).active == w.active
    decreases |actions|
  {
    if actions != [] {
      var next := Act(w, actions[0]);
      ActKeepsInv(w, actions[0]);
      assert RollingBack(next) && (w.cell.receipt.phase == RolledBack ==> next.cell == w.cell && next.active == w.active);
      RollbackIsIrrevocable(next, actions[1..]);
    }
  }

  // ------------------------------------------------------- what each step does

  /** Without a receipt of its own a publication exchanges exactly when no other
      restore is unfinished, the stage is valid, the database is carried over and
      the swap happens. A refused start leaves nothing behind. */
  lemma FreshPublishExactlyWhen(w: World, a: PublishAnswers)
    requires WellFormed(w) && !w.cell.Own?
    ensures var s := Publish(w, a);
            && (s.outcome == Exchanged <==> w.cell != Foreign(false) && a.stagedValid && a.preserved && a.exchange)
            && (s.outcome != Exchanged ==> s.outcome == Raised)
            && (w.cell == Foreign(false) || !a.stagedValid || !a.preserved ==> s.states == [])
    ensures Publish(w, a).outcome == Exchanged ==> IsExchanged(w, Finished(w, Publish(w, a)), a)
  {
  }

  /** The two directories have changed places, the receipt says so, and the
      candidate's database carries the active one's attempt row. */
  predicate IsExchanged(w: World, e: World, a: PublishAnswers)
    requires WellFormed(w)
  {
    && e.active == w.sibling && e.sibling == w.active && e.exchanges == w.exchanges + 1
    && e.cell == Own(Receipt(Published, w.active, w.sibling, a.digest))
    && e.profiles == w.profiles[w.sibling := Profile(w.profiles[w.active].attempt, a.digest)]
  }

  predicate PreparedIsUnchanged(w: World)
    requires Inv(w) && Before(w)
  {
    w.profiles[w.sibling].databaseDigest == w.cell.receipt.databaseDigest
  }

  /** After a crash before the swap a publication is resumed exactly when the
      prepared database is the one the receipt names, the current database is
      carried over and the swap happens; a changed one is refused without a
      trace. */
  lemma ResumedPublishExactlyWhen(w: World, a: PublishAnswers)
    requires Inv(w) && Before(w)
    ensures var s := Publish(w, a);
            && (s.outcome == Exchanged <==> PreparedIsUnchanged(w) && a.preserved && a.exchange)
            && (s.outcome != Exchanged ==> s.outcome == Raised)
            && (!PreparedIsUnchanged(w) || !a.preserved ==> s.states == [])
    ensures Publish(w, a).outcome == Exchanged ==> IsExchanged(w, Finished(w, Publish(w, a)), a)
  {
  }

  /** After the swap, and after the swap back, publishing again only reports it. */
  lemma ExchangedPublishIsANoOp(w: World, a: PublishAnswers)
    requires Inv(w) && w.exchanges > 0
    ensures Publish(w, a) == Steps([], Exchanged)
  {
  }

  /** A receipt that does not name exactly the two directories is refused. */
  lemma ForeignDirectoriesAreRefused(w: World, a: PublishAnswers)
    requires WellFormed(w) && w.cell.Own?
    requires {w.active, w.sibling} != {w.cell.receipt.prior, w.cell.receipt.candidate}
    ensures Publish(w, a) == Steps([], Raised) && ProbePublished(w) == UNCERTAIN_MANUAL
  {
    var r := w.cell.receipt;
    assert (w.active == r.prior && w.sibling == r.candidate) || (w.active == r.candidate && w.sibling == r.prior)
           ==> {w.active, w.sibling} == {r.prior, r.candidate};
  }

  /** A fresh publication cut anywhere after its receipt, then an uncut good one:
      the directories are exchanged. The receipt says `published`, unless the
      crash fell between the swap and that receipt: then it still says `intent`,
      and verification takes it from there. */
  lemma CutPublishIsResumed(w: World, a: PublishAnswers, cut: nat, b: PublishAnswers)
    requires Initial(w) && |Publish(w, a).states| >= 2 && cut >= 2 && b.preserved && b.exchange
    ensures var e := After(w, Publish(w, a), cut);
            var f := Finished(e, Publish(e, b));
            && Inv(e) && Publish(e, b).outcome == Exchanged && Between(f)
            && f.cell.receipt.prior == w.active && f.cell.receipt.candidate == w.sibling
            && f.cell.receipt.phase == (if a.exchange && cut == 3 then Intent else Published)
  {
    var e := After(w, Publish(w, a), cut);
    PublishKeepsInv(w, a, cut);
    assert Publish(w, a) == Prepare(w, a);
    if e.exchanges > 0 {
      ExchangedPublishIsANoOp(e, b);
    } else {
      ResumedPublishExactlyWhen(e, b);
    }
  }

  /** A resumed publication is itself resumable after a crash, except when it
      dies after preparing the database differently and before its receipt. */
  lemma ResumptionIsLostExactlyWhen(w: World, a: PublishAnswers, cut: nat)
    requires Inv(w) && Before(w) && PreparedIsUnchanged(w) && a.preserved
    ensures var e := After(w, Publish(w, a), cut);
            && Inv(e)
            && (Before(e) && !PreparedIsUnchanged(e) <==> cut == 1 && a.digest != w.cell.receipt.databaseDigest)
  {
    PublishKeepsInv(w, a, cut);
  }

  /** And then no run at all exchanges the directories. */
  lemma {:induction false} ChangedDatabaseBlocksTheExchange(w: World, actions: seq<Action>)
    requires Inv(w) && Before(w) && !PreparedIsUnchanged(w)
    ensures Run(w, actions).exchanges == 0 && Before(Run(w, actions))
    decreases |actions|
  {
    if actions != [] {
      var next := Act(w, actions[0]);
      ActKeepsInv(w, actions[0]);
      assert Before(next) && !PreparedIsUnchanged(next);
      ChangedDatabaseBlocksTheExchange(next, actions[1..]);
    }
  }

  /** Verification between the swaps: it records `verified`, and only that,
      exactly when no rollback is recorded and the checks pass. */
  lemma VerifyExactlyWhen(w: World, v: VerifyAnswers)
    requires Inv(w)
    ensures var s := Verify(w, v);
            var e := Finished(w, s);
            && (s.outcome == PostVerified <==> Between(w) && w.cell.receipt.phase != RollbackIntent && ChecksPass(v))
            && (s.outcome == PostVerified ==> e == WithPhase(w, Verified))
            && (s.outcome == RestoreRolledBack <==>
                  || (Back(w) && v.priorIntegrity && v.priorReferences)
                  || (Between(w) && (w.cell.receipt.phase == RollbackIntent || !ChecksPass(v)) && v.exchange && v.priorIntegrity))
            && (Initial(w) || Before(w) ==> s == Steps([], Raised))
  {
  }

  /** What a finished rollback leaves: the prior directory active, with the
      operation's rows carried into its database and nothing else changed. */
  lemma RollbackEffect(w: World, v: VerifyAnswers)
    requires Inv(w) && Verify(w, v).outcome == RestoreRolledBack
    ensures var e := Finished(w, Verify(w, v));
            && e.cell == Own(w.cell.receipt.(phase := RolledBack))
            && e.active == w.cell.receipt.prior && e.sibling == w.cell.receipt.candidate && e.exchanges == 2
            && e.profiles == if Back(w) then w.profiles
                             else w.profiles[w.sibling := w.profiles[w.sibling].(databaseDigest := v.carriedDigest)]
  {
  }

  /** Promotion succeeds exactly from `verified` when the attempt can be recorded;
      it writes that row in the active database, even when it then refuses. */
  lemma PromoteExactlyWhen(w: World, digest: nat)
    requires WellFormed(w)
    ensures var s := Promote(w, digest);
            var e := Finished(w, s);
            && (s.outcome == RestorePromoted <==>
                  w.cell.Own? && w.cell.receipt.phase == Verified && w.profiles[w.active].attempt != RowUnowned)
            && (s.outcome == RestorePromoted ==> e.cell == Own(w.cell.receipt.(phase := Promoted)))
            && (s.outcome != RestorePromoted ==> e.cell == w.cell)
            && (s.outcome == RestoreRolledBack <==> w.cell.Own? && w.cell.receipt.phase == RolledBack)
            && e.active == w.active && e.sibling == w.sibling && e.exchanges == w.exchanges
            && (s.states == [] <==> w.cell == Foreign(false) || s.outcome == RestoreRolledBack
                                    || w.profiles[w.active].attempt == RowUnowned)
            && (s.states != [] ==>
                  && e.profiles[w.active].attempt == (if w.profiles[w.active].attempt == NoRow then RowUnowned else RowOwned(true))
                  && e.profiles == w.profiles[w.active := e.profiles[w.active]])
  {
  }

  // ---------------------------------------------------------------- progress

  /** When, after the first swap, one uninterrupted verify followed by one
      uninterrupted promote ends in a terminal phase: exactly under these
      answers and, if the restored database is good, exactly when no earlier
      attempt left its row behind. */
  predicate Converges(w: World, v: VerifyAnswers)
    requires WellFormed(w) && w.cell.Own?
  {
    if w.exchanges == 2 then
      w.cell.receipt.phase == RolledBack || (v.priorIntegrity && v.priorReferences)
    else if w.cell.receipt.phase == RollbackIntent || !ChecksPass(v) then
      v.exchange && v.priorIntegrity
    else
      w.profiles[w.active].attempt != RowUnowned
  }

  lemma ConvergesExactlyWhen(w: World, v: VerifyAnswers, digest: nat)
    requires Inv(w) && w.exchanges > 0
    ensures var w1 := Finished(w, Verify(w, v));
            && Inv(w1)
            && (Terminal(Finished(w1, Promote(w1, digest))) <==> Converges(w, v))
  {
    ActKeepsInv(w, RunVerify(v, |Verify(w, v).states|));
  }

  /** The restored database is good and yet promotion is out of reach: from
      here on no run at all records `Promoted`. */
  lemma {:induction false} StrandedRowBlocksPromotion(w: World, actions: seq<Action>)
    requires Inv(w) && w.exchanges > 0
    requires w.cell.receipt.phase != Promoted && w.profiles[w.cell.receipt.candidate].attempt == RowUnowned
    ensures Run(w, actions).cell.Own? && Run(w, actions).cell.receipt.phase != Promoted
    decreases |actions|
  {
    if actions != [] {
      var next := Act(w, actions[0]);
      ActKeepsInv(w, actions[0]);
      assert next.exchanges > 0 && next.cell.receipt.phase != Promoted
          && next.profiles[next.cell.receipt.candidate].attempt == RowUnowned;
      StrandedRowBlocksPromotion(next, actions[1..]);
    }
  }

  const GOOD_PUBLISH := PublishAnswers(true, true, 0, true)
  const GOOD_VERIFY := VerifyAnswers(true, true, true, 0, true, true, true)

  lemma RunOne(w: World, action: Action, rest: seq<Action>)
    requires Inv(w)
    ensures Inv(Act(w, action)) && Run(w, [action] + rest) == Run(Act(w, action), rest)
  {
    ActKeepsInv(w, action);
    assert ([action] + rest)[1..] == rest;
  }

  /** What the three good steps do, the last one cut after its database write. */
  lemma GoodSteps(w: World)
    requires Initial(w) && w.cell == Empty && w.profiles[w.active].attempt == NoRow
    ensures var w1 := Act(w, RunPublish(GOOD_PUBLISH, 4));
            && WellFormed(w1) && w1.cell == Own(Receipt(Published, w.active, w.sibling, 0))
            && w1.active == w.sibling && w1.sibling == w.active && w1.exchanges == 1
            && w1.profiles[w1.active].attempt == NoRow
  {
    var w1 := Act(w, RunPublish(GOOD_PUBLISH, 4));
    assert Publish(w, GOOD_PUBLISH) == Prepare(w, GOOD_PUBLISH);
    assert w1 == Prepare(w, GOOD_PUBLISH).states[3];
  }

  lemma GoodVerifyThenCutPromote(w: World)
    requires WellFormed(w) && w.cell.Own? && w.cell.receipt.phase == Published && w.active == w.cell.receipt.candidate
    requires w.sibling == w.cell.receipt.prior && w.profiles[w.active].attempt == NoRow
    ensures var w1 := Act(w, RunVerify(GOOD_VERIFY, 1));
            && w1 == WithPhase(w, Verified)
            && Act(w1, RunPromote(0, 1)) == w1.(profiles := w.profiles[w.active := Profile(RowUnowned, 0)])
  {
  }

  /** Such a state is reached from any fresh start by one crash in the wrong
      place: after promote's database commit and before its receipt. */
  lemma OneCrashStrandsTheRow(w: World)
    requires Initial(w) && w.cell == Empty
    requires w.profiles[w.active].attempt == NoRow
    ensures var e := Run(w, [RunPublish(GOOD_PUBLISH, 4)] + ([RunVerify(GOOD_VERIFY, 1)] + ([RunPromote(0, 1)] + [])));
            && Inv(e) && e.exchanges == 1 && e.cell.receipt.phase == Verified
            && e.profiles[e.cell.receipt.candidate].attempt == RowUnowned
            && Promote(e, 0) == Steps([], Raised) && !Converges(e, GOOD_VERIFY)
  {
    hide Act;
    GoodSteps(w);
    RunOne(w, RunPublish(GOOD_PUBLISH, 4), [RunVerify(GOOD_VERIFY, 1)] + ([RunPromote(0, 1)] + []));
    var w1 := Act(w, RunPublish(GOOD_PUBLISH, 4));
    GoodVerifyThenCutPromote(w1);
    RunOne(w1, RunVerify(GOOD_VERIFY, 1), [RunPromote(0, 1)] + []);
    RunOne(Act(w1, RunVerify(GOOD_VERIFY, 1)), RunPromote(0, 1), []);
  }

  predicate NoOwnedRows(w: World) {
    forall d | d in w.profiles :: !w.profiles[d].attempt.RowOwned?
  }

  lemma ActCreatesNoOwnedRow(w: World, action: Action)
    requires Inv(w) && NoOwnedRows(w)
    requires action.Stage? ==> !action.profile.attempt.RowOwned?
    ensures NoOwnedRows(Act(w, action))
  {
  }

  /** Nothing in the protocol creates a row under the operation's own id, so
      the terminal probe answers exactly what the receipt says. */
  lemma {:induction false} TerminalProbeIsTheReceipt(w: World, actions: seq<Action>)
    requires Inv(w) && NoOwnedRows(w)
    requires forall i | 0 <= i < |actions| && actions[i].Stage? :: !actions[i].profile.attempt.RowOwned?
    ensures var e := Run(w, actions); e.active in e.profiles && (ProbeTerminal(e) == COMPLETE <==> Terminal(e))
    decreases |actions|
  {
    if actions != [] {
      var next := Act(w, actions[0]);
      ActKeepsInv(w, actions[0]);
      ActCreatesNoOwnedRow(w, actions[0]);
      TerminalProbeIsTheReceipt(next, actions[1..]);
    }
  }

  // -------------------------------------------------------------- the adapter

  /** The adapter's methods over the durable fields. `log` records the state
      after every durable write; `exchanges` counts the swaps. */
  class RestoreHost {
    var cell: Cell
    var active: Dir
    var sibling: Dir
    var profiles: map<Dir, Profile>
    ghost var exchanges: nat
    ghost var log: seq<World>

    ghost function Snapshot(): (w: World)
      reads this
    {
      World(cell, active, sibling, profiles, exchanges)
    }

    constructor (w: World)
      ensures Snapshot() == w && log == []
    {
      cell, active, sibling, profiles, exchanges, log := w.cell, w.active, w.sibling, w.profiles, w.exchanges, [];
    }

    method WriteReceipt(receipt: Receipt)
      modifies this`cell, this`log
      ensures Snapshot() == old(Snapshot()).(cell := Own(receipt))
      ensures log == old(log) + [Snapshot()]
    {
      cell := Own(receipt);
      log := log + [Snapshot()];
    }

    method WriteProfile(dir: Dir, profile: Profile)
      modifies this`profiles, this`log
      ensures Snapshot() == old(Snapshot()).(profiles := old(profiles)[dir := profile])
      ensures log == old(log) + [Snapshot()]
    {
      profiles := profiles[dir := profile];
      log := log + [Snapshot()];
    }

    method Exchange()
      modifies this`active, this`sibling, this`exchanges, this`log
      ensures Snapshot() == Swapped(old(Snapshot()))
      ensures log == old(log) + [Snapshot()]
    {
      active, sibling, exchanges := sibling, active, exchanges + 1;
      log := log + [Snapshot()];
    }

    method PublishExchange(a: PublishAnswers) returns (outcome: Outcome)
      requires WellFormed(Snapshot())
      modifies this
      ensures var s := Publish(old(Snapshot()), a);
              && outcome == s.outcome && log == old(log) + s.states
              && Snapshot() == Finished(old(Snapshot()), s)
    {
      ghost var w := Snapshot();
      if cell == Foreign(false) {
        return Raised;
      }
      if cell.Own? {
        var receipt := cell.receipt;
        var rolling := receipt.phase == RollbackIntent || receipt.phase == RolledBack;
        if (rolling && active == receipt.prior && sibling == receipt.candidate)
           || (active == receipt.candidate && sibling == receipt.prior) {
          return Exchanged;
        }
        if !(active == receipt.prior && sibling == receipt.candidate && receipt.phase == Intent) {
          return Raised;
        }
        if profiles[sibling].databaseDigest != receipt.databaseDigest {
          return Raised;
        }
      } else if !a.stagedValid {
        return Raised;
      }
      assert Publish(w, a) == Prepare(w, a);
      if !a.preserved {
        return Raised;
      }
      WriteProfile(sibling, Profile(profiles[active].attempt, a.digest));
      var receipt := Receipt(Intent, active, sibling, a.digest);
      WriteReceipt(receipt);
      if !a.exchange {
        return Raised;
      }
      Exchange();
      if active != receipt.candidate || sibling != receipt.prior {
        return Raised;
      }
      WriteReceipt(receipt.(phase := Published));
      return Exchanged;
    }

    /** The exception path of verify_post_restore. */
    method UndoExchange(v: VerifyAnswers) returns (outcome: Outcome)
      requires WellFormed(Snapshot()) && cell.Own? && sibling == cell.receipt.prior
      modifies this
      ensures var s := RollBack(old(Snapshot()), v);
              && outcome == s.outcome && log == old(log) + s.states
              && Snapshot() == Finished(old(Snapshot()), s)
    {
      var receipt := cell.receipt;
      WriteProfile(sibling, profiles[sibling].(databaseDigest := v.carriedDigest));
      WriteReceipt(receipt.(phase := RollbackIntent));
      if !v.exchange {
        return Raised;
      }
      Exchange();
      if active != receipt.prior || !v.priorIntegrity {
        return Raised;
      }
      WriteReceipt(receipt.(phase := RolledBack));
      return RestoreRolledBack;
    }

    method VerifyPostRestore(v: VerifyAnswers) returns (outcome: Outcome)
      requires WellFormed(Snapshot())
      modifies this
      ensures var s := Verify(old(Snapshot()), v);
              && outcome == s.outcome && log == old(log) + s.states
              && Snapshot() == Finished(old(Snapshot()), s)
    {
      if !cell.Own? {
        return Raised;
      }
      var receipt := cell.receipt;
      if (receipt.phase == RollbackIntent || receipt.phase == RolledBack) && active == receipt.prior {
        if !v.priorIntegrity || !v.priorReferences {
          return Raised;
        }
        WriteReceipt(receipt.(phase := RolledBack));
        return RestoreRolledBack;
      }
      var failed := receipt.phase == RollbackIntent || active != receipt.candidate
                    || !v.schema || !v.integrity || !v.references;
      if failed {
        if sibling != receipt.prior {
          return Raised;
        }
        outcome := UndoExchange(v);
        return outcome;
      }
      WriteReceipt(receipt.(phase := Verified));
      return PostVerified;
    }

    method PromoteOrRollback(digest: nat) returns (outcome: Outcome)
      requires WellFormed(Snapshot())
      modifies this
      ensures var s := Promote(old(Snapshot()), digest);
              && outcome == s.outcome && log == old(log) + s.states
              && Snapshot() == Finished(old(Snapshot()), s)
    {
      if cell == Foreign(false) {
        return Raised;
      }
      if cell.Own? && cell.receipt.phase == RolledBack {
        return RestoreRolledBack;
      }
      match profiles[active].attempt {
        case NoRow => WriteProfile(active, Profile(RowUnowned, digest));
        case RowUnowned => return Raised;
        case RowOwned(_) => WriteProfile(active, Profile(RowOwned(true), digest));
      }
      if !cell.Own? || cell.receipt.phase != Verified {
        return Raised;
      }
      WriteReceipt(cell.receipt.(phase := Promoted));
      return RestorePromoted;
    }
  }
}
