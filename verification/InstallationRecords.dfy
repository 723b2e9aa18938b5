/** Installation rows and the installation-state singleton
    (bc250_llm_mode/application_installation.py:61-394) and the three update
    steps that write them (bc250_llm_mode/application_update_adapter.py:179-293
    and 477-544).

    A repository call that raises yields `None`; the transaction around it is
    then rolled back, so the database keeps its value. */
module InstallationRecords {
  import opened Outcomes

  type Id = nat

  datatype InstallState = STAGED | CURRENT | PREVIOUS | QUARANTINED

  datatype Smoke = PENDING | PASSED | FAILED

  datatype Row = Row(state: InstallState, smoke: Smoke, revision: nat)

  datatype Singleton = Singleton(current: Option<Id>, previous: Option<Id>, generation: nat,
                                 pending: Option<string>, barrier: Option<string>,
                                 acknowledged: Option<Id>, revision: nat)

  datatype Database = Database(rows: map<Id, Row>, state: Singleton)

  /** An update operation: its identity and its decoded request. */
  datatype Operation = Operation(id: string, rollback: bool, candidate: Id, expectedCurrent: Id,
                                 expectedPrevious: Option<Id>, expectedGeneration: nat)

  // -------------------------------------------------------------- repositories

  /** _INSTALL_TRANSITIONS. */
  predicate Allowed(from: InstallState, to: InstallState) {
    match from
    case STAGED => to == CURRENT || to == QUARANTINED
    case CURRENT => to == PREVIOUS
    case PREVIOUS => to == CURRENT || to == QUARANTINED
    case QUARANTINED => false
  }

  function InsertStaged(db: Database, id: Id): (r: Option<Database>) {
    if id in db.rows then None else Some(db.(rows := db.rows[id := Row(STAGED, PENDING, 1)]))
  }

  function MarkSmoke(db: Database, id: Id, smoke: Smoke, revision: nat): (r: Option<Database>) {
    if smoke == PENDING || id !in db.rows || db.rows[id].revision != revision || db.rows[id].smoke != PENDING then None
    else Some(db.(rows := db.rows[id := db.rows[id].(smoke := smoke, revision := revision + 1)]))
  }

  function Transition(db: Database, id: Id, to: InstallState, from: InstallState, revision: nat): (r: Option<Database>) {
    if !Allowed(from, to) || id !in db.rows || db.rows[id].state != from || db.rows[id].revision != revision then None
    else Some(db.(rows := db.rows[id := db.rows[id].(state := to, revision := revision + 1)]))
  }

  function Reserve(db: Database, operation: string, revision: nat): (r: Option<Database>) {
    var s := db.state;
    if operation == "" then None
    else if s.pending == Some(operation) then Some(db)
    else if s.revision != revision || s.pending.Some? || s.barrier.Some? then None
    else Some(db.(state := s.(pending := Some(operation), revision := revision + 1)))
  }

  function CommitPublication(db: Database, op: Operation, revision: nat): (r: Option<Database>) {
    var s := db.state;
    if s.revision != revision || s.current != Some(op.expectedCurrent) || s.previous != op.expectedPrevious
       || s.generation != op.expectedGeneration || s.pending != Some(op.id) || s.barrier.Some?
       || op.candidate == op.expectedCurrent then None
    else Some(db.(state := Singleton(Some(op.candidate), Some(op.expectedCurrent), s.generation + 1,
                                     None, None, Some(op.candidate), revision + 1)))
  }

  function ReleaseReservation(db: Database, operation: string, revision: nat): (r: Option<Database>) {
    var s := db.state;
    if s.revision != revision || s.pending != Some(operation) || s.barrier.Some? then None
    else Some(db.(state := s.(pending := None, revision := revision + 1)))
  }

  function SetRecoveryBarrier(db: Database, code: string, operation: string, revision: nat): (r: Option<Database>) {
    var s := db.state;
    if !(1 <= |code| <= 80) || s.revision != revision || s.pending != Some(operation) then None
    else Some(db.(state := s.(barrier := Some(code), revision := revision + 1)))
  }

  // -------------------------------------------------------------------- steps

  /** The recorded pointers are the ones the operation was previewed against. */
  predicate Expected(db: Database, op: Operation) {
    && db.state.current == Some(op.expectedCurrent) && db.state.previous == op.expectedPrevious
    && db.state.generation == op.expectedGeneration
  }

  function VerifyRelease(db: Database, op: Operation): (r: Option<Database>) {
    if Expected(db, op) then Reserve(db, op.id, db.state.revision) else None
  }

  /** stage_candidate; `staged` says whether the tree could be staged. */
  function StageCandidate(db: Database, op: Operation, staged: bool): (r: Option<Database>) {
    var id := op.candidate;
    if op.rollback then
      if id in db.rows && db.rows[id].smoke == PASSED then Some(db) else None
    else if !staged then None
    else
      var db1 := if id in db.rows then db else InsertStaged(db, id).value;
      if db1.rows[id].smoke == PENDING then MarkSmoke(db1, id, PASSED, db1.rows[id].revision) else Some(db1)
  }

  /** record_installation finds its own earlier success. */
  predicate Replay(db: Database, op: Operation) {
    && db.state.current == Some(op.candidate) && db.state.previous == Some(op.expectedCurrent)
    && db.state.generation == op.expectedGeneration + 1 && db.state.pending == None
  }

  function Chain(r: Option<Database>, f: Database -> Option<Database>): (s: Option<Database>) {
    if r == None then None else f(r.value)
  }

  /** The old previous row leaves, unless it is the one that comes back. */
  function RetireOldPrevious(db: Database, op: Operation): (r: Option<Database>) {
    if op.expectedPrevious == None || op.expectedPrevious == Some(op.candidate) then Some(db)
    else
      var prior := op.expectedPrevious.value;
      if prior in db.rows && db.rows[prior].state == PREVIOUS
      then Transition(db, prior, QUARANTINED, PREVIOUS, db.rows[prior].revision)
      else Some(db)
  }

  function RecordInstallation(db: Database, op: Operation): (r: Option<Database>) {
    if Replay(db, op) then Some(db)
    else if op.candidate !in db.rows || op.expectedCurrent !in db.rows then None
    else
      var promoted := Transition(db, op.candidate, CURRENT, if op.rollback then PREVIOUS else STAGED,
                                 db.rows[op.candidate].revision);
      var demoted := Chain(promoted, d => Transition(d, op.expectedCurrent, PREVIOUS, CURRENT,
                                                     db.rows[op.expectedCurrent].revision));
      var retired := Chain(demoted, d => RetireOldPrevious(d, op));
      Chain(retired, d => CommitPublication(d, op, db.state.revision))
  }

  // -------------------------------------------------------------------- runs

  /** Every call the update makes, and every public repository call that is not
      part of one of them, by any caller with any revision. */
  datatype Action =
    | Verify(op: Operation)
    | Stage(op: Operation, staged: bool)
    | Record(op: Operation)
    | RawReserve(id: string, revision: nat)
    | RawSmoke(row: Id, smoke: Smoke, revision: nat)
    | RawRelease(id: string, revision: nat)
    | RawBarrier(code: string, id: string, revision: nat)

  function Attempt(db: Database, a: Action): (r: Option<Database>) {
    match a
    case Verify(op) => VerifyRelease(db, op)
    case Stage(op, staged) => StageCandidate(db, op, staged)
    case Record(op) => RecordInstallation(db, op)
    case RawReserve(id, revision) => Reserve(db, id, revision)
    case RawSmoke(row, smoke, revision) => MarkSmoke(db, row, smoke, revision)
    case RawRelease(id, revision) => ReleaseReservation(db, id, revision)
    case RawBarrier(code, id, revision) => SetRecoveryBarrier(db, code, id, revision)
  }

  function Act(db: Database, a: Action): (r: Database) {
    match Attempt(db, a)
    case Some(next) => next
    case None => db
  }

  function Run(db: Database, actions: seq<Action>): (r: Database)
    decreases |actions|
  {
    if actions == [] then db else Run(Act(db, actions[0]), actions[1..])
  }

  /** Exactly one row is CURRENT and the singleton names it; the PREVIOUS rows
      are exactly the singleton's previous installation. */
  predicate Consistent(db: Database) {
    && db.state.current.Some? && db.state.current.value in db.rows
    && (db.state.previous.Some? ==> db.state.previous.value in db.rows)
    && (forall id | id in db.rows ::
          && (db.rows[id].state == CURRENT <==> db.state.current == Some(id))
          && (db.rows[id].state == PREVIOUS <==> db.state.previous == Some(id)))
  }

  /** What a successful, first recording changes: the candidate and the old
      current row trade places with the old previous row, the singleton
      follows, and the reservation is spent. */
  lemma RecordEffect(db: Database, op: Operation)
    requires Consistent(db) && !Replay(db, op)
    ensures RecordInstallation(db, op).Some? <==>
            && Expected(db, op) && db.state.pending == Some(op.id) && db.state.barrier == None
            && op.candidate in db.rows
            && db.rows[op.candidate].state == (if op.rollback then PREVIOUS else STAGED)
    ensures RecordInstallation(db, op).Some? ==>
              var e := RecordInstallation(db, op).value;
              && e.rows.Keys == db.rows.Keys
              && e.state == Singleton(Some(op.candidate), Some(op.expectedCurrent), db.state.generation + 1,
                                      None, None, Some(op.candidate), db.state.revision + 1)
              && op.candidate != op.expectedCurrent
              && (forall id | id in db.rows ::
                    && e.rows[id].smoke == db.rows[id].smoke
                    && e.rows[id].state ==
                       if id == op.candidate then CURRENT
                       else if id == op.expectedCurrent then PREVIOUS
                       else if db.rows[id].state == PREVIOUS then QUARANTINED
                       else db.rows[id].state)
  {
  }

  predicate SamePointers(db: Database, e: Database) {
    && e.state.current == db.state.current && e.state.previous == db.state.previous
    && e.state.generation == db.state.generation
  }

  lemma ActKeepsConsistent(db: Database, a: Action)
    requires Consistent(db)
    ensures Consistent(Act(db, a))
    ensures db.rows.Keys <= Act(db, a).rows.Keys
    ensures forall id | id in db.rows && db.rows[id].state == QUARANTINED :: Act(db, a).rows[id].state == QUARANTINED
    ensures !(a.Record? && !Replay(db, a.op)) ==>
              SamePointers(db, Act(db, a)) && forall id | id in db.rows :: Act(db, a).rows[id].state == db.rows[id].state
  {
    hide RecordInstallation, Replay;
    if !a.Record? {
      OtherActs(db, a);
    } else if Replay(db, a.op) {
      ReplayIsANoOp(db, a.op);
    } else {
      RecordEffect(db, a.op);
    }
  }

  lemma ReplayIsANoOp(db: Database, op: Operation)
    requires Replay(db, op)
    ensures RecordInstallation(db, op) == Some(db)
  {
  }

  /** A recording that changes nothing and yet succeeds is exactly the repetition
      of one already made by a finished operation. */
  lemma ReplayExactlyWhen(db: Database, op: Operation)
    ensures RecordInstallation(db, op) == Some(db) <==>
            && db.state.current == Some(op.candidate) && db.state.previous == Some(op.expectedCurrent)
            && db.state.generation == op.expectedGeneration + 1 && db.state.pending == None
  {
    if !Replay(db, op) && RecordInstallation(db, op).Some? {
      assert RecordInstallation(db, op).value.state.generation == db.state.generation + 1;
    }
  }

  /** Apart from recordings, calls add staged rows and leave the pointers and
      every row's state alone. */
  lemma OtherActs(db: Database, a: Action)
    requires !a.Record?
    ensures var e := Act(db, a);
            && SamePointers(db, e) && db.rows.Keys <= e.rows.Keys
            && (forall id | id in db.rows :: e.rows[id].state == db.rows[id].state)
            && (forall id | id in e.rows && id !in db.rows :: e.rows[id].state == STAGED)
  {
  }

  // ------------------------------------------------------ what each call does

  /** The same rows, except perhaps one. */
  predicate OnlyRow(db: Database, e: Database, id: Id) {
    e.rows.Keys == db.rows.Keys + {id} && forall other | other in db.rows && other != id :: e.rows[other] == db.rows[other]
  }

  /** A reservation is taken if and only if the operation holds it already, or
      the revision is current and neither another holder nor a barrier is there;
      it changes the holder and, when it is new, the revision. */
  lemma ReserveEffect(db: Database, id: string, revision: nat)
    ensures var done := Reserve(db, id, revision);
            && (done.Some? <==>
                  && id != ""
                  && (db.state.pending == Some(id)
                      || (db.state.revision == revision && db.state.pending == None && db.state.barrier == None)))
            && (done.Some? ==>
                  && done.value.rows == db.rows
                  && done.value.state ==
                     if db.state.pending == Some(id) then db.state
                     else db.state.(pending := Some(id), revision := revision + 1))
  {
  }

  /** Verification of a release reserves, and only for the pair and generation
      the operation was previewed against. */
  lemma VerifyEffect(db: Database, op: Operation)
    ensures var done := VerifyRelease(db, op);
            && (done.Some? <==>
                  && db.state.current == Some(op.expectedCurrent) && db.state.previous == op.expectedPrevious
                  && db.state.generation == op.expectedGeneration && op.id != ""
                  && (db.state.pending == Some(op.id) || (db.state.pending == None && db.state.barrier == None)))
            && (done.Some? ==> done.value.rows == db.rows && done.value.state.pending == Some(op.id)
                               && done.value.state.(pending := db.state.pending, revision := db.state.revision) == db.state)
  {
  }

  /** Staging leaves the candidate with a row that has passed its smoke test, a
      new one STAGED, unless its test had failed before; no other row and nothing
      of the singleton changes. A rollback only asks for such a row. */
  lemma StageEffect(db: Database, op: Operation, staged: bool)
    ensures var done := StageCandidate(db, op, staged);
            && (done.Some? <==> if op.rollback then op.candidate in db.rows && db.rows[op.candidate].smoke == PASSED else staged)
            && (done.Some? ==>
                  && done.value.state == db.state && OnlyRow(db, done.value, op.candidate)
                  && op.candidate in done.value.rows
                  && var row := done.value.rows[op.candidate];
                  && row.smoke == (if op.candidate in db.rows && db.rows[op.candidate].smoke == FAILED then FAILED else PASSED)
                  && row.state == (if op.candidate in db.rows then db.rows[op.candidate].state else STAGED)
                  && row.revision ==
                     if op.candidate !in db.rows then 2
                     else if db.rows[op.candidate].smoke == PENDING then db.rows[op.candidate].revision + 1
                     else db.rows[op.candidate].revision)
  {
  }

  /** A smoke test ends once, at the current revision, and in passing or failing. */
  lemma MarkSmokeEffect(db: Database, id: Id, smoke: Smoke, revision: nat)
    ensures var done := MarkSmoke(db, id, smoke, revision);
            && (done.Some? <==>
                  && (smoke == PASSED || smoke == FAILED) && id in db.rows
                  && db.rows[id].revision == revision && db.rows[id].smoke == PENDING)
            && (done.Some? ==> done.value.state == db.state && OnlyRow(db, done.value, id)
                               && done.value.rows[id] == Row(db.rows[id].state, smoke, revision + 1))
  {
  }

  /** A row changes state along the five allowed ways, at the current revision. */
  lemma TransitionEffect(db: Database, id: Id, to: InstallState, from: InstallState, revision: nat)
    ensures var done := Transition(db, id, to, from, revision);
            && (done.Some? <==>
                  && ((from == STAGED && to == CURRENT) || (from == STAGED && to == QUARANTINED)
                      || (from == CURRENT && to == PREVIOUS)
                      || (from == PREVIOUS && to == CURRENT) || (from == PREVIOUS && to == QUARANTINED))
                  && id in db.rows && db.rows[id].state == from && db.rows[id].revision == revision)
            && (done.Some? ==> done.value.state == db.state && OnlyRow(db, done.value, id)
                               && done.value.rows[id] == Row(to, db.rows[id].smoke, revision + 1))
  {
  }

  /** A release needs the holder, the revision and no barrier; a barrier needs the
      holder and the revision. Each changes its own field and the revision. */
  lemma ReleaseAndBarrierEffect(db: Database, id: string, code: string, revision: nat)
    ensures var done := ReleaseReservation(db, id, revision);
            && (done.Some? <==> db.state.revision == revision && db.state.pending == Some(id) && db.state.barrier == None)
            && (done.Some? ==> done.value == db.(state := db.state.(pending := None, revision := revision + 1)))
    ensures var done := SetRecoveryBarrier(db, code, id, revision);
            && (done.Some? <==> 0 < |code| < 81 && db.state.revision == revision && db.state.pending == Some(id))
            && (done.Some? ==> done.value == db.(state := db.state.(barrier := Some(code), revision := revision + 1)))
  {
  }

  /** A recording that takes effect, as opposed to a replay or a refusal. */
  predicate TakesEffect(db: Database, a: Action) {
    a.Record? && !Replay(db, a.op) && RecordInstallation(db, a.op).Some?
  }

  function Commits(db: Database, actions: seq<Action>): (n: nat)
    decreases |actions|
  {
    if actions == [] then 0
    else (if TakesEffect(db, actions[0]) then 1 else 0) + Commits(Act(db, actions[0]), actions[1..])
  }

  /** Over every interleaving of every call: the rows and the singleton agree,
      a quarantined row stays quarantined, no row is lost, and the pointer
      generation counts the recordings that took effect. */
  lemma {:induction false} EveryRunIsConsistent(db: Database, actions: seq<Action>)
    requires Consistent(db)
    ensures var e := Run(db, actions);
            && Consistent(e)
            && db.rows.Keys <= e.rows.Keys
            && (forall id | id in db.rows && db.rows[id].state == QUARANTINED :: e.rows[id].state == QUARANTINED)
            && e.state.generation == db.state.generation + Commits(db, actions)
    decreases |actions|
  {
    if actions != [] {
      ActKeepsConsistent(db, actions[0]);
      EveryRunIsConsistent(Act(db, actions[0]), actions[1..]);
      if TakesEffect(db, actions[0]) {
        RecordEffect(db, actions[0].op);
      } else {
        assert Act(db, actions[0]).state.generation == db.state.generation;
      }
    }
  }

  /** Only the holder of the reservation can record, and what it records is
      exactly its own request. */
  lemma OnlyTheHolderCommits(db: Database, op: Operation)
    requires Consistent(db) && TakesEffect(db, Record(op))
    ensures db.state.pending == Some(op.id) && db.state.barrier == None && Expected(db, op)
    ensures RecordInstallation(db, op).value.state.pending == None
  {
    RecordEffect(db, op);
  }

  /** Once recorded, an operation is never recorded a second time, whatever
      runs in between: repeating the step reports success without a change, or
      is refused, and the reservation cannot be taken again. */
  lemma {:induction false} RecordedAtMostOnce(db: Database, op: Operation, between: seq<Action>)
    requires Consistent(db) && TakesEffect(db, Record(op))
    ensures var recorded := RecordInstallation(db, op).value;
            && RecordInstallation(recorded, op) == Some(recorded)
            && var later := Run(recorded, between);
            && Act(later, Record(op)) == later
            && VerifyRelease(later, op) == None
  {
    RecordEffect(db, op);
    var recorded := RecordInstallation(db, op).value;
    ActKeepsConsistent(db, Record(op));
    EveryRunIsConsistent(recorded, between);
    var later := Run(recorded, between);
    assert later.state.generation > op.expectedGeneration;
    if !Replay(later, op) {
      RecordEffect(later, op);
    }
  }

  /** A recovery barrier is never lifted: from then on the recorded pointers,
      the generation and the reservation stay as they are, in every run. */
  lemma {:induction false} BarrierFreezesEverything(db: Database, actions: seq<Action>)
    requires Consistent(db) && db.state.barrier.Some? && db.state.pending.Some?
    ensures var s := Run(db, actions).state;
            && s.barrier.Some? && s.pending == db.state.pending && s.current == db.state.current
            && s.previous == db.state.previous && s.generation == db.state.generation
    decreases |actions|
  {
    if actions != [] {
      var next := Act(db, actions[0]);
      ActKeepsConsistent(db, actions[0]);
      if actions[0].Record? && !Replay(db, actions[0].op) {
        RecordEffect(db, actions[0].op);
      }
      assert next.state.barrier.Some? && next.state.pending == db.state.pending;
      BarrierFreezesEverything(next, actions[1..]);
    }
  }

  /** A barrier can only be set by the holder, so it always comes with one. */
  lemma {:induction false} BarrierHasAHolder(db: Database, actions: seq<Action>)
    requires db.state.barrier.Some? ==> db.state.pending.Some?
    ensures Run(db, actions).state.barrier.Some? ==> Run(db, actions).state.pending.Some?
    decreases |actions|
  {
    if actions != [] {
      BarrierHasAHolder(Act(db, actions[0]), actions[1..]);
    }
  }

  /** Recording an update and then its rollback brings the old current
      installation back, with the update as the new previous one. */
  lemma RollbackBringsBack(db: Database, up: Operation, down: Operation, reserved: Database)
    requires Consistent(db) && TakesEffect(db, Record(up))
    requires down.rollback && down.candidate == up.expectedCurrent && down.expectedCurrent == up.candidate
    requires down.expectedPrevious == Some(down.candidate) && down.expectedGeneration == up.expectedGeneration + 1
    requires VerifyRelease(RecordInstallation(db, up).value, down) == Some(reserved)
    ensures RecordInstallation(reserved, down).Some?
    ensures var e := RecordInstallation(reserved, down).value;
            && e.state.current == db.state.current && e.state.previous == Some(up.candidate)
            && e.state.generation == db.state.generation + 2
            && (forall id | id in db.rows && id != up.candidate :: db.rows[id].state == CURRENT ==> e.rows[id].state == CURRENT)
  {
    RecordEffect(db, up);
    var applied := RecordInstallation(db, up).value;
    ActKeepsConsistent(db, Record(up));
    ActKeepsConsistent(applied, Verify(down));
    assert reserved == Act(applied, Verify(down));
    assert reserved.state.barrier == None;
    RecordEffect(reserved, down);
  }

  // ---------------------------------------------------------------- the store

  /** The two tables, updated in place by the repository methods. */
  class InstallationStore {
    var rows: map<Id, Row>
    var state: Singleton

    function Snapshot(): (db: Database)
      reads this
    {
      Database(rows, state)
    }

    constructor (db: Database)
      ensures Snapshot() == db
    {
      rows, state := db.rows, db.state;
    }

    /** One revision-fenced UPDATE of one row; false when no row matched. */
    method TransitionRow(id: Id, to: InstallState, from: InstallState, revision: nat) returns (ok: bool)
      modifies this`rows
      ensures var r := Transition(old(Snapshot()), id, to, from, revision);
              ok == r.Some? && Snapshot() == if ok then r.value else old(Snapshot())
    {
      ok := Allowed(from, to) && id in rows && rows[id].state == from && rows[id].revision == revision;
      if ok {
        var row := rows[id];
        rows := rows[id := Row(to, row.smoke, row.revision + 1)];
      }
    }

    method Commit(op: Operation, revision: nat) returns (ok: bool)
      modifies this`state
      ensures var r := CommitPublication(old(Snapshot()), op, revision);
              ok == r.Some? && Snapshot() == if ok then r.value else old(Snapshot())
    {
      ok := && state.revision == revision && state.current == Some(op.expectedCurrent)
            && state.previous == op.expectedPrevious && state.generation == op.expectedGeneration
            && state.pending == Some(op.id) && state.barrier == None && op.candidate != op.expectedCurrent;
      if ok {
        state := Singleton(Some(op.candidate), Some(op.expectedCurrent), state.generation + 1,
                           None, None, Some(op.candidate), state.revision + 1);
      }
    }

    method ReserveUpdate(op: Operation) returns (ok: bool)
      modifies this`state
      ensures var r := VerifyRelease(old(Snapshot()), op);
              ok == r.Some? && Snapshot() == if ok then r.value else old(Snapshot())
    {
      if !Expected(Snapshot(), op) || op.id == "" {
        return false;
      }
      if state.pending == Some(op.id) {
        return true;
      }
      if state.pending.Some? || state.barrier.Some? {
        return false;
      }
      state := state.(pending := Some(op.id), revision := state.revision + 1);
      return true;
    }

    method Stage(op: Operation, staged: bool) returns (ok: bool)
      modifies this`rows
      ensures var r := StageCandidate(old(Snapshot()), op, staged);
              ok == r.Some? && Snapshot() == if ok then r.value else old(Snapshot())
    {
      var id := op.candidate;
      if op.rollback {
        return id in rows && rows[id].smoke == PASSED;
      }
      if !staged {
        return false;
      }
      if id !in rows {
        rows := rows[id := Row(STAGED, PENDING, 1)];
      }
      if rows[id].smoke == PENDING {
        rows := rows[id := rows[id].(smoke := PASSED, revision := rows[id].revision + 1)];
      }
      return true;
    }

    /** record_installation: one transaction, undone as a whole when any of its
        updates finds its fence moved. */
    method RecordUpdate(op: Operation) returns (ok: bool)
      modifies this
      ensures var r := RecordInstallation(old(Snapshot()), op);
              ok == r.Some? && Snapshot() == if ok then r.value else old(Snapshot())
    {
      if Replay(Snapshot(), op) {
        return true;
      }
      if op.candidate !in rows || op.expectedCurrent !in rows {
        return false;
      }
      var rowsBefore, stateBefore := rows, state;
      var current := rows[op.expectedCurrent];
      ok := TransitionRow(op.candidate, CURRENT, if op.rollback then PREVIOUS else STAGED, rows[op.candidate].revision);
      if ok {
        ok := TransitionRow(op.expectedCurrent, PREVIOUS, CURRENT, current.revision);
      }
      if ok && op.expectedPrevious.Some? && op.expectedPrevious != Some(op.candidate) {
        var prior := op.expectedPrevious.value;
        if prior in rows && rows[prior].state == PREVIOUS {
          ok := TransitionRow(prior, QUARANTINED, PREVIOUS, rows[prior].revision);
        }
      }
      if ok {
        ok := Commit(op, stateBefore.revision);
      }
      if !ok {
        rows, state := rowsBefore, stateBefore;
      }
    }
  }
}
