/** The application links on disk and the installation records together, and
    the cleanup preview that must never offer an installation either of them
    still names (bc250_llm_mode/application_update_command.py:319-346,
    bc250_llm_mode/application_update_adapter.py:179-201, 372-416 and 477-544).

    The workflow order is the engine's: an operation touches the disk only
    while it holds the reservation, and records only after its publication was
    observed complete and no restore has started since. Crashes fall between
    any two atomic operations on disk, and between the disk and the database. */
module UpdateSystem {
  import opened Outcomes
  import P = PointerPublication
  import R = InstallationRecords

  /** `published` is the operation whose publication step last completed. */
  datatype System = System(disk: P.Disk, db: R.Database, published: Option<string>)

  /** The operations that exist, by identity; a decoded request never installs
      what is already current. */
  type Operations = map<string, R.Operation>

  predicate ValidOperations(ops: Operations) {
    forall id | id in ops :: ops[id].id == id && ops[id].candidate != ops[id].expectedCurrent
  }

  function PointerRequest(op: R.Operation, stage: Option<string>): (q: P.Request) {
    P.Request(op.candidate, op.expectedCurrent, op.expectedPrevious, stage)
  }

  datatype Action =
    | Verify(id: string)
    | Stage(id: string, staged: bool)
    | Unpack(tree: string, candidate: P.Id)
    | Publish(id: string, stage: Option<string>, cut: nat)
    | Restore(id: string, cut: nat)
    | Record(id: string)
    | Release(id: string, revision: nat)
    | Barrier(code: string, id: string, revision: nat)

  predicate Holds(s: System, id: string) { s.db.state.pending == Some(id) }

  function Act(s: System, ops: Operations, a: Action): (r: System) {
    match a
    case Verify(id) => if id in ops then s.(db := R.Act(s.db, R.Verify(ops[id]))) else s
    case Stage(id, staged) =>
      if id in ops && Holds(s, id) then s.(db := R.Act(s.db, R.Stage(ops[id], staged))) else s
    case Unpack(stage, candidate) => s.(disk := s.disk.(stages := s.disk.stages[stage := candidate]))
    case Publish(id, stage, cut) =>
      if id in ops && Holds(s, id) then
        var steps := P.Publish(s.disk, PointerRequest(ops[id], stage));
        var complete := steps.outcome == P.Published && cut >= |steps.states|;
        s.(disk := P.After(s.disk, steps, cut), published := if complete then Some(id) else None)
      else s
    case Restore(id, cut) =>
      if id in ops && Holds(s, id) then
        s.(disk := P.After(s.disk, P.Restore(s.disk, PointerRequest(ops[id], None)), cut), published := None)
      else s
    case Record(id) =>
      if id in ops && s.published == Some(id) then s.(db := R.Act(s.db, R.Record(ops[id]))) else s
    case Release(id, revision) =>
      if Holds(s, id) && R.ReleaseReservation(s.db, id, revision).Some? then
        s.(db := R.ReleaseReservation(s.db, id, revision).value, published := None)
      else s
    case Barrier(code, id, revision) => s.(db := R.Act(s.db, R.RawBarrier(code, id, revision)))
  }

  function Run(s: System, ops: Operations, actions: seq<Action>): (r: System)
    decreases |actions|
  {
    if actions == [] then s else Run(Act(s, ops, actions[0]), ops, actions[1..])
  }

  // ------------------------------------------------------------------ cleanup

  /** An installation the preview lists as removable. */
  predicate Listed(db: R.Database, id: R.Id) {
    && id in db.rows && db.state.current != Some(id) && db.state.previous != Some(id)
    && db.state.pending == None && db.state.barrier == None
    && db.rows[id].state == R.QUARANTINED && db.rows[id].smoke == R.PASSED
  }

  /** Named by a link on disk or by the recorded pair. */
  predicate InUse(s: System, id: R.Id) {
    P.NamedByLink(s.disk, id) || s.db.state.current == Some(id) || s.db.state.previous == Some(id)
  }

  ghost predicate NothingInUseIsListed(s: System) {
    forall id | InUse(s, id) :: !Listed(s.db, id)
  }

  /** cleanup_preview over the rows it was given, in order. */
  method CleanupPreview(db: R.Database, listing: seq<R.Id>)
    returns (retained: seq<R.Id>, candidates: seq<R.Id>, excluded: seq<R.Id>)
    requires forall id | id in listing :: id in db.rows
    ensures forall id :: id in retained <==> db.state.current == Some(id) || db.state.previous == Some(id)
    ensures forall id :: id in candidates <==> id in listing && Listed(db, id)
    ensures forall id :: id in excluded <==> id in listing && !Listed(db, id)
    ensures multiset(candidates) + multiset(excluded) == multiset(listing)
  {
    retained := [];
    if db.state.current.Some? {
      retained := retained + [db.state.current.value];
    }
    if db.state.previous.Some? {
      retained := retained + [db.state.previous.value];
    }
    candidates, excluded := [], [];
    assert listing[..|listing|] == listing;
    for i := 0 to |listing|
      invariant forall id :: id in candidates <==> id in listing[..i] && Listed(db, id)
      invariant forall id :: id in excluded <==> id in listing[..i] && !Listed(db, id)
      invariant multiset(candidates) + multiset(excluded) == multiset(listing[..i])
    {
      var id := listing[i];
      var row := db.rows[id];
      assert listing[..i + 1] == listing[..i] + [id];
      if id in retained || db.state.pending.Some? || db.state.barrier.Some?
         || row.state != R.QUARANTINED || row.smoke != R.PASSED {
        excluded := excluded + [id];
      } else {
        candidates := candidates + [id];
      }
    }
  }

  // ---------------------------------------------------------------- invariant

  /** A link may name a quarantined installation only while the operation that
      installs it holds the reservation. */
  ghost predicate LinksAreKept(s: System, ops: Operations) {
    forall id | P.NamedByLink(s.disk, id) && id in s.db.rows && s.db.rows[id].state == R.QUARANTINED ::
      s.db.state.pending.Some? && s.db.state.pending.value in ops
      && ops[s.db.state.pending.value].candidate == id
  }

  predicate ReservationIsCurrent(s: System, ops: Operations) {
    s.db.state.pending.Some? ==>
      s.db.state.pending.value in ops && R.Expected(s.db, ops[s.db.state.pending.value])
  }

  predicate PublishedIsOnDisk(s: System, ops: Operations) {
    s.published.Some? ==>
      && s.published.value in ops
      && var op := ops[s.published.value];
      if s.db.state.pending == s.published
      then s.disk.current == Some(op.candidate) && s.disk.previous == Some(op.expectedCurrent)
      else s.db.state.generation > op.expectedGeneration
  }

  ghost predicate Inv(s: System, ops: Operations) {
    && ValidOperations(ops) && R.Consistent(s.db) && (s.db.state.barrier.Some? ==> s.db.state.pending.Some?)
    && LinksAreKept(s, ops) && ReservationIsCurrent(s, ops) && PublishedIsOnDisk(s, ops)
  }

  /** A release that does not abandon a linked, quarantined candidate: the
      holder can check this on its own row before it lets go. */
  predicate SafeRelease(s: System, ops: Operations, a: Action) {
    a.Release? && Holds(s, a.id) && a.id in ops && ops[a.id].candidate in s.db.rows
    && P.NamedByLink(s.disk, ops[a.id].candidate)
    ==> s.db.rows[ops[a.id].candidate].state != R.QUARANTINED
  }

  lemma VerifyKeepsInv(s: System, ops: Operations, id: string)
    requires Inv(s, ops)
    ensures Inv(Act(s, ops, Verify(id)), ops)
  {
    if id in ops {
      R.ActKeepsConsistent(s.db, R.Verify(ops[id]));
    }
  }

  lemma StageKeepsInv(s: System, ops: Operations, id: string, staged: bool)
    requires Inv(s, ops)
    ensures Inv(Act(s, ops, Stage(id, staged)), ops)
  {
    if id in ops && Holds(s, id) {
      R.ActKeepsConsistent(s.db, R.Stage(ops[id], staged));
    }
  }

  lemma PublishKeepsInv(s: System, ops: Operations, id: string, stage: Option<string>, cut: nat)
    requires Inv(s, ops)
    ensures Inv(Act(s, ops, Publish(id, stage, cut)), ops)
  {
    if id in ops && Holds(s, id) {
      PublishedLinks(s.disk, PointerRequest(ops[id], stage), cut);
    }
  }

  /** Publication only ever makes a link name the candidate or the expected
      current release, and completes on exactly that pair. */
  lemma PublishedLinks(d: P.Disk, q: P.Request, cut: nat)
    ensures var s := P.Publish(d, q);
            var e := P.After(d, s, cut);
            && (forall id | P.NamedByLink(e, id) :: P.NamedByLink(d, id) || id == q.candidate || id == q.expectedCurrent)
            && (s.outcome == P.Published && cut >= |s.states| ==>
                  e.current == Some(q.candidate) && e.previous == Some(q.expectedCurrent))
  {
  }

  lemma RestoreKeepsInv(s: System, ops: Operations, id: string, cut: nat)
    requires Inv(s, ops)
    ensures Inv(Act(s, ops, Restore(id, cut)), ops)
  {
    if id in ops && Holds(s, id) {
      PublishedLinks(s.disk, P.RollbackOf(PointerRequest(ops[id], None)), cut);
    }
  }

  lemma RecordKeepsInv(s: System, ops: Operations, id: string)
    requires Inv(s, ops)
    ensures Inv(Act(s, ops, Record(id)), ops)
  {
    if id in ops && s.published == Some(id) {
      R.ActKeepsConsistent(s.db, R.Record(ops[id]));
      if !R.Replay(s.db, ops[id]) {
        R.RecordEffect(s.db, ops[id]);
      }
    }
  }

  lemma ReleaseKeepsInv(s: System, ops: Operations, id: string, revision: nat)
    requires Inv(s, ops) && SafeRelease(s, ops, Release(id, revision))
    ensures Inv(Act(s, ops, Release(id, revision)), ops)
  {
    R.ActKeepsConsistent(s.db, R.RawRelease(id, revision));
  }

  lemma BarrierKeepsInv(s: System, ops: Operations, code: string, id: string, revision: nat)
    requires Inv(s, ops)
    ensures Inv(Act(s, ops, Barrier(code, id, revision)), ops)
  {
    R.ActKeepsConsistent(s.db, R.RawBarrier(code, id, revision));
  }

  lemma ActKeepsInv(s: System, ops: Operations, a: Action)
    requires Inv(s, ops) && SafeRelease(s, ops, a)
    ensures Inv(Act(s, ops, a), ops)
  {
    hide Inv;
    match a {
      case Verify(id) => VerifyKeepsInv(s, ops, id);
      case Stage(id, staged) => StageKeepsInv(s, ops, id, staged);
      case Unpack(stage, candidate) => UnpackKeepsInv(s, ops, stage, candidate);
      case Publish(id, stage, cut) => PublishKeepsInv(s, ops, id, stage, cut);
      case Restore(id, cut) => RestoreKeepsInv(s, ops, id, cut);
      case Record(id) => RecordKeepsInv(s, ops, id);
      case Release(id, revision) => ReleaseKeepsInv(s, ops, id, revision);
      case Barrier(code, id, revision) => BarrierKeepsInv(s, ops, code, id, revision);
    }
  }

  lemma UnpackKeepsInv(s: System, ops: Operations, stage: string, candidate: P.Id)
    requires Inv(s, ops)
    ensures Inv(Act(s, ops, Unpack(stage, candidate)), ops)
  {
  }

  predicate ReleasesAreSafe(s: System, ops: Operations, actions: seq<Action>)
    decreases |actions|
  {
    actions == [] || (SafeRelease(s, ops, actions[0]) && ReleasesAreSafe(Act(s, ops, actions[0]), ops, actions[1..]))
  }

  /** In every state any run can reach, with crashes anywhere between and
      inside the steps, the preview offers nothing that a link on disk or the
      recorded pair still names. A run without a release, as the workflow
      itself makes, always meets the condition. */
  lemma {:induction false} CleanupNeverOffersWhatIsInUse(s: System, ops: Operations, actions: seq<Action>)
    requires Inv(s, ops) && ReleasesAreSafe(s, ops, actions)
    ensures NothingInUseIsListed(Run(s, ops, actions)) && Inv(Run(s, ops, actions), ops)
    decreases |actions|
  {
    if actions != [] {
      ActKeepsInv(s, ops, actions[0]);
      CleanupNeverOffersWhatIsInUse(Act(s, ops, actions[0]), ops, actions[1..]);
    }
  }

  /** A system at rest: nobody holds the reservation and the links are the
      recorded pair. */
  predicate AtRest(s: System) {
    && R.Consistent(s.db) && s.db.state.pending == None && s.db.state.barrier == None && s.published == None
    && s.disk.current == s.db.state.current && s.disk.previous == s.db.state.previous
  }

  /** From rest, through any number of crashed and repeated updates and
      rollbacks by any operations. */
  lemma CleanupIsSafeFromRest(s: System, ops: Operations, actions: seq<Action>)
    requires AtRest(s) && ValidOperations(ops)
    requires forall i | 0 <= i < |actions| :: !actions[i].Release?
    ensures NothingInUseIsListed(Run(s, ops, actions))
  {
    assert Inv(s, ops);
    WithoutReleases(s, ops, actions);
    CleanupNeverOffersWhatIsInUse(s, ops, actions);
  }

  lemma {:induction false} WithoutReleases(s: System, ops: Operations, actions: seq<Action>)
    requires forall i | 0 <= i < |actions| :: !actions[i].Release?
    ensures ReleasesAreSafe(s, ops, actions)
    decreases |actions|
  {
    if actions != [] {
      WithoutReleases(Act(s, ops, actions[0]), ops, actions[1..]);
    }
  }

  /** Recording aligns the two: afterwards the links and the recorded pair are
      the same two installations. */
  lemma RecordAlignsDiskAndDatabase(s: System, ops: Operations, id: string)
    requires Inv(s, ops) && id in ops && s.published == Some(id) && R.TakesEffect(s.db, R.Record(ops[id]))
    ensures var e := Act(s, ops, Record(id));
            e.disk.current == e.db.state.current && e.disk.previous == e.db.state.previous
  {
    R.RecordEffect(s.db, ops[id]);
  }

  // ------------------------------------------------- the limits of the claim

  /** Letting go of the reservation makes the preview offer something in use
      exactly when a link names the released operation's candidate and that
      candidate's row is a quarantined, smoke-tested one. */
  lemma ReleaseExposesExactlyWhen(s: System, ops: Operations, id: string)
    requires Inv(s, ops) && Holds(s, id) && s.db.state.barrier == None
    ensures var candidate := ops[id].candidate;
            NothingInUseIsListed(Act(s, ops, Release(id, s.db.state.revision))) <==>
            !(P.NamedByLink(s.disk, candidate) && candidate in s.db.rows
              && s.db.rows[candidate].state == R.QUARANTINED && s.db.rows[candidate].smoke == R.PASSED)
  {
    var candidate := ops[id].candidate;
    var e := Act(s, ops, Release(id, s.db.state.revision));
    assert e.db.state == s.db.state.(pending := None, revision := s.db.state.revision + 1);
    if P.NamedByLink(s.disk, candidate) && candidate in s.db.rows
       && s.db.rows[candidate].state == R.QUARANTINED && s.db.rows[candidate].smoke == R.PASSED {
      assert InUse(e, candidate) && Listed(e.db, candidate);
    }
  }

  const AGAIN := R.Operation("a", false, 3, 1, None, 0)

  const BEFORE_AGAIN := System(
    P.Disk(Some(1), None, {1, 3}, map[]),
    R.Database(map[1 := R.Row(R.CURRENT, R.PASSED, 2), 3 := R.Row(R.QUARANTINED, R.PASSED, 4)],
               R.Singleton(Some(1), None, 0, None, None, None, 1)),
    None)

  /** It does happen: an update to an installation quarantined earlier is
      published, refused by the records, rolled back and released. The disk's
      previous link then names what the preview offers for removal. */
  lemma ReinstalledQuarantineIsOffered()
    ensures var ops := map["a" := AGAIN];
            && Inv(BEFORE_AGAIN, ops)
            && var s1 := Act(BEFORE_AGAIN, ops, Verify("a"));
            && var s2 := Act(s1, ops, Publish("a", None, 2));
            && var s3 := Act(s2, ops, Record("a"));
            && var s4 := Act(s3, ops, Restore("a", 2));
            && var s5 := Act(s4, ops, Release("a", 2));
            && s3 == s2 && s5.disk.previous == Some(3) && Listed(s5.db, 3)
  {
    var ops := map["a" := AGAIN];
    var s1 := Act(BEFORE_AGAIN, ops, Verify("a"));
    assert Holds(s1, "a") && s1.disk == BEFORE_AGAIN.disk;
    var q := PointerRequest(AGAIN, None);
    assert P.StateOf(s1.disk, q) == P.ABSENT;
    var s2 := Act(s1, ops, Publish("a", None, 2));
    assert |P.Publish(s1.disk, q).states| == 2;
    assert s2.disk == s1.disk.(current := Some(3), previous := Some(1)) && s2.published == Some("a");
    assert R.RecordInstallation(s2.db, AGAIN) == None;
    P.RestoreFrom(s2.disk, q);
    assert |P.Restore(s2.disk, q).states| == 2;
  }
}
