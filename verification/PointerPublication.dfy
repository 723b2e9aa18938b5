/** Publication and rollback of the `current` / `previous` application links
    (bc250_llm_mode/application_pointer_helper.py:107-193 and
    bc250_llm_mode/application_publisher.py:131-248).

    `Steps` lists the disk after each atomic operation: the rename that moves a
    staged tree among the releases, and the replacement of each link. A crash
    keeps a prefix of that list. */
module PointerPublication {
  import opened Outcomes

  /** A release-set digest, which is also an installation id. */
  type Id = nat

  /** The application directory: the two links, the releases whose directory
      and receipt are intact, and the staged trees. */
  datatype Disk = Disk(current: Option<Id>, previous: Option<Id>, releases: set<Id>, stages: map<string, Id>)

  datatype Request = Request(candidate: Id, expectedCurrent: Id, expectedPrevious: Option<Id>, stage: Option<string>)

  datatype PointerState = ABSENT | PREPARED | COMPLETE | UNCERTAIN

  /** classify_pointer_state. */
  function Classify(current: Option<Id>, previous: Option<Id>, q: Request): (c: PointerState) {
    if current == Some(q.candidate) && previous == Some(q.expectedCurrent) then COMPLETE
    else if current == Some(q.expectedCurrent) && previous == Some(q.expectedCurrent) then PREPARED
    else if current == Some(q.expectedCurrent) && previous == q.expectedPrevious then ABSENT
    else UNCERTAIN
  }

  function StateOf(d: Disk, q: Request): (c: PointerState) {
    Classify(d.current, d.previous, q)
  }

  /** Both links can be read: each is missing or names an intact release. */
  predicate Observable(d: Disk) {
    (d.current.Some? ==> d.current.value in d.releases) && (d.previous.Some? ==> d.previous.value in d.releases)
  }

  datatype Outcome = Published | AlreadyAbsent | Refused

  datatype Steps = Steps(states: seq<Disk>, outcome: Outcome)

  function After(d: Disk, s: Steps, cut: nat): (r: Disk) {
    if cut == 0 || s.states == [] then d
    else if cut < |s.states| then s.states[cut - 1]
    else s.states[|s.states| - 1]
  }

  function Finished(d: Disk, s: Steps): (r: Disk) {
    After(d, s, |s.states|)
  }

  /** publish_pointer_set. */
  function PublishSet(d: Disk, q: Request): (s: Steps) {
    if q.candidate !in d.releases || q.expectedCurrent !in d.releases
       || (q.expectedPrevious.Some? && q.expectedPrevious.value !in d.releases) || !Observable(d) then Steps([], Refused)
    else
      match StateOf(d, q)
      case COMPLETE => Steps([], Published)
      case UNCERTAIN => Steps([], Refused)
      case PREPARED => Steps([d.(current := Some(q.candidate))], Published)
      case ABSENT =>
        var d1 := d.(previous := Some(q.expectedCurrent));
        Steps([d1, d1.(current := Some(q.candidate))], Published)
  }

  /** promote_stage can provide the candidate release. */
  predicate Provided(d: Disk, q: Request) {
    q.candidate in d.releases
    || (q.stage.Some? && q.stage.value in d.stages && d.stages[q.stage.value] == q.candidate)
  }

  function Promoted(d: Disk, q: Request): (r: Disk) {
    if q.candidate in d.releases || q.stage == None then d
    else d.(releases := d.releases + {q.candidate}, stages := d.stages - {q.stage.value})
  }

  /** ApplicationPointerPublisher.publish. */
  function Publish(d: Disk, q: Request): (s: Steps) {
    if !Provided(d, q) then Steps([], Refused)
    else
      var d0 := Promoted(d, q);
      var rest := PublishSet(d0, q);
      if q.candidate in d.releases then rest else Steps([d0] + rest.states, rest.outcome)
  }

  /** The request restore hands back to publish. */
  function RollbackOf(q: Request): (r: Request) {
    Request(q.expectedCurrent, q.candidate, Some(q.expectedCurrent), None)
  }

  /** ApplicationPointerPublisher.restore. */
  function Restore(d: Disk, q: Request): (s: Steps) {
    if !Observable(d) then Steps([], Refused)
    else
      match StateOf(d, q)
      case ABSENT => Steps([], AlreadyAbsent)
      case COMPLETE => Publish(d, RollbackOf(q))
      case _ => Steps([], Refused)
  }

  /** probe_restored. */
  predicate Restored(d: Disk, q: Request) {
    d.current == Some(q.expectedCurrent) && (d.previous == Some(q.candidate) || d.previous == q.expectedPrevious)
  }

  // ------------------------------------------------------------- publication

  predicate NamedByLink(d: Disk, x: Id) {
    d.current == Some(x) || d.previous == Some(x)
  }

  /** Any number of attempts, each dying after `cuts[i]` atomic operations. */
  function Attempts(d: Disk, q: Request, cuts: seq<nat>): (r: Disk)
    decreases |cuts|
  {
    if cuts == [] then d
    else Attempts(After(d, Publish(d, q), cuts[0]), q, cuts[1..])
  }

  lemma OneAttempt(d: Disk, q: Request, cut: nat)
    requires StateOf(d, q) != UNCERTAIN
    ensures StateOf(After(d, Publish(d, q), cut), q) != UNCERTAIN
    ensures Observable(d) ==> Observable(After(d, Publish(d, q), cut))
    ensures Available(d, q) ==> Available(After(d, Publish(d, q), cut), q)
  {
  }

  /** Everything publication needs besides a recognisable pair of links. */
  predicate Available(d: Disk, q: Request) {
    && Provided(d, q)
    && var e := Promoted(d, q);
    && Observable(e) && q.expectedCurrent in e.releases
    && (q.expectedPrevious.Some? ==> q.expectedPrevious.value in e.releases)
  }

  /** The only release an attempt adds is the candidate, only from a staged tree
      that the request names and that holds it, and that tree is then gone; no
      other staged tree is touched. */
  lemma OnlyTheNamedStageIsPromoted(d: Disk, q: Request, cut: nat)
    ensures var e := After(d, Publish(d, q), cut);
            && d.releases <= e.releases <= d.releases + {q.candidate}
            && (e.releases != d.releases ==>
                  && q.stage.Some? && q.stage.value in d.stages && d.stages[q.stage.value] == q.candidate
                  && e.stages == d.stages - {q.stage.value})
            && (e.releases == d.releases ==> e.stages == d.stages)
    ensures Publish(d, q).outcome == Published ==>
              q.candidate in d.releases
              || (q.stage.Some? && q.stage.value in d.stages && d.stages[q.stage.value] == q.candidate)
  {
  }

  /** Crashed attempts never leave an unrecognisable pair, `current` always
      names the old or the new release, and the old one stays linked. */
  lemma {:induction false} CrashesAreRecognisable(d: Disk, q: Request, cuts: seq<nat>)
    requires StateOf(d, q) != UNCERTAIN
    ensures var e := Attempts(d, q, cuts);
            && StateOf(e, q) != UNCERTAIN
            && (e.current == Some(q.expectedCurrent) || e.current == Some(q.candidate))
            && NamedByLink(e, q.expectedCurrent)
            && (Available(d, q) ==> Available(e, q))
    decreases |cuts|
  {
    if cuts != [] {
      OneAttempt(d, q, cuts[0]);
      CrashesAreRecognisable(After(d, Publish(d, q), cuts[0]), q, cuts[1..]);
    }
  }

  /** After any crashed attempts one uninterrupted attempt completes, exactly
      when the releases it needs are there; a complete pair is a fixed point. */
  lemma PublicationConverges(d: Disk, q: Request, cuts: seq<nat>)
    requires StateOf(d, q) != UNCERTAIN
    ensures var e := Attempts(d, q, cuts);
            && (Available(e, q) <==> Publish(e, q).outcome == Published)
            && (Available(e, q) ==> StateOf(Finished(e, Publish(e, q)), q) == COMPLETE)
            && (Available(d, q) ==> Publish(e, q).outcome == Published)
    ensures StateOf(d, q) == COMPLETE && q.candidate in d.releases ==> Attempts(d, q, cuts) == d
  {
    CrashesAreRecognisable(d, q, cuts);
    if StateOf(d, q) == COMPLETE && q.candidate in d.releases {
      CompleteIsFixed(d, q, cuts);
    }
  }

  lemma {:induction false} CompleteIsFixed(d: Disk, q: Request, cuts: seq<nat>)
    requires StateOf(d, q) == COMPLETE && q.candidate in d.releases
    ensures Attempts(d, q, cuts) == d
    decreases |cuts|
  {
    if cuts != [] {
      CompleteIsFixed(d, q, cuts[1..]);
    }
  }

  predicate SameLinks(d: Disk, e: Disk) {
    d.current == e.current && d.previous == e.previous
  }

  /** An unrecognisable pair is refused and the links are left alone, however
      often publication is tried. */
  lemma {:induction false} UncertainIsRefused(d: Disk, q: Request, cuts: seq<nat>)
    requires StateOf(d, q) == UNCERTAIN
    ensures Publish(d, q).outcome == Refused
    ensures SameLinks(d, Attempts(d, q, cuts))
    decreases |cuts|
  {
    if cuts != [] {
      UncertainIsRefused(After(d, Publish(d, q), cuts[0]), q, cuts[1..]);
    }
  }

  // ---------------------------------------------------------------- rollback

  /** An uninterrupted restore: from an absent or complete pair it succeeds and
      the rollback probe then agrees; any other pair is refused unchanged. */
  lemma RestoreFrom(d: Disk, q: Request)
    requires q.candidate != q.expectedCurrent && Observable(d)
    ensures var s := Restore(d, q);
            var e := Finished(d, s);
            if StateOf(d, q) == ABSENT || StateOf(d, q) == COMPLETE then s.outcome != Refused && Restored(e, q)
            else s == Steps([], Refused)
    ensures StateOf(d, q) == COMPLETE ==>
              Finished(d, Restore(d, q)) == d.(current := Some(q.expectedCurrent), previous := Some(q.candidate))
  {
  }

  /** A link that names no intact release is refused by both calls, and no link
      moves. */
  lemma UnobservableIsRefused(d: Disk, q: Request, cut: nat)
    requires !Observable(d)
    ensures Restore(d, q) == Steps([], Refused)
    ensures !Observable(Promoted(d, q)) ==> Publish(d, q).outcome == Refused && SameLinks(d, After(d, Publish(d, q), cut))
  {
  }

  /** Publication followed by restore puts the old current release back. */
  lemma RestoreUndoesPublication(d: Disk, q: Request, cuts: seq<nat>)
    requires q.candidate != q.expectedCurrent && Available(d, q) && StateOf(d, q) == ABSENT
    ensures var e := Attempts(d, q, cuts);
            var p := Finished(e, Publish(e, q));
            var r := Finished(p, Restore(p, q));
            Restored(r, q) && r.current == d.current && r.previous == Some(q.candidate)
  {
    CrashesAreRecognisable(d, q, cuts);
    var e := Attempts(d, q, cuts);
    PublicationConverges(d, q, cuts);
    var p := Finished(e, Publish(e, q));
    assert Observable(p);
    RestoreFrom(p, q);
  }

  /** Unlike publication, restore does not recover from its own crash: tried
      again after `cut` atomic operations it is accepted only if none happened,
      or if both happened and the request expected the candidate as its old
      previous release, as a rollback request does. */
  lemma RestoreResumesExactlyWhen(d: Disk, q: Request, cut: nat)
    requires q.candidate != q.expectedCurrent && Observable(d) && StateOf(d, q) == COMPLETE
    ensures var e := After(d, Restore(d, q), cut);
            Restore(e, q).outcome != Refused <==>
            (cut == 0 || (cut >= 2 && q.expectedPrevious == Some(q.candidate)))
  {
    assert |Restore(d, q).states| == 2;
  }

  /** The state between the two replacements: both links name the candidate,
      nothing names the old current release, and neither publishing nor
      restoring the same request, in any order, moves a link again. */
  lemma {:induction false} HalfRestoredIsStuck(d: Disk, q: Request, retries: seq<(bool, nat)>)
    requires q.candidate != q.expectedCurrent
    requires d.current == d.previous == Some(q.candidate)
    ensures SameLinks(d, Retried(d, q, retries)) && !NamedByLink(Retried(d, q, retries), q.expectedCurrent)
    decreases |retries|
  {
    if retries != [] {
      var (publishing, cut) := retries[0];
      var next := After(d, if publishing then Publish(d, q) else Restore(d, q), cut);
      HalfRestoredIsStuck(next, q, retries[1..]);
    }
  }

  function Retried(d: Disk, q: Request, retries: seq<(bool, nat)>): (r: Disk)
    decreases |retries|
  {
    if retries == [] then d
    else
      var (publishing, cut) := retries[0];
      Retried(After(d, if publishing then Publish(d, q) else Restore(d, q), cut), q, retries[1..])
  }

  /** A crash after restore's first replacement reaches that state. */
  lemma RestoreCrashIsHalfRestored(d: Disk, q: Request)
    requires q.candidate != q.expectedCurrent && Observable(d) && StateOf(d, q) == COMPLETE
    ensures var e := After(d, Restore(d, q), 1); e.current == e.previous == Some(q.candidate)
  {
  }

  /** After a finished restore the disk's previous link names the failed
      candidate. A later update that expects the recorded pair is refused,
      whatever it installs, unless the recorded previous release is that very
      candidate. */
  lemma LaterUpdateAfterRestore(d: Disk, q: Request, later: Request)
    requires q.candidate != q.expectedCurrent && Observable(d) && StateOf(d, q) == COMPLETE
    requires later.expectedCurrent == q.expectedCurrent && later.expectedPrevious == q.expectedPrevious
    requires later.candidate != later.expectedCurrent
    ensures var e := Finished(d, Restore(d, q));
            StateOf(e, later) == if q.expectedPrevious == Some(q.candidate) then ABSENT else UNCERTAIN
  {
  }

  // --------------------------------------------------------------- the object

  /** The publisher over the durable fields; `log` is the disk after each
      atomic operation. */
  class PointerPublisher {
    var current: Option<Id>
    var previous: Option<Id>
    var releases: set<Id>
    var stages: map<string, Id>
    ghost var log: seq<Disk>

    function Snapshot(): (d: Disk)
      reads this
    {
      Disk(current, previous, releases, stages)
    }

    constructor (d: Disk)
      ensures Snapshot() == d && log == []
    {
      current, previous, releases, stages, log := d.current, d.previous, d.releases, d.stages, [];
    }

    method PublishPointerSet(q: Request) returns (outcome: Outcome)
      modifies this
      ensures var s := PublishSet(old(Snapshot()), q);
              outcome == s.outcome && log == old(log) + s.states && Snapshot() == Finished(old(Snapshot()), s)
    {
      if q.candidate !in releases || q.expectedCurrent !in releases
         || (q.expectedPrevious.Some? && q.expectedPrevious.value !in releases) || !Observable(Snapshot()) {
        return Refused;
      }
      var state := Classify(current, previous, q);
      if state == COMPLETE {
        return Published;
      }
      if state != ABSENT && state != PREPARED {
        return Refused;
      }
      if state == ABSENT {
        previous := Some(q.expectedCurrent);
        log := log + [Snapshot()];
      }
      current := Some(q.candidate);
      log := log + [Snapshot()];
      if Classify(current, previous, q) != COMPLETE {
        return Refused;
      }
      return Published;
    }

    method PublishRequest(q: Request) returns (outcome: Outcome)
      modifies this
      ensures var s := Publish(old(Snapshot()), q);
              outcome == s.outcome && log == old(log) + s.states && Snapshot() == Finished(old(Snapshot()), s)
    {
      if q.candidate !in releases {
        if q.stage == None || q.stage.value !in stages || stages[q.stage.value] != q.candidate {
          return Refused;
        }
        releases, stages := releases + {q.candidate}, stages - {q.stage.value};
        log := log + [Snapshot()];
      }
      outcome := PublishPointerSet(q);
    }

    method RestoreRequest(q: Request) returns (outcome: Outcome)
      modifies this
      ensures var s := Restore(old(Snapshot()), q);
              outcome == s.outcome && log == old(log) + s.states && Snapshot() == Finished(old(Snapshot()), s)
    {
      if !Observable(Snapshot()) {
        return Refused;
      }
      var state := Classify(current, previous, q);
      if state == ABSENT {
        return AlreadyAbsent;
      }
      if state != COMPLETE {
        return Refused;
      }
      var rollback := Request(q.expectedCurrent, q.candidate, Some(q.expectedCurrent), None);
      outcome := PublishRequest(rollback);
    }
  }
}
