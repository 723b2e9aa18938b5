/** The content-addressed artifact store under concurrent publishers and crashes
    (bc250_llm_mode/artifact_storage.py:126-154 and 175-234).

    A name is a hard link to an inode; a publisher's temporary is an inode of
    its own until the link is made, and the same inode afterwards. Every step
    below is one atomic operation of one publisher, or its death. The store has
    no other writer. */
module ArtifactStore {
  import opened Outcomes

  type Digest = string
  type Inode = nat
  type Thread = nat
  type Bytes = seq<nat>

  /** What a destination name can be: a regular file, something that cannot be
      opened without following a link, or something that is not a file. */
  datatype Entry = File(inode: Inode) | Unreadable | Special

  datatype Progress =
    | Absent(digest: Digest)
    | Copying(digest: Digest, inode: Inode)
    | Matched(digest: Digest, inode: Inode)
    | Linked(digest: Digest)
    | Outrun(digest: Digest)
    | Returned(digest: Digest)
    | Refused

  datatype Store = Store(names: map<Digest, Entry>, contents: map<Inode, Bytes>, publishers: map<Thread, Progress>)

  datatype Step =
    | Check(t: Thread, digest: Digest)
    | Create(t: Thread, inode: Inode)
    | Write(t: Thread, bytes: Bytes)
    | Rehash(t: Thread)
    | Link(t: Thread)
    | Recheck(t: Thread)
    | Finish(t: Thread)
    | Die(t: Thread)

  /** _identity_via_nofollow: Some(match), None when nothing can be opened. */
  datatype Identity = Nothing | Same | Different

  function IdentityOf(s: Store, sha: Bytes -> Digest, digest: Digest): (r: Identity) {
    if digest !in s.names then Nothing
    else match s.names[digest]
      case File(inode) => if inode in s.contents && sha(s.contents[inode]) == digest then Same else Different
      case Unreadable => Nothing
      case Special => Different
  }

  /** The name is a regular file whose bytes have that digest. */
  predicate Holds(s: Store, sha: Bytes -> Digest, digest: Digest) {
    && digest in s.names && s.names[digest].File? && s.names[digest].inode in s.contents
    && sha(s.contents[s.names[digest].inode]) == digest
  }

  /** The three answers: the file has the digest; nothing can be opened there; or
      what can be opened is another file or none. */
  lemma IdentityExactly(s: Store, sha: Bytes -> Digest, digest: Digest)
    ensures IdentityOf(s, sha, digest) == Same <==> Holds(s, sha, digest)
    ensures IdentityOf(s, sha, digest) == Nothing <==> digest !in s.names || s.names[digest] == Unreadable
  {
  }

  function At(s: Store, t: Thread): (p: Option<Progress>) {
    if t in s.publishers then Some(s.publishers[t]) else None
  }

  function Put(s: Store, t: Thread, p: Progress): (r: Store) {
    s.(publishers := s.publishers[t := p])
  }

  /** One step; a step whose publisher is not at that point changes nothing. */
  function Act(s: Store, sha: Bytes -> Digest, step: Step): (r: Store) {
    match step
    case Check(t, digest) =>
      if t in s.publishers then s
      else (match IdentityOf(s, sha, digest)
            case Nothing => Put(s, t, Absent(digest))
            case Same => Put(s, t, Returned(digest))
            case Different => Put(s, t, Refused))
    case Create(t, inode) =>
      (match At(s, t)
       case Some(Absent(digest)) =>
         if inode in s.contents || File(inode) in s.names.Values then s
         else Put(s.(contents := s.contents[inode := []]), t, Copying(digest, inode))
       case _ => s)
    case Write(t, bytes) =>
      (match At(s, t)
       case Some(Copying(_, inode)) =>
         if inode in s.contents then s.(contents := s.contents[inode := s.contents[inode] + bytes]) else s
       case _ => s)
    case Rehash(t) =>
      (match At(s, t)
       case Some(Copying(digest, inode)) =>
         Put(s, t, if inode in s.contents && sha(s.contents[inode]) == digest then Matched(digest, inode) else Refused)
       case _ => s)
    case Link(t) =>
      (match At(s, t)
       case Some(Matched(digest, inode)) =>
         if digest in s.names then Put(s, t, Outrun(digest))
         else Put(s.(names := s.names[digest := File(inode)]), t, Linked(digest))
       case _ => s)
    case Recheck(t) =>
      (match At(s, t)
       case Some(Outrun(digest)) => Put(s, t, if IdentityOf(s, sha, digest) == Same then Returned(digest) else Refused)
       case _ => s)
    case Finish(t) =>
      (match At(s, t)
       case Some(Linked(digest)) => Put(s, t, Returned(digest))
       case _ => s)
    case Die(t) => s.(publishers := s.publishers - {t})
  }

  function Run(s: Store, sha: Bytes -> Digest, steps: seq<Step>): (r: Store)
    decreases |steps|
  {
    if steps == [] then s else Run(Act(s, sha, steps[0]), sha, steps[1..])
  }

  // ------------------------------------------------------------------- invariant

  predicate Published(s: Store, inode: Inode) {
    exists d | d in s.names :: s.names[d] == File(inode)
  }

  predicate Owns(s: Store, t: Thread, inode: Inode) {
    t in s.publishers
    && ((s.publishers[t].Copying? || s.publishers[t].Matched?) && s.publishers[t].inode == inode)
  }

  /** A temporary belongs to one publisher and is linked nowhere; a matched one
      has its digest; a returned or linked name is a file with its digest. */
  predicate Inv(s: Store, sha: Bytes -> Digest) {
    && (forall d | d in s.names && s.names[d].File? :: s.names[d].inode in s.contents)
    && (forall t | t in s.publishers :: PublisherSound(s, sha, t))
    && (forall t, u | t in s.publishers && u in s.publishers && t != u
                      && (s.publishers[u].Copying? || s.publishers[u].Matched?) :: !Owns(s, t, s.publishers[u].inode))
  }

  predicate PublisherSound(s: Store, sha: Bytes -> Digest, t: Thread)
    requires t in s.publishers
  {
    match s.publishers[t]
    case Copying(_, inode) => inode in s.contents && !Published(s, inode)
    case Matched(digest, inode) => inode in s.contents && !Published(s, inode) && sha(s.contents[inode]) == digest
    case Linked(digest) => IdentityOf(s, sha, digest) == Same
    case Returned(digest) => IdentityOf(s, sha, digest) == Same
    case _ => true
  }

  /** Every name keeps its file, and every file that has a name its bytes; a new
      name is a file with the digest it is named after. */
  predicate Kept(s: Store, e: Store, sha: Bytes -> Digest) {
    && (forall d | d in s.names :: d in e.names && e.names[d] == s.names[d])
    && (forall d | d in s.names && s.names[d].File? && s.names[d].inode in s.contents ::
          s.names[d].inode in e.contents && e.contents[s.names[d].inode] == s.contents[s.names[d].inode])
    && (forall d | d in e.names && d !in s.names :: Holds(e, sha, d))
  }

  lemma ActKeeps(s: Store, sha: Bytes -> Digest, step: Step)
    requires Inv(s, sha)
    ensures Kept(s, Act(s, sha, step), sha)
  {
    if step.Write? && step.t in s.publishers {
      assert PublisherSound(s, sha, step.t);
    }
    if step.Link? && step.t in s.publishers {
      assert PublisherSound(s, sha, step.t);
    }
  }

  lemma SameStaysSame(s: Store, e: Store, sha: Bytes -> Digest, d: Digest)
    requires Kept(s, e, sha) && IdentityOf(s, sha, d) == Same
    ensures IdentityOf(e, sha, d) == Same
  {
  }

  lemma ActKeepsNames(s: Store, sha: Bytes -> Digest, step: Step)
    requires Inv(s, sha)
    ensures var e := Act(s, sha, step); forall d | d in e.names && e.names[d].File? :: e.names[d].inode in e.contents
  {
    if step.Link? && step.t in s.publishers {
      assert PublisherSound(s, sha, step.t);
    }
  }

  /** An inode a publisher holds after a step it held before, or has just made. */
  lemma OwnsBefore(s: Store, sha: Bytes -> Digest, step: Step, t: Thread, inode: Inode)
    requires Owns(Act(s, sha, step), t, inode)
    ensures Owns(s, t, inode) || (step == Create(t, inode) && inode !in s.contents)
  {
  }

  lemma ActKeepsOwners(s: Store, sha: Bytes -> Digest, step: Step, t: Thread, u: Thread)
    requires Inv(s, sha)
    requires var e := Act(s, sha, step);
             t in e.publishers && u in e.publishers && t != u && (e.publishers[u].Copying? || e.publishers[u].Matched?)
    ensures var e := Act(s, sha, step); !Owns(e, t, e.publishers[u].inode)
  {
    var e := Act(s, sha, step);
    var inode := e.publishers[u].inode;
    assert Owns(e, u, inode);
    if t in s.publishers {
      assert PublisherSound(s, sha, t);
    }
    if u in s.publishers {
      assert PublisherSound(s, sha, u);
    }
    hide Act, Published, IdentityOf;
    if Owns(e, t, inode) {
      OwnsBefore(s, sha, step, t, inode);
      OwnsBefore(s, sha, step, u, inode);
    }
  }

  lemma ActKeepsPublisher(s: Store, sha: Bytes -> Digest, step: Step, t: Thread)
    requires Inv(s, sha) && t in Act(s, sha, step).publishers
    ensures PublisherSound(Act(s, sha, step), sha, t)
  {
    var e := Act(s, sha, step);
    if t in s.publishers && e.publishers[t] == s.publishers[t] {
      hide Act, Published, IdentityOf, Kept;
      assert PublisherSound(s, sha, t);
      ActKeeps(s, sha, step);
      match s.publishers[t] {
        case Linked(d) => SameStaysSame(s, e, sha, d);
        case Returned(d) => SameStaysSame(s, e, sha, d);
        case Copying(_, inode) => TemporaryIsKept(s, sha, step, t, inode);
        case Matched(_, inode) => TemporaryIsKept(s, sha, step, t, inode);
        case _ =>
      }
    } else {
      OwnStepIsSound(s, sha, step, t);
    }
  }

  /** A publisher that moved is sound where it arrives. */
  lemma OwnStepIsSound(s: Store, sha: Bytes -> Digest, step: Step, t: Thread)
    requires Inv(s, sha) && t in Act(s, sha, step).publishers
    requires t in s.publishers ==> Act(s, sha, step).publishers[t] != s.publishers[t]
    ensures PublisherSound(Act(s, sha, step), sha, t)
  {
    if t in s.publishers {
      assert PublisherSound(s, sha, t);
    }
  }

  /** Nobody else links or, once it is matched, writes a publisher's temporary. */
  lemma TemporaryIsKept(s: Store, sha: Bytes -> Digest, step: Step, t: Thread, inode: Inode)
    requires Inv(s, sha) && Owns(s, t, inode) && Act(s, sha, step).publishers.Keys >= {t}
    requires Act(s, sha, step).publishers[t] == s.publishers[t]
    ensures var e := Act(s, sha, step);
            && inode in e.contents && !Published(e, inode)
            && (s.publishers[t].Matched? ==> e.contents[inode] == s.contents[inode])
  {
    assert PublisherSound(s, sha, t);
    var e := Act(s, sha, step);
    if step.t in s.publishers && step.t != t && Owns(s, step.t, s.publishers[t].inode) {
      assert false;
    }
  }

  lemma ActKeepsInv(s: Store, sha: Bytes -> Digest, step: Step)
    requires Inv(s, sha)
    ensures Inv(Act(s, sha, step), sha)
  {
    hide Act, PublisherSound, Owns;
    var e := Act(s, sha, step);
    ActKeepsNames(s, sha, step);
    forall t | t in e.publishers ensures PublisherSound(e, sha, t) {
      ActKeepsPublisher(s, sha, step, t);
    }
    forall t, u | t in e.publishers && u in e.publishers && t != u && (e.publishers[u].Copying? || e.publishers[u].Matched?)
      ensures !Owns(e, t, e.publishers[u].inode) {
      ActKeepsOwners(s, sha, step, t, u);
    }
  }

  lemma KeptIsTransitive(a: Store, b: Store, c: Store, sha: Bytes -> Digest)
    requires Kept(a, b, sha) && Kept(b, c, sha)
    ensures Kept(a, c, sha)
  {
    forall d | d in c.names && d !in a.names ensures IdentityOf(c, sha, d) == Same {
      if d in b.names {
        SameStaysSame(b, c, sha, d);
      }
    }
  }

  /** Over every interleaving of publishers and crashes: a name never changes
      what it stands for, a file with a name never changes its bytes, and every
      name that appears is a file whose bytes have that digest. */
  lemma {:induction false} PublishedNamesAreSound(s: Store, sha: Bytes -> Digest, steps: seq<Step>)
    requires Inv(s, sha)
    ensures Kept(s, Run(s, sha, steps), sha) && Inv(Run(s, sha, steps), sha)
    decreases |steps|
  {
    hide Inv, Kept, Act;
    if steps == [] {
      KeptIsReflexive(s, sha);
    } else {
      var next := Act(s, sha, steps[0]);
      ActKeepsInv(s, sha, steps[0]);
      ActKeeps(s, sha, steps[0]);
      PublishedNamesAreSound(next, sha, steps[1..]);
      KeptIsTransitive(s, next, Run(next, sha, steps[1..]), sha);
    }
  }

  lemma KeptIsReflexive(s: Store, sha: Bytes -> Digest)
    ensures Kept(s, s, sha)
  {
  }

  /** A publisher that returned a destination returned one that holds the
      digest it was asked for, and it still does in every later state, whatever
      the store contained when the run began. */
  lemma ReturnedDestinationsHold(s: Store, sha: Bytes -> Digest, steps: seq<Step>, t: Thread, later: seq<Step>)
    requires Inv(s, sha)
    requires var e := Run(s, sha, steps); t in e.publishers && e.publishers[t].Returned?
    ensures var e := Run(s, sha, steps);
            && Holds(e, sha, e.publishers[t].digest)
            && Holds(Run(e, sha, later), sha, e.publishers[t].digest)
  {
    var e := Run(s, sha, steps);
    PublishedNamesAreSound(s, sha, steps);
    assert PublisherSound(e, sha, t);
    PublishedNamesAreSound(e, sha, later);
    SameStaysSame(e, Run(e, sha, later), sha, e.publishers[t].digest);
  }

  // ---------------------------------------------------------------- one publisher

  const CHUNK_BYTES := 4 * 1024 * 1024

  /** One more step of a run. */
  lemma {:induction false} RunOneMore(s: Store, sha: Bytes -> Digest, steps: seq<Step>, step: Step)
    ensures Run(s, sha, steps + [step]) == Act(Run(s, sha, steps), sha, step)
    decreases |steps|
  {
    hide Act;
    if steps == [] {
      assert ([] + [step])[1..] == [];
    } else {
      assert (steps + [step])[1..] == steps[1..] + [step];
      RunOneMore(Act(s, sha, steps[0]), sha, steps[1..], step);
    }
  }

  /** publish_no_replace by publisher `t` while the `others` stand still, over the
      names and inodes of the store. `steps` are the atomic steps it makes. */
  class Publisher {
    var names: map<Digest, Entry>
    var contents: map<Inode, Bytes>

    constructor (names: map<Digest, Entry>, contents: map<Inode, Bytes>)
      ensures this.names == names && this.contents == contents
    {
      this.names, this.contents := names, contents;
    }

    function Snapshot(): (s: Store)
      reads this
    {
      Store(names, contents, map[])
    }

    ghost function World(others: map<Thread, Progress>): (s: Store)
      reads this
    {
      Store(names, contents, others)
    }

    /** Copying, the loop of the method: one write a chunk. */
    method Copy(source: Bytes, digest: Digest, temporary: Inode, sha: Bytes -> Digest,
                ghost others: map<Thread, Progress>, ghost t: Thread, ghost s: Store, ghost before: seq<Step>)
      returns (ghost steps: seq<Step>)
      requires temporary in contents && contents[temporary] == []
      requires t in others && others[t] == Copying(digest, temporary) && Run(s, sha, before) == World(others)
      modifies this`contents
      ensures contents == old(contents)[temporary := source]
      ensures Run(s, sha, steps) == World(others) && before <= steps
      ensures forall i | |before| <= i < |steps| :: steps[i].t == t
    {
      hide Run, IdentityOf;
      steps := before;
      var copied := 0;
      while copied < |source|
        invariant 0 <= copied <= |source| && contents == old(contents)[temporary := source[..copied]]
        invariant Run(s, sha, steps) == World(others) && before <= steps
        invariant forall i | |before| <= i < |steps| :: steps[i].t == t
      {
        var end := if copied + CHUNK_BYTES < |source| then copied + CHUNK_BYTES else |source|;
        assert source[..end] == source[..copied] + source[copied..end];
        RunOneMore(s, sha, steps, Write(t, source[copied..end]));
        contents := contents[temporary := contents[temporary] + source[copied..end]];
        steps := steps + [Write(t, source[copied..end])];
        copied := end;
      }
      assert source[..copied] == source;
    }

    /** The incoming temporary: created, filled and hashed again. */
    method Incoming(source: Bytes, digest: Digest, temporary: Inode, sha: Bytes -> Digest,
                    ghost others: map<Thread, Progress>, ghost t: Thread, ghost s: Store, ghost before: seq<Step>)
      returns (matches: bool, ghost steps: seq<Step>)
      requires temporary !in contents && File(temporary) !in names.Values
      requires t in others && others[t] == Absent(digest) && Run(s, sha, before) == World(others)
      modifies this`contents
      ensures contents == old(contents)[temporary := source] && matches == (sha(source) == digest)
      ensures Run(s, sha, steps) == World(others[t := if matches then Matched(digest, temporary) else Refused])
      ensures before <= steps && forall i | |before| <= i < |steps| :: steps[i].t == t
    {
      hide Run, IdentityOf;
      RunOneMore(s, sha, before, Create(t, temporary));
      contents := contents[temporary := []];
      steps := before + [Create(t, temporary)];
      ghost var copying := others[t := Copying(digest, temporary)];
      steps := Copy(source, digest, temporary, sha, copying, t, s, steps);
      RunOneMore(s, sha, steps, Rehash(t));
      steps := steps + [Rehash(t)];
      matches := sha(contents[temporary]) == digest;
      Overwrite(others, t, copying[t], if matches then Matched(digest, temporary) else Refused);
    }

    /** The link of a matched temporary, or the second look at what is there. */
    method LinkIncoming(digest: Digest, temporary: Inode, sha: Bytes -> Digest,
                        ghost others: map<Thread, Progress>, ghost t: Thread, ghost s: Store, ghost before: seq<Step>)
      returns (ok: bool, ghost steps: seq<Step>)
      requires t in others && others[t] == Matched(digest, temporary) && Run(s, sha, before) == World(others)
      modifies this`names
      ensures ok == (digest !in old(names) || Holds(old(Snapshot()), sha, digest))
      ensures names == if digest in old(names) then old(names) else old(names)[digest := File(temporary)]
      ensures Run(s, sha, steps) == World(others[t := if ok then Returned(digest) else Refused])
      ensures before <= steps && forall i | |before| <= i < |steps| :: steps[i].t == t
    {
      hide Run;
      RunOneMore(s, sha, before, Link(t));
      steps := before + [Link(t)];
      if digest in names {
        RunOneMore(s, sha, steps, Recheck(t));
        steps := steps + [Recheck(t)];
        ok := IdentityOf(Snapshot(), sha, digest) == Same;
        Overwrite(others, t, Outrun(digest), if ok then Returned(digest) else Refused);
        return ok, steps;
      }
      names := names[digest := File(temporary)];
      RunOneMore(s, sha, steps, Finish(t));
      Overwrite(others, t, Linked(digest), Returned(digest));
      return true, steps + [Finish(t)];
    }

    method PublishNoReplace(source: Bytes, digest: Digest, temporary: Inode, sha: Bytes -> Digest,
                            ghost others: map<Thread, Progress>, ghost t: Thread)
      returns (ok: bool, ghost steps: seq<Step>)
      requires temporary !in contents && forall d | d in names && names[d].File? :: names[d].inode in contents
      requires t !in others
      modifies this
      ensures ok <==> Holds(old(Snapshot()), sha, digest) || (digest !in old(names) && sha(source) == digest)
      ensures ok ==> Holds(Snapshot(), sha, digest)
      ensures names == if ok && digest !in old(names) then old(names)[digest := File(temporary)] else old(names)
      ensures ok && digest !in old(names) ==> temporary in contents && contents[temporary] == source
      ensures forall i | i in old(contents) :: i in contents && contents[i] == old(contents)[i]
      ensures Run(old(World(others)), sha, steps) == World(others[t := if ok then Returned(digest) else Refused])
      ensures forall i | 0 <= i < |steps| :: steps[i].t == t
    {
      hide Run;
      ghost var s := World(others);
      RunNothing(s, sha);
      RunOneMore(s, sha, [], Check(t, digest));
      steps := [] + [Check(t, digest)];
      var existing := IdentityOf(Snapshot(), sha, digest);
      if existing != Nothing {
        return existing == Same, steps;
      }
      hide Act;
      var matches;
      matches, steps := Incoming(source, digest, temporary, sha, others[t := Absent(digest)], t, s, steps);
      ghost var now: Progress := if matches then Matched(digest, temporary) else Refused;
      Overwrite(others, t, Absent(digest), now);
      if !matches {
        return false, steps;
      }
      ok, steps := LinkIncoming(digest, temporary, sha, others[t := now], t, s, steps);
      Overwrite(others, t, now, if ok then Returned(digest) else Refused);
    }
  }

  lemma Overwrite(others: map<Thread, Progress>, t: Thread, first: Progress, second: Progress)
    ensures others[t := first][t := second] == others[t := second]
  {
  }

  lemma RunNothing(s: Store, sha: Bytes -> Digest)
    ensures Run(s, sha, []) == s
  {
  }
}
