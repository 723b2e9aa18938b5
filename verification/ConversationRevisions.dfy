/** The revision fence of the conversation files
    (bc250_llm_mode/conversation_service.py:131-145, 160-183, 206-247 and
    481-494): several clients share one directory, every call is made under an
    exclusive lock, and each client remembers the revision it last saw.

    A file is its revision and everything else in it; sanitising a name is an
    arbitrary idempotent function. */
module ConversationRevisions {
  import opened Outcomes

  type Name = string
  type ClientId = nat

  const MAX_FILES := 200

  /** A stored conversation, or a file that does not decode. */
  datatype Stored = Conversation(revision: nat, content: string) | Malformed

  type Files = map<Name, Stored>
  type Seen = map<Name, nat>
  type Safe = Name -> Option<Name>

  ghost predicate Idempotent(safe: Safe) {
    forall n, m | safe(n) == Some(m) :: safe(m) == Some(m)
  }

  // ---------------------------------------------------------------- single calls

  /** The revision a save of `id` claims to replace. */
  function Claimed(seen: Seen, id: Name, expected: Option<int>, current: nat): (r: int) {
    if expected.Some? then expected.value else if id in seen then seen[id] else current
  }

  /** `save` of a valid record: the new revision, or None when it raises. */
  function SavedRevision(safe: Safe, files: Files, seen: Seen, id: Name, expected: Option<int>): (r: Option<nat>) {
    match safe(id)
    case None => None
    case Some(target) =>
      if target !in files then (if |files| >= MAX_FILES then None else Some(1))
      else match files[target]
        case Malformed => None
        case Conversation(current, _) => if Claimed(seen, id, expected, current) == current then Some(current + 1) else None
  }

  // -------------------------------------------------------------- many clients

  /** `shown` is the content the client had before it at that revision. */
  datatype Client = Client(seen: Seen, shown: map<Name, string>)

  datatype World = World(files: Files, clients: map<ClientId, Client>)

  datatype Event =
    | Load(client: ClientId, id: Name)
    | Save(client: ClientId, id: Name, content: string, expected: Option<int>)
    | Delete(client: ClientId, id: Name)

  function ClientOf(w: World, c: ClientId): (r: Client) {
    if c in w.clients then w.clients[c] else Client(map[], map[])
  }

  function RevisionAt(files: Files, n: Name): (r: Option<nat>) {
    if n in files && files[n].Conversation? then Some(files[n].revision) else None
  }

  function SeenBy(w: World, c: ClientId, n: Name): (r: Option<nat>) {
    if n in ClientOf(w, c).seen then Some(ClientOf(w, c).seen[n]) else None
  }

  function ShownTo(w: World, c: ClientId, n: Name): (content: Option<string>) {
    if n in ClientOf(w, c).shown then Some(ClientOf(w, c).shown[n]) else None
  }

  function Noticed(w: World, c: ClientId, target: Name, revision: nat, content: string): (r: World) {
    var k := ClientOf(w, c);
    w.(clients := w.clients[c := Client(k.seen[target := revision], k.shown[target := content])])
  }

  /** One call; a call that raises changes nothing. */
  function Act(w: World, safe: Safe, e: Event): (r: World) {
    match e
    case Load(c, id) =>
      (match safe(id)
       case Some(target) =>
         if target in w.files && w.files[target].Conversation?
         then Noticed(w, c, target, w.files[target].revision, w.files[target].content) else w
       case None => w)
    case Save(c, id, content, expected) =>
      (match SavedRevision(safe, w.files, ClientOf(w, c).seen, id, expected)
       case Some(revision) =>
         var target := safe(id).value;
         Noticed(w.(files := w.files[target := Conversation(revision, content)]), c, target, revision, content)
       case None => w)
    case Delete(c, id) =>
      (match safe(id)
       case Some(target) =>
         if target in w.files then
           World(w.files - {target}, w.clients[c := Client(ClientOf(w, c).seen - {id}, ClientOf(w, c).shown)])
         else w
       case None => w)
  }

  function Run(w: World, safe: Safe, events: seq<Event>): (r: World)
    decreases |events|
  {
    if events == [] then w else Run(Act(w, safe, events[0]), safe, events[1..])
  }

  predicate Succeeds(w: World, safe: Safe, e: Event) {
    e.Save? && SavedRevision(safe, w.files, ClientOf(w, e.client).seen, e.id, e.expected).Some?
  }

  // ------------------------------------------------------------------- invariant

  /** What a client remembers of a file is its past: an older revision, or the
      present one with the content the client was shown. Remembered names are
      sanitised ones. */
  predicate Remembers(w: World, safe: Safe, c: ClientId, n: Name)
    requires c in w.clients
  {
    n in w.clients[c].seen ==>
      && safe(n) == Some(n) && n in w.clients[c].shown && n in w.files && w.files[n].Conversation?
      && w.clients[c].seen[n] <= w.files[n].revision
      && (w.clients[c].seen[n] == w.files[n].revision ==> w.clients[c].shown[n] == w.files[n].content)
  }

  ghost predicate Inv(w: World, safe: Safe) {
    forall c, n | c in w.clients :: Remembers(w, safe, c, n)
  }

  lemma ActKeepsInv(w: World, safe: Safe, e: Event)
    requires Idempotent(safe) && Inv(w, safe) && !e.Delete?
    ensures Inv(Act(w, safe, e), safe)
  {
    var next := Act(w, safe, e);
    forall c, n | c in next.clients ensures Remembers(next, safe, c, n) {
      if c in w.clients {
        assert Remembers(w, safe, c, n);
      }
    }
  }

  /** A save under a sanitised name, without an explicit revision, by a client
      that remembers the file. */
  predicate Fenced(w: World, safe: Safe, save: Event) {
    save.Save? && save.expected == None && safe(save.id) == Some(save.id) && SeenBy(w, save.client, save.id).Some?
  }

  predicate WithoutDeletes(events: seq<Event>) {
    forall i | 0 <= i < |events| :: !events[i].Delete?
  }

  lemma {:induction false} RunKeepsInv(w: World, safe: Safe, events: seq<Event>)
    requires Idempotent(safe) && Inv(w, safe) && WithoutDeletes(events)
    ensures Inv(Run(w, safe, events), safe)
    decreases |events|
  {
    if events != [] {
      ActKeepsInv(w, safe, events[0]);
      RunKeepsInv(Act(w, safe, events[0]), safe, events[1..]);
    }
  }

  /** No update is lost: however the clients' loads and saves interleave, a save
      under a sanitised name by a client that has seen the file succeeds exactly
      when the file is what that client was shown; the revision rises by one. */
  lemma NoUpdateIsLost(w: World, safe: Safe, events: seq<Event>, save: Event)
    requires Idempotent(safe) && Inv(w, safe) && WithoutDeletes(events) && Fenced(Run(w, safe, events), safe, save)
    ensures var e := Run(w, safe, events);
            var client := ClientOf(e, save.client);
            && save.id in e.files && save.id in client.shown
            && (Succeeds(e, safe, save) <==>
                  e.files[save.id] == Conversation(client.seen[save.id], client.shown[save.id]))
            && Act(e, safe, save).files[save.id] ==
               if Succeeds(e, safe, save) then Conversation(client.seen[save.id] + 1, save.content) else e.files[save.id]
  {
    RunKeepsInv(w, safe, events);
    var e := Run(w, safe, events);
    assert Remembers(e, safe, save.client, save.id);
  }

  /** Of two clients that saw the same revision, only the first to save wins,
      whatever other loads and saves come in between. */
  lemma SecondSaverIsRefused(w: World, safe: Safe, first: Event, between: seq<Event>, second: Event)
    requires Inv(w, safe) && first.Save? && Fenced(w, safe, second)
    requires first.id == second.id && first.client != second.client && Succeeds(w, safe, first)
    requires WithoutDeletes(between) && forall i | 0 <= i < |between| :: between[i].client != second.client
    ensures !Succeeds(Run(Act(w, safe, first), safe, between), safe, second)
  {
    assert Remembers(w, safe, second.client, second.id);
    OthersOnlyRaise(Act(w, safe, first), safe, between, second.client, second.id);
  }

  /** Without deletions a file stays and its revision never falls, and a client
      that makes no call forgets nothing. */
  lemma {:induction false} OthersOnlyRaise(w: World, safe: Safe, events: seq<Event>, c: ClientId, n: Name)
    requires n in w.files && w.files[n].Conversation?
    requires WithoutDeletes(events) && forall i | 0 <= i < |events| :: events[i].client != c
    ensures var e := Run(w, safe, events);
            n in e.files && e.files[n].Conversation? && e.files[n].revision >= w.files[n].revision
            && ClientOf(e, c) == ClientOf(w, c)
    decreases |events|
  {
    if events != [] {
      OthersOnlyRaise(Act(w, safe, events[0]), safe, events[1..], c, n);
    }
  }

  // ------------------------------------------------------ the limits of the fence

  /** Saving under a name that sanitising changes is not fenced at all: the
      remembered revision is looked up under the name as given, and kept under
      the sanitised one. The fence holds exactly for names that are their own
      sanitised form. */
  lemma FenceHoldsExactlyForSafeNames(safe: Safe, id: Name)
    requires Idempotent(safe) && safe(id).Some?
    ensures id == safe(id).value <==>
            forall w: World, c: ClientId, content: string |
              Inv(w, safe) && SeenBy(w, c, safe(id).value).Some? && Succeeds(w, safe, Save(c, id, content, None)) ::
              RevisionAt(w.files, safe(id).value) == SeenBy(w, c, safe(id).value)
  {
    var target := safe(id).value;
    if id == target {
      forall w: World, c: ClientId, content: string |
        Inv(w, safe) && SeenBy(w, c, target).Some? && Succeeds(w, safe, Save(c, id, content, None))
        ensures RevisionAt(w.files, target) == SeenBy(w, c, target) {
        assert Remembers(w, safe, c, target);
      }
    } else {
      var w := World(map[target := Conversation(2, "theirs")], map[0 := Client(map[target := 1], map[target := "mine"])]);
      assert Inv(w, safe);
      assert Succeeds(w, safe, Save(0, id, "", None));
    }
  }

  /** What happened to one file: whether it was deleted, and how often it was
      saved since the last deletion, or since the start, and with what last. */
  datatype History = History(deleted: bool, saves: nat, last: string)

  function Extended(w: World, safe: Safe, e: Event, n: Name, h: History): (r: History) {
    if e.Delete? && safe(e.id) == Some(n) && n in w.files then History(true, 0, "")
    else if e.Save? && safe(e.id) == Some(n) && Succeeds(w, safe, e) then History(h.deleted, h.saves + 1, e.content)
    else h
  }

  function HistoryOf(w: World, safe: Safe, events: seq<Event>, n: Name, h: History): (r: History)
    decreases |events|
  {
    if events == [] then h
    else HistoryOf(Act(w, safe, events[0]), safe, events[1..], n, Extended(w, safe, events[0], n, h))
  }

  /** The file, given its history since it was `Conversation(revision, shown)`. */
  predicate Follows(files: Files, n: Name, h: History, revision: nat, shown: string) {
    if h.saves > 0 then
      n in files && files[n] == Conversation(if h.deleted then h.saves else revision + h.saves, h.last)
    else if h.deleted then n !in files
    else n in files && files[n] == Conversation(revision, shown)
  }

  lemma ActFollows(w: World, safe: Safe, e: Event, c: ClientId, n: Name, h: History, revision: nat, shown: string)
    requires Follows(w.files, n, h, revision, shown) && e.client != c
    ensures Follows(Act(w, safe, e).files, n, Extended(w, safe, e, n, h), revision, shown)
    ensures ClientOf(Act(w, safe, e), c) == ClientOf(w, c)
  {
  }

  lemma {:induction false} RunFollows(w: World, safe: Safe, events: seq<Event>, c: ClientId, n: Name, h: History,
                                      revision: nat, shown: string)
    requires Follows(w.files, n, h, revision, shown) && forall i | 0 <= i < |events| :: events[i].client != c
    ensures Follows(Run(w, safe, events).files, n, HistoryOf(w, safe, events, n, h), revision, shown)
    ensures ClientOf(Run(w, safe, events), c) == ClientOf(w, c)
    decreases |events|
  {
    hide Follows, Act, Extended;
    if events != [] {
      ActFollows(w, safe, events[0], c, n, h, revision, shown);
      RunFollows(Act(w, safe, events[0]), safe, events[1..], c, n, Extended(w, safe, events[0], n, h), revision, shown);
    }
  }

  /** A client has noticed a file once it has loaded or saved it. */
  predicate HasNoticed(w: World, c: ClientId, n: Name) {
    && SeenBy(w, c, n).Some? && ShownTo(w, c, n).Some?
    && n in w.files && w.files[n] == Conversation(SeenBy(w, c, n).value, ShownTo(w, c, n).value)
  }

  /** When any save succeeds, with or without an explicit revision, and what each
      call does to the files. */
  lemma SaveExactlyWhen(w: World, safe: Safe, save: Event)
    requires save.Save?
    ensures Succeeds(w, safe, save) <==>
            && safe(save.id).Some?
            && var n := safe(save.id).value;
            if n !in w.files then |w.files| < 200
            else
              && w.files[n].Conversation?
              && (if save.expected.Some? then save.expected.value == w.files[n].revision
                  else SeenBy(w, save.client, save.id) == None
                       || SeenBy(w, save.client, save.id) == Some(w.files[n].revision))
    ensures Act(w, safe, save).files ==
            if !Succeeds(w, safe, save) then w.files
            else
              var n := safe(save.id).value;
              w.files[n := Conversation(if n in w.files then w.files[n].revision + 1 else 1, save.content)]
    ensures !Succeeds(w, safe, save) ==> Act(w, safe, save) == w
  {
  }

  lemma LoadAndDeleteEffect(w: World, safe: Safe, e: Event)
    requires !e.Save?
    ensures Act(w, safe, e).files == if e.Delete? && safe(e.id).Some? then w.files - {safe(e.id).value} else w.files
    ensures e.Delete? ==> SeenBy(Act(w, safe, e), e.client, e.id) == None || Act(w, safe, e) == w
  {
  }

  lemma LoadingAndSavingNotice(w: World, safe: Safe, e: Event)
    requires safe(e.id).Some?
    requires if e.Load? then RevisionAt(w.files, safe(e.id).value).Some? else Succeeds(w, safe, e)
    ensures HasNoticed(Act(w, safe, e), e.client, safe(e.id).value)
  {
  }

  /** When the fence holds, for every run of the other clients since this one last
      noticed the file: its save succeeds if and only if nothing happened to the
      file; or it was deleted, not saved again, and there is room for a new file;
      or it was deleted and then saved exactly as often as the remembered revision
      says. It replaces what the client was shown in the first case only: in the
      second it brings the file back, in the third it replaces the last of the
      other clients' saves. */
  lemma FencedSaveSucceedsExactlyWhen(w: World, safe: Safe, events: seq<Event>, save: Event)
    requires Fenced(w, safe, save) && HasNoticed(w, save.client, save.id)
    requires forall i | 0 <= i < |events| :: events[i].client != save.client
    ensures var n, revision, shown := save.id, SeenBy(w, save.client, save.id).value, ShownTo(w, save.client, save.id).value;
            var e, h := Run(w, safe, events), HistoryOf(w, safe, events, save.id, History(false, 0, ""));
            && (Succeeds(e, safe, save) <==>
                  if !h.deleted then h.saves == 0
                  else if h.saves == 0 then |e.files| < MAX_FILES
                  else h.saves == revision)
            && (Succeeds(e, safe, save) ==>
                  if !h.deleted then n in e.files && e.files[n] == Conversation(revision, shown)
                  else if h.saves == 0 then n !in e.files && Act(e, safe, save).files[n] == Conversation(1, save.content)
                  else n in e.files && e.files[n] == Conversation(revision, h.last))
  {
    hide Run, HistoryOf;
    var revision, shown := SeenBy(w, save.client, save.id).value, ShownTo(w, save.client, save.id).value;
    RunFollows(w, safe, events, save.client, save.id, History(false, 0, ""), revision, shown);
  }

  /** Another client deletes the file and saves it `times` times. */
  function DeleteAndRewrite(other: ClientId, n: Name, content: string, times: nat): (events: seq<Event>) {
    if times == 0 then [Delete(other, n)]
    else DeleteAndRewrite(other, n, content, times - 1) + [Save(other, n, content, None)]
  }

  lemma {:induction false} RunSplits(w: World, safe: Safe, before: seq<Event>, after: seq<Event>)
    ensures Run(w, safe, before + after) == Run(Run(w, safe, before), safe, after)
    decreases |before|
  {
    if before == [] {
      assert before + after == after;
    } else {
      assert (before + after)[1..] == before[1..] + after;
      RunSplits(Act(w, safe, before[0]), safe, before[1..], after);
    }
  }

  lemma {:induction false} Rewritten(w: World, safe: Safe, other: ClientId, n: Name, content: string, times: nat)
    requires safe(n) == Some(n) && n in w.files && |w.files| <= MAX_FILES
    ensures IsRewritten(w, Run(w, safe, DeleteAndRewrite(other, n, content, times)), other, n, content, times)
  {
    hide Run, Act, IsRewritten;
    if times == 0 {
      RunOne(w, safe, Delete(other, n));
      DeletedIsRewritten(w, safe, other, n, content);
    } else {
      var before := DeleteAndRewrite(other, n, content, times - 1);
      var save := Save(other, n, content, None);
      Rewritten(w, safe, other, n, content, times - 1);
      RunSplits(w, safe, before, [save]);
      RunOne(Run(w, safe, before), safe, save);
      SavedIsRewritten(w, Run(w, safe, before), safe, other, n, content, times - 1);
    }
  }

  /** `e` is `w` after the deletion and `times` saves, as far as `n` and the
      other clients are concerned. */
  ghost predicate IsRewritten(w: World, e: World, other: ClientId, n: Name, content: string, times: nat) {
    && (forall c | c != other :: ClientOf(e, c) == ClientOf(w, c))
    && (if times == 0 then e.files == w.files - {n} && SeenBy(e, other, n) == None
        else n in e.files && e.files[n] == Conversation(times, content) && SeenBy(e, other, n) == Some(times))
  }

  lemma RunOne(w: World, safe: Safe, e: Event)
    ensures Run(w, safe, [e]) == Act(w, safe, e)
  {
    assert [e][1..] == [];
  }

  lemma DeletedIsRewritten(w: World, safe: Safe, other: ClientId, n: Name, content: string)
    requires safe(n) == Some(n) && n in w.files
    ensures IsRewritten(w, Act(w, safe, Delete(other, n)), other, n, content, 0)
  {
  }

  lemma SavedIsRewritten(w: World, m: World, safe: Safe, other: ClientId, n: Name, content: string, times: nat)
    requires safe(n) == Some(n) && n in w.files && |w.files| <= MAX_FILES && IsRewritten(w, m, other, n, content, times)
    ensures IsRewritten(w, Act(m, safe, Save(other, n, content, None)), other, n, content, times + 1)
  {
    if times == 0 {
      FewerFiles(w.files, n);
    }
  }

  lemma FewerFiles(files: Files, n: Name)
    requires n in files
    ensures |files - {n}| < |files|
  {
    assert (files - {n}).Keys == files.Keys - {n};
    assert |(files - {n}).Keys| == |files - {n}|;
  }

  /** One deletion is enough to defeat the fence: whatever revision a client
      saw, another can delete the file and write it up to that revision with
      content of its own, which the first client's save then replaces. */
  lemma DeletionDefeatsTheFence(w: World, safe: Safe, c: ClientId, other: ClientId, n: Name, theirs: string, mine: string)
    requires Inv(w, safe) && c != other && |w.files| <= MAX_FILES
    requires SeenBy(w, c, n).Some? && SeenBy(w, c, n).value >= 1 && ShownTo(w, c, n) != Some(theirs)
    ensures var e := Run(w, safe, DeleteAndRewrite(other, n, theirs, SeenBy(w, c, n).value));
            && n in e.files && e.files[n].Conversation? && e.files[n].content == theirs
            && ShownTo(e, c, n) == ShownTo(w, c, n) != Some(theirs)
            && Succeeds(e, safe, Save(c, n, mine, None))
  {
    hide Run;
    assert Remembers(w, safe, c, n);
    Rewritten(w, safe, other, n, theirs, SeenBy(w, c, n).value);
  }

  // -------------------------------------------------------------------- one client

  class Directory {
    var files: Files

    constructor (files: Files)
      ensures this.files == files
    {
      this.files := files;
    }
  }

  /** One client's service over the shared directory. */
  class ConversationClient {
    const directory: Directory
    const safe: Safe
    var seen: Seen

    constructor (directory: Directory, safe: Safe)
      ensures this.directory == directory && this.safe == safe && seen == map[]
    {
      this.directory, this.safe, seen := directory, safe, map[];
    }

    /** The world as this client `c` and the others see it. */
    ghost function Snapshot(c: ClientId, others: map<ClientId, Client>, shown: map<Name, string>): (w: World)
      reads this, directory
    {
      World(directory.files, others[c := Client(seen, shown)])
    }

    method LoadConversation(id: Name, ghost c: ClientId, ghost others: map<ClientId, Client>, ghost shown: map<Name, string>)
      returns (found: Option<Stored>, ghost nowShown: map<Name, string>)
      modifies this`seen
      ensures Snapshot(c, others, nowShown) == Act(old(Snapshot(c, others, shown)), safe, Load(c, id))
      ensures found.Some? <==> safe(id).Some? && safe(id).value in directory.files && directory.files[safe(id).value].Conversation?
      ensures found.Some? ==> found.value == directory.files[safe(id).value]
    {
      nowShown := shown;
      var target := safe(id);
      if target == None || target.value !in directory.files || directory.files[target.value].Malformed? {
        return None, shown;
      }
      var record := directory.files[target.value];
      seen := seen[target.value := record.revision];
      nowShown := shown[target.value := record.content];
      return Some(record), nowShown;
    }

    /** The checks of a save. */
    method NextRevision(id: Name, expected: Option<int>) returns (revision: Option<nat>)
      ensures revision == SavedRevision(safe, directory.files, seen, id, expected)
      ensures revision.Some? ==> safe(id).Some?
    {
      var target := safe(id);
      if target == None {
        return None;
      }
      if target.value in directory.files {
        if directory.files[target.value].Malformed? {
          return None;
        }
        var current := directory.files[target.value].revision;
        var claimed := if expected.Some? then expected.value else if id in seen then seen[id] else current;
        return if claimed == current then Some(current + 1) else None;
      }
      return if |directory.files| >= MAX_FILES then None else Some(1);
    }

    method SaveConversation(id: Name, content: string, expected: Option<int>,
                            ghost c: ClientId, ghost others: map<ClientId, Client>, ghost shown: map<Name, string>)
      returns (revision: Option<nat>, ghost nowShown: map<Name, string>)
      modifies this`seen, directory
      ensures Snapshot(c, others, nowShown) == Act(old(Snapshot(c, others, shown)), safe, Save(c, id, content, expected))
      ensures revision.Some? <==> Succeeds(old(Snapshot(c, others, shown)), safe, Save(c, id, content, expected))
      ensures revision.Some? ==> safe(id).value in directory.files
                                 && directory.files[safe(id).value] == Conversation(revision.value, content)
    {
      revision := NextRevision(id, expected);
      if revision == None {
        return None, shown;
      }
      hide SavedRevision;
      var target := safe(id).value;
      directory.files := directory.files[target := Conversation(revision.value, content)];
      seen := seen[target := revision.value];
      nowShown := shown[target := content];
    }

    method DeleteConversation(id: Name, ghost c: ClientId, ghost others: map<ClientId, Client>, ghost shown: map<Name, string>)
      returns (deleted: bool)
      modifies this`seen, directory
      ensures Snapshot(c, others, shown) == Act(old(Snapshot(c, others, shown)), safe, Delete(c, id))
      ensures deleted <==> safe(id).Some? && safe(id).value in old(directory.files)
    {
      var target := safe(id);
      if target == None || target.value !in directory.files {
        return false;
      }
      directory.files := directory.files - {target.value};
      seen := seen - {id};
      return true;
    }
  }
}
