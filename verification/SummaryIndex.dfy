/** The conversation summary index (bc250_llm_mode/conversation_service.py:
    144-145, 249-279, 417-463 and 481-494): `list` answers from cached rows that
    are refreshed when a file's stamp has changed.

    What a file holds is a function of its name and stamp, which is the premise
    of any such cache. File-name sanitising, case folding and decoding are
    arbitrary functions. */
module SummaryIndex {
  import opened Outcomes

  /** A file name without its `.json`, and inode, time and size together. */
  type Name = string
  type Stamp = nat

  /** What becomes of a file: a ValueError, which the listing turns into a row of
      its own; anything else raised while it is decoded or its row is stored,
      which ends the listing; or a record. */
  datatype Decoded = Malformed | Escapes | Conversation(title: string, archived: bool, updated: string, details: string)

  /** `safe` is safe_conversation_id (None where it raises), `fold` is
      casefold, `read` decodes the file of that name when it has that stamp. */
  datatype Library = Library(safe: Name -> Option<Name>, fold: string -> string, read: (Name, Stamp) -> Decoded)

  datatype Summary = NeedsRepair(id: Name) | Summary(details: string)

  datatype Row = Row(stamp: Stamp, title: string, archived: bool, updated: string, summary: Summary)

  type Files = map<Name, Stamp>
  type Index = map<Name, Row>

  // --------------------------------------------------------------- reading files

  /** `_load`: the file opened is the one the sanitised name points to. */
  function Load(lib: Library, files: Files, name: Name): (d: Decoded) {
    match lib.safe(name)
    case None => Malformed
    case Some(target) => if target in files then lib.read(target, files[target]) else Malformed
  }

  function RowOf(lib: Library, name: Name, stamp: Stamp, d: Decoded): (row: Row)
    requires !d.Escapes?
  {
    match d
    case Malformed =>
      var shown := if |name| > 96 then name[..96] else name;
      Row(stamp, lib.fold("Needs repair: " + shown), false, "", NeedsRepair(name))
    case Conversation(title, archived, updated, details) =>
      Row(stamp, lib.fold(title), archived, updated, Summary(details))
  }

  /** Every file can be decoded, or fails in the way the listing expects. */
  predicate Readable(lib: Library, files: Files) {
    forall name | name in files :: !Load(lib, files, name).Escapes?
  }

  /** What reading every file now would give. */
  function DirectRows(lib: Library, files: Files): (rows: Index)
    requires Readable(lib, files)
  {
    map name | name in files :: RowOf(lib, name, files[name], Load(lib, files, name))
  }

  predicate Stale(files: Files, index: Index, name: Name)
    requires name in files
  {
    !(name in index && index[name].stamp == files[name])
  }

  /** No file that has to be read again ends the listing. */
  predicate Answers(lib: Library, files: Files, index: Index) {
    forall name | name in files && Stale(files, index, name) :: !Load(lib, files, name).Escapes?
  }

  function RefreshedRow(lib: Library, files: Files, index: Index, name: Name): (row: Row)
    requires name in files && (Stale(files, index, name) ==> !Load(lib, files, name).Escapes?)
  {
    if Stale(files, index, name) then RowOf(lib, name, files[name], Load(lib, files, name)) else index[name]
  }

  /** What `list` leaves in the index. */
  function Refreshed(lib: Library, files: Files, index: Index): (rows: Index)
    requires Answers(lib, files, index)
  {
    map name | name in files :: RefreshedRow(lib, files, index, name)
  }

  // -------------------------------------------------------------------- querying

  /** Byte-wise string order. */
  predicate Less(a: string, b: string) {
    b != "" && (a == "" || a[0] < b[0] || (a[0] == b[0] && Less(a[1..], b[1..])))
  }

  lemma {:induction false} LessIsTotal(a: string, b: string)
    ensures !(Less(a, b) && Less(b, a)) && !Less(a, a)
    ensures a != b ==> Less(a, b) || Less(b, a)
  {
    if a != "" {
      LessIsTotal(a[1..], if b != "" then b[1..] else "");
      if b != "" && a[0] == b[0] && a[1..] == b[1..] {
        assert a == [a[0]] + a[1..] && b == [b[0]] + b[1..];
      }
    }
  }

  lemma {:induction false} LessIsTransitive(a: string, b: string, c: string)
    requires Less(a, b) && Less(b, c)
    ensures Less(a, c)
  {
    if a != "" && a[0] == b[0] && b[0] == c[0] {
      LessIsTransitive(a[1..], b[1..], c[1..]);
    }
  }

  /** Dictionary order, said by the first difference. */
  predicate ComesBefore(a: string, b: string) {
    exists k | 0 <= k <= |a| :: DiffersAt(a, b, k)
  }

  predicate DiffersAt(a: string, b: string, k: nat) {
    k <= |a| && k < |b| && a[..k] == b[..k] && (k == |a| || a[k] < b[k])
  }

  lemma {:induction false} LessExactly(a: string, b: string)
    ensures Less(a, b) <==> ComesBefore(a, b)
  {
    if b != "" && a != "" && a[0] == b[0] {
      LessExactly(a[1..], b[1..]);
      if ComesBefore(a[1..], b[1..]) {
        var k :| 0 <= k <= |a[1..]| && DiffersAt(a[1..], b[1..], k);
        assert a[..k + 1] == [a[0]] + a[1..][..k] && b[..k + 1] == [b[0]] + b[1..][..k];
        assert DiffersAt(a, b, k + 1);
      }
      if ComesBefore(a, b) {
        var k :| 0 <= k <= |a| && DiffersAt(a, b, k);
        assert k > 0;
        assert a[1..][..k - 1] == a[..k][1..] && b[1..][..k - 1] == b[..k][1..];
        assert DiffersAt(a[1..], b[1..], k - 1);
      }
    } else if Less(a, b) {
      assert DiffersAt(a, b, 0);
    }
  }

  /** ORDER BY updated DESC, id DESC. */
  predicate Precedes(rows: Index, a: Name, b: Name)
    requires a in rows && b in rows
  {
    Less(rows[b].updated, rows[a].updated) || (rows[a].updated == rows[b].updated && Less(b, a))
  }

  lemma PrecedesIsTotal(rows: Index, a: Name, b: Name)
    requires a in rows && b in rows
    ensures !(Precedes(rows, a, b) && Precedes(rows, b, a))
    ensures a != b ==> Precedes(rows, a, b) || Precedes(rows, b, a)
  {
    LessIsTotal(a, b);
    LessIsTotal(rows[a].updated, rows[b].updated);
  }

  lemma PrecedesIsTransitive(rows: Index, a: Name, b: Name, c: Name)
    requires a in rows && b in rows && c in rows && Precedes(rows, a, b) && Precedes(rows, b, c)
    ensures Precedes(rows, a, c)
  {
    if Less(rows[c].updated, rows[b].updated) && Less(rows[b].updated, rows[a].updated) {
      LessIsTransitive(rows[c].updated, rows[b].updated, rows[a].updated);
    }
    if Less(c, b) && Less(b, a) {
      LessIsTransitive(c, b, a);
    }
  }

  predicate IsFirst(rows: Index, names: set<Name>, n: Name)
    requires names <= rows.Keys
  {
    n in names && forall m | m in names && m != n :: Precedes(rows, n, m)
  }

  lemma {:induction false} SomeNameIsFirst(rows: Index, names: set<Name>) returns (n: Name)
    requires names <= rows.Keys && names != {}
    ensures IsFirst(rows, names, n)
    decreases |names|
  {
    n :| n in names;
    if names != {n} {
      var rest := names - {n};
      assert rest != {};
      var m := SomeNameIsFirst(rows, rest);
      PrecedesIsTotal(rows, n, m);
      if Precedes(rows, n, m) {
        forall k | k in names && k != n ensures Precedes(rows, n, k) {
          if k != m {
            PrecedesIsTransitive(rows, n, m, k);
          }
        }
      } else {
        n := m;
      }
    }
  }

  /** The names in query order. */
  ghost function Ordered(rows: Index, names: set<Name>): (order: seq<Name>)
    requires names <= rows.Keys
    decreases |names|
  {
    if names == {} then []
    else
      var n := FirstName(rows, names);
      [n] + Ordered(rows, names - {n})
  }

  lemma OrderedStep(rows: Index, names: set<Name>, n: Name)
    requires names <= rows.Keys && IsFirst(rows, names, n)
    ensures Ordered(rows, names) == [n] + Ordered(rows, names - {n})
  {
    FirstIsUnique(rows, names, n, FirstName(rows, names));
  }

  ghost function FirstName(rows: Index, names: set<Name>): (n: Name)
    requires names <= rows.Keys && names != {}
    ensures IsFirst(rows, names, n)
  {
    assert exists n :: IsFirst(rows, names, n) by {
      var n := SomeNameIsFirst(rows, names);
    }
    var n :| IsFirst(rows, names, n);
    n
  }

  lemma FirstIsUnique(rows: Index, names: set<Name>, a: Name, b: Name)
    requires names <= rows.Keys && IsFirst(rows, names, a) && IsFirst(rows, names, b)
    ensures a == b
  {
    PrecedesIsTotal(rows, a, b);
  }

  lemma SortedFrom(rows: Index, n: Name, rest: seq<Name>)
    requires n in rows && forall i | 0 <= i < |rest| :: rest[i] in rows && Precedes(rows, n, rest[i])
    requires forall i, j | 0 <= i < j < |rest| :: Precedes(rows, rest[i], rest[j])
    ensures var all := [n] + rest;
            forall i, j | 0 <= i < j < |all| :: all[i] in rows && all[j] in rows && Precedes(rows, all[i], all[j])
  {
    hide Precedes;
  }

  /** The order is the sorted arrangement of exactly those names. */
  lemma {:induction false} OrderedIsSorted(rows: Index, names: set<Name>)
    requires names <= rows.Keys
    ensures var order := Ordered(rows, names);
            && |order| == |names| && (forall n :: n in order <==> n in names)
            && forall i, j | 0 <= i < j < |order| :: order[i] in rows && order[j] in rows && Precedes(rows, order[i], order[j])
    decreases |names|
  {
    if names == {} {
      OrderedNone(rows);
    } else {
      hide Precedes, Ordered;
      var n := FirstName(rows, names);
      var rest := Ordered(rows, names - {n});
      OrderedIsSorted(rows, names - {n});
      OrderedStep(rows, names, n);
      SortedFrom(rows, n, rest);
      assert names == {n} + (names - {n});
      forall m ensures m in [n] + rest <==> m in names {
        assert m in rest <==> m in names - {n};
      }
    }
  }

  predicate AppearsAt(text: string, needle: string, i: nat) {
    i + |needle| <= |text| && text[i..i + |needle|] == needle
  }

  /** `instr(text, needle) > 0`; the empty needle is everywhere. */
  predicate Contains(text: string, needle: string) {
    exists i | 0 <= i <= |text| :: AppearsAt(text, needle, i)
  }

  function Matching(rows: Index, archived: bool, needle: string): (names: set<Name>) {
    set name | name in rows && rows[name].archived == archived && Contains(rows[name].title, needle)
  }

  function Window<T>(s: seq<T>, limit: nat, offset: nat): (w: seq<T>) {
    if offset >= |s| then [] else if offset + limit <= |s| then s[offset..offset + limit] else s[offset..]
  }

  function SummariesOf(rows: Index, names: seq<Name>): (page: seq<Summary>)
    requires forall n | n in names :: n in rows
  {
    if names == [] then [] else [rows[names[0]].summary] + SummariesOf(rows, names[1..])
  }

  /** Filter, order and page. */
  ghost function Query(rows: Index, archived: bool, needle: string, limit: nat, offset: nat): (page: seq<Summary>) {
    OrderedIsSorted(rows, Matching(rows, archived, needle));
    SummariesOf(rows, Window(Ordered(rows, Matching(rows, archived, needle)), limit, offset))
  }

  /** A page is the rows from `offset` on, as many as asked for and there are. */
  lemma WindowIs<T>(s: seq<T>, limit: nat, offset: nat)
    ensures var w := Window(s, limit, offset);
            && |w| == (if offset >= |s| then 0 else if |s| - offset <= limit then |s| - offset else limit)
            && forall i | 0 <= i < |w| :: w[i] == s[offset + i]
  {
  }

  /** Consecutive pages make up the whole. */
  lemma PagesJoin<T>(s: seq<T>, limit: nat, more: nat, offset: nat)
    ensures Window(s, limit, offset) + Window(s, more, offset + limit) == Window(s, limit + more, offset)
    ensures Window(s, |s|, 0) == s
  {
  }

  lemma {:induction false} SummariesAt(rows: Index, names: seq<Name>, i: nat)
    requires (forall n | n in names :: n in rows) && i < |names|
    ensures |SummariesOf(rows, names)| == |names| && SummariesOf(rows, names)[i] == rows[names[i]].summary
  {
    SummaryCount(rows, names);
    if i > 0 {
      SummariesAt(rows, names[1..], i - 1);
    }
  }

  lemma {:induction false} SummaryCount(rows: Index, names: seq<Name>)
    requires forall n | n in names :: n in rows
    ensures |SummariesOf(rows, names)| == |names|
  {
    if names != [] {
      SummaryCount(rows, names[1..]);
    }
  }

  /** What a page is, said of the rows: from the matching names in order, the
      summaries from `offset` on. */
  ghost predicate IsPage(rows: Index, archived: bool, needle: string, limit: nat, offset: nat, order: seq<Name>, page: seq<Summary>) {
    && (forall n :: n in order <==>
          n in rows && rows[n].archived == archived
          && exists i | 0 <= i <= |rows[n].title| :: AppearsAt(rows[n].title, needle, i))
    && (forall i, j | 0 <= i < j < |order| ::
          && order[i] != order[j]
          && (ComesBefore(rows[order[j]].updated, rows[order[i]].updated)
              || (rows[order[i]].updated == rows[order[j]].updated && ComesBefore(order[j], order[i]))))
    && |page| == (if offset >= |order| then 0 else if |order| - offset <= limit then |order| - offset else limit)
    && forall i | 0 <= i < |page| :: page[i] == rows[order[offset + i]].summary
  }

  lemma QueryIsAPage(rows: Index, archived: bool, needle: string, limit: nat, offset: nat) returns (order: seq<Name>)
    ensures IsPage(rows, archived, needle, limit, offset, order, Query(rows, archived, needle, limit, offset))
  {
    hide Ordered, Window, Less, ComesBefore;
    var names := Matching(rows, archived, needle);
    order := Ordered(rows, names);
    OrderedIsSorted(rows, names);
    forall i, j | 0 <= i < j < |order|
      ensures order[i] != order[j]
      ensures ComesBefore(rows[order[j]].updated, rows[order[i]].updated)
              || (rows[order[i]].updated == rows[order[j]].updated && ComesBefore(order[j], order[i])) {
      PrecedesIsTotal(rows, order[i], order[j]);
      LessExactly(rows[order[j]].updated, rows[order[i]].updated);
      LessExactly(order[j], order[i]);
    }
    var window := Window(order, limit, offset);
    WindowIs(order, limit, offset);
    assert forall n | n in window :: n in rows;
    SummaryCount(rows, window);
    forall i | 0 <= i < |window| ensures SummariesOf(rows, window)[i] == rows[order[offset + i]].summary {
      SummariesAt(rows, window, i);
    }
  }

  /** What a file's row shows: a record under its own folded title and state; a
      file to repair under the first 96 characters of its name, never archived,
      and after everything that has a time. */
  lemma RowShowsItsFile(lib: Library, name: Name, stamp: Stamp, d: Decoded)
    requires !d.Escapes?
    ensures var row := RowOf(lib, name, stamp, d);
            && row.stamp == stamp
            && (d.Conversation? ==>
                  && row.title == lib.fold(d.title) && row.archived == d.archived && row.updated == d.updated
                  && row.summary == Summary(d.details))
            && (d.Malformed? ==>
                  && !row.archived && row.updated == "" && row.summary == NeedsRepair(name)
                  && exists shown :: shown <= name && |shown| == (if |name| <= 96 then |name| else 96)
                                     && row.title == lib.fold("Needs repair: " + shown))
  {
    if d.Malformed? {
      var shown := if |name| > 96 then name[..96] else name;
      assert shown <= name && RowOf(lib, name, stamp, d).title == lib.fold("Needs repair: " + shown);
    }
  }

  lemma RepairsComeLast(rows: Index, a: Name, b: Name)
    requires a in rows && b in rows && rows[a].updated != "" && rows[b].updated == ""
    ensures Precedes(rows, a, b) && !Precedes(rows, b, a)
  {
    PrecedesIsTotal(rows, a, b);
  }

  // ------------------------------------------------------------ exactness of it

  /** The name of a file that `_load` opens under that very name, or not at all. */
  predicate Plain(lib: Library, name: Name) {
    lib.safe(name) == Some(name) || lib.safe(name) == None
  }

  /** What the file of that very name holds under a stamp. */
  function Own(lib: Library, name: Name, stamp: Stamp): (d: Decoded) {
    if lib.safe(name) == None then Malformed else lib.read(name, stamp)
  }

  /** Every cached row is what its own stamp's content gives. */
  predicate Coherent(lib: Library, index: Index) {
    forall name | name in index ::
      && Plain(lib, name) && !Own(lib, name, index[name].stamp).Escapes?
      && index[name] == RowOf(lib, name, index[name].stamp, Own(lib, name, index[name].stamp))
  }

  /** From a coherent index the listing answers exactly when every file can be
      read, and then leaves exactly the rows that reading them gives. */
  lemma RefreshIsExact(lib: Library, files: Files, index: Index)
    requires Coherent(lib, index) && forall name | name in files :: Plain(lib, name)
    ensures Answers(lib, files, index) <==> Readable(lib, files)
    ensures Answers(lib, files, index) ==>
              Refreshed(lib, files, index) == DirectRows(lib, files) && Coherent(lib, Refreshed(lib, files, index))
  {
    forall name | name in files ensures Load(lib, files, name) == Own(lib, name, files[name]) {
      assert Plain(lib, name);
    }
    forall name | name in files && !Stale(files, index, name) ensures !Load(lib, files, name).Escapes? {
      assert !Own(lib, name, index[name].stamp).Escapes?;
    }
  }

  /** Anything that happens to the store between two listings: a save or delete
      through the service, any change from outside, or a listing. */
  datatype Event = Saved(id: Name, stamp: Stamp) | Deleted(id: Name) | Outside(files: Files) | Listed

  datatype Store = Store(files: Files, index: Index)

  function Apply(lib: Library, s: Store, e: Event): (r: Store) {
    match e
    case Saved(id, stamp) =>
      (match lib.safe(id)
       case Some(target) => s.(files := s.files[target := stamp])
       case None => s)
    case Deleted(id) =>
      (match lib.safe(id)
       case Some(target) => if target in s.files then Store(s.files - {target}, s.index - {target}) else s
       case None => s)
    case Outside(files) => s.(files := files)
    case Listed =>
      if |s.files| > 10000 || !Answers(lib, s.files, s.index) then s
      else s.(index := Refreshed(lib, s.files, s.index))
  }

  function ApplyAll(lib: Library, s: Store, events: seq<Event>): (r: Store)
    decreases |events|
  {
    if events == [] then s else ApplyAll(lib, Apply(lib, s, events[0]), events[1..])
  }

  /** A deletion takes away the file and the row of the sanitised name, a save
      replaces that file only; both leave every other file and row alone. */
  lemma SaveAndDeleteEffect(lib: Library, s: Store, id: Name, stamp: Stamp, name: Name)
    ensures var e := Apply(lib, s, Saved(id, stamp));
            && e.index == s.index
            && (lib.safe(id) == Some(name) ==> name in e.files && e.files[name] == stamp)
            && (lib.safe(id) != Some(name) ==>
                  (name in e.files <==> name in s.files) && (name in s.files ==> e.files[name] == s.files[name]))
    ensures var e := Apply(lib, s, Deleted(id));
            && (lib.safe(id) == Some(name) && name in s.files ==> name !in e.files && name !in e.index)
            && (lib.safe(id) != Some(name) ==>
                  && (name in e.files <==> name in s.files) && (name in s.files ==> e.files[name] == s.files[name])
                  && (name in e.index <==> name in s.index) && (name in s.index ==> e.index[name] == s.index[name]))
  {
  }

  predicate PlainEvent(lib: Library, e: Event) {
    match e
    case Outside(files) => forall name | name in files :: Plain(lib, name)
    case _ => true
  }

  /** Sanitising a sanitised name changes nothing. */
  ghost predicate Idempotent(lib: Library) {
    forall name, target | lib.safe(name) == Some(target) :: lib.safe(target) == Some(target)
  }

  predicate PlainStore(lib: Library, s: Store) {
    Coherent(lib, s.index) && forall name | name in s.files :: Plain(lib, name)
  }

  lemma ApplyKeepsPlain(lib: Library, s: Store, e: Event)
    requires Idempotent(lib) && PlainStore(lib, s) && PlainEvent(lib, e)
    ensures PlainStore(lib, Apply(lib, s, e))
  {
    if e == Listed {
      RefreshIsExact(lib, s.files, s.index);
    }
  }

  /** After any sequence of saves, deletes, outside changes and listings, a
      listing answers if and only if every file can be read, and then what
      decoding every file directly would answer, for every filter and page. */
  lemma {:induction false} ListingIsExact(lib: Library, s: Store, events: seq<Event>,
                                          archived: bool, needle: string, limit: nat, offset: nat)
    requires Idempotent(lib) && PlainStore(lib, s) && forall i | 0 <= i < |events| :: PlainEvent(lib, events[i])
    ensures var e := ApplyAll(lib, s, events);
            && (Answers(lib, e.files, e.index) <==> Readable(lib, e.files))
            && (Answers(lib, e.files, e.index) ==>
                  && Refreshed(lib, e.files, e.index) == DirectRows(lib, e.files)
                  && Query(Refreshed(lib, e.files, e.index), archived, needle, limit, offset)
                     == Query(DirectRows(lib, e.files), archived, needle, limit, offset))
    decreases |events|
  {
    hide Query, Refreshed, DirectRows, Answers, Readable, Apply, PlainStore, Idempotent;
    if events == [] {
      StoreIsExact(lib, s);
    } else {
      ApplyKeepsPlain(lib, s, events[0]);
      ListingIsExact(lib, Apply(lib, s, events[0]), events[1..], archived, needle, limit, offset);
    }
  }

  lemma StoreIsExact(lib: Library, s: Store)
    requires PlainStore(lib, s)
    ensures Answers(lib, s.files, s.index) <==> Readable(lib, s.files)
    ensures Answers(lib, s.files, s.index) ==> Refreshed(lib, s.files, s.index) == DirectRows(lib, s.files)
  {
    RefreshIsExact(lib, s.files, s.index);
  }

  /** Events that leave a file as it is. */
  predicate Spares(lib: Library, e: Event, name: Name, stamp: Stamp) {
    match e
    case Saved(id, _) => lib.safe(id) != Some(name)
    case Deleted(id) => lib.safe(id) != Some(name)
    case Outside(files) => name in files && files[name] == stamp
    case Listed => true
  }

  /** One file that cannot be read stops every listing for as long as it stays,
      whatever happens to the others. */
  lemma {:induction false} OneFileStopsTheListing(lib: Library, s: Store, events: seq<Event>, name: Name, stamp: Stamp)
    requires Idempotent(lib) && PlainStore(lib, s) && lib.safe(name) == Some(name) && lib.read(name, stamp) == Escapes
    requires name in s.files && s.files[name] == stamp
    requires forall i | 0 <= i < |events| :: PlainEvent(lib, events[i]) && Spares(lib, events[i], name, stamp)
    ensures var e := ApplyAll(lib, s, events); !Answers(lib, e.files, e.index)
    decreases |events|
  {
    if events == [] {
      RefreshIsExact(lib, s.files, s.index);
      assert Load(lib, s.files, name).Escapes?;
    } else {
      ApplyKeepsPlain(lib, s, events[0]);
      assert Spares(lib, events[0], name, stamp);
      OneFileStopsTheListing(lib, Apply(lib, s, events[0]), events[1..], name, stamp);
    }
  }

  /** Two listings that answer, with an arbitrary change of the files in between:
      the second shows the file as it then is. */
  predicate StaysExact(lib: Library, name: Name, before: Files, after: Files)
    requires name in before && name in after
  {
    Answers(lib, before, map[]) && Answers(lib, after, Refreshed(lib, before, map[])) ==>
      && !Load(lib, after, name).Escapes?
      && Refreshed(lib, after, Refreshed(lib, before, map[]))[name] == RowOf(lib, name, after[name], Load(lib, after, name))
  }

  /** The premise "same stamp, same content" is not enough for every file name:
      a row stays exact under every change exactly when its name is plain. Any
      other file shows, under its own stamp, what another file held. */
  lemma ExactExactlyForPlainNames(lib: Library, name: Name, s1: Stamp, s2: Stamp)
    requires Idempotent(lib)
    requires forall target | lib.safe(name) == Some(target) ::
               && !lib.read(target, s1).Escapes? && !lib.read(target, s2).Escapes?
               && RowOf(lib, name, 0, lib.read(target, s1)) != RowOf(lib, name, 0, lib.read(target, s2))
    ensures Plain(lib, name) <==>
            forall before: Files, after: Files | name in before && name in after :: StaysExact(lib, name, before, after)
  {
    if Plain(lib, name) {
      forall before: Files, after: Files | name in before && name in after ensures StaysExact(lib, name, before, after) {
        PlainStaysExact(lib, name, before, after);
      }
    } else {
      ForeignIsStale(lib, name, s1, s2);
    }
  }

  lemma PlainStaysExact(lib: Library, name: Name, before: Files, after: Files)
    requires Plain(lib, name) && name in before && name in after
    ensures StaysExact(lib, name, before, after)
  {
    assert Load(lib, before, name) == Own(lib, name, before[name]) && Load(lib, after, name) == Own(lib, name, after[name]);
    if Answers(lib, before, map[]) {
      assert Stale(before, map[], name);
    }
  }

  lemma ForeignIsStale(lib: Library, name: Name, s1: Stamp, s2: Stamp)
    requires Idempotent(lib) && lib.safe(name).Some? && lib.safe(name) != Some(name)
    requires var target := lib.safe(name).value;
             && !lib.read(target, s1).Escapes? && !lib.read(target, s2).Escapes?
             && RowOf(lib, name, 0, lib.read(target, s1)) != RowOf(lib, name, 0, lib.read(target, s2))
    ensures exists before: Files, after: Files :: name in before && name in after && !StaysExact(lib, name, before, after)
  {
    var target := lib.safe(name).value;
    var before := map[name := 0, target := s1];
    var after := map[name := 0, target := s2];
    assert lib.safe(target) == Some(target);
    assert Answers(lib, before, map[]);
    assert Refreshed(lib, before, map[])[name] == RowOf(lib, name, 0, lib.read(target, s1));
    assert Answers(lib, after, Refreshed(lib, before, map[]));
    assert !StaysExact(lib, name, before, after);
  }

  // ------------------------------------------------------------------ the service

  /** The rows that still have a file. */
  function Pruned(rows: Index, files: Files): (kept: Index) {
    map name | name in rows && name in files :: rows[name]
  }

  /** Deleting the rows of vanished files leaves exactly the refreshed table. */
  lemma KeptRowsAreRefreshed(lib: Library, files: Files, index: Index, rows: Index)
    requires Answers(lib, files, index)
    requires forall name | name in files :: name in rows && rows[name] == RefreshedRow(lib, files, index, name)
    ensures Pruned(rows, files) == Refreshed(lib, files, index)
  {
    hide RefreshedRow;
  }

  datatype Refusal = BadLimit | BadOffset | TooManyFiles | Escaped

  /** The listing service over the directory and its index table. */
  class ConversationIndex {
    const lib: Library
    var present: bool
    var files: Files
    var index: Index

    constructor (lib: Library, files: Files)
      ensures this.lib == lib && this.files == files && present && index == map[]
    {
      this.lib, present, this.files, index := lib, true, files, map[];
    }

    method Delete(id: Name) returns (deleted: bool)
      modifies this`files, this`index
      ensures deleted <==> lib.safe(id).Some? && lib.safe(id).value in old(files)
      ensures Store(files, index) == Apply(lib, old(Store(files, index)), Deleted(id))
    {
      var target := lib.safe(id);
      if target == None || target.value !in files {
        return false;
      }
      files := files - {target.value};
      index := index - {target.value};
      return true;
    }

    /** `list`: refuses bad pages, oversized directories and files whose reading
        escapes without touching the index; otherwise the index becomes the
        refreshed one and the answer is the query over it. */
    method List(archived: bool, needle: string, limit: int, offset: int) returns (r: Result<seq<Summary>, Refusal>)
      modifies this`index
      ensures !(1 <= limit <= 100) ==> r == Err(BadLimit)
      ensures 1 <= limit <= 100 && !present ==> r == Ok([])
      ensures 1 <= limit <= 100 && present && !(0 <= offset <= 10000) ==> r == Err(BadOffset)
      ensures 1 <= limit <= 100 && present && 0 <= offset <= 10000 ==>
                && (r.Ok? <==> |files| <= 10000 && Answers(lib, files, old(index)))
                && (r.Ok? ==> r.value == Query(index, archived, needle, limit, offset))
                && (r.Err? ==> || (r.error == TooManyFiles && |files| > 10000)
                               || (r.error == Escaped && !Answers(lib, files, old(index))))
      ensures index == if r.Err? || !present then old(index) else Refreshed(lib, files, old(index))
    {
      hide Query, Refreshed, Load, RowOf;
      if !(1 <= limit <= 100) {
        return Err(BadLimit);
      }
      if !present {
        return Ok([]);
      }
      if !(0 <= offset <= 10000) {
        return Err(BadOffset);
      }
      var rows := index;
      var todo := files.Keys;
      var seen := 0;
      while todo != {}
        invariant index == old(index) && todo <= files.Keys && seen + |todo| == |files| && seen <= 10000
        invariant forall name | name in files && name !in todo && Stale(files, index, name) :: !Load(lib, files, name).Escapes?
        invariant forall name | name in todo :: (name in rows <==> name in index) && (name in rows ==> rows[name] == index[name])
        invariant forall name | name in files && name !in todo :: name in rows && rows[name] == RefreshedRow(lib, files, index, name)
        decreases |todo|
      {
        var name :| name in todo;
        if seen >= 10000 {
          return Err(TooManyFiles);
        }
        seen := seen + 1;
        todo := todo - {name};
        var stamp := files[name];
        if !(name in rows && rows[name].stamp == stamp) {
          var record := Load(lib, files, name);
          if record.Escapes? {
            return Err(Escaped);
          }
          rows := rows[name := RowOf(lib, name, stamp, record)];
        }
      }
      KeptRowsAreRefreshed(lib, files, index, rows);
      rows := Pruned(rows, files);
      index := rows;
      var page := SelectPage(rows, archived, needle, limit, offset);
      return Ok(page);
    }
  }

  /** The SQL statement: repeatedly take the first remaining match. */
  method SelectPage(rows: Index, archived: bool, needle: string, limit: nat, offset: nat) returns (page: seq<Summary>)
    ensures page == Query(rows, archived, needle, limit, offset)
  {
    hide Ordered, Precedes, Contains;
    var names := Matching(rows, archived, needle);
    ghost var all := names;
    var order: seq<Name> := [];
    assert order + Ordered(rows, names) == Ordered(rows, all);
    while names != {}
      invariant names <= all <= rows.Keys
      invariant order + Ordered(rows, names) == Ordered(rows, all)
      decreases |names|
    {
      ghost var first := SomeNameIsFirst(rows, names);
      var n :| n in names && IsFirst(rows, names, n);
      OrderedStep(rows, names, n);
      assert order + ([n] + Ordered(rows, names - {n})) == order + [n] + Ordered(rows, names - {n});
      order := order + [n];
      names := names - {n};
    }
    OrderedNone(rows);
    assert order + [] == order;
    OrderedIsSorted(rows, all);
    page := SummariesOf(rows, Window(order, limit, offset));
  }

  lemma OrderedNone(rows: Index)
    ensures Ordered(rows, {}) == []
  {
  }
}
