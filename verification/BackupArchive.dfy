/** The exact-member backup archive: its inspector
    (bc250_llm_mode/backup_archive.py:36-158) and the layout its writer produces
    (bc250_llm_mode/backup_adapter.py:199-202, the ustar interchange format of
    IEEE Std 1003.1).

    Header encoding, hashing and the manifest's JSON are arbitrary functions;
    the writer's headers must survive decoding. */
module BackupArchive {
  import opened Outcomes

  type Byte = b: int | 0 <= b < 256
  type Bytes = seq<Byte>

  const MANIFEST := "backup-manifest.json"
  const DATABASE := "state.db"
  const MAX_DATABASE_BYTES := 1024 * 1024 * 1024
  const MAX_MANIFEST_BYTES := 1024 * 1024
  const MAX_ARCHIVE_BYTES := MAX_DATABASE_BYTES + MAX_MANIFEST_BYTES + 64 * 1024
  const MAX_HEADERS := 8
  const MAX_EXTENDED := 4096
  const RECORD := 10240

  datatype Kind = Regular | Extended | OtherKind

  datatype Header = Header(kind: Kind, name: string, size: nat, sparse: bool, linked: bool)

  /** `decode` is TarInfo.frombuf (None where it raises), `sha` the digest, and
      `describes` whether a manifest is valid and lists exactly a `state.db` of
      that size and digest. */
  datatype Oracles = Oracles(decode: Bytes -> Option<Header>, sha: Bytes -> string,
                             describes: (Bytes, nat, string) -> bool)

  function Zeros(n: nat): (z: Bytes)
    ensures |z| == n
  {
    seq(n, _ => 0)
  }

  predicate AllZero(b: Bytes) {
    forall i | 0 <= i < |b| :: b[i] == 0
  }

  /** `(-size) % 512`. */
  function Padding(size: nat): (n: nat)
    ensures n < 512 && (size + n) % 512 == 0
  {
    if size % 512 == 0 then 0 else 512 - size % 512
  }

  // ------------------------------------------------------------- extended metadata

  function SpaceAt(p: Bytes, i: nat): (k: int)
    requires i <= |p|
    ensures k == -1 || i <= k < |p|
    decreases |p| - i
  {
    if i == |p| then -1 else if p[i] == 32 then i else SpaceAt(p, i + 1)
  }

  predicate Digits(p: Bytes) {
    p != [] && forall i | 0 <= i < |p| :: 48 <= p[i] <= 57
  }

  function Number(p: Bytes): (n: nat)
    requires forall i | 0 <= i < |p| :: 48 <= p[i] <= 57
  {
    if p == [] then 0 else 10 * Number(p[..|p| - 1]) + (p[|p| - 1] - 48)
  }

  /** `mtime=` in bytes. */
  const MTIME: Bytes := [109, 116, 105, 109, 101, 61]

  predicate MtimeField(f: Bytes) {
    MTIME <= f && f[|f| - 1] == 10
  }

  /** Nothing but well-formed mtime records, each at least as long as it says. */
  predicate MtimeRecords(p: Bytes)
    decreases |p|
  {
    p == [] ||
    var i := SpaceAt(p, 0);
    && i != -1 && Digits(p[..i])
    && var count := Number(p[..i]);
    && i + 1 < count <= |p| && MtimeField(p[i + 1..count]) && MtimeRecords(p[count..])
  }

  /** One record: its own length in decimal, a space and the field. */
  datatype Record = Record(length: Bytes, field: Bytes)

  function RecordBytes(r: Record): (b: Bytes) {
    r.length + ([32] + r.field)
  }

  predicate RecordOk(r: Record) {
    && Digits(r.length) && Number(r.length) == |RecordBytes(r)|
    && |r.field| >= 7 && r.field[..6] == [109, 116, 105, 109, 101, 61] && r.field[|r.field| - 1] == 10
  }

  function RecordsBytes(records: seq<Record>): (b: Bytes) {
    if records == [] then [] else RecordBytes(records[0]) + RecordsBytes(records[1..])
  }

  lemma {:induction false} SpaceAtIs(p: Bytes, i: nat, k: nat)
    requires i <= k < |p| && p[k] == 32 && forall j | i <= j < k :: p[j] != 32
    ensures SpaceAt(p, i) == k
    decreases k - i
  {
    if i < k {
      SpaceAtIs(p, i + 1, k);
    }
  }

  lemma MtimeFieldIs(f: Bytes)
    requires f != []
    ensures MtimeField(f) <==> |f| >= 7 && f[..6] == [109, 116, 105, 109, 101, 61] && f[|f| - 1] == 10
  {
    if MtimeField(f) {
      assert f[..6] == MTIME && f[5] == MTIME[5];
    } else if |f| >= 7 && f[..6] == MTIME {
      assert MTIME <= f;
    }
  }

  /** Extended metadata is accepted exactly when it is a list of such records. */
  lemma {:induction false} MtimeRecordsAreRecords(p: Bytes) returns (records: seq<Record>)
    requires MtimeRecords(p)
    ensures p == RecordsBytes(records) && forall i | 0 <= i < |records| :: RecordOk(records[i])
    decreases |p|
  {
    hide MtimeRecords, RecordOk, RecordBytes;
    if p == [] {
      records := [];
    } else {
      var first, count := FirstRecord(p);
      var rest := MtimeRecordsAreRecords(p[count..]);
      assert p == p[..count] + p[count..];
      records := [first] + rest;
      assert records[1..] == rest;
    }
  }

  lemma FirstRecord(p: Bytes) returns (r: Record, count: nat)
    requires MtimeRecords(p) && p != []
    ensures 0 < count <= |p| && RecordOk(r) && RecordBytes(r) == p[..count] && MtimeRecords(p[count..])
  {
    hide Number, MtimeField;
    var i := SpaceAt(p, 0);
    SpaceIsSpace(p, 0);
    count := Number(p[..i]);
    r := Record(p[..i], p[i + 1..count]);
    MtimeFieldIs(r.field);
    hide MtimeRecords;
    assert p[..count] == p[..i] + ([p[i]] + p[i + 1..count]);
  }

  lemma {:induction false} SpaceIsSpace(p: Bytes, i: nat)
    requires i <= |p| && SpaceAt(p, i) != -1
    ensures p[SpaceAt(p, i)] == 32
    decreases |p| - i
  {
    if p[i] != 32 {
      SpaceIsSpace(p, i + 1);
    }
  }

  lemma {:induction false} RecordsAreMtimeRecords(records: seq<Record>)
    requires forall i | 0 <= i < |records| :: RecordOk(records[i])
    ensures MtimeRecords(RecordsBytes(records))
    decreases |records|
  {
    hide Number;
    if records != [] {
      var r, rest := records[0], RecordsBytes(records[1..]);
      var p := RecordsBytes(records);
      RecordsAreMtimeRecords(records[1..]);
      RecordInFront(r, rest);
      SpaceAtIs(p, 0, |r.length|);
      MtimeFieldIs(r.field);
    }
  }

  lemma RecordInFront(r: Record, rest: Bytes)
    ensures var p, n := RecordBytes(r) + rest, |r.length|;
            && p[..n] == r.length && p[n] == 32 && p[n + 1..|RecordBytes(r)|] == r.field && p[|RecordBytes(r)|..] == rest
            && forall j | 0 <= j < n :: p[j] == r.length[j]
  {
  }

  ghost predicate IsRecordList(p: Bytes) {
    exists records :: p == RecordsBytes(records) && forall i | 0 <= i < |records| :: RecordOk(records[i])
  }

  lemma MtimeRecordsExactly(p: Bytes)
    ensures MtimeRecords(p) <==> IsRecordList(p)
  {
    hide MtimeRecords, RecordsBytes, RecordOk;
    if MtimeRecords(p) {
      var records := MtimeRecordsAreRecords(p);
    }
    forall records | p == RecordsBytes(records) && forall i | 0 <= i < |records| :: RecordOk(records[i])
      ensures MtimeRecords(p) {
      RecordsAreMtimeRecords(records);
    }
  }

  /** A number in decimal digits. */
  function Decimal(n: nat): (p: Bytes)
    ensures Digits(p)
  {
    if n < 10 then [48 + n] else Decimal(n / 10) + [48 + n % 10]
  }

  /** Reading back what is written in decimal. */
  lemma {:induction false} DecimalIsRead(n: nat)
    ensures Number(Decimal(n)) == n
  {
    var p := Decimal(n);
    if n < 10 {
      assert p[..|p| - 1] == [];
    } else {
      DecimalIsRead(n / 10);
      assert p[..|p| - 1] == Decimal(n / 10);
    }
  }

  // ---------------------------------------------------------------------- the scan

  type Members = map<string, Bytes>

  function Limit(name: string): (n: nat) {
    if name == MANIFEST then MAX_MANIFEST_BYTES else MAX_DATABASE_BYTES
  }

  predicate MemberAllowed(h: Header, seen: Members) {
    && (h.name == MANIFEST || h.name == DATABASE) && h.name !in seen
    && h.kind == Regular && !h.sparse && !h.linked && 0 < h.size <= Limit(h.name)
  }

  /** The members found from `pos` on, or None when anything is refused. */
  function Scan(o: Oracles, a: Bytes, pos: nat, headers: nat, seen: Members): (r: Option<Members>)
    decreases |a| - pos
  {
    if pos + 512 > |a| then None
    else
      var block := a[pos..pos + 512];
      if AllZero(block) then
        if pos + 1024 <= |a| && AllZero(a[pos + 512..]) then Some(seen) else None
      else if headers >= MAX_HEADERS || o.decode(block) == None then None
      else
        var h := o.decode(block).value;
        var body := pos + 512;
        var next := body + h.size + Padding(h.size);
        if h.kind == Extended then
          if 0 < h.size <= MAX_EXTENDED && next <= |a| && MtimeRecords(a[body..body + h.size])
          then Scan(o, a, next, headers + 1, seen) else None
        else if MemberAllowed(h, seen) && next <= |a|
        then Scan(o, a, next, headers + 1, seen[h.name := a[body..body + h.size]])
        else None
  }

  /** The inspector's verdict on a whole file. */
  function Inspected(o: Oracles, a: Bytes): (r: Option<Members>) {
    if !(1024 <= |a| <= MAX_ARCHIVE_BYTES) then None
    else
      match Scan(o, a, 0, 0, map[])
      case Some(found) =>
        if found.Keys == {MANIFEST, DATABASE} && o.describes(found[MANIFEST], |found[DATABASE]|, o.sha(found[DATABASE]))
        then Some(found) else None
      case None => None
  }

  // ---------------------------------------------------------------------- the writer

  function RegularHeader(name: string, size: nat): (h: Header) {
    Header(Regular, name, size, false, false)
  }

  /** The header encoder writes 512 bytes, never all zero, that decode back. */
  ghost predicate Lawful(o: Oracles, encode: Header -> Bytes) {
    forall name, size | (name == MANIFEST || name == DATABASE) && 0 < size <= Limit(name) ::
      var block := encode(RegularHeader(name, size));
      |block| == 512 && !AllZero(block) && o.decode(block) == Some(RegularHeader(name, size))
  }

  function Member(encode: Header -> Bytes, name: string, payload: Bytes): (b: Bytes) {
    encode(RegularHeader(name, |payload|)) + payload + Zeros(Padding(|payload|))
  }

  /** The two members, two zero blocks, and zeros up to a whole record. */
  function Layout(encode: Header -> Bytes, manifest: Bytes, database: Bytes): (a: Bytes) {
    var members := Member(encode, MANIFEST, manifest) + Member(encode, DATABASE, database);
    members + Zeros(1024 + (RECORD - (|members| + 1024) % RECORD) % RECORD)
  }

  // ------------------------------------------------------------------------- laws

  /** One turn of the header loop. */
  lemma OneHeader(o: Oracles, a: Bytes, pos: nat, headers: nat, seen: Members)
    ensures Scan(o, a, pos, headers, seen) ==
            if pos + 512 > |a| then None
            else
              var block := a[pos..pos + 512];
              if AllZero(block) then
                (if pos + 1024 <= |a| && AllZero(a[pos + 512..]) then Some(seen) else None)
              else if headers >= MAX_HEADERS || o.decode(block) == None then None
              else
                var h := o.decode(block).value;
                var body := pos + 512;
                var next := body + h.size + Padding(h.size);
                if h.kind == Extended then
                  (if 0 < h.size <= MAX_EXTENDED && next <= |a| && MtimeRecords(a[body..body + h.size])
                   then Scan(o, a, next, headers + 1, seen) else None)
                else if MemberAllowed(h, seen) && next <= |a|
                then Scan(o, a, next, headers + 1, seen[h.name := a[body..body + h.size]])
                else None
  {
    hide Padding, MtimeRecords, MemberAllowed, AllZero;
  }

  lemma Middle(pre: Bytes, mid: Bytes, post: Bytes)
    ensures (pre + mid + post)[|pre|..|pre| + |mid|] == mid
    ensures (pre + mid + post)[|pre| + |mid|..] == post
  {
  }

  /** The scan steps over a member the writer laid out. */
  lemma ScanPassesMember(o: Oracles, encode: Header -> Bytes, pre: Bytes, name: string, payload: Bytes, post: Bytes,
                         headers: nat, seen: Members)
    requires Lawful(o, encode) && (name == MANIFEST || name == DATABASE) && 0 < |payload| <= Limit(name)
    requires headers < MAX_HEADERS && name !in seen
    ensures var m := Member(encode, name, payload);
            && Scan(o, pre + m + post, |pre|, headers, seen)
               == Scan(o, pre + m + post, |pre + m|, headers + 1, seen[name := payload])
            && |m| == 512 + |payload| + Padding(|payload|)
  {
    hide Zeros, AllZero, Scan;
    var block := encode(RegularHeader(name, |payload|));
    assert |block| == 512 && !AllZero(block) && o.decode(block) == Some(RegularHeader(name, |payload|));
    var pad := Zeros(Padding(|payload|));
    var m := Member(encode, name, payload);
    var a := pre + m + post;
    assert a == pre + block + (payload + pad + post);
    Middle(pre, block, payload + pad + post);
    assert a == (pre + block) + payload + (pad + post);
    Middle(pre + block, payload, pad + post);
    OneHeader(o, a, |pre|, headers, seen);
  }

  lemma ScanEnds(o: Oracles, pre: Bytes, n: nat, headers: nat, seen: Members)
    requires n >= 1024
    ensures Scan(o, pre + Zeros(n), |pre|, headers, seen) == Some(seen)
  {
    var a := pre + Zeros(n);
    assert AllZero(a[|pre|..|pre| + 512]);
    assert AllZero(a[|pre| + 512..]);
  }

  /** Every archive the writer lays out within the member limits is small enough
      and is inspected to exactly the two payloads it was given, as soon as the
      manifest describes the database. */
  lemma RoundTrip(o: Oracles, encode: Header -> Bytes, manifest: Bytes, database: Bytes)
    requires Lawful(o, encode)
    requires 0 < |manifest| <= MAX_MANIFEST_BYTES && 0 < |database| <= MAX_DATABASE_BYTES
    ensures var a := Layout(encode, manifest, database);
            && 1024 <= |a| <= MAX_ARCHIVE_BYTES && |a| % RECORD == 0
            && Scan(o, a, 0, 0, map[]) == Some(map[MANIFEST := manifest, DATABASE := database])
            && (o.describes(manifest, |database|, o.sha(database)) <==>
                  Inspected(o, a) == Some(map[MANIFEST := manifest, DATABASE := database]))
  {
    hide Scan, Member, Padding, Zeros;
    var first := Member(encode, MANIFEST, manifest);
    var second := Member(encode, DATABASE, database);
    var n := 1024 + (RECORD - (|first + second| + 1024) % RECORD) % RECORD;
    var a := Layout(encode, manifest, database);
    assert a == [] + first + (second + Zeros(n));
    ScanPassesMember(o, encode, [], MANIFEST, manifest, second + Zeros(n), 0, map[]);
    assert a == first + second + Zeros(n);
    assert |[] + first| == |first|;
    ScanPassesMember(o, encode, first, DATABASE, database, Zeros(n), 1, map[MANIFEST := manifest]);
    ScanEnds(o, first + second, n, 2, map[MANIFEST := manifest, DATABASE := database]);
    assert map[MANIFEST := manifest][DATABASE := database] == map[MANIFEST := manifest, DATABASE := database];
    LayoutLength(|first| + |second|);
    TwoNames(manifest, database);
  }

  lemma TwoNames(manifest: Bytes, database: Bytes)
    ensures map[MANIFEST := manifest, DATABASE := database].Keys == {MANIFEST, DATABASE}
    ensures map[MANIFEST := manifest, DATABASE := database][MANIFEST] == manifest
  {
    assert |MANIFEST| != |DATABASE|;
  }

  lemma LayoutLength(n: nat)
    ensures var total := n + (1024 + (RECORD - (n + 1024) % RECORD) % RECORD);
            total % RECORD == 0 && total < n + 1024 + RECORD
  {
  }

  // ------------------------------------------------- what an accepted file is

  /** A header block, its payload and its padding. */
  datatype Entry = Entry(block: Bytes, payload: Bytes, padding: Bytes)

  function EntryBytes(e: Entry): (b: Bytes) {
    e.block + (e.payload + e.padding)
  }

  function Flat(entries: seq<Entry>): (b: Bytes) {
    if entries == [] then [] else EntryBytes(entries[0]) + Flat(entries[1..])
  }

  /** A bounded extended header with nothing but modification times, or a member
      that is allowed once the members in `seen` are there. */
  ghost predicate EntryOk(o: Oracles, e: Entry, seen: Members): (ok: bool)
    ensures ok ==> o.decode(e.block).Some?
  {
    && |e.block| == 512 && !AllZero(e.block) && o.decode(e.block).Some?
    && var h := o.decode(e.block).value;
    && |e.payload| == h.size && |e.padding| == Padding(h.size)
    && if h.kind == Extended then 0 < h.size <= 4096 && IsRecordList(e.payload)
       else
         && h.kind == Regular && !h.sparse && !h.linked && h.name !in seen
         && ((h.name == "backup-manifest.json" && 0 < h.size <= 1048576)
             || (h.name == "state.db" && 0 < h.size <= 1073741824))
  }

  /** The members once this entry is read. */
  function With(o: Oracles, e: Entry, seen: Members): (now: Members)
    requires o.decode(e.block).Some?
  {
    var h := o.decode(e.block).value;
    if h.kind == Extended then seen else seen[h.name := e.payload]
  }

  ghost predicate EntriesOk(o: Oracles, entries: seq<Entry>, seen: Members) {
    entries == []
    || (EntryOk(o, entries[0], seen) && EntriesOk(o, entries[1..], With(o, entries[0], seen)))
  }

  ghost function Collected(o: Oracles, entries: seq<Entry>, seen: Members): (found: Members)
    requires EntriesOk(o, entries, seen)
  {
    if entries == [] then seen else Collected(o, entries[1..], With(o, entries[0], seen))
  }

  /** The names of the members among the entries, in order. */
  ghost function Names(o: Oracles, entries: seq<Entry>, seen: Members): (names: seq<string>)
    requires EntriesOk(o, entries, seen)
  {
    if entries == [] then []
    else
      var h := o.decode(entries[0].block).value;
      (if h.kind == Extended then [] else [h.name]) + Names(o, entries[1..], With(o, entries[0], seen))
  }

  /** The bytes are at most eight entries and `n` zeros, at least two blocks. */
  ghost predicate Tiled(o: Oracles, a: Bytes, entries: seq<Entry>, n: nat) {
    n >= 1024 && |entries| <= 8 && EntriesOk(o, entries, map[]) && a == Flat(entries) + Zeros(n)
  }

  lemma EntryIsAligned(o: Oracles, e: Entry, seen: Members)
    requires EntryOk(o, e, seen)
    ensures |EntryBytes(e)| % 512 == 0
  {
    hide IsRecordList, AllZero, Padding;
    assert |e.payload| + |e.padding| == o.decode(e.block).value.size + Padding(o.decode(e.block).value.size);
  }

  lemma {:induction false} EntriesAreAligned(o: Oracles, entries: seq<Entry>, seen: Members)
    requires EntriesOk(o, entries, seen)
    ensures |Flat(entries)| % 512 == 0
  {
    hide EntryOk, EntryBytes, With;
    if entries != [] {
      EntryIsAligned(o, entries[0], seen);
      EntriesAreAligned(o, entries[1..], With(o, entries[0], seen));
    }
  }

  lemma {:induction false} MembersAreBounded(o: Oracles, entries: seq<Entry>, seen: Members)
    requires EntriesOk(o, entries, seen)
    ensures var found := Collected(o, entries, seen);
            && seen.Keys <= found.Keys <= seen.Keys + {MANIFEST, DATABASE}
            && (forall name | name in seen :: found[name] == seen[name])
            && (forall name | name in found && name !in seen :: 0 < |found[name]| <= Limit(name))
  {
    hide IsRecordList, AllZero, Padding;
    if entries != [] {
      assert |MANIFEST| != |DATABASE|;
      MembersAreBounded(o, entries[1..], With(o, entries[0], seen));
    }
  }

  /** Each member is named by exactly one entry. */
  lemma {:induction false} NamesAreTheMembers(o: Oracles, entries: seq<Entry>, seen: Members)
    requires EntriesOk(o, entries, seen)
    ensures forall name :: multiset(Names(o, entries, seen))[name] ==
                           if name in Collected(o, entries, seen) && name !in seen then 1 else 0
  {
    CollectedStep(o, entries, seen);
    if entries != [] {
      var e := entries[0];
      if o.decode(e.block).value.kind != Extended {
        MemberIsNew(o, e, seen);
      }
      hide EntryOk, Collected;
      var now := With(o, e, seen);
      var h := o.decode(e.block).value;
      var rest := Names(o, entries[1..], now);
      NamesAreTheMembers(o, entries[1..], now);
      MembersAreBounded(o, entries[1..], now);
      if h.kind == Extended {
        assert [] + rest == rest;
      } else {
        assert multiset([h.name] + rest) == multiset{h.name} + multiset(rest);
      }
    }
  }

  lemma MemberIsNew(o: Oracles, e: Entry, seen: Members)
    requires EntryOk(o, e, seen) && o.decode(e.block).value.kind != Extended
    ensures o.decode(e.block).value.name !in seen
  {
  }

  lemma CollectedStep(o: Oracles, entries: seq<Entry>, seen: Members)
    requires EntriesOk(o, entries, seen)
    ensures Collected(o, entries, seen) == if entries == [] then seen else Collected(o, entries[1..], With(o, entries[0], seen))
  {
  }

  lemma EntryAt(a: Bytes, pos: nat, size: nat)
    requires pos + 512 + size + Padding(size) <= |a|
    ensures var e := Entry(a[pos..pos + 512], a[pos + 512..pos + 512 + size], a[pos + 512 + size..pos + 512 + size + Padding(size)]);
            a[pos..] == EntryBytes(e) + a[pos + 512 + size + Padding(size)..]
  {
    hide Padding;
  }

  lemma ZerosFrom(a: Bytes, pos: nat)
    requires pos + 512 <= |a| && AllZero(a[pos..pos + 512]) && AllZero(a[pos + 512..])
    ensures a[pos..] == Zeros(|a| - pos)
  {
    forall i | 0 <= i < |a| - pos ensures a[pos..][i] == 0 {
      if i < 512 {
        assert a[pos..][i] == a[pos..pos + 512][i];
      } else {
        assert a[pos..][i] == a[pos + 512..][i - 512];
      }
    }
  }

  /** Whatever produced it, a file whose scan succeeds is, from there on, a tiling
      by headers, payloads and paddings that ends on a block boundary, and then
      at least two blocks of zeros; the scan finds the members of the tiling. */
  lemma {:induction false} ScanShape(o: Oracles, a: Bytes, pos: nat, headers: nat, seen: Members)
    returns (entries: seq<Entry>, n: nat)
    requires Scan(o, a, pos, headers, seen).Some? && headers <= MAX_HEADERS
    ensures pos <= |a| && n >= 1024 && |entries| <= MAX_HEADERS - headers && EntriesOk(o, entries, seen)
    ensures a[pos..] == Flat(entries) + Zeros(n) && |Flat(entries)| % 512 == 0
    ensures Scan(o, a, pos, headers, seen) == Some(Collected(o, entries, seen))
    decreases |a| - pos
  {
    hide Scan, AllZero, Zeros, EntryOk, EntryBytes, With, Flat, Collected;
    OneHeader(o, a, pos, headers, seen);
    if AllZero(a[pos..pos + 512]) {
      entries, n := [], |a| - pos;
      ZerosFrom(a, pos);
      FlatStep([]);
      CollectedStep(o, [], seen);
      assert [] + Zeros(n) == Zeros(n);
    } else {
      var e, next := FirstEntry(o, a, pos, headers, seen);
      var rest: seq<Entry>;
      rest, n := ScanShape(o, a, next, headers + 1, With(o, e, seen));
      entries := [e] + rest;
      assert entries[1..] == rest;
      FlatStep(entries);
      CollectedStep(o, entries, seen);
      Regroup([], EntryBytes(e), Flat(rest), Zeros(n));
      EntriesAreAligned(o, entries, seen);
    }
  }

  /** The entry a successful scan steps over. */
  lemma EntryOkIs(o: Oracles, e: Entry, seen: Members)
    ensures EntryOk(o, e, seen) <==>
            && |e.block| == 512 && !AllZero(e.block) && o.decode(e.block).Some?
            && var h := o.decode(e.block).value;
            && |e.payload| == h.size && |e.padding| == Padding(h.size)
            && if h.kind == Extended then 0 < h.size <= MAX_EXTENDED && MtimeRecords(e.payload) else MemberAllowed(h, seen)
  {
    MtimeRecordsExactly(e.payload);
    hide MtimeRecords, IsRecordList, AllZero, Padding;
    assert |MANIFEST| != |DATABASE|;
  }

  lemma FirstEntry(o: Oracles, a: Bytes, pos: nat, headers: nat, seen: Members) returns (e: Entry, next: nat)
    requires Scan(o, a, pos, headers, seen).Some? && pos + 512 <= |a| && !AllZero(a[pos..pos + 512])
    ensures EntryOk(o, e, seen) && headers < MAX_HEADERS && pos < next <= |a|
    ensures a[pos..] == EntryBytes(e) + a[next..]
    ensures Scan(o, a, pos, headers, seen) == Scan(o, a, next, headers + 1, With(o, e, seen))
  {
    hide Scan, MtimeRecords, MemberAllowed, AllZero, Padding, EntryOk;
    OneHeader(o, a, pos, headers, seen);
    var h := o.decode(a[pos..pos + 512]).value;
    var body := pos + 512;
    next := body + h.size + Padding(h.size);
    e := Entry(a[pos..body], a[body..body + h.size], a[body + h.size..next]);
    EntryAt(a, pos, h.size);
    EntryOkIs(o, e, seen);
  }

  /** And the other way round: every such tiling is scanned to its members. */
  lemma {:induction false} TilingIsScanned(o: Oracles, pre: Bytes, entries: seq<Entry>, n: nat, headers: nat, seen: Members)
    requires EntriesOk(o, entries, seen) && headers + |entries| <= MAX_HEADERS && n >= 1024
    ensures Scan(o, pre + (Flat(entries) + Zeros(n)), |pre|, headers, seen) == Some(Collected(o, entries, seen))
    decreases |entries|
  {
    hide Scan, EntryOk, Flat, Zeros, EntryBytes, With;
    if entries == [] {
      assert Flat([]) == [] by { FlatStep([]); }
      assert [] + Zeros(n) == Zeros(n);
      ScanEnds(o, pre, n, headers, seen);
    } else {
      var e := entries[0];
      var tail := Flat(entries[1..]) + Zeros(n);
      FlatStep(entries);
      Regroup(pre, EntryBytes(e), Flat(entries[1..]), Zeros(n));
      EntryIsScanned(o, pre, e, tail, headers, seen);
      TilingIsScanned(o, pre + EntryBytes(e), entries[1..], n, headers + 1, With(o, e, seen));
    }
  }

  lemma FlatStep(entries: seq<Entry>)
    ensures Flat(entries) == if entries == [] then [] else EntryBytes(entries[0]) + Flat(entries[1..])
  {
  }

  lemma Regroup(a: Bytes, b: Bytes, c: Bytes, d: Bytes)
    ensures a + ((b + c) + d) == a + (b + (c + d)) == (a + b) + (c + d)
  {
  }

  /** The scan steps over an entry. */
  lemma EntryIsScanned(o: Oracles, pre: Bytes, e: Entry, tail: Bytes, headers: nat, seen: Members)
    requires EntryOk(o, e, seen) && headers < MAX_HEADERS
    ensures Scan(o, pre + (EntryBytes(e) + tail), |pre|, headers, seen)
            == Scan(o, pre + (EntryBytes(e) + tail), |pre + EntryBytes(e)|, headers + 1, With(o, e, seen))
  {
    hide Scan, MtimeRecords, MemberAllowed, AllZero, Padding, EntryBytes, EntryOk;
    EntryOkIs(o, e, seen);
    EntryInPlace(pre, e, tail);
    OneHeader(o, pre + (EntryBytes(e) + tail), |pre|, headers, seen);
  }

  lemma EntryInPlace(pre: Bytes, e: Entry, tail: Bytes)
    requires |e.block| == 512
    ensures var a, body := pre + (EntryBytes(e) + tail), |pre| + 512;
            && a[|pre|..body] == e.block && a[body..body + |e.payload|] == e.payload
            && body + |e.payload| + |e.padding| == |pre + EntryBytes(e)| <= |a|
  {
  }

  /** A file is accepted if and only if it has an allowed length and is such a
      tiling, of exactly one entry for each of the two members and extended
      headers, whose manifest describes the database. */
  lemma AcceptedExactlyWhenTiled(o: Oracles, a: Bytes, found: Members)
    ensures Inspected(o, a) == Some(found) <==>
            && 1024 <= |a| <= 1074855936
            && found.Keys == {MANIFEST, DATABASE}
            && o.describes(found[MANIFEST], |found[DATABASE]|, o.sha(found[DATABASE]))
            && exists entries, n :: Tiled(o, a, entries, n) && Collected(o, entries, map[]) == found
  {
    hide Scan, Flat, Zeros, EntriesOk, Collected;
    if Inspected(o, a) == Some(found) {
      var entries, n := ScanShape(o, a, 0, 0, map[]);
      assert a[0..] == a;
      assert Tiled(o, a, entries, n);
    }
    forall entries, n | Tiled(o, a, entries, n) ensures Scan(o, a, 0, 0, map[]) == Some(Collected(o, entries, map[])) {
      assert a == [] + a;
      TilingIsScanned(o, [], entries, n, 0, map[]);
    }
  }

  /** Acceptance, in terms of the file alone: headers, payloads and paddings tile
      it up to the end marker, which is on a block boundary, both members are
      there once and within their limits, and only zeros follow. */
  lemma AcceptedArchive(o: Oracles, a: Bytes) returns (entries: seq<Entry>, n: nat)
    requires Inspected(o, a).Some?
    ensures var found := Inspected(o, a).value;
            && Tiled(o, a, entries, n) && Collected(o, entries, map[]) == found && |Flat(entries)| % 512 == 0
            && multiset(Names(o, entries, map[])) == multiset{MANIFEST, DATABASE}
            && found.Keys == {MANIFEST, DATABASE}
            && 0 < |found[MANIFEST]| <= MAX_MANIFEST_BYTES && 0 < |found[DATABASE]| <= MAX_DATABASE_BYTES
            && o.describes(found[MANIFEST], |found[DATABASE]|, o.sha(found[DATABASE]))
  {
    hide Scan, Flat, Zeros, EntriesOk, Collected, Names;
    entries, n := ScanShape(o, a, 0, 0, map[]);
    assert a[0..] == a;
    NamesAreTheMembers(o, entries, map[]);
    MembersAreBounded(o, entries, map[]);
    TwoNames([], []);
  }

  /** Zeros after an accepted file change nothing, as long as it stays within the
      limit. */
  lemma TrailingZeros(o: Oracles, a: Bytes, n: nat)
    requires Inspected(o, a).Some?
    ensures Inspected(o, a + Zeros(n)) == if |a| + n <= MAX_ARCHIVE_BYTES then Inspected(o, a) else None
  {
    hide Scan, EntriesOk, Collected, Flat;
    var entries, zeros := ScanShape(o, a, 0, 0, map[]);
    assert a[0..] == a;
    assert Zeros(zeros) + Zeros(n) == Zeros(zeros + n);
    assert a + Zeros(n) == [] + (Flat(entries) + Zeros(zeros + n));
    TilingIsScanned(o, [], entries, zeros + n, 0, map[]);
  }

  /** An accepted file is read to its end in whole blocks exactly when its length
      is a number of whole blocks: the tiled part always is, the zeros after it
      need not be. */
  lemma WholeBlocksExactlyWhen(o: Oracles, a: Bytes) returns (entries: seq<Entry>, n: nat)
    requires Inspected(o, a).Some?
    ensures Tiled(o, a, entries, n) && |Flat(entries)| % 512 == 0
    ensures n % 512 == 0 <==> |a| % 512 == 0
  {
    hide Scan, Inspected, EntriesOk, Flat;
    entries, n := AcceptedArchive(o, a);
  }

  /** One zero byte after what the writer lays out: accepted, and not a number of
      whole blocks. */
  lemma OddLengthIsAccepted(o: Oracles, encode: Header -> Bytes, manifest: Bytes, database: Bytes)
    requires Lawful(o, encode) && o.describes(manifest, |database|, o.sha(database))
    requires 0 < |manifest| <= MAX_MANIFEST_BYTES && 0 < |database| <= MAX_DATABASE_BYTES
    ensures var a := Layout(encode, manifest, database) + Zeros(1);
            Inspected(o, a) == Some(map[MANIFEST := manifest, DATABASE := database]) && |a| % 512 == 1
  {
    hide Layout, Inspected, Scan, Lawful;
    RoundTrip(o, encode, manifest, database);
    TrailingZeros(o, Layout(encode, manifest, database), 1);
  }

  // -------------------------------------------------------------------- inspector

  /** The open archive: a cursor, and the bytes fed to the digest so far. */
  class Reader {
    const archive: Bytes
    var cursor: nat
    var digested: Bytes

    constructor (archive: Bytes)
      ensures this.archive == archive && cursor == 0 && digested == []
    {
      this.archive, cursor, digested := archive, 0, [];
    }

    ghost predicate Valid()
      reads this
    {
      cursor <= |archive| && digested == archive[..cursor]
    }

    /** `read`: exactly `size` bytes or a refusal. */
    method Read(size: nat) returns (data: Option<Bytes>)
      requires Valid()
      modifies this
      ensures Valid()
      ensures data.Some? <==> old(cursor) + size <= |archive|
      ensures data.Some? ==> cursor == old(cursor) + size && data.value == archive[old(cursor)..cursor]
    {
      if cursor + size > |archive| {
        return None;
      }
      var bytes := archive[cursor..cursor + size];
      assert archive[..cursor + size] == archive[..cursor] + bytes;
      digested := digested + bytes;
      cursor := cursor + size;
      return Some(bytes);
    }
  }

  /** A member's payload, read in chunks of at most one mebibyte. */
  method ReadPayload(reader: Reader, size: nat) returns (payload: Option<Bytes>)
    requires reader.Valid()
    modifies reader
    ensures reader.Valid()
    ensures payload.Some? <==> old(reader.cursor) + size <= |reader.archive|
    ensures payload.Some? ==> reader.cursor == old(reader.cursor) + size
                              && payload.value == reader.archive[old(reader.cursor)..reader.cursor]
  {
    var remaining := size;
    var bytes: Bytes := [];
    var start := reader.cursor;
    while remaining > 0
      invariant reader.Valid() && start <= reader.cursor && remaining == size - (reader.cursor - start)
      invariant remaining >= 0 && bytes == reader.archive[start..reader.cursor]
      decreases remaining
    {
      var chunk := reader.Read(if remaining < 1024 * 1024 then remaining else 1024 * 1024);
      if chunk == None {
        return None;
      }
      remaining := remaining - |chunk.value|;
      bytes := bytes + chunk.value;
    }
    return Some(bytes);
  }

  /** The records of an extended header, one at a time. */
  method CheckRecords(bytes: Bytes) returns (ok: bool)
    ensures ok == MtimeRecords(bytes)
  {
    var p := bytes;
    while p != []
      invariant MtimeRecords(p) == MtimeRecords(bytes)
      decreases |p|
    {
      var i := SpaceAt(p, 0);
      if i == -1 || !Digits(p[..i]) {
        return false;
      }
      var count := Number(p[..i]);
      if count <= i + 1 || count > |p| {
        return false;
      }
      if !MtimeField(p[i + 1..count]) {
        return false;
      }
      p := p[count..];
    }
    return true;
  }

  /** What must follow the first zero block: another one, then only zeros. */
  method ReadEnd(reader: Reader) returns (ok: bool)
    requires reader.Valid()
    modifies reader
    ensures reader.Valid()
    ensures ok <==> old(reader.cursor) + 512 <= |reader.archive| && AllZero(reader.archive[old(reader.cursor)..])
    ensures ok ==> reader.cursor == |reader.archive|
  {
    var start := reader.cursor;
    var second := reader.Read(512);
    if second == None {
      return false;
    }
    if !AllZero(second.value) {
      NotAllZero(reader.archive, start, reader.cursor);
      return false;
    }
    while reader.cursor < |reader.archive|
      invariant reader.Valid() && start <= reader.cursor && AllZero(reader.archive[start..reader.cursor])
      decreases |reader.archive| - reader.cursor
    {
      var left := |reader.archive| - reader.cursor;
      var from := reader.cursor;
      var data := reader.Read(if left < 65536 then left else 65536);
      if !AllZero(data.value) {
        NotAllZero(reader.archive, from, reader.cursor);
        NotAllZeroAfter(reader.archive, start, from);
        return false;
      }
      ZerosJoin(reader.archive, start, from, reader.cursor);
    }
    assert reader.archive[start..reader.cursor] == reader.archive[start..];
    return true;
  }

  /** An extended header's records and padding. */
  method ReadExtended(reader: Reader, size: nat) returns (ok: bool)
    requires reader.Valid()
    modifies reader
    ensures reader.Valid()
    ensures var body := old(reader.cursor);
            ok <==> 0 < size <= MAX_EXTENDED && body + size + Padding(size) <= |reader.archive|
                    && MtimeRecords(reader.archive[body..body + size])
    ensures ok ==> reader.cursor == old(reader.cursor) + size + Padding(size)
  {
    hide MtimeRecords, Padding;
    if !(0 < size <= MAX_EXTENDED) {
      return false;
    }
    var records := reader.Read(size);
    if records == None {
      return false;
    }
    var padding := reader.Read(Padding(size));
    if padding == None {
      return false;
    }
    ok := CheckRecords(records.value);
  }

  /** A member's payload and padding. */
  method ReadMember(reader: Reader, size: nat) returns (payload: Option<Bytes>)
    requires reader.Valid()
    modifies reader
    ensures reader.Valid()
    ensures payload.Some? <==> old(reader.cursor) + size + Padding(size) <= |reader.archive|
    ensures payload.Some? ==> reader.cursor == old(reader.cursor) + size + Padding(size)
                              && payload.value == reader.archive[old(reader.cursor)..old(reader.cursor) + size]
  {
    hide Padding;
    payload := ReadPayload(reader, size);
    if payload == None {
      return None;
    }
    var padding := reader.Read(Padding(size));
    if padding == None {
      return None;
    }
  }

  lemma NotAllZero(a: Bytes, i: nat, j: nat)
    requires i <= j <= |a| && !AllZero(a[i..j])
    ensures !AllZero(a[i..])
  {
    var k :| 0 <= k < j - i && a[i..j][k] != 0;
    assert a[i..][k] == a[i..j][k];
  }

  lemma NotAllZeroAfter(a: Bytes, i: nat, j: nat)
    requires i <= j <= |a| && !AllZero(a[j..])
    ensures !AllZero(a[i..])
  {
    var k :| 0 <= k < |a| - j && a[j..][k] != 0;
    assert a[i..][j - i + k] == a[j..][k];
  }

  lemma ZerosJoin(a: Bytes, i: nat, j: nat, k: nat)
    requires i <= j <= k <= |a| && AllZero(a[i..j]) && AllZero(a[j..k])
    ensures AllZero(a[i..k])
  {
    assert a[i..k] == a[i..j] + a[j..k];
  }

  /** inspect_archive: the verdict is the specification's, and an accepted file
      was read to its last byte with every byte digested once, in order. */
  method Inspect(o: Oracles, archive: Bytes) returns (found: Option<Members>, digested: Bytes)
    ensures found == Inspected(o, archive)
    ensures found.Some? ==> digested == archive
  {
    hide Scan, AllZero, MtimeRecords, Padding, MemberAllowed;
    var reader := new Reader(archive);
    if !(1024 <= |archive| <= MAX_ARCHIVE_BYTES) {
      return None, reader.digested;
    }
    var seen: Members := map[];
    var headers := 0;
    while true
      invariant fresh(reader) && reader.Valid() && reader.archive == archive
      invariant Scan(o, archive, 0, 0, map[]) == Scan(o, archive, reader.cursor, headers, seen)
      decreases |archive| - reader.cursor
    {
      var pos := reader.cursor;
      OneHeader(o, archive, pos, headers, seen);
      var block := reader.Read(512);
      if block == None {
        return None, reader.digested;
      }
      if AllZero(block.value) {
        var ended := ReadEnd(reader);
        if !ended {
          return None, reader.digested;
        }
        break;
      }
      headers := headers + 1;
      var header := o.decode(block.value);
      if headers > MAX_HEADERS || header == None {
        return None, reader.digested;
      }
      var h := header.value;
      if h.kind == Extended {
        var ok := ReadExtended(reader, h.size);
        if !ok {
          return None, reader.digested;
        }
      } else {
        if !MemberAllowed(h, seen) {
          return None, reader.digested;
        }
        var payload := ReadMember(reader, h.size);
        if payload == None {
          return None, reader.digested;
        }
        seen := seen[h.name := payload.value];
      }
    }
    if seen.Keys != {MANIFEST, DATABASE} {
      return None, reader.digested;
    }
    if !o.describes(seen[MANIFEST], |seen[DATABASE]|, o.sha(seen[DATABASE])) {
      return None, reader.digested;
    }
    return Some(seen), reader.digested;
  }
}
