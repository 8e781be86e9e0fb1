/** What the store keeps over every run of appends, crashes, reopenings and
    compactions. */
module StoreRuns {
  import opened Model
  import opened Canonical
  import opened RecordCodec
  import opened StoreFormat
  import opened Compaction
  import opened Store

  /** A crash leaves the first `keep` bytes of the file. */
  datatype StoreEvent = AppendEvent(entry: Entry) | CrashEvent(keep: nat) | ReopenEvent | CompactEvent

  /** Appended records read back, and a crash leaves the file header. */
  ghost predicate Proper(env: StoreEnv, ev: StoreEvent) {
    match ev
    case AppendEvent(e) => Good(env, e) && !e.CheckpointEntry?
    case CrashEvent(keep) => keep >= FILE_HEADER
    case _ => true
  }

  function Crashed(file: Bytes, keep: nat): Bytes { if keep < |file| then file[..keep] else file }

  function After(env: StoreEnv, config: StoreConfig, st: StoreState, ev: StoreEvent): StoreState {
    match ev
    case AppendEvent(e) => Appended(env, config, st, TypeCode(e), Payload(env, e)).0
    case CrashEvent(keep) =>
      StoreState(if st.file.Some? then Some(Crashed(st.file.value, keep)) else None, false, 0, 0)
    case ReopenEvent => Opened(env, config, st).0
    case CompactEvent => Compact(env, config, st).state
  }

  function Run(env: StoreEnv, config: StoreConfig, start: StoreState, events: seq<StoreEvent>): StoreState {
    if events == [] then start
    else After(env, config, Run(env, config, start, events[..|events| - 1]), events[|events| - 1])
  }

  /** The file is a header, the encodings of a list and a torn record; a store that
      is open knows its size and has no torn record. */
  ghost predicate Recoverable(env: StoreEnv, st: StoreState, entries: seq<Entry>, tail: Bytes) {
    && st.file.Some? && Holds(env, st.file.value, entries, tail) && Torn(env, tail)
    && (st.isOpen ==> tail == [] && st.bytes == |st.file.value|)
  }

  /** The list is within the bound on records and the file within the bound on
      bytes, and a store that is open counts exactly the records of its file. */
  ghost predicate Counted(config: StoreConfig, st: StoreState, entries: seq<Entry>) {
    && NoCheckpoint(entries) && |entries| <= config.maxRecords
    && (st.isOpen ==> st.records == |entries|)
    && (st.file.Some? ==> |st.file.value| <= config.maxBytes || |st.file.value| <= FILE_HEADER)
  }

  ghost predicate NoCheckpoint(entries: seq<Entry>) { forall i | 0 <= i < |entries| :: !entries[i].CheckpointEntry? }

  lemma {:induction false} CountIsLength(entries: seq<Entry>)
    requires NoCheckpoint(entries)
    ensures ContentsOf(entries).Count() == |entries|
  {
    if entries != [] {
      assert forall i | 0 <= i < |entries| - 1 :: entries[1..][i] == entries[i + 1];
      CountIsLength(entries[1..]);
    }
  }

  /** A compaction keeps a list within its bound, counted as it is written. */
  lemma CompactedCounts(entries: seq<Entry>, limit: nat)
    requires NoCheckpoint(entries) && limit >= 1
    ensures var kept := Compacted(entries, limit);
            NoCheckpoint(kept) && |kept| <= |entries| && Kept(entries, limit).Count() == |kept|
  {
    hide ContentsOf, Entries, Kept;
    CountIsLength(entries);
    CompactionPreserves(entries, limit);
    NoCheckpoints(Kept(entries, limit));
    ContentsOfEntries(Kept(entries, limit));
    var kept := Compacted(entries, limit);
    assert forall i | 0 <= i < |kept| :: kept[i] in kept;
  }

  // ----- Appends ------------------------------------------------------------

  lemma AppendHolds(env: StoreEnv, file: Bytes, entries: seq<Entry>, e: Entry)
    requires Holds(env, file, entries, []) && Good(env, e) && |Payload(env, e)| <= MAX_RECORD_PAYLOAD
    ensures Holds(env, file + Record(env, TypeCode(e), Payload(env, e)), entries + [Bare(env, e)], [])
  {
    hide RecordOf, Record, FileHeader, Good, Bare, Payload;
    var b := Bare(env, e);
    BareIsStored(env, e);
    SameRecord(env, e, b);
    var record := RecordOf(env, b);
    EncodingsAdd(env, entries, [b]);
    assert Encodings(env, [b]) == record by {
      assert [b][1..] == [];
      assert Encodings(env, []) == [];
      assert record + [] == record;
    }
    var h, x := FileHeader(env), Encodings(env, entries);
    assert h + (x + []) + record == h + (x + record + []);
  }

  lemma SameRecord(env: StoreEnv, e: Entry, b: Entry)
    requires TypeCode(b) == TypeCode(e) && Payload(env, b) == Payload(env, e)
    ensures RecordOf(env, b) == Record(env, TypeCode(e), Payload(env, e))
  {
  }

  lemma AppendKeeps(env: StoreEnv, config: StoreConfig, st: StoreState, entries: seq<Entry>, tail: Bytes, e: Entry)
    requires Recoverable(env, st, entries, tail) && Good(env, e)
    ensures var (after, status) := Appended(env, config, st, TypeCode(e), Payload(env, e));
            && (status == Status.Ok ==>
                 Recoverable(env, after, entries + [Bare(env, e)], []) && |after.file.value| <= config.maxBytes)
            && (status != Status.Ok ==> after == st)
            && (status == Status.Ok && config.Valid() && Counted(config, st, entries) && !e.CheckpointEntry? ==>
                  Counted(config, after, entries + [Bare(env, e)]))
  {
    hide Record, Holds, Payload, Good;
    var (after, status) := Appended(env, config, st, TypeCode(e), Payload(env, e));
    if status == Status.Ok { AppendHolds(env, st.file.value, entries, e); }
  }

  /** What a scan makes of an accepted append: one more record when its payload
      decodes; otherwise it stops in front of it, says why, and never gets past it
      whatever is appended later. */
  lemma AppendScans(env: StoreEnv, config: StoreConfig, st: StoreState, entries: seq<Entry>, code: u16,
      payload: Bytes, more: Bytes)
    requires Recoverable(env, st, entries, []) && 2 <= code <= 7
    requires Appended(env, config, st, code, payload).1 == Status.Ok
    ensures var file := Appended(env, config, st, code, payload).0.file.value;
            var r, later := ScanImage(env, file), ScanImage(env, file + more);
            var decoded := Decode(env, code, payload);
            && (decoded.Success? ==> r.entries == entries + [decoded.value] && r.status == Status.Ok)
            && (decoded.Failure? ==>
                 && r.entries == later.entries == entries && r.status == later.status == decoded.status
                 && r.consumed == later.consumed == FILE_HEADER + |Encodings(env, entries)|)
  {
    hide *;
    AppendsTo(env, config, st, entries, code, payload);
    var file, record := Appended(env, config, st, code, payload).0.file.value, Record(env, code, payload);
    if Decode(env, code, payload).Success? {
      DecodedScans(env, entries, code, payload);
    } else {
      UndecodedScans(env, entries, code, payload, []);
      UndecodedScans(env, entries, code, payload, more);
      assert record + [] == record;
      assert file + more == FileHeader(env) + (Encodings(env, entries) + (record + more));
    }
  }

  lemma AppendsTo(env: StoreEnv, config: StoreConfig, st: StoreState, entries: seq<Entry>, code: u16, payload: Bytes)
    requires Recoverable(env, st, entries, []) && Appended(env, config, st, code, payload).1 == Status.Ok
    ensures |payload| <= MAX_RECORD_PAYLOAD && AllStored(env, entries) && Appended(env, config, st, code, payload).0.file.Some?
    ensures Appended(env, config, st, code, payload).0.file.value
         == FileHeader(env) + (Encodings(env, entries) + Record(env, code, payload))
  {
    hide Record, Encodings, AllStored, FileHeader, Torn;
    var h, x, record := FileHeader(env), Encodings(env, entries), Record(env, code, payload);
    assert (h + (x + [])) + record == h + (x + record);
  }

  lemma DecodedScans(env: StoreEnv, entries: seq<Entry>, code: u16, payload: Bytes)
    requires AllStored(env, entries) && 2 <= code <= 7 && |payload| <= MAX_RECORD_PAYLOAD && Decode(env, code, payload).Success?
    ensures var r := ScanImage(env, FileHeader(env) + (Encodings(env, entries) + Record(env, code, payload)));
            r.entries == entries + [Decode(env, code, payload).value] && r.status == Status.Ok
  {
    hide ScanOne, Record, Decode, Encodings, AllStored, FileHeader, ScanImage;
    var record := Record(env, code, payload);
    HeaderIsReadable(env, Encodings(env, entries) + record);
    StoredEntriesAreAccepted(env, entries, record);
    RecordIsTaken(env, code, payload, []);
    assert record + [] == record && record[|record|..] == [];
    assert ScanAll(env, []).entries == [];
  }

  lemma UndecodedScans(env: StoreEnv, entries: seq<Entry>, code: u16, payload: Bytes, more: Bytes)
    requires AllStored(env, entries) && 2 <= code <= 7 && |payload| <= MAX_RECORD_PAYLOAD && Decode(env, code, payload).Failure?
    ensures var r := ScanImage(env, FileHeader(env) + (Encodings(env, entries) + (Record(env, code, payload) + more)));
            && r.entries == entries && r.status == Decode(env, code, payload).status
            && r.consumed == FILE_HEADER + |Encodings(env, entries)|
  {
    hide ScanOne, Record, Decode, Encodings, AllStored, FileHeader, ScanImage;
    var record := Record(env, code, payload);
    UndecodableStops(env, code, payload, more);
    HeaderIsReadable(env, Encodings(env, entries) + (record + more));
    StoredEntriesAreAccepted(env, entries, record + more);
    assert entries + [] == entries;
  }

  /** An accepted append reads back as the entry it was exactly when the entry is good:
      its texts and numbers are within the bounds that reading asks of them, and a
      snapshot carries the digest of its site. */
  lemma AppendReadsBackIff(env: StoreEnv, config: StoreConfig, st: StoreState, entries: seq<Entry>, e: Entry)
    requires Recoverable(env, st, entries, [])
    requires Appended(env, config, st, TypeCode(e), Payload(env, e)).1 == Status.Ok
    ensures var r := ScanImage(env, Appended(env, config, st, TypeCode(e), Payload(env, e)).0.file.value);
            r.entries == entries + [Bare(env, e)] <==> Good(env, e)
  {
    hide Recoverable, Appended, Decode, Payload, Good, Bare, ScanImage, Encodings;
    AppendScans(env, config, st, entries, TypeCode(e), Payload(env, e), []);
    if Good(env, e) { DecodesWhatWasEncoded(env, e); }
    var decoded := Decode(env, TypeCode(e), Payload(env, e));
    if decoded.Success? && entries + [decoded.value] == entries + [Bare(env, e)] {
      assert (entries + [decoded.value])[|entries|] == (entries + [Bare(env, e)])[|entries|];
      DecodedIsStored(env, TypeCode(e), Payload(env, e));
      GoodWhenBareIs(env, e);
    }
  }

  lemma GoodWhenBareIs(env: StoreEnv, e: Entry)
    ensures Good(env, Bare(env, e)) <==> Good(env, e)
  {
    hide GoodPublication, BarePublication, GoodRetirement, GoodToken;
    if e.PublicationEntry? { BareIsAsGood(e.publication); }
  }

  /** A tombstone above the bound on texts is accepted by every open store that has
      room for it, and no later scan gets past it: the store reads back without it and
      without everything appended behind it. */
  lemma LongTombstoneStops(env: StoreEnv, config: StoreConfig, st: StoreState, entries: seq<Entry>, text: Text,
      more: Bytes)
    requires Recoverable(env, st, entries, []) && st.isOpen && MAX_TEXT_BYTES < |text| <= MAX_RECORD_PAYLOAD - 4
    requires st.bytes + RECORD_HEADER + 4 + |text| <= config.maxBytes && st.records < config.maxRecords
    ensures var e := TombstoneEntry(text);
            var (after, status) := Appended(env, config, st, TypeCode(e), Payload(env, e));
            && status == Status.Ok && after.file.Some?
            && var later := ScanImage(env, after.file.value + more);
               later.entries == entries && later.status == Status.LimitExceeded
  {
    hide *;
    var e := TombstoneEntry(text);
    LongTextIsRefused(env, text);
    TombstoneCode(env, st, entries, text);
    RoomIsUsed(env, config, st, TypeCode(e), Payload(env, e));
    AppendScans(env, config, st, entries, TypeCode(e), Payload(env, e), more);
  }

  lemma TombstoneCode(env: StoreEnv, st: StoreState, entries: seq<Entry>, text: Text)
    requires Recoverable(env, st, entries, [])
    ensures TypeCode(TombstoneEntry(text)) == 5 && st.file.Some?
  {
    hide Encodings, Holds;
  }

  lemma RoomIsUsed(env: StoreEnv, config: StoreConfig, st: StoreState, code: u16, payload: Bytes)
    requires st.isOpen && st.file.Some? && |payload| <= MAX_RECORD_PAYLOAD
    requires st.bytes + RECORD_HEADER + |payload| <= config.maxBytes && st.records < config.maxRecords
    ensures Appended(env, config, st, code, payload).1 == Status.Ok && Appended(env, config, st, code, payload).0.file.Some?
  {
    hide Record;
  }

  lemma LongTextIsRefused(env: StoreEnv, text: Text)
    requires MAX_TEXT_BYTES < |text| <= MAX_RECORD_PAYLOAD - 4
    ensures var p := Payload(env, TombstoneEntry(text)); |p| == 4 + |text| && Decode(env, 5, p) == Failure(Status.LimitExceeded)
  {
    hide *;
    PayloadOfTombstone(env, text);
    LongTextIsNotRead(text);
    TombstoneDecodes(env, PutText(text, []));
  }

  lemma LongTextIsNotRead(text: Text)
    requires MAX_TEXT_BYTES < |text| <= MAX_RECORD_PAYLOAD - 4
    ensures |PutText(text, [])| == 4 + |text| && GetText(PutText(text, []), MAX_TEXT_BYTES) == Refused(Status.LimitExceeded)
  {
    hide Put32, PutRaw, PutText, Get32, GetText;
    LengthComesFirst(text);
    TooLongIsRefused(text, MAX_TEXT_BYTES);
  }

  lemma PayloadOfTombstone(env: StoreEnv, text: Text)
    ensures Payload(env, TombstoneEntry(text)) == PutText(text, [])
  {
    hide PutText;
  }

  lemma TombstoneDecodes(env: StoreEnv, payload: Bytes)
    requires GetText(payload, MAX_TEXT_BYTES).Refused?
    ensures Decode(env, 5, payload) == Failure(GetText(payload, MAX_TEXT_BYTES).status)
  {
    hide GetText;
  }

  lemma UndecodableStops(env: StoreEnv, code: u16, payload: Bytes, more: Bytes)
    requires |payload| <= MAX_RECORD_PAYLOAD && code <= 7 && Decode(env, code, payload).Failure?
    ensures var s := ScanOne(env, Record(env, code, payload) + more); s.Halted? && s.status == Decode(env, code, payload).status
  {
    hide Decode;
    var r := Record(env, code, payload);
    HeadLayout(env, code, payload);
    hide Record, Head;
    var rest := r + more;
    assert rest[..48] == r[..48] && rest[48..80] == r[48..80] && rest[16..48] == r[16..48];
    assert rest[80..80 + |payload|] == payload;
    WordIgnoresTail(rest, r);
    assert rest[8..][..4] == r[8..][..4];
    WordIgnoresTail(rest[8..], r[8..]);
  }

  // ----- Crashes ------------------------------------------------------------

  lemma {:induction false} CutBody(env: StoreEnv, entries: seq<Entry>, tail: Bytes, m: nat) returns (k: nat,
      left: Bytes)
    requires AllStored(env, entries) && Torn(env, tail) && m <= |Encodings(env, entries)| + |tail|
    ensures k <= |entries| && Torn(env, left)
    ensures (Encodings(env, entries) + tail)[..m] == Encodings(env, entries[..k]) + left
    decreases |entries|
  {
    hide RecordOf, Payload, Stored;
    if entries == [] {
      k, left := 0, tail[..m];
      CutTail(env, tail, m);
      assert (Encodings(env, entries) + tail)[..m] == tail[..m];
      assert entries[..0] == [];
    } else {
      var first, rest := RecordOf(env, entries[0]), Encodings(env, entries[1..]) + tail;
      assert Encodings(env, entries) + tail == first + rest;
      if m < |first| {
        k, left := 0, first[..m];
        assert entries[..0] == [];
        assert IsCut(env, left, entries[0], m);
        assert (first + rest)[..m] == first[..m];
      } else {
        assert AllStored(env, entries[1..]);
        k, left := CutBody(env, entries[1..], tail, m - |first|);
        k := k + 1;
        assert entries[..k][1..] == entries[1..][..k - 1];
        assert (first + rest)[..m] == first + rest[..m - |first|];
        assert first + (Encodings(env, entries[1..][..k - 1]) + left) == (first + Encodings(env, entries[1..][..k - 1])) + left;
      }
    }
  }

  lemma CutTail(env: StoreEnv, tail: Bytes, m: nat)
    requires Torn(env, tail) && m <= |tail|
    ensures Torn(env, tail[..m])
  {
    hide RecordOf, Payload;
    if tail[..m] != [] {
      var e, n: nat :| IsCut(env, tail, e, n);
      assert tail[..m] == RecordOf(env, e)[..m];
      assert IsCut(env, tail[..m], e, m);
    }
  }

  lemma CrashKeeps(env: StoreEnv, file: Bytes, entries: seq<Entry>, tail: Bytes, keep: nat) returns (k: nat,
      left: Bytes)
    requires Holds(env, file, entries, tail) && Torn(env, tail) && keep >= FILE_HEADER
    ensures k <= |entries| && Torn(env, left) && Holds(env, Crashed(file, keep), entries[..k], left)
  {
    hide Encodings, FileHeader, Torn, Stored, Payload;
    HeaderSize(env);
    if keep < |file| {
      k, left := CutBody(env, entries, tail, keep - FILE_HEADER);
      assert file[..keep] == FileHeader(env) + (Encodings(env, entries) + tail)[..keep - FILE_HEADER];
    } else {
      k, left := |entries|, tail;
      assert entries[..k] == entries;
    }
  }

  lemma HeaderSize(env: StoreEnv)
    ensures |FileHeader(env)| == FILE_HEADER
  {
  }

  // ----- Reopening and compaction -------------------------------------------

  /** Opening cuts the file back to the last record boundary and nothing more. */
  lemma ReopeningCuts(env: StoreEnv, file: Bytes, entries: seq<Entry>, tail: Bytes)
    requires Holds(env, file, entries, tail) && Torn(env, tail)
    ensures Cut(env, file) == FileHeader(env) + Encodings(env, entries)
    ensures Holds(env, Cut(env, file), entries, [])
  {
    hide Encodings, FileHeader, ScanImage, Torn, AllStored;
    RecoveryIsExact(env, file, entries, tail);
    assert Encodings(env, entries) + [] == Encodings(env, entries);
    if tail == [] { assert file == FileHeader(env) + Encodings(env, entries); }
    HeaderSize(env);
  }

  /** A compaction either changes nothing or rewrites the file to exactly what it
      keeps, and then the store is open. */
  lemma CompactKeeps(env: StoreEnv, config: StoreConfig, st: StoreState, entries: seq<Entry>, tail: Bytes)
    requires Recoverable(env, st, entries, tail)
    ensures var c := Compact(env, config, st);
            var kept := Compacted(entries, HistoryLimit(config.snapshotHistory));
            && (c.status == Status.Ok ==>
                 Recoverable(env, c.state, kept, []) && c.state.isOpen && |c.state.file.value| <= config.maxBytes
                 && c.dropped == Dropped(entries, HistoryLimit(config.snapshotHistory)))
            && (c.status != Status.Ok ==> c.state == st)
  {
    hide Encodings, FileHeader, ScanImage, Compacted, Dropped, Kept, AllStored;
    RecoveryIsExact(env, st.file.value, entries, tail);
    var kept := Compacted(entries, HistoryLimit(config.snapshotHistory));
    CompactedIsStored(env, entries, HistoryLimit(config.snapshotHistory));
    assert Encodings(env, kept) + [] == Encodings(env, kept);
  }

  lemma CompactCounts(env: StoreEnv, config: StoreConfig, st: StoreState, entries: seq<Entry>, tail: Bytes)
    requires Recoverable(env, st, entries, tail) && Counted(config, st, entries) && config.Valid()
    requires Compact(env, config, st).status == Status.Ok
    ensures Counted(config, Compact(env, config, st).state, Compacted(entries, HistoryLimit(config.snapshotHistory)))
  {
    hide *;
    ScannedAgain(env, st, entries, tail);
    WithinBound(config, st, entries);
    CompactedCounts(entries, HistoryLimit(config.snapshotHistory));
    CompactedState(env, config, st);
    CountedAgain(config, Compact(env, config, st).state, Compacted(entries, HistoryLimit(config.snapshotHistory)));
  }

  lemma ScannedAgain(env: StoreEnv, st: StoreState, entries: seq<Entry>, tail: Bytes)
    requires Recoverable(env, st, entries, tail)
    ensures st.file.Some? && ScanImage(env, st.file.value).entries == entries
  {
    hide Holds, Torn, ScanImage;
    RecoveryIsExact(env, st.file.value, entries, tail);
  }

  lemma WithinBound(config: StoreConfig, st: StoreState, entries: seq<Entry>)
    requires Counted(config, st, entries)
    ensures NoCheckpoint(entries) && |entries| <= config.maxRecords
  {
  }

  lemma CountedAgain(config: StoreConfig, st: StoreState, kept: seq<Entry>)
    requires config.Valid() && NoCheckpoint(kept) && |kept| <= config.maxRecords
    requires st.records == Wrap32(|kept|) && st.file.Some? && |st.file.value| <= config.maxBytes
    ensures Counted(config, st, kept)
  {
  }

  lemma CompactedState(env: StoreEnv, config: StoreConfig, st: StoreState)
    requires Compact(env, config, st).status == Status.Ok
    ensures st.file.Some?
    ensures var after := Compact(env, config, st).state;
            && after.file.Some? && |after.file.value| <= config.maxBytes
            && after.records == Wrap32(Kept(ScanImage(env, st.file.value).entries, HistoryLimit(config.snapshotHistory)).Count())
  {
    hide CompactedFile, ScanImage, Dropped, Kept;
  }

  /** Whatever file was scanned, scanning the rewritten one is OK and accepts exactly
      what was kept of it, with the same latest snapshot. */
  lemma CompactedFileReadsBack(env: StoreEnv, image: Bytes, limit: nat)
    requires limit >= 1
    ensures var entries := ScanImage(env, image).entries;
            var r := ScanImage(env, CompactedFile(env, entries, limit));
            && r.entries == Compacted(entries, limit) && r.status == Status.Ok && r.truncated == 0
            && ContentsOf(r.entries) == Kept(entries, limit) && Latest(r.entries) == Latest(entries)
            && CompactedFile(env, r.entries, limit) == CompactedFile(env, entries, limit)
  {
    hide Encodings, FileHeader, ScanImage, Compacted, Kept, AllStored, Torn, ContentsOf, Latest;
    var entries := ScanImage(env, image).entries;
    RecoveredIsStored(env, image);
    CompactedIsStored(env, entries, limit);
    CompactionPreserves(entries, limit);
    NothingTorn(env);
    var kept := Compacted(entries, limit);
    assert Encodings(env, kept) + [] == Encodings(env, kept);
    RecoveryIsExact(env, CompactedFile(env, entries, limit), kept, []);
  }

  lemma OpenKeeps(env: StoreEnv, config: StoreConfig, st: StoreState, entries: seq<Entry>, tail: Bytes)
      returns (entries': seq<Entry>, tail': Bytes)
    requires Recoverable(env, st, entries, tail)
    ensures Recoverable(env, Opened(env, config, st).0, entries', tail')
    ensures entries' == entries || entries' == Compacted(entries, HistoryLimit(config.snapshotHistory))
    ensures config.Valid() && |st.file.value| <= MAX_MAX_BYTES && |FileHeader(env) + Encodings(env, entries)| <= config.maxBytes ==>
      entries' == entries && tail' == [] && Opened(env, config, st).1 == Status.Ok && Opened(env, config, st).0.isOpen
    ensures config.Valid() && Counted(config, st, entries) ==> Counted(config, Opened(env, config, st).0, entries')
  {
    hide Holds, Torn, Compact, Cut, Encodings, FileHeader, ScanImage, Compacted, NoCheckpoint, ContentsOf;
    entries', tail' := entries, tail;
    assert Torn(env, []) by { NothingTorn(env); }
    if config.Valid() && |st.file.value| <= MAX_MAX_BYTES {
      RecoveryIsExact(env, st.file.value, entries, tail);
      ReopeningCuts(env, st.file.value, entries, tail);
      tail' := [];
      var file := Cut(env, st.file.value);
      var started := StoreState(Some(file), true, |file|, Wrap32(ContentsOf(entries).Count()));
      assert Recoverable(env, started, entries, []);
      if NoCheckpoint(entries) { CountIsLength(entries); }
      CutShortens(env, st.file.value);
      assert Counted(config, st, entries) ==> Counted(config, started, entries);
      if started.bytes > config.maxBytes {
        CompactKeeps(env, config, started, entries, []);
        if Compact(env, config, started).status == Status.Ok {
          if Counted(config, st, entries) { CompactCounts(env, config, started, entries, []); }
          entries' := Compacted(entries, HistoryLimit(config.snapshotHistory));
        }
      }
    }
  }

  lemma CutShortens(env: StoreEnv, file: Bytes)
    ensures |Cut(env, file)| <= |file|
  {
    hide ScanImage;
  }

  lemma NothingTorn(env: StoreEnv)
    ensures Torn(env, [])
  {
  }

  // ----- Runs ---------------------------------------------------------------

  /** One event: an accepted append adds the record as it is stored, a crash loses
      records only from the end, opening loses none unless the store is above its
      bound, and then, as on a compaction, just what a compaction drops. */
  lemma StepKeeps(env: StoreEnv, config: StoreConfig, st: StoreState, entries: seq<Entry>, tail: Bytes, ev: StoreEvent)
      returns (entries': seq<Entry>, tail': Bytes)
    requires Recoverable(env, st, entries, tail) && Proper(env, ev)
    ensures Recoverable(env, After(env, config, st, ev), entries', tail')
    ensures ev.AppendEvent? ==>
      entries' == entries + (if Appended(env, config, st, TypeCode(ev.entry), Payload(env, ev.entry)).1 == Status.Ok
                             then [Bare(env, ev.entry)] else [])
    ensures ev.CrashEvent? ==> entries' <= entries
    ensures ev.ReopenEvent? || ev.CompactEvent? ==>
      entries' == entries || entries' == Compacted(entries, HistoryLimit(config.snapshotHistory))
    ensures config.Valid() && Counted(config, st, entries) ==> Counted(config, After(env, config, st, ev), entries')
  {
    hide Holds, Torn, Appended, Opened, Compact, Crashed, Good, Bare, Payload, Compacted;
    entries', tail' := entries, tail;
    match ev
    case AppendEvent(e) =>
      AppendKeeps(env, config, st, entries, tail, e);
      if Appended(env, config, st, TypeCode(e), Payload(env, e)).1 == Status.Ok {
        entries', tail' := entries + [Bare(env, e)], [];
      }
    case CrashEvent(keep) =>
      var k, left := CrashKeeps(env, st.file.value, entries, tail, keep);
      entries', tail' := entries[..k], left;
      assert NoCheckpoint(entries) ==> NoCheckpoint(entries[..k]);
      CrashShortens(st.file.value, keep);
    case ReopenEvent =>
      entries', tail' := OpenKeeps(env, config, st, entries, tail);
    case CompactEvent =>
      CompactKeeps(env, config, st, entries, tail);
      if Compact(env, config, st).status == Status.Ok {
        if config.Valid() && Counted(config, st, entries) { CompactCounts(env, config, st, entries, tail); }
        entries', tail' := Compacted(entries, HistoryLimit(config.snapshotHistory)), [];
      }
  }

  lemma CrashShortens(file: Bytes, keep: nat)
    ensures |Crashed(file, keep)| <= |file|
  {
  }

  /** A store that has just been created. */
  function FreshStore(env: StoreEnv): StoreState { StoreState(Some(FileHeader(env)), true, |FileHeader(env)|, 0) }

  lemma FreshIsRecoverable(env: StoreEnv)
    ensures Recoverable(env, FreshStore(env), [], [])
    ensures forall config :: Counted(config, FreshStore(env), [])
  {
    HeaderSize(env);
    hide FileHeader;
    assert Encodings(env, []) + [] == [];
    assert FileHeader(env) + [] == FileHeader(env);
  }

  lemma {:induction false} RunsAreRecoverable(env: StoreEnv, config: StoreConfig, events: seq<StoreEvent>)
      returns (entries: seq<Entry>, tail: Bytes)
    requires forall i | 0 <= i < |events| :: Proper(env, events[i])
    ensures Recoverable(env, Run(env, config, FreshStore(env), events), entries, tail)
    ensures config.Valid() ==> Counted(config, Run(env, config, FreshStore(env), events), entries)
  {
    hide After, Recoverable, Counted, Proper, FreshStore;
    if events == [] {
      FreshIsRecoverable(env);
      entries, tail := [], [];
    } else {
      var front := events[..|events| - 1];
      entries, tail := RunsAreRecoverable(env, config, front);
      entries, tail := StepKeeps(env, config, Run(env, config, FreshStore(env), front), entries, tail, events[|events| - 1]);
    }
  }

  /** After any run of appends, crashes, reopenings and compactions the file holds
      a list of records and at most one torn one: a scan accepts exactly the list
      with status OK or TRUNCATED, opening cuts back to the last boundary, and the
      next accepted append makes the list one record longer. A store with a valid
      configuration never holds more records or bytes than its bounds allow, and
      while it is open it counts exactly the records of its file. */
  lemma EveryRunRecovers(env: StoreEnv, config: StoreConfig, events: seq<StoreEvent>)
      returns (entries: seq<Entry>, tail: Bytes)
    requires forall i | 0 <= i < |events| :: Proper(env, events[i])
    ensures var st := Run(env, config, FreshStore(env), events);
            && st.file.Some?
            && st.file.value == FileHeader(env) + (Encodings(env, entries) + tail) && Torn(env, tail)
            && ScanImage(env, st.file.value).entries == entries
            && ScanImage(env, st.file.value).status == (if tail == [] then Status.Ok else Status.Truncated)
            && Cut(env, st.file.value) == FileHeader(env) + Encodings(env, entries)
    ensures var st := Run(env, config, FreshStore(env), events);
            config.Valid() ==>
              && |entries| <= config.maxRecords && (st.isOpen ==> st.records == |entries|)
              && (|st.file.value| <= config.maxBytes || |st.file.value| <= FILE_HEADER)
    ensures var st := Run(env, config, FreshStore(env), events);
            forall e | Good(env, e) && Appended(env, config, st, TypeCode(e), Payload(env, e)).1 == Status.Ok ::
              && ReadsBack(env, Appended(env, config, st, TypeCode(e), Payload(env, e)).0, entries + [Bare(env, e)], config)
              && (config.Valid() ==> |entries| + 1 <= config.maxRecords)
  {
    hide Run, Torn, Cut, ScanImage, Encodings, FileHeader, AllStored, Good, Bare, Payload, Appended, FreshStore,
      ReadsBack;
    entries, tail := RunsAreRecoverable(env, config, events);
    var st := Run(env, config, FreshStore(env), events);
    RecoveryIsExact(env, st.file.value, entries, tail);
    ReopeningCuts(env, st.file.value, entries, tail);
    forall e | Good(env, e) && Appended(env, config, st, TypeCode(e), Payload(env, e)).1 == Status.Ok
      ensures ReadsBack(env, Appended(env, config, st, TypeCode(e), Payload(env, e)).0, entries + [Bare(env, e)], config)
      ensures config.Valid() ==> |entries| + 1 <= config.maxRecords
    {
      AppendKeeps(env, config, st, entries, tail, e);
      AcceptedHasRoom(env, config, st, entries, TypeCode(e), Payload(env, e));
      RecoverableReadsBack(env, Appended(env, config, st, TypeCode(e), Payload(env, e)).0, entries + [Bare(env, e)], config);
    }
  }

  /** An append is accepted only when the file has room for one more record. */
  lemma AcceptedHasRoom(env: StoreEnv, config: StoreConfig, st: StoreState, entries: seq<Entry>, code: u16, payload: Bytes)
    requires Appended(env, config, st, code, payload).1 == Status.Ok
    ensures config.Valid() && Counted(config, st, entries) ==> |entries| + 1 <= config.maxRecords
  {
    hide Record;
  }

  /** The file reads back as the list, within the bound on bytes. */
  ghost predicate ReadsBack(env: StoreEnv, st: StoreState, entries: seq<Entry>, config: StoreConfig) {
    && st.file.Some? && ScanImage(env, st.file.value).entries == entries && ScanImage(env, st.file.value).status == Status.Ok
    && |st.file.value| <= config.maxBytes
  }

  lemma RecoverableReadsBack(env: StoreEnv, st: StoreState, entries: seq<Entry>, config: StoreConfig)
    requires Recoverable(env, st, entries, []) && |st.file.value| <= config.maxBytes
    ensures ReadsBack(env, st, entries, config)
  {
    hide ScanImage, Torn, Holds;
    RecoveryIsExact(env, st.file.value, entries, []);
  }
}
