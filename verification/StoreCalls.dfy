/** Which calls the store grants: the exact conditions on what is in its file, after any
    run. */
module StoreCalls {
  import opened Model
  import opened Canonical
  import opened RecordCodec
  import opened StoreFormat
  import opened Compaction
  import opened Store
  import opened StoreRuns

  /** An append is granted exactly when the store is open, the payload is no larger than a
      payload may be, and the file has room for its bytes and for one more record. */
  lemma AppendedIff(env: StoreEnv, config: StoreConfig, st: StoreState, entries: seq<Entry>, tail: Bytes, code: u16, payload: Bytes)
    requires Recoverable(env, st, entries, tail) && Counted(config, st, entries) && config.Valid()
    ensures var status := Appended(env, config, st, code, payload).1;
            && (status == Status.Ok <==>
                  && st.isOpen && |payload| <= MAX_RECORD_PAYLOAD
                  && |st.file.value| + RECORD_HEADER + |payload| <= config.maxBytes && |entries| < config.maxRecords)
            && (status == Status.Stopped <==> !st.isOpen)
            && status in {Status.Ok, Status.Stopped, Status.LimitExceeded}
  {
    hide Holds, Torn, NoCheckpoint, Record;
  }

  /** The store is open on the file and knows its size. */
  ghost predicate OpensTo(st: StoreState, file: Bytes) { st.isOpen && st.file == Some(file) && st.bytes == |file| }

  predicate Compactable(env: StoreEnv, config: StoreConfig, entries: seq<Entry>) {
    |CompactedFile(env, entries, HistoryLimit(config.snapshotHistory))| <= config.maxBytes
  }

  /** A compaction is granted exactly when the file is not beyond every bound and what it
      keeps fits the bound on bytes. */
  lemma CompactedIff(env: StoreEnv, config: StoreConfig, st: StoreState, entries: seq<Entry>, tail: Bytes)
    requires Recoverable(env, st, entries, tail)
    ensures var c := Compact(env, config, st);
            && (c.status == Status.Ok <==> |st.file.value| <= MAX_MAX_BYTES && Compactable(env, config, entries))
            && c.status in {Status.Ok, Status.LimitExceeded}
            && (c.status == Status.Ok ==>
                  OpensTo(c.state, CompactedFile(env, entries, HistoryLimit(config.snapshotHistory))))
  {
    RecoveryIsExact(env, st.file.value, entries, tail);
    hide Holds, Torn, ScanImage, CompactedFile, Dropped, Kept;
  }

  /** The file with nothing but its records. */
  function Whole(env: StoreEnv, entries: seq<Entry>): Bytes { FileHeader(env) + Encodings(env, entries) }

  /** The configuration is valid, the file not beyond every bound, and either its records
      fit the bound on bytes or those do that a compaction keeps. */
  predicate Openable(env: StoreEnv, config: StoreConfig, size: nat, entries: seq<Entry>) {
    && 0 < config.maxBytes <= MAX_MAX_BYTES && 0 < config.maxRecords <= MAX_MAX_RECORDS
    && size <= MAX_MAX_BYTES && (|Whole(env, entries)| <= config.maxBytes || Compactable(env, config, entries))
  }

  /** The file is cut to its records, or compacted when those are too many bytes. */
  function OpenFile(env: StoreEnv, config: StoreConfig, entries: seq<Entry>): Bytes {
    if |Whole(env, entries)| <= config.maxBytes then Whole(env, entries)
    else CompactedFile(env, entries, HistoryLimit(config.snapshotHistory))
  }

  /** Opening is granted exactly when the file is openable, and then leaves the open file. */
  lemma OpenedIff(env: StoreEnv, config: StoreConfig, st: StoreState, entries: seq<Entry>, tail: Bytes)
    requires Recoverable(env, st, entries, tail)
    ensures st.file.Some?
    ensures Opened(env, config, st).1 == Status.Ok <==> Openable(env, config, |st.file.value|, entries)
    ensures Opened(env, config, st).1 == Status.Invalid <==> !config.Valid()
    ensures Opened(env, config, st).1 == Status.Ok ==> OpensTo(Opened(env, config, st).0, OpenFile(env, config, entries))
  {
    hide *;
    OpensAs(env, config, st, entries, tail);
    if config.Valid() && |st.file.value| <= MAX_MAX_BYTES {
      var file := Cut(env, st.file.value);
      ReopenedIs(env, config, st, entries, tail);
      var reopened := StoreState(Some(file), true, |file|, Wrap32(ContentsOf(entries).Count()));
      CompactedIff(env, config, reopened, entries, []);
      SettlesAs(env, config, reopened, entries);
    }
    OpenableIff(env, config, |st.file.value|, entries);
  }

  lemma OpenableIff(env: StoreEnv, config: StoreConfig, size: nat, entries: seq<Entry>)
    ensures Openable(env, config, size, entries) <==>
      config.Valid() && size <= MAX_MAX_BYTES && (|Whole(env, entries)| <= config.maxBytes || Compactable(env, config, entries))
  {
    hide Whole, Compactable;
  }

  lemma OpensAs(env: StoreEnv, config: StoreConfig, st: StoreState, entries: seq<Entry>, tail: Bytes)
    requires Recoverable(env, st, entries, tail)
    ensures st.file.Some?
    ensures var (after, status) := Opened(env, config, st);
            var file := Cut(env, st.file.value);
            if !config.Valid() then status == Status.Invalid
            else if |st.file.value| > MAX_MAX_BYTES then status == Status.LimitExceeded
            else (after, status) == Settled(env, config, StoreState(Some(file), true, |file|, Wrap32(ContentsOf(entries).Count())))
  {
    RecoveryIsExact(env, st.file.value, entries, tail);
    hide Holds, Torn, ScanImage, Cut, Settled, ContentsOf;
  }

  lemma ReopenedIs(env: StoreEnv, config: StoreConfig, st: StoreState, entries: seq<Entry>, tail: Bytes)
    requires Recoverable(env, st, entries, tail)
    ensures var file := Cut(env, st.file.value);
            && file == Whole(env, entries) && |file| <= |st.file.value|
            && Recoverable(env, StoreState(Some(file), true, |file|, Wrap32(ContentsOf(entries).Count())), entries, [])
  {
    ReopeningCuts(env, st.file.value, entries, tail);
    NothingTorn(env);
    hide ScanImage, Torn, Encodings, FileHeader, ContentsOf, AllStored;
  }

  /** What is small enough stays, and what is not is compacted. */
  lemma SettlesAs(env: StoreEnv, config: StoreConfig, st: StoreState, entries: seq<Entry>)
    requires st.file == Some(Whole(env, entries)) && st.bytes == |Whole(env, entries)| && st.isOpen
    requires var c := Compact(env, config, st);
             && c.status in {Status.Ok, Status.LimitExceeded}
             && (c.status == Status.Ok <==> |Whole(env, entries)| <= MAX_MAX_BYTES && Compactable(env, config, entries))
             && (c.status == Status.Ok ==>
                   OpensTo(c.state, CompactedFile(env, entries, HistoryLimit(config.snapshotHistory))))
    requires |Whole(env, entries)| <= MAX_MAX_BYTES
    ensures var (after, status) := Settled(env, config, st);
            && (status == Status.Ok <==> |Whole(env, entries)| <= config.maxBytes || Compactable(env, config, entries))
            && status in {Status.Ok, Status.LimitExceeded}
            && (status == Status.Ok ==> OpensTo(after, OpenFile(env, config, entries)))
  {
    hide Compact, Whole, CompactedFile, Compactable;
  }

  /** After any run of a store with a valid configuration: what the next append, the next
      compaction and the next opening need, told from the records a scan of the file finds. */
  lemma NextCalls(env: StoreEnv, config: StoreConfig, events: seq<StoreEvent>, code: u16, payload: Bytes)
      returns (entries: seq<Entry>)
    requires config.Valid() && forall i | 0 <= i < |events| :: Proper(env, events[i])
    ensures var st := Run(env, config, FreshStore(env), events);
            && st.file.Some? && ScanImage(env, st.file.value).entries == entries
            && (Appended(env, config, st, code, payload).1 == Status.Ok <==>
                  && st.isOpen && |payload| <= MAX_RECORD_PAYLOAD
                  && |st.file.value| + RECORD_HEADER + |payload| <= config.maxBytes && |entries| < config.maxRecords)
            && (Compact(env, config, st).status == Status.Ok <==>
                  |st.file.value| <= MAX_MAX_BYTES && Compactable(env, config, entries))
            && (Opened(env, config, st).1 == Status.Ok <==> Openable(env, config, |st.file.value|, entries))
  {
    hide *;
    var tail;
    entries, tail := RunsAreRecoverable(env, config, events);
    var st := Run(env, config, FreshStore(env), events);
    AppendedIff(env, config, st, entries, tail, code, payload);
    CompactedIff(env, config, st, entries, tail);
    OpenedIff(env, config, st, entries, tail);
    ScanFinds(env, st, entries, tail);
  }

  lemma ScanFinds(env: StoreEnv, st: StoreState, entries: seq<Entry>, tail: Bytes)
    requires Recoverable(env, st, entries, tail)
    ensures st.file.Some? && ScanImage(env, st.file.value).entries == entries
  {
    RecoveryIsExact(env, st.file.value, entries, tail);
    hide ScanImage, Holds, Torn;
  }

  /** An image is usable exactly when it has a whole header: the magic, the digest of the
      first sixteen bytes, and the one format there is. Otherwise nothing is accepted of it. */
  lemma UsableIff(env: StoreEnv, image: Bytes)
    ensures var r := ScanImage(env, image);
            && (r.Usable() <==>
                  && |image| >= FILE_HEADER && image[..8] == FILE_MAGIC && Word32(image[8..]) == FORMAT_VERSION
                  && image[16..48] == env.hash(image[..16]))
            && (|image| < FILE_HEADER ==> r.status == Status.NotFound)
            && (|image| >= FILE_HEADER && !HeaderVerifies(env, image) ==> r.status == Status.Corrupt)
            && (r.versionIncompatible ==> r.status == Status.UnsupportedFormat)
            && (!r.Usable() ==> r.entries == [])
  {
    hide ScanAll, Word32;
  }

  /** The front of what is left is the header of a record: the magic, the digest of the
      bytes before it, a code there is and a length a payload may have. */
  predicate HasHead(env: StoreEnv, rest: Bytes) {
    && |rest| >= RECORD_HEADER && Word32(rest) == RECORD_MAGIC && rest[48..80] == env.hash(rest[..48])
    && CodeAt(rest) <= 7 && LengthAt(rest) <= MAX_RECORD_PAYLOAD
  }

  /** A record is taken exactly when its header is whole, its payload is there, is the one
      that was digested, and decodes; it reads as torn exactly when the header or the
      payload is cut off. */
  lemma TakenIff(env: StoreEnv, rest: Bytes)
    ensures var s := ScanOne(env, rest);
            var whole := HasHead(env, rest) && RECORD_HEADER + LengthAt(rest) <= |rest|;
            && (s.Taken? <==>
                  && whole && env.hash(rest[RECORD_HEADER..RECORD_HEADER + LengthAt(rest)]) == rest[16..48]
                  && Decode(env, CodeAt(rest), rest[RECORD_HEADER..RECORD_HEADER + LengthAt(rest)]).Success?)
            && (s.Taken? ==> s.size == RECORD_HEADER + LengthAt(rest))
            && ((s.Halted? && s.tail) <==> |rest| < RECORD_HEADER || (HasHead(env, rest) && !whole))
            && (whole && env.hash(rest[RECORD_HEADER..RECORD_HEADER + LengthAt(rest)]) != rest[16..48] ==>
                  s.Halted? && s.status == Status.IntegrityFailure && s.mismatch)
  {
    hide Decode, Word32, LengthAt, CodeAt;
  }
}
