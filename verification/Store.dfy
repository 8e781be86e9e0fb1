/** The append-only store: appends within bounds, recovery on opening, and
    compaction; and what holds over every run of them with crashes in between. */
module Store {
  import opened Model
  import opened Canonical
  import opened Attribution
  import opened StoreFormat
  import opened Compaction

  const MAX_MAX_BYTES := 4_398_046_511_104
  const MAX_MAX_RECORDS := 4_194_304

  datatype StoreConfig = StoreConfig(maxBytes: u64, maxRecords: u32, snapshotHistory: u32) {
    predicate Valid() { 0 < maxBytes <= MAX_MAX_BYTES && 0 < maxRecords <= MAX_MAX_RECORDS }
  }

  /** What is on disk, and what an open store knows about it. */
  datatype StoreState = StoreState(file: Option<Bytes>, isOpen: bool, bytes: nat, records: u32)

  function Wrap32(x: int): u32 { x % 0x1_0000_0000 }

  // ----- One call -----------------------------------------------------------

  /** Appends one record if it fits both bounds. */
  function Appended(env: StoreEnv, config: StoreConfig, st: StoreState, code: u16, payload: Bytes): (StoreState,
      Status) {
    if !st.isOpen || st.file.None? then (st, Status.Stopped)
    else if |payload| > MAX_RECORD_PAYLOAD then (st, Status.LimitExceeded)
    else if st.bytes + RECORD_HEADER + |payload| > config.maxBytes then (st, Status.LimitExceeded)
    else if Wrap32(st.records + 1) > config.maxRecords then (st, Status.LimitExceeded)
    else
      (StoreState(Some(st.file.value + Record(env, code, payload)), true, st.bytes + RECORD_HEADER + |payload|,
                  Wrap32(st.records + 1)), Status.Ok)
  }

  /** The file without its torn tail; anything else in it stays. */
  function Cut(env: StoreEnv, file: Bytes): Bytes {
    var r := ScanImage(env, file);
    if r.Usable() && r.tailTruncated && r.consumed < |file| then file[..r.consumed] else file
  }

  datatype CompactOutcome = CompactOutcome(state: StoreState, status: Status, dropped: nat)

  function CompactedFile(env: StoreEnv, entries: seq<Entry>, limit: nat): Bytes {
    FileHeader(env) + Encodings(env, Compacted(entries, limit))
  }

  /** Rewrites the file with what a compaction keeps. */
  function Compact(env: StoreEnv, config: StoreConfig, st: StoreState): CompactOutcome {
    if st.file.None? then CompactOutcome(st, Status.NotFound, 0)
    else if |st.file.value| > MAX_MAX_BYTES then CompactOutcome(st, Status.LimitExceeded, 0)
    else
      var r := ScanImage(env, st.file.value);
      if r.status != Status.Ok && r.status != Status.Truncated then CompactOutcome(st, r.status, 0)
      else
        var limit := HistoryLimit(config.snapshotHistory);
        var image := CompactedFile(env, r.entries, limit);
        var dropped := Dropped(r.entries, limit);
        if |image| > config.maxBytes then CompactOutcome(st, Status.LimitExceeded, dropped)
        else
          CompactOutcome(StoreState(Some(image), true, |image|, Wrap32(Kept(r.entries, limit).Count())), Status.Ok, dropped)
  }

  /** Opens the file there is, or starts a new one. */
  function Opened(env: StoreEnv, config: StoreConfig, st: StoreState): (StoreState, Status) {
    var closed := StoreState(st.file, false, 0, 0);
    if !config.Valid() then (closed, Status.Invalid)
    else if st.file.None? then Settled(env, config, StoreState(Some(FileHeader(env)), true, |FileHeader(env)|, 0))
    else if |st.file.value| > MAX_MAX_BYTES then (closed, Status.LimitExceeded)
    else
      var r := ScanImage(env, st.file.value);
      if !r.Usable() then (closed, r.status)
      else
        var file := Cut(env, st.file.value);
        Settled(env, config, StoreState(Some(file), true, |file|, Wrap32(ContentsOf(r.entries).Count())))
  }

  /** A store above its bound is compacted as it opens. */
  function Settled(env: StoreEnv, config: StoreConfig, st: StoreState): (StoreState, Status) {
    if st.bytes <= config.maxBytes then (st, Status.Ok)
    else
      var c := Compact(env, config, st);
      (c.state, c.status)
  }

  // ----- The class ----------------------------------------------------------

  class SiteStore {
    const env: StoreEnv
    const config: StoreConfig
    var file: Option<Bytes>
    var isOpen: bool
    var bytes: nat
    var records: u32

    ghost function State(): StoreState
      reads this
    {
      StoreState(file, isOpen, bytes, records)
    }

    constructor (env: StoreEnv, config: StoreConfig, file: Option<Bytes>)
      ensures this.env == env && this.config == config && State() == StoreState(file, false, 0, 0)
    {
      this.env, this.config, this.file := env, config, file;
      isOpen, bytes, records := false, 0, 0;
    }

    /** A record, written into a buffer at fixed offsets; nothing for a payload that
        is too large. */
    method MakeRecord(code: u16, payload: Bytes) returns (record: Bytes)
      ensures record == if |payload| <= MAX_RECORD_PAYLOAD then Record(env, code, payload) else []
    {
      hide Record, Head, Put32;
      if |payload| > MAX_RECORD_PAYLOAD { return []; }
      var header := new u8[RECORD_HEADER](_ => 0);
      FillHead(header, code, payload);
      HeadPieces(env, code, payload);
      StoreBytes(header, 48, env.hash(header[..48]));
      assert header[..] == header[..80];
      RecordPieces(env, code, payload);
      record := header[..] + payload;
    }

    /** The part of the header that is digested. */
    method FillHead(header: array<u8>, code: u16, payload: Bytes)
      requires |payload| <= MAX_RECORD_PAYLOAD && header.Length == RECORD_HEADER
      modifies header
      ensures header[..48] == Head(env, code, payload)
    {
      hide Head, Put32;
      FieldSizes(env, code, payload);
      var low, high := code % 256, code / 256;
      StoreBytes(header, 0, Put32(RECORD_MAGIC, []));
      StoreBytes(header, 4, [low, high]);
      StoreBytes(header, 6, [0, 0]);
      StoreBytes(header, 8, Put32(|payload|, []));
      StoreBytes(header, 12, Put32(0, []));
      StoreBytes(header, 16, env.hash(payload));
      HeadPieces(env, code, payload);
    }

    method Append(code: u16, payload: Bytes) returns (status: Status)
      modifies this
      ensures (State(), status) == Appended(env, config, old(State()), code, payload)
    {
      hide Record;
      if !isOpen || file.None? { return Status.Stopped; }
      if |payload| > MAX_RECORD_PAYLOAD { return Status.LimitExceeded; }
      var record := MakeRecord(code, payload);
      if bytes + |record| > config.maxBytes { return Status.LimitExceeded; }
      if Wrap32(records + 1) > config.maxRecords { return Status.LimitExceeded; }
      file := Some(file.value + record);
      bytes := bytes + |record|;
      records := Wrap32(records + 1);
      return Status.Ok;
    }

    /** The forward scan over the records behind the header. */
    method ScanRecords(image: Bytes) returns (r: Scan)
      requires |image| >= FILE_HEADER
      ensures r == ScanAll(env, image[FILE_HEADER..])
    {
      hide ScanOne;
      var offset := FILE_HEADER;
      var entries: seq<Entry> := [];
      var scanned := 0;
      assert image[offset..] == image[FILE_HEADER..];
      while offset < |image|
        invariant FILE_HEADER <= offset <= |image|
        invariant ScanAll(env, image[FILE_HEADER..]) == Behind(entries, offset - FILE_HEADER, scanned, ScanAll(env, image[offset..]))
        decreases |image| - offset
      {
        var step := ScanOne(env, image[offset..]);
        match step {
          case Halted(status, tail, mismatch, counted) =>
            return Scan(entries, offset - FILE_HEADER, status, tail, mismatch,
              if counted then scanned + 1 else scanned);
          case Taken(e, size) =>
            BehindMore(env, entries, offset - FILE_HEADER, scanned, image[offset..]);
            assert image[offset..][size..] == image[offset + size..];
            entries, scanned, offset := entries + [e], scanned + 1, offset + size;
        }
      }
      assert image[offset..] == [];
      return Scan(entries, offset - FILE_HEADER, Status.Ok, false, false, scanned);
    }

    method ScanFile(image: Bytes) returns (r: Report)
      ensures r == ScanImage(env, image)
    {
      hide ScanAll;
      if |image| < FILE_HEADER { return UNREADABLE.(status := Status.NotFound); }
      if !HeaderVerifies(env, image) { return UNREADABLE.(status := Status.Corrupt); }
      if Word32(image[8..]) != FORMAT_VERSION {
        return UNREADABLE.(status := Status.UnsupportedFormat, headerPresent := true, versionIncompatible := true,
          consumed := FILE_HEADER);
      }
      var scan := ScanRecords(image);
      return Recovered(scan, |image|);
    }

    // ----- Compaction -------------------------------------------------------

    /** The newest publication of each domain, the earlier on a tie. */
    method NewestPublications(publications: seq<PublicationRecord>) returns (newest: Newest)
      ensures newest == NewestOf(publications)
    {
      newest := map[];
      for n := 0 to |publications|
        invariant newest == NewestOf(publications[..n])
      {
        assert publications[..n + 1][..n] == publications[..n];
        var record := publications[n];
        if record.domain !in newest || Older(newest[record.domain], record) {
          newest := newest[record.domain := record];
        }
      }
      assert publications[..|publications|] == publications;
    }

    /** What is kept of the records, by kind, and how many are dropped. */
    method Select(entries: seq<Entry>, limit: nat) returns (kept: Contents, dropped: nat)
      ensures kept == Kept(entries, limit) && dropped == Dropped(entries, limit)
    {
      hide ContentsOf, NewestOf, BySequence;
      var contents := ContentsOf(entries);
      BySequenceSorts(contents.snapshots);
      FewerKept(contents.publications);
      var sorted := BySequence(contents.snapshots);
      var first := if |sorted| > limit then |sorted| - limit else 0;
      var newest := NewestPublications(contents.publications);
      kept := contents.(snapshots := sorted[first..], publications := InDomainOrder(newest, DomainOrder(newest.Keys)));
      dropped := first + (|contents.publications| - |newest|);
    }

    /** Appends the records of a list to an image. */
    method AppendEncoded(image: Bytes, entries: seq<Entry>) returns (more: Bytes)
      requires AllStored(env, entries)
      ensures more == image + Encodings(env, entries)
    {
      hide *;
      more := image;
      NothingEncoded(env, image);
      for n := 0 to |entries|
        invariant more == image + Encodings(env, entries[..n])
      {
        EncodingsStep(env, entries, n);
        PayloadFits(env, entries, n);
        var payload := Payload(env, entries[n]);
        var record := MakeRecord(TypeCode(entries[n]), payload);
        RecordIs(env, entries[n]);
        assert image + Encodings(env, entries[..n]) + record == image + (Encodings(env, entries[..n]) + record);
        more := more + record;
      }
      assert entries[..|entries|] == entries;
    }

    /** The image of what is kept, kind by kind. */
    method Rewrite(kept: Contents) returns (image: Bytes)
      requires AllStored(env, Entries(kept))
      ensures image == FileHeader(env) + Encodings(env, Entries(kept))
    {
      hide Encodings, FileHeader, AllStored, SnapshotEntries, PublicationEntries, RetirementEntries,
        TombstoneEntries, LeaseEntries;
      KindsStored(env, kept);
      image := AppendEncoded(FileHeader(env), SnapshotEntries(kept.snapshots));
      image := AppendEncoded(image, PublicationEntries(kept.publications));
      image := AppendEncoded(image, RetirementEntries(kept.retirements));
      image := AppendEncoded(image, TombstoneEntries(kept.tombstones));
      image := AppendEncoded(image, LeaseEntries(kept.leases));
      KindByKind(env, kept);
    }

    method CompactNow() returns (status: Status, dropped: nat)
      modifies this
      ensures var c := Compact(env, config, old(State()));
              State() == c.state && status == c.status && dropped == c.dropped
    {
      hide ScanImage, Entries, Encodings, FileHeader, Kept, Dropped, AllStored;
      if file.None? { return Status.NotFound, 0; }
      if |file.value| > MAX_MAX_BYTES { return Status.LimitExceeded, 0; }
      var r := ScanFile(file.value);
      if r.status != Status.Ok && r.status != Status.Truncated { return r.status, 0; }
      var limit := HistoryLimit(config.snapshotHistory);
      var kept;
      kept, dropped := Select(r.entries, limit);
      RecoveredIsStored(env, file.value);
      CompactedIsStored(env, r.entries, limit);
      var image := Rewrite(kept);
      if |image| > config.maxBytes { return Status.LimitExceeded, dropped; }
      file, isOpen, bytes, records := Some(image), true, |image|, Wrap32(kept.Count());
      return Status.Ok, dropped;
    }

    // ----- Opening ----------------------------------------------------------

    method Open() returns (status: Status)
      modifies this
      ensures (State(), status) == Opened(env, config, old(State()))
    {
      hide ScanImage, Compact;
      isOpen, bytes, records := false, 0, 0;
      if !config.Valid() { return Status.Invalid; }
      if file.None? {
        file := Some(FileHeader(env));
      } else {
        if |file.value| > MAX_MAX_BYTES { return Status.LimitExceeded; }
        var r := ScanFile(file.value);
        if !r.Usable() { return r.status; }
        if r.consumed < |file.value| && r.tailTruncated { file := Some(file.value[..r.consumed]); }
        records := Wrap32(ContentsOf(r.entries).Count());
      }
      isOpen, bytes := true, |file.value|;
      status := Status.Ok;
      if bytes > config.maxBytes {
        var dropped;
        status, dropped := CompactNow();
      }
    }
  }

  /** Writes bytes at an offset of a buffer and leaves the rest of it alone. */
  method StoreBytes(buffer: array<u8>, offset: nat, bytes: Bytes)
    requires offset + |bytes| <= buffer.Length
    modifies buffer
    ensures buffer[..offset + |bytes|] == old(buffer[..offset]) + bytes
    ensures buffer[offset + |bytes|..] == old(buffer[offset + |bytes|..])
  {
    for i := 0 to |bytes|
      invariant forall k | 0 <= k < i :: buffer[offset + k] == bytes[k]
      invariant forall k | 0 <= k < buffer.Length && !(offset <= k < offset + i) :: buffer[k] == old(buffer[k])
    {
      buffer[offset + i] := bytes[i];
    }
  }

  lemma FieldSizes(env: StoreEnv, code: u16, payload: Bytes)
    requires |payload| <= MAX_RECORD_PAYLOAD
    ensures |Put32(RECORD_MAGIC, [])| == 4 && |Put32(|payload|, [])| == 4 && |Put32(0, [])| == 4
  {
  }

  lemma HeadPieces(env: StoreEnv, code: u16, payload: Bytes)
    requires |payload| <= MAX_RECORD_PAYLOAD
    ensures [] + Put32(RECORD_MAGIC, []) + [code % 256, code / 256] + [0, 0] + Put32(|payload|, []) + Put32(0, []) + env.hash(payload)
      == Head(env, code, payload)
    ensures |Head(env, code, payload)| == 48
  {
    assert |payload| % 0x1_0000_0000 == |payload|;
  }

  lemma RecordPieces(env: StoreEnv, code: u16, payload: Bytes)
    ensures Head(env, code, payload) + env.hash(Head(env, code, payload)) + payload == Record(env, code, payload)
  {
    hide Head;
  }

  lemma EncodingsStep(env: StoreEnv, entries: seq<Entry>, n: nat)
    requires n < |entries|
    ensures Encodings(env, entries[..n + 1]) == Encodings(env, entries[..n]) + RecordOf(env, entries[n])
  {
    hide RecordOf;
    assert entries[..n + 1] == entries[..n] + [entries[n]];
    EncodingsAdd(env, entries[..n], [entries[n]]);
    assert Encodings(env, [entries[n]]) == RecordOf(env, entries[n]) + Encodings(env, []);
  }

  lemma NothingEncoded(env: StoreEnv, image: Bytes)
    ensures image + Encodings(env, []) == image
  {
  }

  lemma PayloadFits(env: StoreEnv, entries: seq<Entry>, n: nat)
    requires AllStored(env, entries) && n < |entries|
    ensures |Payload(env, entries[n])| <= MAX_RECORD_PAYLOAD
  {
    hide Payload, Stored;
  }

  lemma RecordIs(env: StoreEnv, e: Entry)
    ensures RecordOf(env, e) == Record(env, TypeCode(e), Payload(env, e))
  {
  }

  lemma KindsStored(env: StoreEnv, c: Contents)
    requires AllStored(env, Entries(c))
    ensures AllStored(env, SnapshotEntries(c.snapshots)) && AllStored(env, PublicationEntries(c.publications))
    ensures AllStored(env, RetirementEntries(c.retirements)) && AllStored(env, TombstoneEntries(c.tombstones))
    ensures AllStored(env, LeaseEntries(c.leases))
  {
    hide SnapshotEntries, PublicationEntries, RetirementEntries, TombstoneEntries, LeaseEntries, AllStored;
    var s, p, r, t, l := SnapshotEntries(c.snapshots), PublicationEntries(c.publications),
      RetirementEntries(c.retirements), TombstoneEntries(c.tombstones), LeaseEntries(c.leases);
    BothStored(env, s, p + (r + (t + l)));
    BothStored(env, p, r + (t + l));
    BothStored(env, r, t + l);
    BothStored(env, t, l);
  }

  lemma BothStored(env: StoreEnv, a: seq<Entry>, b: seq<Entry>)
    requires AllStored(env, a + b)
    ensures AllStored(env, a) && AllStored(env, b)
  {
    hide Stored, Payload;
    forall i | 0 <= i < |a| ensures Stored(env, a[i]) && |Payload(env, a[i])| <= MAX_RECORD_PAYLOAD { assert (a + b)[i] == a[i]; }
    forall i | 0 <= i < |b| ensures Stored(env, b[i]) && |Payload(env, b[i])| <= MAX_RECORD_PAYLOAD { assert (a + b)[|a| + i] == b[i]; }
  }

  /** The list written kind by kind is the list written as a whole. */
  lemma KindByKind(env: StoreEnv, c: Contents)
    ensures FileHeader(env) + Encodings(env, SnapshotEntries(c.snapshots)) + Encodings(env, PublicationEntries(c.publications))
      + Encodings(env, RetirementEntries(c.retirements)) + Encodings(env, TombstoneEntries(c.tombstones))
      + Encodings(env, LeaseEntries(c.leases))
      == FileHeader(env) + Encodings(env, Entries(c))
  {
    hide Encodings, FileHeader, SnapshotEntries, PublicationEntries, RetirementEntries, TombstoneEntries, LeaseEntries;
    var s, p, r, t, l := SnapshotEntries(c.snapshots), PublicationEntries(c.publications),
      RetirementEntries(c.retirements), TombstoneEntries(c.tombstones), LeaseEntries(c.leases);
    EncodingsAdd(env, t, l);
    EncodingsAdd(env, r, t + l);
    EncodingsAdd(env, p, r + (t + l));
    EncodingsAdd(env, s, p + (r + (t + l)));
  }

  lemma RecoveredIsStored(env: StoreEnv, image: Bytes)
    ensures AllStored(env, ScanImage(env, image).entries)
  {
    hide ScanAll, HeaderVerifies;
    if |image| >= FILE_HEADER { ScannedIsStored(env, image[FILE_HEADER..]); }
  }

  /** A scan that goes on behind records already taken. */
  function Behind(entries: seq<Entry>, consumed: nat, scanned: nat, rest: Scan): Scan {
    Scan(entries + rest.entries, consumed + rest.consumed, rest.status, rest.tail, rest.mismatch, scanned + rest.scanned)
  }

  lemma BehindMore(env: StoreEnv, entries: seq<Entry>, consumed: nat, scanned: nat, bytes: Bytes)
    requires bytes != [] && ScanOne(env, bytes).Taken?
    ensures var step := ScanOne(env, bytes);
            Behind(entries, consumed, scanned, ScanAll(env, bytes))
              == Behind(entries + [step.entry], consumed + step.size, scanned + 1, ScanAll(env, bytes[step.size..]))
  {
    hide ScanOne;
    var step := ScanOne(env, bytes);
    var rest := ScanAll(env, bytes[step.size..]);
    assert entries + ([step.entry] + rest.entries) == entries + [step.entry] + rest.entries;
  }
}
