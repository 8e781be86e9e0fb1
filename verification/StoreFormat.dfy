/** The byte layout of the store: a file header, then records with a header that
    verifies itself and its payload; and the forward scan that recovers them. */
module StoreFormat {
  import opened Model
  import opened Canonical
  import opened RecordCodec
  import SnapshotCodec
  import SourceSets

  const MAX_RECORD_PAYLOAD := 8_388_608
  const RECORD_MAGIC: u32 := 0x43524653
  const FORMAT_VERSION: u32 := 1
  const FILE_MAGIC: Bytes := [83, 70, 65, 66, 83, 84, 79, 82]
  const FILE_HEADER := 48
  const RECORD_HEADER := 80

  // ----- Entries and their payloads -----------------------------------------

  /** What the store does not define itself: the hash. */
  datatype StoreEnv = StoreEnv(hash: Bytes -> Digest)

  type Snapshot = SnapshotCodec.SnapshotRecord

  datatype Entry =
    | SnapshotEntry(snapshot: Snapshot)
    | PublicationEntry(publication: PublicationRecord)
    | RetirementEntry(retirement: RetirementRecord)
    | TombstoneEntry(tombstone: Text)
    | LeaseEntry(lease: AuthorityToken)
    | CheckpointEntry

  function TypeCode(e: Entry): (code: u16)
    ensures 2 <= code <= 7
  {
    match e
    case SnapshotEntry(_) => 2 case PublicationEntry(_) => 3 case RetirementEntry(_) => 4
    case TombstoneEntry(_) => 5 case LeaseEntry(_) => 6 case CheckpointEntry => 7
  }

  function Payload(env: StoreEnv, e: Entry): Bytes {
    match e
    case SnapshotEntry(s) => SnapshotCodec.PutSnapshot(s, [])
    case PublicationEntry(p) => PutPublication(p, [])
    case RetirementEntry(r) => PutRetirement(r, [])
    case TombstoneEntry(t) => PutText(t, [])
    case LeaseEntry(t) => PutToken(t, [])
    case CheckpointEntry => []
  }

  /** Bytes left over are refused. */
  function Finished<T>(r: Parsed<T>): Outcome<T> {
    if r.Refused? then Failure(r.status) else if r.rest != [] then Failure(Status.Malformed) else Success(r.value)
  }

  function SiteDigest(env: StoreEnv, s: Snapshot): Digest { env.hash(SnapshotCodec.Put(s.state, [])) }

  function DecodeSnapshot(env: StoreEnv, payload: Bytes): Outcome<Entry> {
    var r := Finished(SnapshotCodec.GetSnapshot(payload));
    if r.Failure? then Failure(r.status)
    else if SiteDigest(env, r.value) != r.value.siteDigest then Failure(Status.IntegrityFailure)
    else Success(SnapshotEntry(r.value))
  }

  function Decode(env: StoreEnv, code: int, payload: Bytes): Outcome<Entry> {
    if code == 2 then DecodeSnapshot(env, payload)
    else if code == 3 then
      var r := Finished(GetPublication(env.hash, payload));
      if r.Success? then Success(PublicationEntry(r.value)) else Failure(r.status)
    else if code == 4 then
      var r := Finished(GetRetirement(payload));
      if r.Success? then Success(RetirementEntry(r.value)) else Failure(r.status)
    else if code == 5 then
      var r := Finished(GetText(payload, MAX_TEXT_BYTES));
      if r.Success? then Success(TombstoneEntry(r.value)) else Failure(r.status)
    else if code == 6 then
      var r := Finished(GetToken(payload));
      if r.Success? then Success(LeaseEntry(r.value)) else Failure(r.status)
    else if code == 7 then (if payload == [] then Success(CheckpointEntry) else Failure(Status.Malformed))
    else Failure(Status.Unsupported)
  }

  /** An entry whose payload reads back. */
  ghost predicate Good(env: StoreEnv, e: Entry) {
    match e
    case SnapshotEntry(s) => SnapshotCodec.GoodSnapshot(s) && SiteDigest(env, s) == s.siteDigest
    case PublicationEntry(p) => GoodPublication(p)
    case RetirementEntry(r) => GoodRetirement(r)
    case TombstoneEntry(t) => |t| <= MAX_TEXT_BYTES
    case LeaseEntry(t) => GoodToken(t)
    case CheckpointEntry => true
  }

  /** The entry without the fields that are not stored. */
  function Bare(env: StoreEnv, e: Entry): (r: Entry)
    ensures TypeCode(r) == TypeCode(e)
  {
    match e
    case PublicationEntry(p) => PublicationEntry(BarePublication(p))
    case _ => e
  }

  lemma DecodesWhatWasEncoded(env: StoreEnv, e: Entry)
    requires Good(env, e)
    ensures Decode(env, TypeCode(e), Payload(env, e)) == Success(Bare(env, e))
  {
    hide GoodPublication, GoodRetirement, GoodToken, PutPublication, GetPublication, PutRetirement, GetRetirement,
      PutToken, GetToken, PutText, GetText, BarePublication;
    match e
    case SnapshotEntry(s) => SnapshotCodec.SnapshotReadsBack(s, []);
    case PublicationEntry(p) => ReadPublication(env.hash, p, []);
    case RetirementEntry(r) =>
      RetirementsAreLawful();
      assert GetRetirement(PutRetirement(r, [])) == Got(r, []);
    case TombstoneEntry(t) => ReadText(t, [], MAX_TEXT_BYTES);
    case LeaseEntry(t) => ReadToken(t, []);
    case CheckpointEntry =>
  }

  /** The payload is read as it is written. Only snapshots can be read otherwise. */
  ghost predicate PlainPayload(code: int, payload: Bytes) { code == 2 ==> SnapshotCodec.PlainSnapshot(payload) }

  /** Whatever decodes is a good entry, kept as it stands; its encoding takes no more
      bytes than the payload, and is the payload exactly when that is plain. */
  lemma DecodedIsStored(env: StoreEnv, code: int, payload: Bytes)
    requires Decode(env, code, payload).Success?
    ensures var e := Decode(env, code, payload).value;
            && Good(env, e) && Bare(env, e) == e && TypeCode(e) == code && |Payload(env, e)| <= |payload|
            && (Payload(env, e) == payload <==> PlainPayload(code, payload))
  {
    hide GoodPublication, GoodRetirement, GoodToken, PutPublication, GetPublication, PutRetirement, GetRetirement,
      PutToken, GetToken, PutText, GetText, BarePublication, SnapshotCodec.GoodSnapshot, SnapshotCodec.PlainSnapshot,
      SnapshotCodec.PutSnapshot, SnapshotCodec.GetSnapshot, SiteDigest;
    if code == 2 {
      SnapshotCodec.SnapshotIsRead(payload);
    } else if code == 3 {
      PublicationCanonical(env.hash, payload);
    } else if code == 4 {
      RetirementsAreLawful();
    } else if code == 6 {
      TokensAreLawful();
    }
  }

  /** Stored as it stands: good, with nothing the bytes do not hold. */
  ghost predicate Stored(env: StoreEnv, e: Entry) { Good(env, e) && Bare(env, e) == e }

  lemma BareIsStored(env: StoreEnv, e: Entry)
    requires Good(env, e)
    ensures Stored(env, Bare(env, e)) && Payload(env, Bare(env, e)) == Payload(env, e)
  {
    DecodesWhatWasEncoded(env, e);
    DecodedIsStored(env, TypeCode(e), Payload(env, e));
  }

  // ----- Records ------------------------------------------------------------

  function Code16(code: u16): Bytes { [code % 256, code / 256] }

  /** The first 48 bytes of a record: magic, type, no flags, length, reserved,
      and the digest of the payload. */
  function Head(env: StoreEnv, code: u16, payload: Bytes): Bytes {
    Put32(RECORD_MAGIC, Code16(code) + [0, 0] + Put32(|payload| % 0x1_0000_0000, Put32(0, env.hash(payload))))
  }

  function Record(env: StoreEnv, code: u16, payload: Bytes): (r: Bytes)
    ensures |r| == RECORD_HEADER + |payload|
  {
    Head(env, code, payload) + env.hash(Head(env, code, payload)) + payload
  }

  function RecordOf(env: StoreEnv, e: Entry): Bytes { Record(env, TypeCode(e), Payload(env, e)) }

  function Encodings(env: StoreEnv, entries: seq<Entry>): Bytes {
    if entries == [] then [] else RecordOf(env, entries[0]) + Encodings(env, entries[1..])
  }

  const FILE_HEAD: Bytes := FILE_MAGIC + Put32(FORMAT_VERSION, [0, 0, 0, 0])

  function FileHeader(env: StoreEnv): Bytes { FILE_HEAD + env.hash(FILE_HEAD) }

  // ----- Scanning -----------------------------------------------------------

  datatype Step =
    | Taken(entry: Entry, size: nat)
    | Halted(status: Status, tail: bool, mismatch: bool, counted: bool)

  function CodeAt(rest: Bytes): int
    requires |rest| >= RECORD_HEADER
  {
    var low: int, high: int := rest[4], rest[5];
    low + 256 * high
  }

  function LengthAt(rest: Bytes): nat
    requires |rest| >= RECORD_HEADER
  {
    Word32(rest[8..])
  }

  /** The record at the front of what is left. */
  function ScanOne(env: StoreEnv, rest: Bytes): (s: Step)
    ensures s.Taken? ==> RECORD_HEADER <= s.size <= |rest|
  {
    if |rest| < RECORD_HEADER then Halted(Status.Truncated, true, false, false)
    else if Word32(rest) != RECORD_MAGIC then Halted(Status.Corrupt, false, false, false)
    else if env.hash(rest[..48]) != rest[48..80] then Halted(Status.Corrupt, false, true, false)
    else if CodeAt(rest) > 7 then Halted(Status.Corrupt, false, false, false)
    else if LengthAt(rest) > MAX_RECORD_PAYLOAD then Halted(Status.LimitExceeded, false, false, false)
    else if |rest| - RECORD_HEADER < LengthAt(rest) then Halted(Status.Truncated, true, false, true)
    else
      var payload := rest[RECORD_HEADER..RECORD_HEADER + LengthAt(rest)];
      if env.hash(payload) != rest[16..48] then Halted(Status.IntegrityFailure, false, true, true)
      else
        var decoded := Decode(env, CodeAt(rest), payload);
        if decoded.Success? then Taken(decoded.value, RECORD_HEADER + LengthAt(rest))
        else Halted(decoded.status, false, decoded.status == Status.IntegrityFailure, true)
  }

  /** What a scan accepted, how far it got, and what stopped it. */
  datatype Scan = Scan(entries: seq<Entry>, consumed: nat, status: Status, tail: bool, mismatch: bool, scanned: nat)

  function ScanAll(env: StoreEnv, rest: Bytes): (r: Scan)
    ensures r.consumed <= |rest|
    decreases |rest|
  {
    if rest == [] then Scan([], 0, Status.Ok, false, false, 0)
    else
      match ScanOne(env, rest)
      case Halted(status, tail, mismatch, counted) => Scan([], 0, status, tail, mismatch, if counted then 1 else 0)
      case Taken(e, size) =>
        var r := ScanAll(env, rest[size..]);
        Scan([e] + r.entries, size + r.consumed, r.status, r.tail, r.mismatch, 1 + r.scanned)
  }

  // ----- Reading records back -----------------------------------------------

  lemma HeadLayout(env: StoreEnv, code: u16, payload: Bytes)
    requires |payload| <= MAX_RECORD_PAYLOAD && code <= 7
    ensures var r := Record(env, code, payload);
            && |Head(env, code, payload)| == 48 && r[..48] == Head(env, code, payload)
            && r[48..80] == env.hash(Head(env, code, payload)) && r[80..] == payload
            && Word32(r) == RECORD_MAGIC && CodeAt(r) == code && LengthAt(r) == |payload| && r[16..48] == env.hash(payload)
  {
    var head := Head(env, code, payload);
    var r := Record(env, code, payload);
    var tail := Put32(0, env.hash(payload));
    var mid := Put32(|payload|, tail);
    assert |mid| == 40 && |head| == 48;
    assert head[8..] == mid;
    assert r[8..][..40] == mid;
    assert r == Put32(RECORD_MAGIC, Code16(code) + [0, 0] + mid) + env.hash(head) + payload;
    MagicFirst(RECORD_MAGIC, r);
    Read32(|payload|, tail);
    WordIgnoresTail(mid, r[8..]);
    assert mid[8..] == env.hash(payload);
    assert head[16..] == mid[8..];
    assert r[16..48] == r[8..][..40][8..];
    assert r[4] == code % 256 && r[5] == code / 256;
  }

  lemma MagicFirst(x: u32, r: Bytes)
    requires |r| >= 4 && r[..4] == Put32(x, [])
    ensures Word32(r) == x
  {
    Read32(x, []);
    WordIgnoresTail(Put32(x, []), r);
  }

  lemma WordIgnoresTail(a: Bytes, b: Bytes)
    requires |a| >= 4 && |b| >= 4 && a[..4] == b[..4]
    ensures Word32(a) == Word32(b)
  {
    assert forall i | 0 <= i < 4 :: a[i] == a[..4][i] && b[i] == b[..4][i];
  }

  /** A record that is followed by anything is taken as written. */
  lemma RecordIsTaken(env: StoreEnv, code: u16, payload: Bytes, more: Bytes)
    requires |payload| <= MAX_RECORD_PAYLOAD && code <= 7 && Decode(env, code, payload).Success?
    ensures ScanOne(env, Record(env, code, payload) + more)
      == Taken(Decode(env, code, payload).value, RECORD_HEADER + |payload|)
  {
    hide Decode;
    var r := Record(env, code, payload);
    HeadLayout(env, code, payload);
    hide Record, Head;
    var rest := r + more;
    assert rest[..48] == r[..48] && rest[48..80] == r[48..80] && rest[16..48] == r[16..48];
    assert rest[80..80 + |payload|] == payload;
    WordIgnoresTail(rest, r);
    assert rest[8..][..4] == r[8..][..4];
    WordIgnoresTail(rest[8..], r[8..]);
  }

  /** A record cut short is a torn tail, whatever it holds. */
  lemma CutRecordIsTorn(env: StoreEnv, code: u16, payload: Bytes, n: nat)
    requires |payload| <= MAX_RECORD_PAYLOAD && code <= 7 && 0 < n < RECORD_HEADER + |payload|
    ensures var s := ScanOne(env, Record(env, code, payload)[..n]); s.Halted? && s.status == Status.Truncated && s.tail
  {
    hide Decode;
    var r := Record(env, code, payload);
    HeadLayout(env, code, payload);
    hide Record, Head;
    var rest := r[..n];
    if n >= RECORD_HEADER {
      assert rest[..48] == r[..48] && rest[48..80] == r[48..80];
      WordIgnoresTail(rest, r);
      assert rest[8..][..4] == r[8..][..4];
      WordIgnoresTail(rest[8..], r[8..]);
    }
  }

  /** A step that takes a record looks at nothing beyond it. */
  lemma TakenIgnoresTheRest(env: StoreEnv, rest: Bytes, other: Bytes)
    requires ScanOne(env, rest).Taken? && ScanOne(env, rest).size <= |other|
    requires other[..ScanOne(env, rest).size] == rest[..ScanOne(env, rest).size]
    ensures ScanOne(env, other) == ScanOne(env, rest)
  {
    hide Decode;
    var size := ScanOne(env, rest).size;
    var front := rest[..size];
    assert forall i | 0 <= i < size :: other[i] == front[i] == rest[i];
    WordIgnoresTail(rest, other);
    assert rest[8..][..4] == other[8..][..4];
    WordIgnoresTail(rest[8..], other[8..]);
    assert rest[..48] == other[..48] && rest[48..80] == other[48..80] && rest[16..48] == other[16..48];
    assert rest[80..size] == other[80..size];
  }

  // ----- What a scan recovers -----------------------------------------------

  ghost predicate AllStored(env: StoreEnv, entries: seq<Entry>) {
    forall i | 0 <= i < |entries| :: Stored(env, entries[i]) && |Payload(env, entries[i])| <= MAX_RECORD_PAYLOAD
  }

  /** Whatever bytes are scanned, what is accepted is stored as it stands. */
  lemma {:induction false} ScannedIsStored(env: StoreEnv, bytes: Bytes)
    ensures AllStored(env, ScanAll(env, bytes).entries)
    decreases |bytes|
  {
    hide Decode, Payload, Stored, CodeAt, LengthAt, Word32;
    if bytes != [] {
      var step := ScanOne(env, bytes);
      if step.Taken? {
        var payload := bytes[RECORD_HEADER..RECORD_HEADER + LengthAt(bytes)];
        assert Decode(env, CodeAt(bytes), payload) == Success(step.entry);
        DecodedStands(env, CodeAt(bytes), payload);
        ScannedIsStored(env, bytes[step.size..]);
      }
    }
  }

  lemma DecodedStands(env: StoreEnv, code: int, payload: Bytes)
    requires Decode(env, code, payload).Success?
    ensures var e := Decode(env, code, payload).value; Stored(env, e) && |Payload(env, e)| <= |payload|
  {
    hide Decode, Payload, Good, Bare;
    DecodedIsStored(env, code, payload);
  }

  lemma StoredIsTaken(env: StoreEnv, e: Entry, more: Bytes)
    requires Stored(env, e) && |Payload(env, e)| <= MAX_RECORD_PAYLOAD
    ensures ScanOne(env, RecordOf(env, e) + more) == Taken(e, |RecordOf(env, e)|)
  {
    hide Good, Bare, Decode, ScanOne;
    DecodesWhatWasEncoded(env, e);
    RecordIsTaken(env, TypeCode(e), Payload(env, e), more);
  }

  /** Everything stored is accepted, in order, and the scan goes on behind it. */
  lemma {:induction false} StoredEntriesAreAccepted(env: StoreEnv, entries: seq<Entry>, more: Bytes)
    requires AllStored(env, entries)
    ensures var r, s := ScanAll(env, Encodings(env, entries) + more), ScanAll(env, more);
            && r.entries == entries + s.entries && r.consumed == |Encodings(env, entries)| + s.consumed
            && r.status == s.status && r.tail == s.tail && r.mismatch == s.mismatch && r.scanned == |entries| + s.scanned
    decreases |entries|
  {
    hide ScanOne, RecordOf, Stored, Payload;
    if entries == [] {
      assert Encodings(env, entries) + more == more;
    } else {
      var first, rest := RecordOf(env, entries[0]), Encodings(env, entries[1..]) + more;
      assert Encodings(env, entries) + more == first + rest;
      StoredIsTaken(env, entries[0], rest);
      NotEmptyRecord(env, entries[0]);
      assert (first + rest)[|first|..] == rest;
      assert AllStored(env, entries[1..]);
      StoredEntriesAreAccepted(env, entries[1..], more);
      assert entries == [entries[0]] + entries[1..];
    }
  }

  lemma NotEmptyRecord(env: StoreEnv, e: Entry)
    ensures |RecordOf(env, e)| >= RECORD_HEADER
  {
  }

  lemma {:induction false} EncodingsAdd(env: StoreEnv, a: seq<Entry>, b: seq<Entry>)
    ensures Encodings(env, a + b) == Encodings(env, a) + Encodings(env, b)
  {
    hide RecordOf;
    if a == [] {
      assert a + b == b;
    } else {
      EncodingsAdd(env, a[1..], b);
      assert (a + b)[1..] == a[1..] + b;
    }
  }

  /** A scan that got past some records, asked again about just those bytes,
      accepts the same records and stops nowhere. */
  lemma {:induction false} RescanIsClean(env: StoreEnv, bytes: Bytes)
    ensures var r := ScanAll(env, bytes);
            var again := ScanAll(env, bytes[..r.consumed]);
            again.entries == r.entries && again.consumed == r.consumed && again.status == Status.Ok && !again.tail
    decreases |bytes|
  {
    hide ScanOne;
    if bytes != [] && ScanOne(env, bytes).Taken? {
      var size := ScanOne(env, bytes).size;
      var rest := bytes[size..];
      RescanIsClean(env, rest);
      var r := ScanAll(env, bytes);
      var kept := bytes[..r.consumed];
      assert kept[..size] == bytes[..size];
      TakenIgnoresTheRest(env, bytes, kept);
      assert kept[size..] == rest[..ScanAll(env, rest).consumed];
    }
  }

  // ----- What is accepted and what is written -------------------------------

  /** The flags and the reserved word of a record: written as zero, read by nobody. */
  predicate Unmarked(rest: Bytes)
    requires |rest| >= RECORD_HEADER
  {
    rest[6..8] == [0, 0] && rest[12..16] == [0, 0, 0, 0]
  }

  /** A record of this size with nothing in it that is not written so. */
  ghost predicate PlainRecord(rest: Bytes, size: nat)
    requires RECORD_HEADER <= size <= |rest|
  {
    Unmarked(rest) && PlainPayload(CodeAt(rest), rest[RECORD_HEADER..size])
  }

  lemma HeadFields(env: StoreEnv, code: u16, payload: Bytes)
    requires |payload| <= MAX_RECORD_PAYLOAD
    ensures var h := Head(env, code, payload);
            && |h| == 48 && h[..4] == Put32(RECORD_MAGIC, []) && h[4..6] == Code16(code) && h[6..8] == [0, 0]
            && h[8..12] == Put32(|payload|, []) && h[12..16] == [0, 0, 0, 0] && h[16..] == env.hash(payload)
  {
  }

  lemma PiecesDecide(a: Bytes, b: Bytes)
    requires |a| == |b| == 48 && a[..4] == b[..4] && a[4..6] == b[4..6] && a[8..12] == b[8..12] && a[16..] == b[16..]
    ensures a == b <==> a[6..8] == b[6..8] && a[12..16] == b[12..16]
  {
    assert a == a[..4] + a[4..6] + a[6..8] + a[8..12] + a[12..16] + a[16..];
    assert b == b[..4] + b[4..6] + b[6..8] + b[8..12] + b[12..16] + b[16..];
  }

  lemma WordIsWritten(b: Bytes)
    requires |b| >= 4
    ensures b[..4] == Put32(Word32(b), [])
  {
    Digits(b);
    hide Word32;
  }

  /** A header that verifies is the one the store writes exactly when it is
      unmarked. */
  lemma HeadsAgree(env: StoreEnv, rest: Bytes, code: u16, payload: Bytes)
    requires |rest| >= RECORD_HEADER && |payload| <= MAX_RECORD_PAYLOAD && code <= 7
    requires Word32(rest) == RECORD_MAGIC && CodeAt(rest) == code && LengthAt(rest) == |payload|
    requires rest[16..48] == env.hash(payload)
    ensures rest[..48] == Head(env, code, payload) <==> Unmarked(rest)
  {
    HeadFields(env, code, payload);
    WordIsWritten(rest);
    WordIsWritten(rest[8..]);
    assert rest[4..6] == Code16(code);
    hide Head, Word32;
    var h := rest[..48];
    assert h[..4] == rest[..4] && h[4..6] == rest[4..6] && h[6..8] == rest[6..8] && h[12..16] == rest[12..16];
    assert h[8..12] == rest[8..][..4] && h[16..] == rest[16..48];
    PiecesDecide(h, Head(env, code, payload));
  }

  /** An accepted record is the one the store would write for its entry exactly
      when nobody marked the bytes that are not read and its payload is plain. */
  lemma AcceptedAsWrittenIff(env: StoreEnv, rest: Bytes)
    requires ScanOne(env, rest).Taken?
    ensures var s := ScanOne(env, rest);
            && |RecordOf(env, s.entry)| <= s.size
            && (rest[..s.size] == RecordOf(env, s.entry) <==> PlainRecord(rest, s.size))
  {
    hide Decode, Unmarked, Head, Payload, Stored, Word32, PlainPayload;
    var s := ScanOne(env, rest);
    var payload := rest[RECORD_HEADER..s.size];
    DecodedIs(env, CodeAt(rest), payload);
    var code, again := TypeCode(s.entry), Payload(env, s.entry);
    HeadsAgree(env, rest, code, payload);
    HeadFields(env, code, payload);
    HeadFields(env, code, again);
    RecordsDiffer(env, rest, s.size, code, payload, again);
  }

  lemma RecordsDiffer(env: StoreEnv, rest: Bytes, size: nat, code: u16, payload: Bytes, again: Bytes)
    requires RECORD_HEADER <= size <= |rest| && payload == rest[RECORD_HEADER..size] && |again| <= |payload|
    requires |Head(env, code, payload)| == |Head(env, code, again)| == 48 && rest[48..80] == env.hash(rest[..48])
    ensures rest[..size] == Record(env, code, again) <==> rest[..48] == Head(env, code, payload) && again == payload
  {
    hide Head;
    var head := Head(env, code, again);
    assert rest[..size] == rest[..48] + rest[48..80] + payload;
    var r := head + env.hash(head) + again;
    assert r[..48] == head && r[80..] == again;
    assert rest[..size][..48] == rest[..48] && rest[..size][80..] == payload;
  }

  lemma DecodedIs(env: StoreEnv, code: int, payload: Bytes)
    requires Decode(env, code, payload).Success?
    ensures var e := Decode(env, code, payload).value;
            && TypeCode(e) == code && |Payload(env, e)| <= |payload|
            && (Payload(env, e) == payload <==> PlainPayload(code, payload))
  {
    hide Decode, Payload, Good, Bare, TypeCode, PlainPayload;
    DecodedIsStored(env, code, payload);
  }

  /** Along a whole scan. */
  ghost predicate AllPlain(env: StoreEnv, bytes: Bytes)
    decreases |bytes|
  {
    var s := ScanOne(env, bytes);
    s.Taken? ==> PlainRecord(bytes, s.size) && AllPlain(env, bytes[s.size..])
  }

  /** What a scan got past is the encoding of what it accepted exactly when every
      accepted record is plain. */
  lemma {:induction false} ScannedAsWrittenIff(env: StoreEnv, bytes: Bytes)
    ensures var r := ScanAll(env, bytes);
            && |Encodings(env, r.entries)| <= r.consumed
            && (bytes[..r.consumed] == Encodings(env, r.entries) <==> AllPlain(env, bytes))
    decreases |bytes|
  {
    hide ScanOne, RecordOf, PlainRecord;
    if bytes == [] {
      NothingTaken(env);
    } else if ScanOne(env, bytes).Taken? {
      var s := ScanOne(env, bytes);
      var rest := bytes[s.size..];
      var r, more := ScanAll(env, bytes), ScanAll(env, rest);
      AcceptedAsWrittenIff(env, bytes);
      ScannedAsWrittenIff(env, rest);
      assert r.entries[0] == s.entry && r.entries[1..] == more.entries;
      assert bytes[..r.consumed] == bytes[..s.size] + rest[..more.consumed];
      SplitsAlike(bytes[..s.size], rest[..more.consumed], RecordOf(env, s.entry), Encodings(env, more.entries));
    }
  }

  lemma NothingTaken(env: StoreEnv)
    ensures ScanOne(env, []).Halted?
  {
  }

  lemma SplitsAlike(a: Bytes, b: Bytes, c: Bytes, d: Bytes)
    requires |c| <= |a| && |d| <= |b|
    ensures a + b == c + d <==> a == c && b == d
  {
    if a + b == c + d {
      assert |a| == |c|;
      assert (a + b)[..|a|] == a && (a + b)[|a|..] == b && (c + d)[..|c|] == c && (c + d)[|c|..] == d;
    }
  }

  // ----- The image ----------------------------------------------------------

  datatype Report = Report(
    status: Status, headerPresent: bool, versionIncompatible: bool, tailTruncated: bool, digestMismatch: bool,
    scanned: nat, rejected: nat, consumed: nat, truncated: nat, entries: seq<Entry>)
  {
    predicate Usable() { headerPresent && !versionIncompatible }
  }

  const UNREADABLE := Report(Status.Unknown, false, false, false, false, 0, 0, 0, 0, [])

  predicate HeaderVerifies(env: StoreEnv, image: Bytes) {
    |image| >= FILE_HEADER && image[..8] == FILE_MAGIC && image[16..48] == env.hash(image[..16])
  }

  function Recovered(r: Scan, length: nat): Report
    requires FILE_HEADER + r.consumed <= length
  {
    Report(r.status, true, false, r.tail, r.mismatch, r.scanned,
      if r.status != Status.Ok && r.status != Status.Truncated then 1 else 0,
      FILE_HEADER + r.consumed,
      if r.tail || r.status != Status.Ok then length - (FILE_HEADER + r.consumed) else 0, r.entries)
  }

  function ScanImage(env: StoreEnv, image: Bytes): (r: Report)
    ensures r.Usable() ==> FILE_HEADER <= r.consumed <= |image|
  {
    if |image| < FILE_HEADER then UNREADABLE.(status := Status.NotFound)
    else if !HeaderVerifies(env, image) then UNREADABLE.(status := Status.Corrupt)
    else if Word32(image[8..]) != FORMAT_VERSION then
      UNREADABLE.(status := Status.UnsupportedFormat, headerPresent := true, versionIncompatible := true, consumed := FILE_HEADER)
    else Recovered(ScanAll(env, image[FILE_HEADER..]), |image|)
  }

  lemma HeaderIsReadable(env: StoreEnv, body: Bytes)
    ensures |FileHeader(env)| == FILE_HEADER
    ensures ScanImage(env, FileHeader(env) + body) == Recovered(ScanAll(env, body), FILE_HEADER + |body|)
  {
    hide ScanAll;
    var image := FileHeader(env) + body;
    assert |FILE_HEAD| == 16;
    assert image[..16] == FILE_HEAD && image[16..48] == env.hash(FILE_HEAD);
    assert image[..8] == FILE_MAGIC;
    assert image[8..][..4] == Put32(FORMAT_VERSION, []);
    MagicFirst(FORMAT_VERSION, image[8..]);
    assert image[FILE_HEADER..] == body;
  }

  /** The shape of a store file: the header, the encodings of a list, and part of
      one more record. */
  ghost predicate Holds(env: StoreEnv, file: Bytes, entries: seq<Entry>, tail: Bytes) {
    file == FileHeader(env) + (Encodings(env, entries) + tail) && AllStored(env, entries)
  }

  ghost predicate IsCut(env: StoreEnv, tail: Bytes, e: Entry, n: nat) {
    n < |RecordOf(env, e)| && tail == RecordOf(env, e)[..n] && |Payload(env, e)| <= MAX_RECORD_PAYLOAD
  }

  /** The strict beginning of a record. */
  ghost predicate Torn(env: StoreEnv, tail: Bytes) {
    tail == [] || exists e, n: nat :: IsCut(env, tail, e, n)
  }

  lemma TornTailStops(env: StoreEnv, tail: Bytes)
    requires Torn(env, tail)
    ensures var s := ScanAll(env, tail);
            && s.entries == [] && s.consumed == 0
            && s.status == (if tail == [] then Status.Ok else Status.Truncated) && (s.tail <==> tail != [])
  {
    hide ScanOne, Record, Payload;
    if tail != [] {
      var e, n: nat :| IsCut(env, tail, e, n);
      CutRecordIsTorn(env, TypeCode(e), Payload(env, e), n);
    }
  }

  /** Recovery is exact: the scan of a header, the encodings of a list and a torn
      record accepts exactly the list, stops at the last record boundary, and
      reports OK, or TRUNCATED when something was torn. */
  lemma RecoveryIsExact(env: StoreEnv, file: Bytes, entries: seq<Entry>, tail: Bytes)
    requires Holds(env, file, entries, tail) && Torn(env, tail)
    ensures var r := ScanImage(env, file);
            && r.entries == entries && r.Usable() && r.consumed == FILE_HEADER + |Encodings(env, entries)|
            && r.status == (if tail == [] then Status.Ok else Status.Truncated) && (r.tailTruncated <==> tail != [])
            && r.truncated == |tail| && r.rejected == 0
            && file[..r.consumed] == FileHeader(env) + Encodings(env, entries)
  {
    hide ScanAll, ScanOne, RecordOf, Encodings, AllStored, ScanImage, FileHeader;
    HeaderIsReadable(env, Encodings(env, entries) + tail);
    StoredEntriesAreAccepted(env, entries, tail);
    TornTailStops(env, tail);
    assert entries + [] == entries;
    assert file[..FILE_HEADER + |Encodings(env, entries)|] == FileHeader(env) + Encodings(env, entries);
  }

  /** Recovery on arbitrary bytes: where a scan stopped is a record boundary, and
      scanning just the consumed bytes again is OK and accepts the same records. */
  lemma RecoveryStopsAtABoundary(env: StoreEnv, image: Bytes)
    requires ScanImage(env, image).Usable()
    ensures var r := ScanImage(env, image);
            var again := ScanImage(env, image[..r.consumed]);
            again.status == Status.Ok && again.entries == r.entries && again.consumed == r.consumed && again.truncated == 0
  {
    hide ScanAll, ScanOne;
    var r := ScanImage(env, image);
    var body := image[FILE_HEADER..];
    RescanIsClean(env, body);
    var kept := image[..r.consumed];
    assert kept[FILE_HEADER..] == body[..ScanAll(env, body).consumed];
    assert kept[..16] == image[..16] && kept[16..48] == image[16..48] && kept[..8] == image[..8];
    assert kept[8..][..4] == image[8..][..4];
    WordIgnoresTail(kept[8..], image[8..]);
  }

  /** A readable image, as far as it was accepted, is the file the store would
      write for what was accepted exactly when the header is unmarked and every
      accepted record is plain. */
  lemma ImageAsWrittenIff(env: StoreEnv, image: Bytes)
    requires ScanImage(env, image).Usable()
    ensures var r := ScanImage(env, image);
            (image[..r.consumed] == FileHeader(env) + Encodings(env, r.entries)) <==>
              (image[12..16] == [0, 0, 0, 0] && AllPlain(env, image[FILE_HEADER..]))
  {
    hide ScanAll, AllPlain, Word32, Encodings;
    var r, body := ScanImage(env, image), image[FILE_HEADER..];
    ScannedAsWrittenIff(env, body);
    WordIsWritten(image[8..]);
    hide Put32;
    FileHeadPieces();
    assert image[..16] == image[..8] + image[8..][..4] + image[12..16];
    SplitsAlike(image[..8] + image[8..][..4], image[12..16], FILE_MAGIC + Put32(FORMAT_VERSION, []), [0, 0, 0, 0]);
    assert image[..FILE_HEADER] == image[..16] + image[16..48];
    SplitsAlike(image[..16], image[16..48], FILE_HEAD, env.hash(FILE_HEAD));
    assert image[..r.consumed] == image[..FILE_HEADER] + body[..ScanAll(env, body).consumed];
    SplitsAlike(image[..FILE_HEADER], body[..ScanAll(env, body).consumed], FileHeader(env), Encodings(env, r.entries));
  }

  lemma FileHeadPieces()
    ensures |FILE_HEAD| == 16 && FILE_HEAD == FILE_MAGIC + Put32(FORMAT_VERSION, []) + [0, 0, 0, 0]
  {
  }

  /** A record with anything at all in its flags and reserved word, under a digest
      that covers them. */
  function MarkedHead(env: StoreEnv, e: Entry, flags: Bytes, reserved: Bytes): Bytes
    requires |Payload(env, e)| <= MAX_RECORD_PAYLOAD
  {
    Put32(RECORD_MAGIC, Code16(TypeCode(e)) + flags + Put32(|Payload(env, e)|, reserved + env.hash(Payload(env, e))))
  }

  function MarkedRecord(env: StoreEnv, e: Entry, flags: Bytes, reserved: Bytes): Bytes
    requires |Payload(env, e)| <= MAX_RECORD_PAYLOAD
  {
    var head := MarkedHead(env, e, flags, reserved);
    head + env.hash(head) + Payload(env, e)
  }

  /** Every marking of a stored entry is accepted as that entry, so what is
      accepted need not be what the store writes. */
  lemma MarksAreAccepted(env: StoreEnv, e: Entry, flags: Bytes, reserved: Bytes, more: Bytes)
    requires Stored(env, e) && |Payload(env, e)| <= MAX_RECORD_PAYLOAD
    requires |flags| == 2 && |reserved| == 4
    ensures var r := MarkedRecord(env, e, flags, reserved);
            && ScanOne(env, r + more) == Taken(e, |r|)
            && (r == RecordOf(env, e) <==> flags == [0, 0] && reserved == [0, 0, 0, 0])
  {
    hide Good, Bare, Decode, Payload, PlainPayload;
    DecodesWhatWasEncoded(env, e);
    DecodedIs(env, TypeCode(e), Payload(env, e));
    var payload, r := Payload(env, e), MarkedRecord(env, e, flags, reserved);
    MarkedPieces(env, e, flags, reserved);
    hide MarkedHead, MarkedRecord, RecordOf, Unmarked;
    var rest := r + more;
    assert rest[..48] == r[..48] && rest[48..80] == r[48..80] && rest[16..48] == r[16..48];
    assert rest[80..|r|] == payload;
    WordIgnoresTail(rest, r);
    assert rest[8..][..4] == r[8..][..4];
    WordIgnoresTail(rest[8..], r[8..]);
    assert rest[..|r|] == r;
    AcceptedAsWrittenIff(env, rest);
    assert rest[6..8] == flags && rest[12..16] == reserved;
    MarksAre(rest, flags, reserved);
  }

  lemma MarksAre(rest: Bytes, flags: Bytes, reserved: Bytes)
    requires |rest| >= RECORD_HEADER && rest[6..8] == flags && rest[12..16] == reserved
    ensures Unmarked(rest) <==> flags == [0, 0] && reserved == [0, 0, 0, 0]
  {
  }

  /** A snapshot whose sources are written in any order, repeated or not, is accepted
      as the snapshot with the set of them; that is the written record only when they
      were in order. */
  lemma AnyOrderIsAccepted(env: StoreEnv, s: Snapshot, refs: seq<SourceRef>, more: Bytes)
    requires Stored(env, SnapshotEntry(s)) && s.sources == SourceSets.VectorOf(refs)
    requires |refs| <= MAX_DECISION_SOURCES + 1 && forall i | 0 <= i < |refs| :: SnapshotCodec.GoodRef(refs[i])
    requires |SnapshotCodec.PutSnapshot(s.(sources := refs), [])| <= MAX_RECORD_PAYLOAD
    ensures var r := Record(env, 2, SnapshotCodec.PutSnapshot(s.(sources := refs), []));
            && ScanOne(env, r + more) == Taken(SnapshotEntry(s), |r|)
            && (r == RecordOf(env, SnapshotEntry(s)) <==> refs == s.sources)
  {
    hide SnapshotCodec.GoodSnapshot, SnapshotCodec.PutSnapshot, SnapshotCodec.GetSnapshot, SnapshotCodec.GoodRef,
      SourceSets.VectorOf, SiteDigest, Head, ScanOne;
    var payload := SnapshotCodec.PutSnapshot(s.(sources := refs), []);
    SnapshotCodec.AnySourcesAreRead(s, refs, []);
    assert Decode(env, 2, payload) == Success(SnapshotEntry(s));
    RecordIsTaken(env, 2, payload, more);
    HeadFields(env, 2, payload);
    SamePayload(env, 2, payload, SnapshotCodec.PutSnapshot(s, []));
  }

  lemma SamePayload(env: StoreEnv, code: u16, a: Bytes, b: Bytes)
    requires |a| <= MAX_RECORD_PAYLOAD && code <= 7
    ensures Record(env, code, a) == Record(env, code, b) <==> a == b
  {
    hide Head;
    var x, y := Head(env, code, a), Head(env, code, b);
    HeadSize(env, code, a);
    HeadSize(env, code, b);
    assert (x + env.hash(x) + a)[80..] == a && (y + env.hash(y) + b)[80..] == b;
  }

  lemma HeadSize(env: StoreEnv, code: u16, payload: Bytes)
    ensures |Head(env, code, payload)| == 48
  {
  }

  lemma MarkedPieces(env: StoreEnv, e: Entry, flags: Bytes, reserved: Bytes)
    requires |Payload(env, e)| <= MAX_RECORD_PAYLOAD && |flags| == 2 && |reserved| == 4
    ensures var payload, r := Payload(env, e), MarkedRecord(env, e, flags, reserved);
            && |r| == RECORD_HEADER + |payload| && r[80..] == payload && r[48..80] == env.hash(r[..48])
            && Word32(r) == RECORD_MAGIC && CodeAt(r) == TypeCode(e) && LengthAt(r) == |payload|
            && r[16..48] == env.hash(payload) && r[6..8] == flags && r[12..16] == reserved
  {
    hide Payload;
    var payload, head, r := Payload(env, e), MarkedHead(env, e, flags, reserved), MarkedRecord(env, e, flags, reserved);
    var mid := Put32(|payload|, reserved + env.hash(payload));
    assert |head| == 48 && head[8..] == mid && r[..48] == head;
    assert r[8..][..4] == mid[..4];
    MagicFirst(RECORD_MAGIC, r);
    Read32(|payload|, reserved + env.hash(payload));
    WordIgnoresTail(mid, r[8..]);
    assert mid[4..8] == reserved && mid[8..] == env.hash(payload);
    assert r[12..16] == mid[4..8] && r[16..48] == mid[8..];
  }
}
