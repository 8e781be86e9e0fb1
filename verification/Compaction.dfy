/** What a store holds once its records are sorted out, and which of them a
    compaction keeps. */
module Compaction {
  import opened Model
  import opened Attribution
  import opened StoreFormat
  import Chain
  import Order

  datatype Contents = Contents(
    snapshots: seq<Snapshot>, publications: seq<PublicationRecord>, retirements: seq<RetirementRecord>,
    tombstones: seq<Text>, leases: seq<AuthorityToken>)
  {
    function Count(): nat { |snapshots| + |publications| + |retirements| + |tombstones| + |leases| }
  }

  const NOTHING := Contents([], [], [], [], [])

  function Joined(a: Contents, b: Contents): Contents {
    Contents(a.snapshots + b.snapshots, a.publications + b.publications, a.retirements + b.retirements,
             a.tombstones + b.tombstones, a.leases + b.leases)
  }

  function One(e: Entry): Contents {
    match e
    case SnapshotEntry(s) => NOTHING.(snapshots := [s])
    case PublicationEntry(p) => NOTHING.(publications := [p])
    case RetirementEntry(r) => NOTHING.(retirements := [r])
    case TombstoneEntry(t) => NOTHING.(tombstones := [t])
    case LeaseEntry(t) => NOTHING.(leases := [t])
    case CheckpointEntry => NOTHING
  }

  /** The records by kind, each in file order. */
  function ContentsOf(entries: seq<Entry>): Contents {
    if entries == [] then NOTHING else Joined(One(entries[0]), ContentsOf(entries[1..]))
  }

  lemma JoinedAssociates(a: Contents, b: Contents, c: Contents)
    ensures Joined(Joined(a, b), c) == Joined(a, Joined(b, c)) && Joined(NOTHING, a) == a == Joined(a, NOTHING)
  {
    assert a.snapshots + b.snapshots + c.snapshots == a.snapshots + (b.snapshots + c.snapshots);
    assert a.publications + b.publications + c.publications == a.publications + (b.publications + c.publications);
    assert a.retirements + b.retirements + c.retirements == a.retirements + (b.retirements + c.retirements);
    assert a.tombstones + b.tombstones + c.tombstones == a.tombstones + (b.tombstones + c.tombstones);
    assert a.leases + b.leases + c.leases == a.leases + (b.leases + c.leases);
  }

  lemma {:induction false} ContentsAdd(a: seq<Entry>, b: seq<Entry>)
    ensures ContentsOf(a + b) == Joined(ContentsOf(a), ContentsOf(b))
  {
    hide Joined, One;
    if a == [] {
      assert a + b == b;
      JoinedAssociates(ContentsOf(b), NOTHING, NOTHING);
    } else {
      ContentsAdd(a[1..], b);
      assert (a + b)[1..] == a[1..] + b;
      JoinedAssociates(One(a[0]), ContentsOf(a[1..]), ContentsOf(b));
    }
  }

  // ----- Snapshots by number ------------------------------------------------

  function InsertSnapshot(s: seq<Snapshot>, x: Snapshot): seq<Snapshot> {
    if s == [] || x.sequence >= s[|s| - 1].sequence then s + [x]
    else InsertSnapshot(s[..|s| - 1], x) + [s[|s| - 1]]
  }

  function BySequence(s: seq<Snapshot>): seq<Snapshot> {
    if s == [] then [] else InsertSnapshot(BySequence(s[..|s| - 1]), s[|s| - 1])
  }

  ghost predicate Numbered(s: seq<Snapshot>) { forall i, j | 0 <= i < j < |s| :: s[i].sequence <= s[j].sequence }

  lemma {:induction false} InsertKeepsAll(s: seq<Snapshot>, x: Snapshot)
    ensures multiset(InsertSnapshot(s, x)) == multiset(s) + multiset{x}
  {
    if s == [] || x.sequence >= s[|s| - 1].sequence {
      assert InsertSnapshot(s, x) == s + [x];
    } else {
      var front, last := s[..|s| - 1], s[|s| - 1];
      assert s == front + [last];
      InsertKeepsAll(front, x);
      assert InsertSnapshot(s, x) == InsertSnapshot(front, x) + [last];
    }
  }

  lemma {:induction false} InsertKeepsNumbered(s: seq<Snapshot>, x: Snapshot)
    requires Numbered(s)
    ensures Numbered(InsertSnapshot(s, x)) && multiset(InsertSnapshot(s, x)) == multiset(s) + multiset{x}
  {
    InsertKeepsAll(s, x);
    if s == [] || x.sequence >= s[|s| - 1].sequence {
      LastIsHighest(s, x);
    } else {
      var front := s[..|s| - 1];
      FrontIsNumbered(s);
      InsertKeepsNumbered(front, x);
      LowerThanLast(s, x, InsertSnapshot(front, x));
    }
  }

  lemma FrontIsNumbered(s: seq<Snapshot>)
    requires s != [] && Numbered(s)
    ensures Numbered(s[..|s| - 1])
  {
  }

  lemma LastIsHighest(s: seq<Snapshot>, x: Snapshot)
    requires Numbered(s) && (s == [] || x.sequence >= s[|s| - 1].sequence)
    ensures Numbered(s + [x])
  {
    forall i | 0 <= i < |s| ensures s[i].sequence <= x.sequence { assert s[i].sequence <= s[|s| - 1].sequence; }
  }

  lemma LowerThanLast(s: seq<Snapshot>, x: Snapshot, t: seq<Snapshot>)
    requires s != [] && Numbered(s) && x.sequence < s[|s| - 1].sequence && Numbered(t)
    requires multiset(t) == multiset(s[..|s| - 1]) + multiset{x}
    ensures Numbered(t + [s[|s| - 1]])
  {
    forall i | 0 <= i < |t| ensures t[i].sequence <= s[|s| - 1].sequence { AtMostLast(s, x, t, i); }
  }

  lemma AtMostLast(s: seq<Snapshot>, x: Snapshot, t: seq<Snapshot>, i: nat)
    requires s != [] && Numbered(s) && x.sequence < s[|s| - 1].sequence && i < |t|
    requires multiset(t) == multiset(s[..|s| - 1]) + multiset{x}
    ensures t[i].sequence <= s[|s| - 1].sequence
  {
    assert t[i] in multiset(t);
    if t[i] != x {
      assert t[i] in s[..|s| - 1];
      var j :| 0 <= j < |s| - 1 && s[..|s| - 1][j] == t[i];
      assert s[j] == t[i];
    }
  }

  /** The snapshots sorted by number: the same ones, the highest number last. */
  lemma {:induction false} BySequenceSorts(s: seq<Snapshot>)
    ensures Numbered(BySequence(s)) && multiset(BySequence(s)) == multiset(s) && |BySequence(s)| == |s|
  {
    if s != [] {
      var front := s[..|s| - 1];
      assert s == front + [s[|s| - 1]];
      BySequenceSorts(front);
      InsertKeepsNumbered(BySequence(front), s[|s| - 1]);
    }
    Order.SameSize(BySequence(s), s);
  }

  lemma {:induction false} SortedStays(s: seq<Snapshot>)
    requires Numbered(s)
    ensures BySequence(s) == s
  {
    if s != [] {
      var front := s[..|s| - 1];
      assert s == front + [s[|s| - 1]];
      SortedStays(front);
    }
  }

  function LastOf(s: seq<Snapshot>, limit: nat): seq<Snapshot> { if |s| > limit then s[|s| - limit..] else s }

  function HistoryLimit(n: u32): (limit: nat)
    ensures limit >= 1
  {
    if n == 0 then Chain.DEFAULT_SNAPSHOT_HISTORY else n
  }

  // ----- The newest publication of each domain ------------------------------

  predicate Older(a: PublicationRecord, b: PublicationRecord) {
    a.generation < b.generation || (a.generation == b.generation && a.acceptance < b.acceptance)
  }

  type Newest = map<MemberDomainKey, PublicationRecord>

  function NewestOf(publications: seq<PublicationRecord>): Newest {
    if publications == [] then map[]
    else
      var before, r := NewestOf(publications[..|publications| - 1]), publications[|publications| - 1];
      if r.domain !in before || Older(before[r.domain], r) then before[r.domain := r] else before
  }

  /** No domain is lost, and what is kept of it is maximal. */
  lemma {:induction false} NewestIsMaximal(publications: seq<PublicationRecord>, d: MemberDomainKey)
    ensures d in NewestOf(publications) <==> exists r :: r in publications && r.domain == d
    ensures d in NewestOf(publications) ==>
      var n := NewestOf(publications)[d];
      n in publications && n.domain == d && forall r | r in publications && r.domain == d ::
        r.generation < n.generation || (r.generation == n.generation && r.acceptance <= n.acceptance)
  {
    if publications != [] {
      var front, last := publications[..|publications| - 1], publications[|publications| - 1];
      assert publications == front + [last];
      NewestIsMaximal(front, d);
    }
  }

  function InDomainOrder(newest: Newest, order: seq<MemberDomainKey>): seq<PublicationRecord>
    requires forall d | d in order :: d in newest
  {
    if order == [] then []
    else
      assert order[|order| - 1] in order;
      InDomainOrder(newest, order[..|order| - 1]) + [newest[order[|order| - 1]]]
  }

  function KeptPublications(publications: seq<PublicationRecord>): seq<PublicationRecord> {
    var newest := NewestOf(publications);
    InDomainOrder(newest, DomainOrder(newest.Keys))
  }

  lemma {:induction false} InOrderAt(newest: Newest, order: seq<MemberDomainKey>)
    requires forall d | d in order :: d in newest
    ensures |InDomainOrder(newest, order)| == |order|
    ensures forall i | 0 <= i < |order| :: InDomainOrder(newest, order)[i] == newest[order[i]]
  {
    if order != [] {
      assert order[|order| - 1] in order;
      InOrderAt(newest, order[..|order| - 1]);
    }
  }

  /** A list that has each domain once is its own selection. */
  lemma {:induction false} OneEach(newest: Newest, order: seq<MemberDomainKey>)
    requires forall d | d in order :: d in newest && newest[d].domain == d
    requires forall i, j | 0 <= i < j < |order| :: order[i] != order[j]
    ensures forall d :: d in NewestOf(InDomainOrder(newest, order)) <==> d in order
    ensures forall d | d in order :: NewestOf(InDomainOrder(newest, order))[d] == newest[d]
  {
    if order != [] {
      var front, d := order[..|order| - 1], order[|order| - 1];
      assert order == front + [d];
      OneEach(newest, front);
      var all := InDomainOrder(newest, order);
      assert all[..|all| - 1] == InDomainOrder(newest, front) && all[|all| - 1] == newest[d];
      assert d !in front;
    }
  }

  lemma ItsOwnSelection(newest: Newest)
    requires forall d | d in newest :: newest[d].domain == d
    ensures NewestOf(InDomainOrder(newest, DomainOrder(newest.Keys))) == newest
    ensures |InDomainOrder(newest, DomainOrder(newest.Keys))| == |newest|
  {
    hide NewestOf, InDomainOrder;
    var order := DomainOrder(newest.Keys);
    Order.SortedHasNoRepeats(order, Order.DomainText);
    InOrderAt(newest, order);
    OneEach(newest, order);
    assert |newest| == |newest.Keys|;
  }

  lemma KeptOnceMore(publications: seq<PublicationRecord>)
    ensures KeptPublications(KeptPublications(publications)) == KeptPublications(publications)
    ensures |KeptPublications(publications)| == |NewestOf(publications)|
    ensures NewestOf(KeptPublications(publications)) == NewestOf(publications)
  {
    hide NewestOf, InDomainOrder;
    var newest := NewestOf(publications);
    forall d | d in newest ensures newest[d].domain == d { NewestIsMaximal(publications, d); }
    ItsOwnSelection(newest);
  }

  // ----- What a compaction keeps --------------------------------------------

  function Kept(entries: seq<Entry>, limit: nat): Contents {
    var c := ContentsOf(entries);
    c.(snapshots := LastOf(BySequence(c.snapshots), limit), publications := KeptPublications(c.publications))
  }

  function Dropped(entries: seq<Entry>, limit: nat): nat {
    var c := ContentsOf(entries);
    KeptOnceMore(c.publications);
    FewerKept(c.publications);
    (if |c.snapshots| > limit then |c.snapshots| - limit else 0) + (|c.publications| - |NewestOf(c.publications)|)
  }

  lemma {:induction false} FewerKept(publications: seq<PublicationRecord>)
    ensures |NewestOf(publications)| <= |publications|
  {
    if publications != [] {
      var before := NewestOf(publications[..|publications| - 1]);
      FewerKept(publications[..|publications| - 1]);
      assert |NewestOf(publications)| <= |before| + 1;
    }
  }

  function SnapshotEntries(s: seq<Snapshot>): seq<Entry> {
    if s == [] then [] else [SnapshotEntry(s[0])] + SnapshotEntries(s[1..])
  }

  function PublicationEntries(s: seq<PublicationRecord>): seq<Entry> {
    if s == [] then [] else [PublicationEntry(s[0])] + PublicationEntries(s[1..])
  }

  function RetirementEntries(s: seq<RetirementRecord>): seq<Entry> {
    if s == [] then [] else [RetirementEntry(s[0])] + RetirementEntries(s[1..])
  }

  function TombstoneEntries(s: seq<Text>): seq<Entry> {
    if s == [] then [] else [TombstoneEntry(s[0])] + TombstoneEntries(s[1..])
  }

  function LeaseEntries(s: seq<AuthorityToken>): seq<Entry> {
    if s == [] then [] else [LeaseEntry(s[0])] + LeaseEntries(s[1..])
  }

  /** The records of the rewritten file, in the order they are written. */
  function Entries(c: Contents): seq<Entry> {
    SnapshotEntries(c.snapshots) + (PublicationEntries(c.publications) + (RetirementEntries(c.retirements)
      + (TombstoneEntries(c.tombstones) + LeaseEntries(c.leases))))
  }

  function Compacted(entries: seq<Entry>, limit: nat): seq<Entry> { Entries(Kept(entries, limit)) }

  lemma {:induction false} OnlySnapshots(s: seq<Snapshot>)
    ensures ContentsOf(SnapshotEntries(s)) == NOTHING.(snapshots := s) && |SnapshotEntries(s)| == |s|
  {
    if s != [] { OnlySnapshots(s[1..]); assert s == [s[0]] + s[1..]; }
  }

  lemma {:induction false} OnlyPublications(s: seq<PublicationRecord>)
    ensures ContentsOf(PublicationEntries(s)) == NOTHING.(publications := s) && |PublicationEntries(s)| == |s|
  {
    if s != [] { OnlyPublications(s[1..]); assert s == [s[0]] + s[1..]; }
  }

  lemma {:induction false} OnlyRetirements(s: seq<RetirementRecord>)
    ensures ContentsOf(RetirementEntries(s)) == NOTHING.(retirements := s) && |RetirementEntries(s)| == |s|
  {
    if s != [] { OnlyRetirements(s[1..]); assert s == [s[0]] + s[1..]; }
  }

  lemma {:induction false} OnlyTombstones(s: seq<Text>)
    ensures ContentsOf(TombstoneEntries(s)) == NOTHING.(tombstones := s) && |TombstoneEntries(s)| == |s|
  {
    if s != [] { OnlyTombstones(s[1..]); assert s == [s[0]] + s[1..]; }
  }

  lemma {:induction false} OnlyLeases(s: seq<AuthorityToken>)
    ensures ContentsOf(LeaseEntries(s)) == NOTHING.(leases := s) && |LeaseEntries(s)| == |s|
  {
    if s != [] { OnlyLeases(s[1..]); assert s == [s[0]] + s[1..]; }
  }

  /** The written records hold exactly the contents they were written from. */
  lemma ContentsOfEntries(c: Contents)
    ensures ContentsOf(Entries(c)) == c && |Entries(c)| == c.Count()
  {
    var s, p, r, t, l := SnapshotEntries(c.snapshots), PublicationEntries(c.publications),
      RetirementEntries(c.retirements), TombstoneEntries(c.tombstones), LeaseEntries(c.leases);
    OnlySnapshots(c.snapshots);
    OnlyPublications(c.publications);
    OnlyRetirements(c.retirements);
    OnlyTombstones(c.tombstones);
    OnlyLeases(c.leases);
    hide ContentsOf, SnapshotEntries, PublicationEntries, RetirementEntries, TombstoneEntries, LeaseEntries;
    ContentsAdd(t, l);
    ContentsAdd(r, t + l);
    ContentsAdd(p, r + (t + l));
    ContentsAdd(s, p + (r + (t + l)));
  }

  lemma KeptIsKept(entries: seq<Entry>, limit: nat)
    requires limit >= 1
    ensures Kept(Compacted(entries, limit), limit) == Kept(entries, limit)
  {
    var c := ContentsOf(entries);
    var k := Kept(entries, limit);
    ContentsOfEntries(k);
    KeptOnceMore(c.publications);
    BySequenceSorts(c.snapshots);
    hide ContentsOf, Entries, BySequence, KeptPublications;
    LastStaysNumbered(BySequence(c.snapshots), limit);
    SortedStays(k.snapshots);
  }

  lemma LastStaysNumbered(s: seq<Snapshot>, limit: nat)
    requires Numbered(s)
    ensures Numbered(LastOf(s, limit)) && LastOf(LastOf(s, limit), limit) == LastOf(s, limit)
    ensures limit >= 1 && s != [] ==> LastOf(s, limit) != [] && LastOf(s, limit)[|LastOf(s, limit)| - 1] == s[|s| - 1]
    ensures |LastOf(s, limit)| <= limit && |LastOf(s, limit)| <= |s|
    ensures |s| - |LastOf(s, limit)| == if |s| > limit then |s| - limit else 0
  {
  }

  /** The snapshot a restart begins from: the one with the highest number. */
  function Latest(entries: seq<Entry>): Option<Snapshot> {
    var s := BySequence(ContentsOf(entries).snapshots);
    if s == [] then None else Some(s[|s| - 1])
  }

  /** Compaction preserves what matters: what it keeps and what it drops add up to
      what there was, the latest snapshot stays, at most `limit` snapshots are
      kept and they are the highest-numbered ones, every domain keeps one maximal
      publication, all retirements, tombstones and leases stay in order, and
      compacting again changes nothing and drops nothing. */
  lemma CompactionPreserves(entries: seq<Entry>, limit: nat)
    requires limit >= 1
    ensures var before, kept, after := ContentsOf(entries), Kept(entries, limit), Compacted(entries, limit);
            && |after| + Dropped(entries, limit) == before.Count()
            && ContentsOf(after) == kept
            && Latest(after) == Latest(entries)
            && |kept.snapshots| == (if |before.snapshots| <= limit then |before.snapshots| else limit)
            && kept.retirements == before.retirements && kept.tombstones == before.tombstones && kept.leases == before.leases
            && Compacted(after, limit) == after && Dropped(after, limit) == 0
  {
    var c := ContentsOf(entries);
    var k := Kept(entries, limit);
    ContentsOfEntries(k);
    KeptIsKept(entries, limit);
    KeptOnceMore(c.publications);
    KeptOnceMore(k.publications);
    FewerKept(c.publications);
    BySequenceSorts(c.snapshots);
    LastStaysNumbered(BySequence(c.snapshots), limit);
    hide ContentsOf, Entries, BySequence, KeptPublications, NewestOf;
    SortedStays(k.snapshots);
  }

  /** A dropped snapshot has no higher number than any that is kept. */
  lemma KeptSnapshotsAreTheHighest(entries: seq<Entry>, limit: nat, s: Snapshot, t: Snapshot)
    requires multiset(ContentsOf(entries).snapshots)[s] > multiset(Kept(entries, limit).snapshots)[s]
    requires t in Kept(entries, limit).snapshots
    ensures s.sequence <= t.sequence
  {
    var all := BySequence(ContentsOf(entries).snapshots);
    BySequenceSorts(ContentsOf(entries).snapshots);
    hide ContentsOf, BySequence;
    if |all| > limit {
      var dropped, kept := all[..|all| - limit], all[|all| - limit..];
      assert all == dropped + kept;
      assert multiset(all) == multiset(dropped) + multiset(kept);
      assert s in multiset(dropped);
      FrontIsLower(all, |all| - limit, s, t);
    }
  }

  lemma FrontIsLower(all: seq<Snapshot>, n: nat, s: Snapshot, t: Snapshot)
    requires Numbered(all) && n <= |all| && s in all[..n] && t in all[n..]
    ensures s.sequence <= t.sequence
  {
    var i :| 0 <= i < n && all[..n][i] == s;
    var j :| 0 <= j < |all| - n && all[n..][j] == t;
    assert all[i] == s && all[n + j] == t;
  }

  // ----- Kept entries are stored entries ------------------------------------

  lemma {:induction false} EntryAmong(entries: seq<Entry>, e: Entry)
    requires !e.CheckpointEntry?
    ensures e in entries <==>
      match e
      case SnapshotEntry(s) => s in ContentsOf(entries).snapshots
      case PublicationEntry(p) => p in ContentsOf(entries).publications
      case RetirementEntry(r) => r in ContentsOf(entries).retirements
      case TombstoneEntry(t) => t in ContentsOf(entries).tombstones
      case LeaseEntry(t) => t in ContentsOf(entries).leases
  {
    if entries != [] {
      assert entries == [entries[0]] + entries[1..];
      EntryAmong(entries[1..], e);
    }
  }

  lemma {:induction false} NoCheckpoints(c: Contents)
    ensures CheckpointEntry !in Entries(c)
  {
    SnapshotsOnly(c.snapshots);
    PublicationsOnly(c.publications);
    RetirementsOnly(c.retirements);
    TombstonesOnly(c.tombstones);
    LeasesOnly(c.leases);
  }

  lemma {:induction false} SnapshotsOnly(s: seq<Snapshot>)
    ensures CheckpointEntry !in SnapshotEntries(s)
  {
    if s != [] { SnapshotsOnly(s[1..]); }
  }

  lemma {:induction false} PublicationsOnly(s: seq<PublicationRecord>)
    ensures CheckpointEntry !in PublicationEntries(s)
  {
    if s != [] { PublicationsOnly(s[1..]); }
  }

  lemma {:induction false} RetirementsOnly(s: seq<RetirementRecord>)
    ensures CheckpointEntry !in RetirementEntries(s)
  {
    if s != [] { RetirementsOnly(s[1..]); }
  }

  lemma {:induction false} TombstonesOnly(s: seq<Text>)
    ensures CheckpointEntry !in TombstoneEntries(s)
  {
    if s != [] { TombstonesOnly(s[1..]); }
  }

  lemma {:induction false} LeasesOnly(s: seq<AuthorityToken>)
    ensures CheckpointEntry !in LeaseEntries(s)
  {
    if s != [] { LeasesOnly(s[1..]); }
  }

  /** Every record a compaction writes was in the file. */
  lemma CompactionOnlyKeeps(entries: seq<Entry>, limit: nat, e: Entry)
    requires e in Compacted(entries, limit)
    ensures e in entries
  {
    var c, k := ContentsOf(entries), Kept(entries, limit);
    NoCheckpoints(k);
    ContentsOfEntries(k);
    hide ContentsOf, Entries;
    EntryAmong(Entries(k), e);
    EntryAmong(entries, e);
    match e
    case SnapshotEntry(s) => KeptSnapshotWasThere(c.snapshots, limit, s);
    case PublicationEntry(p) => KeptPublicationWasThere(c.publications, p);
    case _ =>
  }

  lemma KeptSnapshotWasThere(all: seq<Snapshot>, limit: nat, s: Snapshot)
    requires s in LastOf(BySequence(all), limit)
    ensures s in all
  {
    BySequenceSorts(all);
    hide BySequence;
    Order.SameElements(BySequence(all), all);
    assert s in BySequence(all);
  }

  lemma KeptPublicationWasThere(all: seq<PublicationRecord>, p: PublicationRecord)
    requires p in KeptPublications(all)
    ensures p in all
  {
    var newest := NewestOf(all);
    var order := DomainOrder(newest.Keys);
    hide NewestOf;
    InOrderAt(newest, order);
    var i :| 0 <= i < |order| && InDomainOrder(newest, order)[i] == p;
    assert order[i] in order;
    NewestIsMaximal(all, order[i]);
  }

  lemma CompactedIsStored(env: StoreEnv, entries: seq<Entry>, limit: nat)
    requires AllStored(env, entries)
    ensures AllStored(env, Compacted(entries, limit))
  {
    var after := Compacted(entries, limit);
    hide Compacted, Stored, Payload;
    forall i | 0 <= i < |after| ensures Stored(env, after[i]) && |Payload(env, after[i])| <= MAX_RECORD_PAYLOAD {
      CompactionOnlyKeeps(entries, limit, after[i]);
    }
  }
}
