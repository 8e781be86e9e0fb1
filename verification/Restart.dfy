/** What a controller starts from: when a start succeeds, and the registry, the epoch and
    the numbers it then has. */
module Restart {
  import opened Model
  import opened Attribution
  import opened Compose
  import opened Chain
  import opened Authority
  import opened LeaseRuns
  import opened Controller
  import opened ControllerRuns
  import opened Acceptance
  import Compaction
  import Fencing

  /** The snapshot can be restored on an empty chain. */
  predicate Restorable(env: ChainEnv, s: Snapshot) {
    && ValidIdentifier(s.site) && s.epoch != 0 && s.sequence != 0 && s.siteDigest == env.digestOf(s.state)
    && (s.snapshotDigest == ZERO_DIGEST || s.snapshotDigest == env.envelopeOf(s))
  }

  /** A start succeeds exactly when the latest snapshot, if there is one, can be restored,
      and the controller can hold a lease at all: it has a name, a site, a sound
      incarnation, and a positive clock and term. */
  lemma StartedIff(world: World, config: ControllerConfig, contents: Compaction.Contents, latest: Option<Snapshot>,
      incarnation: Incarnation, now: i64)
    requires forall p | p in contents.publications :: TameRecord(p)
    ensures Started(world, config, contents, latest, incarnation, now).Success? <==>
      && (latest.Some? ==> Restorable(world.chain, latest.value))
      && config.id != [] && ValidIdentifier(config.site) && SoundIncarnation(incarnation) && config.leaseTtl > 0 && now > 0
  {
    if latest.Some? { RestoredIff(world.chain, [], latest.value); }
    var st := RestoredState(contents, latest, incarnation);
    var generation := if st.siteGeneration == 0 then 1 else st.siteGeneration;
    FirstLease(config, st, generation, now);
    hide Acquire, RestoreVerdict, Restorable, Recompose, TameRecord, ValidIdentifier, HighestEpoch, HighestAcceptance,
      RecoveredPublications, RecoveredDomains, SoundIncarnation;
    HasAnEpoch(contents, latest, incarnation);
  }

  lemma HasAnEpoch(contents: Compaction.Contents, latest: Option<Snapshot>, incarnation: Incarnation)
    ensures var st := RestoredState(contents, latest, incarnation);
            st.epoch != 0 && st.sites == NO_SITES && st.incarnation == incarnation
  {
    hide HighestEpoch, HighestAcceptance, RecoveredPublications, RecoveredDomains;
  }

  lemma FirstLease(config: ControllerConfig, st: ControllerState, generation: u64, now: i64)
    ensures st.sites == NO_SITES && st.epoch != 0 ==>
      (Acquire(st.sites, LeaseRequest(config, st, generation, now)).status.IsOk() <==>
         config.id != [] && ValidIdentifier(config.site) && SoundIncarnation(st.incarnation) && config.leaseTtl > 0 && now > 0)
  {
    var q := LeaseRequest(config, st, generation, now);
    AvailableIff(st.sites, q);
    hide Acquire, ValidIdentifier, SoundIncarnation;
  }

  /** The first of the records of its domain with the highest generation. */
  ghost predicate FirstHighest(publications: seq<PublicationRecord>, r: PublicationRecord) {
    exists i | 0 <= i < |publications| ::
      && publications[i] == r
      && (forall j | 0 <= j < i && publications[j].domain == r.domain :: publications[j].generation < r.generation)
      && (forall j | i < j < |publications| && publications[j].domain == r.domain :: publications[j].generation <= r.generation)
  }

  lemma {:induction false} RecoversTheFirst(publications: seq<PublicationRecord>, d: MemberDomainKey)
    requires d in RecoveredPublications(publications)
    ensures RecoveredPublications(publications)[d].domain == d
    ensures FirstHighest(publications, RecoveredPublications(publications)[d])
  {
    hide FirstHighest;
    var front, last := publications[..|publications| - 1], publications[|publications| - 1];
    assert publications == front + [last];
    var before := RecoveredPublications(front);
    RecoveredAt(front, d);
    if last.domain == d && (d !in before || before[d].generation < last.generation) {
      NewHighest(front, last);
    } else {
      RecoversTheFirst(front, d);
      StaysHighest(front, last, before[d]);
    }
  }

  lemma NewHighest(front: seq<PublicationRecord>, last: PublicationRecord)
    requires forall p | p in front && p.domain == last.domain :: p.generation < last.generation
    ensures FirstHighest(front + [last], last)
  {
    var all := front + [last];
    forall j | 0 <= j < |front| && all[j].domain == last.domain ensures all[j].generation < last.generation {
      assert front[j] in front;
    }
    assert all[|front|] == last;
  }

  lemma StaysHighest(front: seq<PublicationRecord>, last: PublicationRecord, r: PublicationRecord)
    requires FirstHighest(front, r) && (last.domain == r.domain ==> last.generation <= r.generation)
    ensures FirstHighest(front + [last], r)
  {
    var i :| 0 <= i < |front| && front[i] == r
             && (forall j | 0 <= j < i && front[j].domain == r.domain :: front[j].generation < r.generation)
             && (forall j | i < j < |front| && front[j].domain == r.domain :: front[j].generation <= r.generation);
    assert (front + [last])[i] == r;
  }

  lemma {:induction false} AcceptanceIsHighest(publications: seq<PublicationRecord>)
    ensures forall p | p in publications :: p.acceptance <= HighestAcceptance(publications)
    ensures HighestAcceptance(publications) == 0 || exists p :: p in publications && p.acceptance == HighestAcceptance(publications)
  {
    if publications != [] {
      assert publications == publications[..|publications| - 1] + [publications[|publications| - 1]];
      AcceptanceIsHighest(publications[..|publications| - 1]);
      assert publications[|publications| - 1] in publications;
    }
  }

  lemma {:induction false} EpochIsHighest(leases: seq<AuthorityToken>, epoch: u64)
    ensures HighestEpoch(leases, epoch) == epoch
         || exists t :: t in leases && t.kind == SiteControllerKind && t.epoch == HighestEpoch(leases, epoch)
  {
    if leases != [] {
      assert leases == leases[..|leases| - 1] + [leases[|leases| - 1]];
      EpochIsHighest(leases[..|leases| - 1], epoch);
      assert leases[|leases| - 1] in leases;
    }
  }

  /** The epoch is just above the highest there is: of the snapshot, or of a controller's
      lease; the first one when there is neither. */
  ghost predicate JustAbove(contents: Compaction.Contents, latest: Option<Snapshot>, epoch: u64) {
    || epoch == 1
    || (latest.Some? && epoch == Saturating(latest.value.epoch))
    || exists t :: t in contents.leases && t.kind == SiteControllerKind && epoch == Saturating(t.epoch)
  }

  /** What a started controller has: one record for each recorded domain, the first of
      those with the highest generation, and every such domain silenced; the recorded
      retirements and nobody revoked; the highest acceptance number; an epoch just above
      every epoch there was; and its own incarnation. */
  lemma StartsFrom(world: World, config: ControllerConfig, contents: Compaction.Contents, latest: Option<Snapshot>,
      incarnation: Incarnation, now: i64, d: MemberDomainKey)
    requires (forall p | p in contents.publications :: TameRecord(p)) && Started(world, config, contents, latest, incarnation, now).Success?
    ensures var st := Started(world, config, contents, latest, incarnation, now).value;
            var recorded := exists p :: p in contents.publications && p.domain == d;
            && (d in st.publications <==> recorded) && (d in st.reconstructed <==> recorded)
            && (recorded ==> st.publications[d].domain == d && FirstHighest(contents.publications, st.publications[d]))
            && st.retirements == contents.retirements && st.revoked == [] && st.incarnation == incarnation
            && st.members == Fencing.NOBODY
            && (forall p | p in contents.publications :: p.acceptance <= st.acceptance)
            && (st.acceptance == 0 || exists p :: p in contents.publications && p.acceptance == st.acceptance)
            && st.epoch != 0 && JustAbove(contents, latest, st.epoch)
  {
    hide *;
    StartEffect(world, config, contents, latest, incarnation, now);
    var st := RestoredState(contents, latest, incarnation);
    RestoredIs(contents, latest, incarnation);
    RegistryStays(Started(world, config, contents, latest, incarnation, now).value, st);
    RecoveredAt(contents.publications, d);
    if d in RecoveredPublications(contents.publications) { RecoversTheFirst(contents.publications, d); }
    AcceptanceIsHighest(contents.publications);
  }

  lemma RegistryStays(a: ControllerState, b: ControllerState)
    requires SameRegistry(a, b)
    ensures a.publications == b.publications && a.retirements == b.retirements && a.revoked == b.revoked
    ensures a.reconstructed == b.reconstructed && a.acceptance == b.acceptance && a.members == b.members
    ensures a.epoch == b.epoch && a.incarnation == b.incarnation
  {
  }

  lemma RestoredIs(contents: Compaction.Contents, latest: Option<Snapshot>, incarnation: Incarnation)
    ensures var st := RestoredState(contents, latest, incarnation);
            && st.publications == RecoveredPublications(contents.publications) && st.retirements == contents.retirements
            && st.revoked == [] && st.incarnation == incarnation && st.members == Fencing.NOBODY
            && st.acceptance == HighestAcceptance(contents.publications)
            && (forall d :: d in st.reconstructed <==> exists p :: p in contents.publications && p.domain == d)
            && st.epoch != 0 && JustAbove(contents, latest, st.epoch)
  {
    hide HighestEpoch, HighestAcceptance, RecoveredPublications, RecoveredDomains;
    EpochIsHighest(contents.leases, if latest.Some? then latest.value.epoch else 0);
  }
}
