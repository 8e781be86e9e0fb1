/** The controller object: the registries it owns, and each entry point as one
    atomic change of them. */
module SiteControllerObject {
  import opened Model
  import opened Decisions
  import opened Compose
  import opened Chain
  import opened Authority
  import opened Controller
  import opened ControllerRuns
  import opened Seal
  import Compaction
  import Fencing

  class SiteController {
    const world: World
    const config: ControllerConfig
    const authority: AuthorityRegistry
    const chain: SnapshotChain
    var epoch: u64
    var incarnation: Incarnation
    var siteGeneration: u64
    var publications: map<MemberDomainKey, PublicationRecord>
    var retirements: seq<RetirementRecord>
    var revoked: seq<MemberDomainKey>
    var reconstructed: seq<MemberDomainKey>
    var acceptance: u64

    ghost predicate Valid()
      reads chain
    {
      chain.env == world.chain && chain.limit == LimitFor(config.snapshotHistory)
    }

    function State(): ControllerState
      reads this, authority, chain
    {
      ControllerState(epoch, incarnation, siteGeneration, authority.SiteState(), authority.MemberState(), publications,
                      retirements, revoked, reconstructed, acceptance, chain.history)
    }

    constructor (world: World, config: ControllerConfig, incarnation: Incarnation)
      ensures this.world == world && this.config == config && Valid() && State() == Created(incarnation)
      ensures fresh(authority) && fresh(chain)
    {
      this.world, this.config, this.incarnation := world, config, incarnation;
      authority := new AuthorityRegistry();
      chain := new SnapshotChain(world.chain, config.snapshotHistory);
      epoch, siteGeneration, acceptance := 0, 0, 0;
      publications, retirements, revoked, reconstructed := map[], [], [], [];
    }

    // ----- Composition ------------------------------------------------------

    /** Leases the site for a composed state and offers it to the chain. */
    method Offer(site: ComposedSite, generation: u64, now: i64) returns (status: Status)
      requires Valid()
      modifies this`siteGeneration, authority, chain
      ensures Valid() && Recomposition(State(), status, Some(site)) == Offered(world, config, old(State()), site, generation, now)
    {
      hide Acquire, VerdictOn, SnapshotOf, Stamped, Newest, NextSequence, LimitFor, LeaseRequest;
      var granted, token := authority.AcquireSiteAuthority(LeaseRequest(config, State(), generation, now));
      if !granted.IsOk() || token.None? { return granted; }
      var sequence;
      status, sequence := chain.Publish(SnapshotOf(world, site, now), token.value, now);
      if status != Status.Published { return; }
      siteGeneration := generation;
    }

    method RecomposeSite(now: i64) returns (status: Status, composed: Option<ComposedSite>)
      requires Valid() && Tame(State())
      modifies this`siteGeneration, authority, chain
      ensures Valid() && Recomposition(State(), status, composed) == Recompose(world, config, old(State()), now)
    {
      hide ComposeSite, Offered, PublicationList, Tame, Readable;
      TameInput(world.env, config, State(), now);
      var composer := new Composer(world.env, InputOf(config, State(), now));
      var outcome := composer.Run();
      if outcome.Failure? { return outcome.status, None; }
      composed := Some(outcome.value);
      status := Offer(outcome.value, Saturating(siteGeneration), now);
      OfferedEffect(world, config, old(State()), outcome.value, Saturating(old(siteGeneration)), now);
    }

    method RecomposeIfConfigured(now: i64)
      requires Valid() && Tame(State())
      modifies this`siteGeneration, authority, chain
      ensures Valid() && State() == MaybeRecomposed(world, config, old(State()), now)
    {
      hide Recompose, Tame;
      if config.composeOnPublish {
        var status, composed := RecomposeSite(now);
      }
    }

    // ----- Sessions ---------------------------------------------------------

    method RespondHello(d: MemberDomainKey, i: Incarnation, site: Text, observedEpoch: u64,
        now: i64) returns (status: Status)
      requires Valid()
      modifies this`reconstructed, authority
      ensures Valid() && Step.Step(State(), status) == AfterHello(config, old(State()), d, i, site, observedEpoch, now)
    {
      hide Fencing.Admit, Removed;
      if site != config.site { return Status.SiteMismatch; }
      if observedEpoch > epoch { return Status.EpochMismatch; }
      var admitted, issued := authority.AdmitMemberIncarnation(d, i, now);
      if !admitted.IsOk() { return admitted; }
      reconstructed := Removed(reconstructed, d);
      return Status.Ok;
    }

    /** The session of a domain is over: its incarnation dies with it, and the domain
        does not count until it reports again. */
    method EndSession(d: MemberDomainKey, i: Incarnation, now: i64) returns (status: Status)
      requires Valid() && Tame(State())
      modifies this, authority, chain
      ensures Valid() && Step.Step(State(), status) == AfterSessionEnd(world, config, old(State()), d, i, now)
    {
      hide Tame, Recompose, Added, Fencing.Retire;
      var buried := authority.RetireMemberIncarnation(d, i);
      reconstructed := Added(reconstructed, d);
      SamePublicationsTame(old(State()), State());
      var composed;
      status, composed := RecomposeSite(now);
    }

    // ----- Publications and departures ---------------------------------------

    /** Everything that can refuse a publication, in order. */
    method CheckPublication(i: Incarnation, declaration: Declaration,
        attempt: PublishAttempt) returns (r: Outcome<Declaration>)
      ensures r == AcceptedDeclaration(world, config, State(), i, declaration, attempt)
    {
      hide SealOf, Fencing.Fence, ValidIdentifier;
      if !declaration.domain.Valid() || declaration.site != config.site { return Failure(Status.SiteMismatch); }
      var sealed := SealDeclaration(world.hash, declaration);
      if sealed.Failure? { return sealed; }
      if declaration.digest != ZERO_DIGEST && declaration.digest != sealed.value.digest {
        return Failure(Status.DigestMismatchDeclaration);
      }
      var fenced := authority.FencePublication(OfferOf(sealed.value, declaration.observedEpoch, i, attempt));
      if !fenced.IsOk() { return Failure(fenced); }
      return sealed;
    }

    method Register(record: PublicationRecord, sealed: Declaration)
      requires Valid()
      modifies this`publications, this`reconstructed, this`acceptance, authority
      ensures Valid() && State() == Registered(config, old(State()), record, sealed)
    {
      hide Fencing.Record, Removed;
      acceptance := Wrap64(acceptance + 1);
      publications := publications[record.domain := record];
      reconstructed := Removed(reconstructed, record.domain);
      var recorded := authority.RecordPublication(OfferOf(sealed, record.observedEpoch, record.incarnation, record.attempt));
    }

    method Publish(publisher: Text, i: Incarnation, declaration: Declaration, attempt: PublishAttempt,
        now: i64) returns (status: Status)
      requires Valid() && Tame(State()) && TameDeclaration(world, declaration)
      modifies this, authority, chain
      ensures Valid()
      ensures Step.Step(State(), status) == AfterPublish(world, config, old(State()), publisher, i, declaration, attempt, now)
    {
      hide AcceptedDeclaration, Tame, TameDeclaration, MaybeRecomposed, Registered, RecordFor;
      var accepted := CheckPublication(i, declaration, attempt);
      if accepted.Failure? { return accepted.status; }
      AcceptedIsSealed(world, config, State(), i, declaration, attempt);
      var record := RecordFor(config, State(), publisher, i, accepted.value, declaration.observedEpoch, attempt, now);
      RecordKeepsDeclaration(config, State(), publisher, i, accepted.value, declaration.observedEpoch, attempt, now);
      RegisteredIsTame(world, config, State(), record, declaration, accepted.value);
      Register(record, accepted.value);
      RecomposeIfConfigured(now);
      return Status.Accepted;
    }

    method Retire(d: MemberDomainKey, generation: u64, i: Incarnation, reason: Text, now: i64) returns (status: Status)
      requires Valid() && Tame(State())
      modifies this, authority, chain
      ensures Valid() && Step.Step(State(), status) == AfterRetire(world, config, old(State()), d, generation, i, reason, now)
    {
      hide Tame, MaybeRecomposed, Fencing.Retire, Removed, ValidIdentifier;
      if !d.Valid() { return Status.Invalid; }
      var live := authority.MemberIncarnationLive(d, i);
      if !live { return Status.FencedIncarnation; }
      retirements := retirements + [RetirementFor(State(), d, generation, i, reason, now)];
      acceptance := Wrap64(acceptance + 1);
      reconstructed := Removed(reconstructed, d);
      var buried := authority.RetireMemberIncarnation(d, i);
      SamePublicationsTame(old(State()), State());
      RecomposeIfConfigured(now);
      return Status.Accepted;
    }

    method RevokeDomain(d: MemberDomainKey, now: i64) returns (status: Status)
      requires Valid() && Tame(State())
      modifies this, authority, chain
      ensures Valid() && Step.Step(State(), status) == AfterRevoke(world, config, old(State()), d, now)
    {
      hide Tame, Recompose, Added, ValidIdentifier;
      if !d.Valid() { return Status.Invalid; }
      revoked := Added(revoked, d);
      SamePublicationsTame(old(State()), State());
      var composed;
      status, composed := RecomposeSite(now);
    }

    // ----- Recovery ---------------------------------------------------------

    /** Takes over the registries the store holds. */
    method RecoverRegistry(contents: Compaction.Contents)
      modifies this`publications, this`reconstructed, this`acceptance, this`retirements
      requires publications == map[] && reconstructed == []
      ensures publications == RecoveredPublications(contents.publications)
      ensures reconstructed == RecoveredDomains(contents.publications)
      ensures acceptance == HighestAcceptance(contents.publications) && retirements == contents.retirements
    {
      var recovered := contents.publications;
      var highest: u64 := 0;
      for n := 0 to |recovered|
        invariant publications == RecoveredPublications(recovered[..n])
        invariant reconstructed == RecoveredDomains(recovered[..n])
        invariant highest == HighestAcceptance(recovered[..n])
      {
        var record := recovered[n];
        RecoveredStep(recovered, n);
        if record.domain !in publications || publications[record.domain].generation < record.generation {
          publications := publications[record.domain := record];
        }
        reconstructed := reconstructed + [record.domain];
        if record.acceptance > highest { highest := record.acceptance; }
      }
      assert recovered[..|recovered|] == recovered;
      acceptance, retirements := highest, contents.retirements;
    }

    method RaiseEpoch(leases: seq<AuthorityToken>)
      modifies this`epoch
      ensures epoch == NextEpoch(HighestEpoch(leases, old(epoch)))
    {
      for n := 0 to |leases|
        invariant epoch == HighestEpoch(leases[..n], old(epoch))
      {
        assert leases[..n + 1][..n] == leases[..n];
        if leases[n].kind == SiteControllerKind && leases[n].epoch > epoch { epoch := leases[n].epoch; }
      }
      assert leases[..|leases|] == leases;
      epoch := NextEpoch(epoch);
    }

    /** Starts a new controller from what the store holds: the latest snapshot goes on
        the chain, everything recovered is marked as a record of the past, and the
        next epoch is taken before the first composition. */
    method Start(contents: Compaction.Contents, latest: Option<Snapshot>, now: i64) returns (status: Status)
      requires Valid() && State() == Created(incarnation)
      requires forall p | p in contents.publications :: TameRecord(p)
      modifies this, authority, chain
      ensures Valid()
      ensures var started := Started(world, config, contents, latest, old(incarnation), now);
              && (started.Failure? ==> status == started.status)
              && (started.Success? ==> status == Status.Ok && State() == started.value)
    {
      hide Acquire, RestoreVerdict, Recompose, Tame, TameRecord, RecoveredPublications, RecoveredDomains,
        HighestAcceptance,
        HighestEpoch, NextEpoch, LimitFor;
      if latest.Some? {
        status := chain.Restore(latest.value);
        if status != Status.Ok { return; }
        epoch, siteGeneration := latest.value.epoch, latest.value.generation;
      }
      RaiseEpoch(contents.leases);
      RecoverRegistry(contents);
      assert State() == RestoredState(contents, latest, incarnation);
      var generation := if siteGeneration == 0 then 1 else siteGeneration;
      var granted, token := authority.AcquireSiteAuthority(LeaseRequest(config, State(), generation, now));
      if !granted.IsOk() { return granted; }
      RestoredIsTame(contents, latest, incarnation, authority.SiteState());
      var first, composed := RecomposeSite(now);
      return Status.Ok;
    }
  }

  lemma RecoveredStep(recovered: seq<PublicationRecord>, n: nat)
    requires n < |recovered|
    ensures var front, record := recovered[..n], recovered[n];
            var before := RecoveredPublications(front);
            && RecoveredPublications(recovered[..n + 1])
                 == (if record.domain !in before || before[record.domain].generation < record.generation
                     then before[record.domain := record] else before)
            && RecoveredDomains(recovered[..n + 1]) == RecoveredDomains(front) + [record.domain]
            && HighestAcceptance(recovered[..n + 1])
                 == (if record.acceptance > HighestAcceptance(front) then record.acceptance else HighestAcceptance(front))
  {
    assert recovered[..n + 1][..n] == recovered[..n];
  }

  lemma RecordKeepsDeclaration(config: ControllerConfig, st: ControllerState, publisher: Text, incarnation: Incarnation,
      sealed: Declaration, observedEpoch: u64, attempt: PublishAttempt, now: i64)
    ensures var r := RecordFor(config, st, publisher, incarnation, sealed, observedEpoch, attempt, now);
            r.declaration == None || r.declaration == Some(sealed)
  {
  }
}
