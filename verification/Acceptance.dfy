/** What the controller lets in, told from the registered state and the request: which
    hellos, which publications, and which composed sites go on the chain. */
module Acceptance {
  import opened Model
  import opened RecordCodec
  import opened Attribution
  import opened Admission
  import opened Membership
  import opened Decisions
  import opened Compose
  import opened Chain
  import opened Authority
  import opened Seal
  import opened Controller
  import opened LeaseRuns
  import opened Sealable
  import opened SealedSites
  import opened ControllerRuns
  import Fencing

  // ----- Hello ----------------------------------------------------------------

  /** The incarnation a hello stands for: an unnumbered boot gets the next number of
      its domain. */
  function Numbered(m: Fencing.Members, d: MemberDomainKey, i: Incarnation): Incarnation {
    if i.sequence == 0 then i.(sequence := m.At(d).nextSequence) else i
  }

  /** The incarnation lives already, or outranks whoever lives, or reaches the counter
      when nobody does; and it is not dead. */
  predicate MayEnter(m: Fencing.Members, d: MemberDomainKey, i: Incarnation, now: int) {
    var s, c := m.At(d), Numbered(m, d, i);
    && Named(d) && ValidIdentifier(i.boot) && now > 0 && !m.Dead(d, c)
    && if s.hasLive then s.live == c || s.live.sequence < c.sequence else s.nextSequence <= c.sequence
  }

  /** A hello is answered exactly when it is for this site, has not seen a later epoch
      and may enter; then its domain is silent no longer. Nothing is registered, and a
      hello that is refused before it is looked up changes nothing at all. */
  lemma HelloIff(config: ControllerConfig, st: ControllerState, d: MemberDomainKey, i: Incarnation, site: Text,
      observedEpoch: u64, now: i64)
    ensures var r := AfterHello(config, st, d, i, site, observedEpoch, now);
            var ours := site == config.site && observedEpoch <= st.epoch;
            var welcome := ours && MayEnter(st.members, d, i, now);
            && (r.status == Status.Ok <==> welcome)
            && (r.status == Status.SiteMismatch <==> site != config.site)
            && (r.status == Status.EpochMismatch <==> site == config.site && st.epoch < observedEpoch)
            && (!ours ==> r.state == st)
            && (forall x :: x in r.state.reconstructed <==> x in st.reconstructed && !(welcome && x == d))
            && r.state.(members := st.members, reconstructed := st.reconstructed) == st
            && (welcome ==> r.state.members.Live(d, Numbered(st.members, d, i)))
  {
    Fencing.AdmittedIff(st.members, d, i, now);
    if Fencing.Admit(st.members, d, i, now).status.IsOk() { AdmittedLives(st.members, d, i, now); }
    hide Fencing.Admit, ValidIdentifier, Removed;
  }

  lemma EntersIff(m: Fencing.Members, d: MemberDomainKey, i: Incarnation, now: int)
    ensures Fencing.Admit(m, d, i, now).status.IsOk() <==> MayEnter(m, d, i, now)
  {
    Fencing.AdmittedIff(m, d, i, now);
    hide Fencing.Admit, ValidIdentifier, Fencing.Printed;
  }

  lemma AdmittedLives(m: Fencing.Members, d: MemberDomainKey, i: Incarnation, now: int)
    requires Fencing.Admit(m, d, i, now).status.IsOk()
    ensures Fencing.Admit(m, d, i, now).members.Live(d, Numbered(m, d, i))
  {
    hide Fencing.Printed, ValidIdentifier;
    var c, live := Numbered(m, d, i), m.At(d).live;
    if Fencing.Printed(c) == Fencing.Printed(live) { Fencing.PrintedIsInjective(c, live); }
  }

  // ----- Publications ---------------------------------------------------------

  /** What a declaration is offered as. */
  function Submission(hash: Bytes -> Digest, d: Declaration, i: Incarnation, attempt: PublishAttempt): Fencing.Offer
    requires SealOf(hash, d).Success?
  {
    Fencing.Offer(d.domain, d.observedEpoch, i, d.generation, SealOf(hash, d).value.digest, attempt)
  }

  /** The declaration is of this site and can be sealed, states no digest or the one it
      seals to, and follows what its domain published last. */
  ghost predicate Submissible(world: World, config: ControllerConfig, st: ControllerState, d: Declaration,
      i: Incarnation, attempt: PublishAttempt)
    requires d.Typed()
  {
    && d.site == config.site && SealableHeader(d) && (forall k | 0 <= k < 9 :: SealableList(world.hash, k, d.lists[k]))
    && SealOf(world.hash, d).Success?
    && (d.digest == ZERO_DIGEST || d.digest == SealOf(world.hash, d).value.digest)
    && Fencing.MayPublish(st.members, Submission(world.hash, d, i, attempt))
  }

  lemma SealKeepsHeader(hash: Bytes -> Digest, d: Declaration)
    requires SealOf(hash, d).Success?
    ensures var s := SealOf(hash, d).value;
            s.domain == d.domain && s.generation == d.generation && s.site == d.site && s.schema == d.schema
            && s.evidence == d.evidence && s.observedEpoch == d.observedEpoch
  {
    hide HeaderRefusal, CanonicalLists, Content;
  }

  /** A publication is accepted exactly when it is submissible; what is refused changes
      nothing. */
  lemma SubmittedIff(world: World, config: ControllerConfig, st: ControllerState, publisher: Text, i: Incarnation,
      d: Declaration, attempt: PublishAttempt, now: i64)
    requires Tame(st) && TameDeclaration(world, d) && d.Typed()
    ensures var r := AfterPublish(world, config, st, publisher, i, d, attempt, now);
            && (r.status == Status.Accepted <==> Submissible(world, config, st, d, i, attempt))
            && (r.status != Status.Accepted ==> r.state == st)
            && (!Named(d.domain) || d.site != config.site ==> r.status == Status.SiteMismatch)
  {
    PublishEffect(world, config, st, publisher, i, d, attempt, now);
    SealableIff(world.hash, d);
    DeclarationIff(world, config, st, d, i, attempt);
    hide AfterPublish, AcceptedDeclaration, SealOf, SealableHeader, SealableList, Fencing.MayPublish, RecordFor, Registered,
      Tame, TameDeclaration, ValidIdentifier, GenerationStep, SameRegistry;
  }

  lemma DeclarationIff(world: World, config: ControllerConfig, st: ControllerState, d: Declaration, i: Incarnation,
      attempt: PublishAttempt)
    requires d.Typed()
    ensures var a := AcceptedDeclaration(world, config, st, i, d, attempt);
            && (a.Success? <==> Submissible(world, config, st, d, i, attempt))
            && (a.Failure? ==> a.status != Status.Accepted)
            && (!Named(d.domain) || d.site != config.site ==> a == Failure(Status.SiteMismatch))
  {
    SealableIff(world.hash, d);
    HeaderNames(d);
    if SealOf(world.hash, d).Success? {
      SealKeepsHeader(world.hash, d);
      Fencing.FenceIff(st.members, Submission(world.hash, d, i, attempt));
      FenceRefuses(st.members, Submission(world.hash, d, i, attempt));
    } else {
      SealingRefusedAs(world.hash, d);
    }
    hide SealOf, SealableHeader, SealableList, Fencing.Fence, Fencing.MayPublish, ValidIdentifier;
  }

  lemma HeaderNames(d: Declaration)
    ensures SealableHeader(d) ==> Named(d.domain)
  {
  }

  lemma FenceRefuses(m: Fencing.Members, o: Fencing.Offer)
    ensures Fencing.Fence(m, o) != Status.Accepted
  {
    hide Fencing.Printed, ValidIdentifier;
  }

  /** The record says just what was sealed and sent. */
  ghost predicate RecordsWhatWasSent(r: PublicationRecord, d: Declaration, sealed: Declaration, publisher: Text, i: Incarnation,
      attempt: PublishAttempt, now: i64, acceptance: u64, retain: bool)
  {
    && r.domain == d.domain && r.generation == d.generation && r.digest == sealed.digest && r.schema == d.schema
    && r.site == d.site && r.observedEpoch == d.observedEpoch && r.incarnation == i && r.publisher == publisher
    && r.attempt == attempt && r.receivedAt == now && r.acceptance == acceptance
    && r.declaration == if retain then Some(sealed) else None
  }

  /** What an accepted publication leaves: its domain has one record, of just what was
      sealed and sent, with the next acceptance number; the other domains keep theirs. */
  lemma RegisteredAt(world: World, config: ControllerConfig, st: ControllerState, publisher: Text, i: Incarnation,
      d: Declaration, attempt: PublishAttempt, now: i64, x: MemberDomainKey)
    requires Tame(st) && TameDeclaration(world, d) && d.Typed() && Submissible(world, config, st, d, i, attempt)
    ensures var after := AfterPublish(world, config, st, publisher, i, d, attempt, now).state;
            && d.domain in after.publications
            && RecordsWhatWasSent(after.publications[d.domain], d, SealOf(world.hash, d).value, publisher, i, attempt, now,
                                  Wrap64(st.acceptance + 1), config.retainDeclarations)
            && after.acceptance == Wrap64(st.acceptance + 1)
            && (x != d.domain ==> (x in after.publications <==> x in st.publications)
                                  && (x in st.publications ==> after.publications[x] == st.publications[x]))
            && (x in after.reconstructed <==> x in st.reconstructed && x != d.domain)
            && after.retirements == st.retirements && after.revoked == st.revoked
  {
    hide *;
    AcceptedAs(world, config, st, publisher, i, d, attempt, now);
    var sealed := SealOf(world.hash, d).value;
    var record := RecordFor(config, st, publisher, i, sealed, d.observedEpoch, attempt, now);
    SealKeepsHeader(world.hash, d);
    RecordIs(config, st, publisher, i, d, sealed, attempt, now);
    RegistryIs(config, st, record, sealed, x);
  }

  /** Once accepted, the same offer is not accepted again. */
  lemma NotAcceptedTwice(world: World, config: ControllerConfig, st: ControllerState, publisher: Text, i: Incarnation,
      d: Declaration, attempt: PublishAttempt, now: i64)
    requires Tame(st) && TameDeclaration(world, d) && d.Typed() && Submissible(world, config, st, d, i, attempt)
    ensures !Submissible(world, config, AfterPublish(world, config, st, publisher, i, d, attempt, now).state, d, i, attempt)
  {
    AcceptedAs(world, config, st, publisher, i, d, attempt, now);
    SealKeepsHeader(world.hash, d);
    RecordedNotAgain(st.members, Submission(world.hash, d, i, attempt));
    hide AfterPublish, SealOf, SealableHeader, SealableList, Fencing.MayPublish, Fencing.Record, Tame, TameDeclaration;
  }

  lemma AcceptedAs(world: World, config: ControllerConfig, st: ControllerState, publisher: Text, i: Incarnation,
      d: Declaration, attempt: PublishAttempt, now: i64)
    requires Tame(st) && TameDeclaration(world, d) && d.Typed() && Submissible(world, config, st, d, i, attempt)
    ensures SealOf(world.hash, d).Success? && d.site == config.site
    ensures var sealed := SealOf(world.hash, d).value;
            var record := RecordFor(config, st, publisher, i, sealed, d.observedEpoch, attempt, now);
            SameRegistry(AfterPublish(world, config, st, publisher, i, d, attempt, now).state, Registered(config, st, record, sealed))
  {
    PublishEffect(world, config, st, publisher, i, d, attempt, now);
    DeclarationIff(world, config, st, d, i, attempt);
    AcceptedIsSealed(world, config, st, i, d, attempt);
    hide AfterPublish, AcceptedDeclaration, SealOf, SealableHeader, SealableList, Fencing.MayPublish, Tame, TameDeclaration,
      SameRegistry, Registered, RecordFor, GenerationStep;
  }

  lemma RecordIs(config: ControllerConfig, st: ControllerState, publisher: Text, i: Incarnation, d: Declaration,
      sealed: Declaration, attempt: PublishAttempt, now: i64)
    requires sealed.domain == d.domain && sealed.generation == d.generation && sealed.site == d.site && sealed.schema == d.schema
    ensures RecordsWhatWasSent(RecordFor(config, st, publisher, i, sealed, d.observedEpoch, attempt, now), d, sealed,
                               publisher, i, attempt, now, Wrap64(st.acceptance + 1), config.retainDeclarations)
    ensures RecordFor(config, st, publisher, i, sealed, d.observedEpoch, attempt, now).domain == d.domain
  {
  }

  lemma RegistryIs(config: ControllerConfig, st: ControllerState, record: PublicationRecord, sealed: Declaration, x: MemberDomainKey)
    ensures forall after | SameRegistry(after, Registered(config, st, record, sealed)) ::
              && record.domain in after.publications && after.publications[record.domain] == record
              && after.acceptance == Wrap64(st.acceptance + 1)
              && (x != record.domain ==> (x in after.publications <==> x in st.publications)
                                         && (x in st.publications ==> after.publications[x] == st.publications[x]))
              && (x in after.reconstructed <==> x in st.reconstructed && x != record.domain)
              && after.retirements == st.retirements && after.revoked == st.revoked
  {
    hide Fencing.Record, Removed;
  }

  lemma RecordedNotAgain(m: Fencing.Members, o: Fencing.Offer)
    requires Fencing.MayPublish(m, o)
    ensures !Fencing.MayPublish(Fencing.Record(m, o).1, o)
  {
    hide Fencing.Printed, ValidIdentifier;
  }

  // ----- Going on the chain ---------------------------------------------------

  /** The lease of the site is to be had: taken, or taken again. */
  predicate Available(s: Sites, q: Request) { if q.Key() in s.leases then MayRetake(s, q) else MayTake(s, q) }

  /** A composed site goes on the chain exactly when the lease of the site is to be had
      and the token under it, with the snapshot that was made of the composition, is
      entitled and goes past the last entry. Then the history ends in that snapshot;
      otherwise it stays. */
  lemma OfferedIff(world: World, config: ControllerConfig, st: ControllerState, site: ComposedSite, generation: u64, now: i64)
    ensures var q, r := LeaseRequest(config, st, generation, now), Offered(world, config, st, site, generation, now);
            var grant, s := Acquire(st.sites, q), SnapshotOf(world, site, now);
            && (r.status == Status.Published <==>
                  && Available(st.sites, q) && grant.token.Some? && Entitled(world.chain, s, grant.token.value, now)
                  && (st.history != [] ==> Passes(st.history[|st.history| - 1], grant.token.value)))
            && r.state.sites == grant.sites
            && (r.status == Status.Published ==>
                  r.state.history != [] && r.state.history[|r.state.history| - 1] == Stamped(world.chain, s, NextSequence(st.history)))
            && (r.status != Status.Published ==> r.state.history == st.history)
  {
    hide *;
    var q := LeaseRequest(config, st, generation, now);
    var grant, s := Acquire(st.sites, q), SnapshotOf(world, site, now);
    OfferedUnfolds(world, config, st, site, generation, now);
    AvailableIff(st.sites, q);
    if grant.token.Some? { PublishedIff(world.chain, st.history, s, grant.token.value, now); }
  }

  lemma OfferedUnfolds(world: World, config: ControllerConfig, st: ControllerState, site: ComposedSite, generation: u64, now: i64)
    ensures var q, r := LeaseRequest(config, st, generation, now), Offered(world, config, st, site, generation, now);
            var grant, s := Acquire(st.sites, q), SnapshotOf(world, site, now);
            var goes := grant.status.IsOk() && grant.token.Some? && VerdictOn(world.chain, st.history, s, grant.token.value, now) == Status.Published;
            && (r.status == Status.Published <==> goes) && r.state.sites == grant.sites
            && (goes ==> r.state.history != [] && r.state.history[|r.state.history| - 1] == Stamped(world.chain, s, NextSequence(st.history)))
            && (!goes ==> r.state.history == st.history)
  {
    hide Acquire, VerdictOn, SnapshotOf, NextSequence, Newest, LimitFor, Stamped, LeaseRequest;
    var q := LeaseRequest(config, st, generation, now);
    AcquireIsNotPublished(st.sites, q);
    NewestEndsIn(st.history, Stamped(world.chain, SnapshotOf(world, site, now), NextSequence(st.history)), LimitFor(config.snapshotHistory));
  }

  lemma AvailableIff(s: Sites, q: Request)
    ensures Available(s, q) <==> Acquire(s, q).status.IsOk()
    ensures Acquire(s, q).status != Status.Published
  {
    AcquireIsNotPublished(s, q);
    if q.Key() in s.leases { RetakenIff(s, q); } else { TakenIff(s, q); }
    GrantOrRefusal(s, q);
    hide Acquire, MayTake, MayRetake;
  }

  lemma GrantOrRefusal(s: Sites, q: Request)
    ensures Acquire(s, q).status.IsOk() ==> Acquire(s, q).status == Status.Granted
  {
    hide Plus, ValidIdentifier;
  }

  lemma NewestEndsIn(history: seq<Snapshot>, s: Snapshot, limit: nat)
    requires limit > 0
    ensures var n := Newest(history + [s], limit); n != [] && n[|n| - 1] == s
  {
  }

  /** What a snapshot says of the site it was made of: its header, that it is complete
      exactly when all expected members are there and the site is CURRENT, and whoever
      some decision rests on as its sources. */
  lemma SnapshotSays(world: World, site: ComposedSite, now: i64)
    ensures var s := SnapshotOf(world, site, now);
            && s.state == site && s.site == site.site && s.epoch == site.epoch && s.generation == site.generation
            && s.incarnation == site.incarnation && s.publishedAt == now && s.lifecycle == site.lifecycle && s.status == site.status
            && (s.complete <==> site.membershipComplete && site.lifecycle == CurrentSite)
            && forall x :: x in s.sources <==> exists d :: d in site.decisions && x in d.sources
  {
    var s := SnapshotOf(world, site, now);
    forall x ensures x in s.sources <==> exists d :: d in site.decisions && x in d.sources { AllSourcesAt(site.decisions, x); }
    hide AllSources;
  }

  // ----- How a registered domain is reported ------------------------------------

  /** A composition of the registered state reports every registered domain by its record:
      as revoked exactly when it was revoked, as retired exactly when it retired and was
      not, and never as CURRENT while it is silenced. The site has the epoch of the
      controller and the generation after the last. */
  lemma StandingIsReported(world: World, config: ControllerConfig, st: ControllerState, d: MemberDomainKey, now: i64)
    requires Tame(st) && Keyed(st) && d in st.publications && Selectable(st.publications[d])
    requires Recompose(world, config, st, now).composed.Some?
    ensures var site := Recompose(world, config, st, now).composed.value;
            && d in site.members && site.members[d].source == Some(st.publications[d].Source())
            && (site.members[d].lifecycle == RevokedMember <==> d in st.revoked)
            && (site.members[d].lifecycle == RetiredMember <==>
                  d !in st.revoked && exists i | 0 <= i < |st.retirements| :: st.retirements[i].domain == d)
            && (d in st.reconstructed ==> site.members[d].lifecycle != CurrentMember)
            && site.epoch == st.epoch && site.generation == Saturating(st.siteGeneration)
  {
    hide *;
    var input, r := InputOf(config, st, now), st.publications[d];
    RecomposeEffect(world, config, st, now);
    InputIs(config, st, now);
    GenerationOf(config, st, now);
    var e := PreparedFor(world.env, input);
    KeyedAt(st, d);
    RegisteredIsSelected(st.publications, r);
    SelectedIsAdmitted(world.env, input, e, r);
    var admissions := AdmissionsFor(world.env, input, e);
    SiteParts(world.env, input, e, admissions);
    IsMember(admissions, e, d);
    AdmittedIsListed(admissions, e, d);
    HeaderOfComposition(world.env, input);
    Standings(world.env, input, e, r);
  }

  lemma GenerationOf(config: ControllerConfig, st: ControllerState, now: i64)
    ensures InputOf(config, st, now).generation == Saturating(st.siteGeneration)
  {
    hide PublicationList;
  }

  lemma KeyedAt(st: ControllerState, d: MemberDomainKey)
    requires Keyed(st) && d in st.publications
    ensures st.publications[d].domain == d && forall x | x in st.publications :: st.publications[x].domain == x
  {
  }

  lemma AdmittedIsListed(admissions: Admissions, e: SiteExpectation, d: MemberDomainKey)
    requires d in admissions
    ensures var m := MembersOf(admissions, e);
            d in m && m[d].lifecycle == admissions[d].lifecycle && m[d].source == Some(admissions[d].record.Source())
  {
    hide Find;
  }

  lemma Standings(env: Env, input: CompositionInput, e: SiteExpectation, r: PublicationRecord)
    requires DistinctDomains(e.members)
    ensures var l := Admit(env, input, e, r).lifecycle;
            && (l == RevokedMember <==> r.domain in input.revoked)
            && (l == RetiredMember <==>
                  r.domain !in input.revoked && exists i | 0 <= i < |input.retirements| :: input.retirements[i].domain == r.domain)
            && (r.domain in input.reconstructed ==> l != CurrentMember)
            && Admit(env, input, e, r).record == r
  {
    LifecycleIff(env, input, e, r);
    CurrentIff(env, input, e, r);
    hide Admit, Compatible, Accountable, Verified, PinsHold, Foreseen, InTerm, SyntheticInTerm, DistinctDomains;
  }

  /** Of the events that are no retirement, exactly an answered hello and an accepted
      publication of the domain end its silence. */
  lemma SilenceEndsIff(world: World, config: ControllerConfig, st: ControllerState, ev: ControllerEvent, d: MemberDomainKey)
    requires Tame(st) && TameEvent(world, ev) && d in st.reconstructed && !ev.RetireMember?
    requires ev.PublishDeclaration? ==> ev.declaration.Typed()
    ensures d !in After(world, config, st, ev).state.reconstructed <==>
      || (&& ev.Hello? && ev.domain == d && ev.site == config.site && ev.observedEpoch <= st.epoch
          && MayEnter(st.members, d, ev.incarnation, ev.now))
      || (&& ev.PublishDeclaration? && ev.declaration.domain == d
          && Submissible(world, config, st, ev.declaration, ev.incarnation, ev.attempt))
    ensures d !in After(world, config, st, ev).state.reconstructed <==> Readmits(world, config, st, ev, d)
  {
    hide AfterHello, AfterPublish, AfterRevoke, AfterSessionEnd, Recompose, Tame, AcceptedDeclaration, SealOf, Submissible,
      MayEnter, SameRegistry, RecordsWhatWasSent, Added, Removed, Fencing.Admit, Fencing.Retire, Readable, ComposeSite;
    match ev
    case Hello(x, i, site, observedEpoch, now) =>
      HelloIff(config, st, x, i, site, observedEpoch, now);
      EntersIff(st.members, x, i, now);
    case PublishDeclaration(publisher, i, declaration, attempt, now) =>
      DeclarationIff(world, config, st, declaration, i, attempt);
      SubmittedIff(world, config, st, publisher, i, declaration, attempt, now);
      if Submissible(world, config, st, declaration, i, attempt) {
        RegisteredAt(world, config, st, publisher, i, declaration, attempt, now, d);
      }
    case RevokeMember(x, now) => RevokeEffect(world, config, st, x, now);
    case SessionEnd(x, i, now) => SessionEndEffect(world, config, st, x, i, now);
    case RecomposeNow(now) => RecomposedRegistry(world, config, st, now);
  }

  lemma RecomposedRegistry(world: World, config: ControllerConfig, st: ControllerState, now: i64)
    requires Tame(st)
    ensures Recompose(world, config, st, now).state.reconstructed == st.reconstructed
  {
    RecomposeEffect(world, config, st, now);
    hide Recompose, Tame, Readable, ComposeSite;
  }
}
