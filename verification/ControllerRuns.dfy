/** What holds over every run of the controller, what recovery starts from, and the
    controller object itself. */
module ControllerRuns {
  import opened Model
  import opened Attribution
  import opened Admission
  import opened Decisions
  import opened Compose
  import opened Chain
  import opened Authority
  import opened Controller
  import Compaction
  import Fencing

  // ----- Silence over runs --------------------------------------------------

  /** Nothing in the run lets the domain count again. */
  ghost predicate NeverReadmitted(world: World, config: ControllerConfig, st: ControllerState,
      events: seq<ControllerEvent>, d: MemberDomainKey)
    requires Tame(st) && forall i | 0 <= i < |events| :: TameEvent(world, events[i])
  {
    forall n | 0 <= n < |events| :: !Readmits(world, config, RunFrom(world, config, st, events[..n]), events[n], d)
  }

  lemma {:induction false} RunKeepsSilence(world: World, config: ControllerConfig, st: ControllerState,
      events: seq<ControllerEvent>, d: MemberDomainKey)
    requires Tame(st) && (forall i | 0 <= i < |events| :: TameEvent(world, events[i]))
    requires Silenced(st, d) && NeverReadmitted(world, config, st, events, d)
    ensures Silenced(RunFrom(world, config, st, events), d)
  {
    hide Silenced, Tame, TameEvent, Readmits, After;
    if events != [] {
      var front := events[..|events| - 1];
      forall n | 0 <= n < |front| ensures !Readmits(world, config, RunFrom(world, config, st, front[..n]), front[n], d) {
        assert front[..n] == events[..n];
      }
      RunKeepsSilence(world, config, st, front, d);
      StepKeepsSilence(world, config, RunFrom(world, config, st, front), events[|events| - 1], d);
    }
  }

  lemma SessionEndSilences(world: World, config: ControllerConfig, st: ControllerState, d: MemberDomainKey,
      incarnation: Incarnation, now: i64)
    requires Tame(st)
    ensures Silenced(AfterSessionEnd(world, config, st, d, incarnation, now).state, d)
    ensures Tame(AfterSessionEnd(world, config, st, d, incarnation, now).state)
  {
    hide Tame, AfterSessionEnd, Added, Fencing.Retire;
    SessionEndEffect(world, config, st, d, incarnation, now);
    SamePublicationsTame(st, AfterSessionEnd(world, config, st, d, incarnation, now).state);
  }

  /** From the end of a session until the domain's next admitted hello or accepted
      publication, no composition at any instant reports it CURRENT. */
  lemma NotCurrentUntilItReports(world: World, config: ControllerConfig, st: ControllerState, d: MemberDomainKey,
      incarnation: Incarnation, ended: i64, events: seq<ControllerEvent>, now: i64)
    requires Tame(st) && (forall i | 0 <= i < |events| :: TameEvent(world, events[i]))
    requires var silent := AfterSessionEnd(world, config, st, d, incarnation, ended).state;
             Tame(silent) && NeverReadmitted(world, config, silent, events, d)
    ensures var silent := AfterSessionEnd(world, config, st, d, incarnation, ended).state;
            var r := Recompose(world, config, RunFrom(world, config, silent, events), now);
            r.composed.Some? && d in r.composed.value.members ==> r.composed.value.members[d].lifecycle != CurrentMember
  {
    hide *;
    var silent := AfterSessionEnd(world, config, st, d, incarnation, ended).state;
    SessionEndSilences(world, config, st, d, incarnation, ended);
    RunKeepsSilence(world, config, silent, events, d);
    SilencedIsNotCurrent(world, config, RunFrom(world, config, silent, events), d, now);
  }

  /** The domain retired, or was revoked. */
  predicate Departed(st: ControllerState, d: MemberDomainKey) {
    d in st.revoked || exists i | 0 <= i < |st.retirements| :: st.retirements[i].domain == d
  }

  lemma {:induction false} RunKeepsDeparture(world: World, config: ControllerConfig, st: ControllerState,
      events: seq<ControllerEvent>, d: MemberDomainKey)
    requires Tame(st) && (forall i | 0 <= i < |events| :: TameEvent(world, events[i])) && Departed(st, d)
    ensures Departed(RunFrom(world, config, st, events), d)
  {
    hide Tame, TameEvent, After, Silenced;
    if events != [] {
      var before := RunFrom(world, config, st, events[..|events| - 1]);
      RunKeepsDeparture(world, config, st, events[..|events| - 1], d);
      StepKeepsSilence(world, config, before, events[|events| - 1], d);
      StillDeparted(before, RunFrom(world, config, st, events), d);
    }
  }

  lemma StillDeparted(a: ControllerState, b: ControllerState, d: MemberDomainKey)
    requires Departed(a, d) && (d in a.revoked ==> d in b.revoked) && a.retirements <= b.retirements
    ensures Departed(b, d)
  {
    if i :| 0 <= i < |a.retirements| && a.retirements[i].domain == d { assert b.retirements[i].domain == d; }
  }

  /** An accepted retirement and a revocation are departures. */
  lemma Departures(world: World, config: ControllerConfig, st: ControllerState, d: MemberDomainKey, generation: u64,
      incarnation: Incarnation, reason: Text, now: i64)
    requires Tame(st)
    ensures AfterRetire(world, config, st, d, generation, incarnation, reason, now).status == Status.Accepted ==>
      Departed(AfterRetire(world, config, st, d, generation, incarnation, reason, now).state, d)
    ensures d.Valid() ==> Departed(AfterRevoke(world, config, st, d, now).state, d)
  {
    hide AfterRetire, AfterRevoke, Tame, ValidIdentifier;
    RetireEffect(world, config, st, d, generation, incarnation, reason, now);
    RevokeEffect(world, config, st, d, now);
    var r := AfterRetire(world, config, st, d, generation, incarnation, reason, now);
    if r.status == Status.Accepted { assert r.state.retirements[|st.retirements|].domain == d; }
  }

  /** After a departure no composition of the rest of the run, at any instant and
      whatever the domain does, reports it CURRENT. */
  lemma DepartureIsForGood(world: World, config: ControllerConfig, st: ControllerState,
      events: seq<ControllerEvent>, d: MemberDomainKey, now: i64)
    requires Tame(st) && (forall i | 0 <= i < |events| :: TameEvent(world, events[i])) && Departed(st, d)
    ensures var r := Recompose(world, config, RunFrom(world, config, st, events), now);
            r.composed.Some? && d in r.composed.value.members ==> r.composed.value.members[d].lifecycle != CurrentMember
  {
    var end := RunFrom(world, config, st, events);
    hide Tame, TameEvent, RunFrom, Recompose;
    RunKeepsDeparture(world, config, st, events, d);
    assert Silenced(end, d);
    hide Silenced, Departed;
    SilencedIsNotCurrent(world, config, end, d, now);
  }

  // ----- Numbers over runs --------------------------------------------------

  /** The event registered something: its acceptance number was used. */
  predicate Counts(before: ControllerState,
      after: ControllerState) { after.acceptance == Wrap64(before.acceptance + 1) }

  lemma StepNumbers(world: World, config: ControllerConfig, st: ControllerState, ev: ControllerEvent)
    requires Tame(st) && TameEvent(world, ev)
    ensures var after := After(world, config, st, ev).state;
            (after.acceptance == st.acceptance || Counts(st, after)) && GenerationStep(st, after)
  {
    hide TameDeclaration, Recompose, AcceptedDeclaration, Fencing.Admit, Fencing.Retire, Fencing.Record,
      AfterPublish, AfterRetire, AfterRevoke,
      AfterSessionEnd, Tame, Removed, Added;
    match ev
    case Hello(e, i, site, observedEpoch, now) =>
    case PublishDeclaration(publisher, i, declaration, attempt, now) =>
      PublishEffect(world, config, st, publisher, i, declaration, attempt, now);
    case RetireMember(e, generation, i, reason, now) => RetireEffect(world, config, st, e, generation, i, reason, now);
    case RevokeMember(e, now) => RevokeEffect(world, config, st, e, now);
    case SessionEnd(e, i, now) => SessionEndEffect(world, config, st, e, i, now);
    case RecomposeNow(now) => RecomposeEffect(world, config, st, now);
  }

  /** The acceptance numbers given out in a run, in order. */
  function Acceptances(world: World, config: ControllerConfig, st: ControllerState,
      events: seq<ControllerEvent>): seq<u64>
    requires Tame(st) && forall i | 0 <= i < |events| :: TameEvent(world, events[i])
  {
    if events == [] then []
    else
      var front := events[..|events| - 1];
      var a, b := RunFrom(world, config, st, front).acceptance, RunFrom(world, config, st, events).acceptance;
      Acceptances(world, config, st, front) + (if a != b then [b] else [])
  }

  /** The generations published in a run, in order. */
  function Generations(world: World, config: ControllerConfig, st: ControllerState,
      events: seq<ControllerEvent>): seq<u64>
    requires Tame(st) && forall i | 0 <= i < |events| :: TameEvent(world, events[i])
  {
    if events == [] then []
    else
      var front := events[..|events| - 1];
      var a, b := RunFrom(world, config, st, front).siteGeneration, RunFrom(world, config, st, events).siteGeneration;
      Generations(world, config, st, front) + (if a != b then [b] else [])
  }

  predicate Increasing(s: seq<u64>, low: u64, high: u64) {
    && low <= high
    && (forall i | 0 <= i < |s| :: low < s[i] <= high)
    && (forall i, j | 0 <= i < j < |s| :: s[i] < s[j])
  }

  lemma OneMore(s: seq<u64>, low: u64, high: u64, next: u64)
    requires Increasing(s, low, high) && (next == high || next == high + 1)
    ensures Increasing(s + (if high != next then [next] else []), low, next)
  {
  }

  /** Acceptance numbers and published generations strictly increase over any run
      that does not exhaust them. */
  lemma {:induction false} NumbersIncrease(world: World, config: ControllerConfig, st: ControllerState,
      events: seq<ControllerEvent>)
    requires Tame(st) && forall i | 0 <= i < |events| :: TameEvent(world, events[i])
    requires st.acceptance + |events| <= MAX_U64 && st.siteGeneration + |events| <= MAX_U64
    ensures var end := RunFrom(world, config, st, events);
            && Increasing(Acceptances(world, config, st, events), st.acceptance, end.acceptance)
            && Increasing(Generations(world, config, st, events), st.siteGeneration, end.siteGeneration)
            && end.acceptance <= st.acceptance + |events| && end.siteGeneration <= st.siteGeneration + |events|
  {
    hide Tame, TameEvent, After, Increasing;
    if events == [] {
      NoNumbers(st.acceptance);
      NoNumbers(st.siteGeneration);
    } else {
      var front := events[..|events| - 1];
      NumbersIncrease(world, config, st, front);
      var before, end := RunFrom(world, config, st, front), RunFrom(world, config, st, events);
      StepNumbers(world, config, before, events[|events| - 1]);
      OneMore(Acceptances(world, config, st, front), st.acceptance, before.acceptance, end.acceptance);
      OneMore(Generations(world, config, st, front), st.siteGeneration, before.siteGeneration, end.siteGeneration);
    }
  }

  lemma NoNumbers(n: u64)
    ensures Increasing([], n, n)
  {
  }

  /** A snapshot goes on the chain under a lease that speaks for it: the same epoch,
      incarnation and generation, which is what the order of the chain rests on; and
      its generation is the one the site takes on. */
  lemma PublishedUnderItsLease(world: World, config: ControllerConfig, st: ControllerState, now: i64)
    requires Tame(st) && Recompose(world, config, st, now).status == Status.Published
    ensures var r := Recompose(world, config, st, now);
            var generation := Saturating(st.siteGeneration);
            var grant := Acquire(st.sites, LeaseRequest(config, st, generation, now));
            && r.composed.Some? && grant.token.Some?
            && ChainEvent.Publish(SnapshotOf(world, r.composed.value, now), grant.token.value, now).Matches()
            && r.state.siteGeneration == generation
            && r.state.history != [] && r.state.history[|r.state.history| - 1].generation == generation
  {
    hide ComposeSite, PublicationList, Tame, Readable, VerdictOn, AllSources;
    TameInput(world.env, config, st, now);
    var input := InputOf(config, st, now);
    RefusalIsNotPublished(world.env, input);
    var site := ComposeSite(world.env, input).value;
    HeaderOfComposition(world.env, input);
    AcquireIsNotPublished(st.sites, LeaseRequest(config, st, Saturating(st.siteGeneration), now));
    GrantSpeaksForTheRequest(st.sites, LeaseRequest(config, st, Saturating(st.siteGeneration), now));
  }

  lemma HeaderOfComposition(env: Env, input: CompositionInput)
    requires Readable(env, input) && ComposeSite(env, input).Success?
    ensures var site := ComposeSite(env, input).value;
            && site.site == input.site && site.epoch == input.epoch && site.generation == input.generation
            && site.incarnation == input.incarnation && site.composedAt == input.now
  {
    hide *;
    var e := PreparedFor(env, input);
    SiteVerdict(env, input, e, AdmissionsFor(env, input, e));
  }

  lemma GrantSpeaksForTheRequest(s: Sites, q: Request)
    ensures var g := Acquire(s, q);
            g.token.Some? ==>
              (g.token.value.epoch == q.epoch && g.token.value.incarnation == q.incarnation && g.token.value.generation == q.generation)
  {
    hide ValidIdentifier;
  }

  // ----- Recovery at start --------------------------------------------------

  /** The newest recovered publication of each domain, the earlier on a tie. */
  function RecoveredPublications(publications: seq<PublicationRecord>): map<MemberDomainKey, PublicationRecord> {
    if publications == [] then map[]
    else
      var before, r := RecoveredPublications(publications[..|publications| - 1]), publications[|publications| - 1];
      if r.domain !in before || before[r.domain].generation < r.generation then before[r.domain := r] else before
  }

  function RecoveredDomains(publications: seq<PublicationRecord>): (r: seq<MemberDomainKey>)
    ensures forall d :: d in r <==> exists p :: p in publications && p.domain == d
  {
    if publications == [] then []
    else
      assert publications == publications[..|publications| - 1] + [publications[|publications| - 1]];
      RecoveredDomains(publications[..|publications| - 1]) + [publications[|publications| - 1].domain]
  }

  function HighestAcceptance(publications: seq<PublicationRecord>): u64 {
    if publications == [] then 0
    else
      var before, a := HighestAcceptance(publications[..|publications| - 1]), publications[|publications| - 1].acceptance;
      if a > before then a else before
  }

  function HighestEpoch(leases: seq<AuthorityToken>, epoch: u64): u64 {
    if leases == [] then epoch
    else
      var before, t := HighestEpoch(leases[..|leases| - 1], epoch), leases[|leases| - 1];
      if t.kind == SiteControllerKind && t.epoch > before then t.epoch else before
  }

  /** A restarted controller takes the epoch after the highest it finds. */
  function NextEpoch(epoch: u64): u64 { if epoch == 0 then 1 else Saturating(epoch) }

  /** A controller that has not started. */
  function Created(incarnation: Incarnation): ControllerState {
    ControllerState(0, incarnation, 0, NO_SITES, Fencing.NOBODY, map[], [], [], [], 0, [])
  }

  function RestoredState(contents: Compaction.Contents, latest: Option<Snapshot>,
      incarnation: Incarnation): ControllerState {
    var epoch := if latest.Some? then latest.value.epoch else 0;
    ControllerState(
      NextEpoch(HighestEpoch(contents.leases, epoch)), incarnation,
      if latest.Some? then latest.value.generation else 0,
      NO_SITES, Fencing.NOBODY, RecoveredPublications(contents.publications), contents.retirements, [],
      RecoveredDomains(contents.publications), HighestAcceptance(contents.publications),
      if latest.Some? then [latest.value] else [])
  }

  /** A start from what the store holds; refused when the latest snapshot does not
      restore or the lease is not granted. */
  function Started(world: World, config: ControllerConfig, contents: Compaction.Contents, latest: Option<Snapshot>,
      incarnation: Incarnation, now: i64): Outcome<ControllerState>
    requires forall p | p in contents.publications :: TameRecord(p)
  {
    if latest.Some? && RestoreVerdict(world.chain, [], latest.value) != Status.Ok then
      Failure(RestoreVerdict(world.chain, [], latest.value))
    else
      var st := RestoredState(contents, latest, incarnation);
      var generation := if st.siteGeneration == 0 then 1 else st.siteGeneration;
      var grant := Acquire(st.sites, LeaseRequest(config, st, generation, now));
      if !grant.status.IsOk() then Failure(grant.status)
      else
        RestoredIsTame(contents, latest, incarnation, grant.sites);
        Success(Recompose(world, config, st.(sites := grant.sites), now).state)
  }

  lemma {:induction false} RecoveredAt(publications: seq<PublicationRecord>, d: MemberDomainKey)
    ensures d in RecoveredPublications(publications) <==> exists p :: p in publications && p.domain == d
    ensures d in RecoveredPublications(publications) ==>
      (var r := RecoveredPublications(publications)[d];
       r in publications && r.domain == d && forall p | p in publications && p.domain == d :: p.generation <= r.generation)
  {
    if publications != [] {
      var front, last := publications[..|publications| - 1], publications[|publications| - 1];
      assert publications == front + [last];
      RecoveredAt(front, d);
    }
  }

  lemma RecoveredIsTame(publications: seq<PublicationRecord>)
    requires forall p | p in publications :: TameRecord(p)
    ensures var r := RecoveredPublications(publications); forall d | d in r :: TameRecord(r[d])
  {
    hide RecoveredPublications, TameRecord;
    var r := RecoveredPublications(publications);
    forall d | d in r ensures TameRecord(r[d]) { RecoveredAt(publications, d); }
  }

  lemma RestoredIsTame(contents: Compaction.Contents, latest: Option<Snapshot>, incarnation: Incarnation, sites: Sites)
    requires forall p | p in contents.publications :: TameRecord(p)
    ensures Tame(RestoredState(contents, latest, incarnation).(sites := sites))
  {
    hide TameRecord, RestoredState;
    RestoredPublications(contents, latest, incarnation);
    RecoveredIsTame(contents.publications);
    var st := RestoredState(contents, latest, incarnation).(sites := sites);
    forall d | d in st.publications ensures TameRecord(st.publications[d]) {}
  }

  lemma StartEffect(world: World, config: ControllerConfig, contents: Compaction.Contents, latest: Option<Snapshot>,
      incarnation: Incarnation, now: i64)
    requires (forall p | p in contents.publications :: TameRecord(p)) && Started(world, config, contents, latest, incarnation, now).Success?
    ensures var st := Started(world, config, contents, latest, incarnation, now).value;
            Tame(st) && SameRegistry(st, RestoredState(contents, latest, incarnation))
  {
    hide Recompose, RestoredState, Acquire, TameRecord;
    var st := RestoredState(contents, latest, incarnation);
    var generation := if st.siteGeneration == 0 then 1 else st.siteGeneration;
    var leased := st.(sites := Acquire(st.sites, LeaseRequest(config, st, generation, now)).sites);
    RestoredIsTame(contents, latest, incarnation, leased.sites);
    RecomposeEffect(world, config, leased, now);
    SamePublicationsTame(leased, Recompose(world, config, leased, now).state);
  }

  lemma RestoredPublications(contents: Compaction.Contents, latest: Option<Snapshot>, incarnation: Incarnation)
    ensures var st := RestoredState(contents, latest, incarnation);
            st.publications == RecoveredPublications(contents.publications) && st.reconstructed == RecoveredDomains(contents.publications)
  {
  }

  /** Every recovered publication is silenced, so nothing recovered is CURRENT until
      its domain reports; and the controller's epoch is above the one it found. */
  lemma RecoveredIsNotCurrent(world: World, config: ControllerConfig, contents: Compaction.Contents,
      latest: Option<Snapshot>,
      incarnation: Incarnation, started: i64, events: seq<ControllerEvent>, d: MemberDomainKey, now: i64)
    requires (forall p | p in contents.publications :: TameRecord(p)) && Started(world, config, contents, latest, incarnation, started).Success?
    requires forall i | 0 <= i < |events| :: TameEvent(world, events[i])
    requires exists p :: p in contents.publications && p.domain == d
    requires var st := Started(world, config, contents, latest, incarnation, started).value;
             Tame(st) && NeverReadmitted(world, config, st, events, d)
    ensures var st := Started(world, config, contents, latest, incarnation, started).value;
            var r := Recompose(world, config, RunFrom(world, config, st, events), now);
            r.composed.Some? && d in r.composed.value.members ==> r.composed.value.members[d].lifecycle != CurrentMember
  {
    hide *;
    var st := Started(world, config, contents, latest, incarnation, started).value;
    RecoveredIsSilenced(world, config, contents, latest, incarnation, started, d);
    RunKeepsSilence(world, config, st, events, d);
    SilencedIsNotCurrent(world, config, RunFrom(world, config, st, events), d, now);
  }

  lemma RecoveredIsSilenced(world: World, config: ControllerConfig, contents: Compaction.Contents,
      latest: Option<Snapshot>,
      incarnation: Incarnation, started: i64, d: MemberDomainKey)
    requires (forall p | p in contents.publications :: TameRecord(p)) && Started(world, config, contents, latest, incarnation, started).Success?
    requires exists p :: p in contents.publications && p.domain == d
    ensures Silenced(Started(world, config, contents, latest, incarnation, started).value, d)
  {
    hide Started, RestoredState, Tame, TameRecord;
    StartEffect(world, config, contents, latest, incarnation, started);
    RestoredPublications(contents, latest, incarnation);
  }

  /** A restart fences its predecessor: the new epoch is above the recovered one and
      above that of every recovered controller lease, as long as epochs last. */
  lemma {:induction false} HighestEpochBounds(leases: seq<AuthorityToken>, epoch: u64)
    ensures epoch <= HighestEpoch(leases, epoch)
    ensures forall t | t in leases && t.kind == SiteControllerKind :: t.epoch <= HighestEpoch(leases, epoch)
  {
    if leases != [] {
      assert leases == leases[..|leases| - 1] + [leases[|leases| - 1]];
      HighestEpochBounds(leases[..|leases| - 1], epoch);
    }
  }

  lemma RestartFencesItsPredecessor(world: World, config: ControllerConfig, contents: Compaction.Contents,
      latest: Option<Snapshot>,
      incarnation: Incarnation, now: i64)
    requires (forall p | p in contents.publications :: TameRecord(p)) && Started(world, config, contents, latest, incarnation, now).Success?
    requires HighestEpoch(contents.leases, if latest.Some? then latest.value.epoch else 0) < MAX_U64
    ensures var st := Started(world, config, contents, latest, incarnation, now).value;
            && (latest.Some? ==> latest.value.epoch < st.epoch)
            && (forall t | t in contents.leases && t.kind == SiteControllerKind :: t.epoch < st.epoch)
  {
    hide Started, TameRecord, RecoveredPublications, RecoveredDomains, HighestAcceptance, HighestEpoch;
    StartEffect(world, config, contents, latest, incarnation, now);
    HighestEpochBounds(contents.leases, if latest.Some? then latest.value.epoch else 0);
  }
}
