/** Member incarnations and publication fencing: which process lifetime speaks
    for a domain, and which of its publications may be accepted. */
module Fencing {
  import opened Model

  // ----- The printed incarnation -------------------------------------------

  function Decimal(n: nat): (text: Text)
    ensures |text| > 0
    ensures forall i | 0 <= i < |text| :: 48 <= text[i] <= 57
  {
    if n < 10 then [48 + n] else Decimal(n / 10) + [48 + n % 10]
  }

  const SLASH: u8 := 47

  function Printed(i: Incarnation): Text { Decimal(i.sequence) + [SLASH] + i.boot }

  lemma {:induction false} DecimalIsInjective(m: nat, n: nat)
    requires Decimal(m) == Decimal(n)
    ensures m == n
  {
    var a, b := Decimal(m), Decimal(n);
    if m < 10 && n < 10 {
      assert a[0] == b[0];
    } else if m >= 10 && n >= 10 {
      assert a[|a| - 1] == b[|b| - 1];
      assert a[..|a| - 1] == Decimal(m / 10) && b[..|b| - 1] == Decimal(n / 10);
      DecimalIsInjective(m / 10, n / 10);
    }
  }

  /** Two incarnations that print alike are the same incarnation. */
  lemma PrintedIsInjective(i: Incarnation, j: Incarnation)
    requires Printed(i) == Printed(j)
    ensures i == j
  {
    var a, b := Decimal(i.sequence), Decimal(j.sequence);
    SlashNotBefore(a, i.boot, b, j.boot);
    SlashNotBefore(b, j.boot, a, i.boot);
    var p := Printed(i);
    assert a == p[..|a|] == b;
    DecimalIsInjective(i.sequence, j.sequence);
    assert i.boot == p[|a| + 1..] == j.boot;
  }

  lemma SlashNotBefore(a: Text, x: Text, b: Text, y: Text)
    requires a + [SLASH] + x == b + [SLASH] + y
    requires forall i | 0 <= i < |a| :: a[i] != SLASH
    ensures |a| <= |b|
  {
    assert (a + [SLASH] + x)[|b|] == SLASH;
  }

  // ----- State --------------------------------------------------------------

  datatype DomainState = DomainState(
    live: Incarnation, hasLive: bool, nextSequence: u64, observedEpoch: u64,
    generation: u64, digest: Digest, attempt: PublishAttempt, published: bool)

  const NEW_DOMAIN := DomainState(Incarnation(0, []), false, 1, 0, 0, ZERO_DIGEST, PublishAttempt(0, 0), false)

  datatype Members = Members(domains: map<MemberDomainKey, DomainState>, tombstones: map<MemberDomainKey, set<Text>>) {
    function At(d: MemberDomainKey): DomainState { if d in domains then domains[d] else NEW_DOMAIN }

    /** The incarnation has been recorded dead. */
    predicate Dead(d: MemberDomainKey, i: Incarnation) { d in tombstones && Printed(i) in tombstones[d] }

    predicate Live(d: MemberDomainKey, i: Incarnation) {
      !Dead(d, i) && d in domains && domains[d].hasLive && domains[d].live == i
    }

    function Bury(d: MemberDomainKey, i: Incarnation): Members {
      Members(domains, tombstones[d := (if d in tombstones then tombstones[d] else {}) + {Printed(i)}])
    }

    function With(d: MemberDomainKey, s: DomainState): Members { Members(domains[d := s], tombstones) }
  }

  const NOBODY := Members(map[], map[])

  // ----- Transitions --------------------------------------------------------

  /** The state of a domain a new incarnation has just taken over. */
  function TakenOver(s: DomainState, candidate: Incarnation): DomainState {
    s.(live := candidate, hasLive := true, nextSequence := Wrap64(candidate.sequence + 1),
       published := false, generation := 0, digest := ZERO_DIGEST, attempt := PublishAttempt(0, 0))
  }

  /** A caller without a sequence is issued the domain's next one. */
  function Candidate(s: DomainState, i: Incarnation): Incarnation {
    if i.sequence == 0 then i.(sequence := s.nextSequence) else i
  }

  datatype Admission = Admission(status: Status, members: Members, issued: Option<u64>)

  function Admit(m: Members, d: MemberDomainKey, i: Incarnation, now: int): Admission {
    if !d.Valid() || !ValidIdentifier(i.boot) || now <= 0 then Admission(Status.Invalid, m, None)
    else
      var s := m.At(d);
      var touched := m.With(d, s);
      var candidate := Candidate(s, i);
      if m.Dead(d, candidate) then Admission(Status.FencedIncarnation, touched, None)
      else if !s.hasLive then
        if candidate.sequence < s.nextSequence then Admission(Status.FencedIncarnation, touched, None)
        else Admission(Status.Ok, m.With(d, TakenOver(s, candidate)), Some(candidate.sequence))
      else if s.live == candidate then Admission(Status.AlreadyExists, touched, Some(candidate.sequence))
      else if candidate.sequence <= s.live.sequence then Admission(Status.FencedIncarnation, touched, None)
      else
        Admission(Status.Ok, m.Bury(d, s.live).With(d, TakenOver(s, candidate)),
                  Some(candidate.sequence))
  }

  function Retire(m: Members, d: MemberDomainKey, i: Incarnation): (Status, Members) {
    if !d.Valid() || !i.Valid() then (Status.Invalid, m)
    else
      var buried := m.Bury(d, i);
      if d in m.domains && m.domains[d].hasLive && m.domains[d].live == i
      then (Status.Ok, buried.With(d, m.domains[d].(hasLive := false)))
      else (Status.Ok, buried)
  }

  datatype Offer = Offer(domain: MemberDomainKey, epoch: u64, incarnation: Incarnation, generation: u64,
                         digest: Digest, attempt: PublishAttempt)

  function Fence(m: Members, o: Offer): Status {
    if !o.domain.Valid() || o.generation == 0 || o.digest == ZERO_DIGEST || !o.attempt.Valid() then Status.Invalid
    else if m.Dead(o.domain, o.incarnation) then Status.FencedIncarnation
    else if o.domain !in m.domains || !m.domains[o.domain].hasLive then Status.Unauthorized
    else
      var s := m.domains[o.domain];
      if s.live != o.incarnation then Status.FencedIncarnation
      else if s.observedEpoch != 0 && o.epoch < s.observedEpoch then Status.FencedEpoch
      else if s.published && o.generation < s.generation then Status.FencedGeneration
      else if s.published && o.generation == s.generation && o.digest != s.digest then Status.FencedGeneration
      else if s.published && o.generation == s.generation && o.attempt.sequence < s.attempt.sequence
      then Status.Replayed
      else if s.published && o.generation == s.generation && o.attempt.sequence == s.attempt.sequence
           && o.attempt.attempt <= s.attempt.attempt
      then Status.FencedAttempt
      else if s.published && o.attempt.sequence != 0 && o.attempt.sequence < s.attempt.sequence
      then Status.Replayed
      else Status.Ok
  }

  function Record(m: Members, o: Offer): (Status, Members) {
    if !o.domain.Valid() || o.generation == 0 || o.digest == ZERO_DIGEST then (Status.Invalid, m)
    else
      (Status.Ok, m.With(o.domain, m.At(o.domain).(
        observedEpoch := o.epoch, generation := o.generation, digest := o.digest,
        attempt := o.attempt, published := true)))
  }

  // ----- Runs ---------------------------------------------------------------

  datatype Event =
    | AdmitEvent(domain: MemberDomainKey, incarnation: Incarnation, now: int)
    | RetireEvent(domain: MemberDomainKey, incarnation: Incarnation)
    | PublishEvent(offer: Offer)

  datatype Holder = Holder(domain: MemberDomainKey, incarnation: Incarnation)

  /** A registry together with everything it has let through. */
  datatype Run = Run(members: Members, admitted: seq<Holder>, accepted: seq<Offer>)

  const START := Run(NOBODY, [], [])

  function Step(r: Run, e: Event): Run {
    match e
    case AdmitEvent(d, i, now) =>
      var a := Admit(r.members, d, i, now);
      Run(a.members,
          if a.status.Ok? then r.admitted + [Holder(d, Candidate(r.members.At(d), i))] else r.admitted,
          r.accepted)
    case RetireEvent(d, i) => Run(Retire(r.members, d, i).1, r.admitted, r.accepted)
    case PublishEvent(o) =>
      if Fence(r.members, o).IsOk()
      then Run(Record(r.members, o).1, r.admitted, r.accepted + [o])
      else r
  }

  function After(r: Run, events: seq<Event>): Run {
    if events == [] then r else Step(After(r, events[..|events| - 1]), events[|events| - 1])
  }

  // ----- One domain of a run ------------------------------------------------

  function DomainOf(e: Event): MemberDomainKey {
    match e case AdmitEvent(d, _, _) => d case RetireEvent(d, _) => d case PublishEvent(o) => o.domain
  }

  /** The incarnations a domain was admitted under, in order. */
  function AdmittedOf(admitted: seq<Holder>, d: MemberDomainKey): seq<Incarnation> {
    if admitted == [] then []
    else
      var before, h := AdmittedOf(admitted[..|admitted| - 1], d), admitted[|admitted| - 1];
      if h.domain == d then before + [h.incarnation] else before
  }

  /** The accepted publications of a domain, in order. */
  function AcceptedOf(accepted: seq<Offer>, d: MemberDomainKey): seq<Offer> {
    if accepted == [] then []
    else
      var before, o := AcceptedOf(accepted[..|accepted| - 1], d), accepted[|accepted| - 1];
      if o.domain == d then before + [o] else before
  }

  /** Everything a run has to say about one domain. */
  datatype View = View(state: DomainState, dead: set<Text>, admitted: seq<Incarnation>, accepted: seq<Offer>)

  function ViewOf(r: Run, d: MemberDomainKey): View {
    View(r.members.At(d), if d in r.members.tombstones then r.members.tombstones[d] else {},
         AdmittedOf(r.admitted, d), AcceptedOf(r.accepted, d))
  }

  /** What happens to one domain leaves the others alone. */
  lemma OthersUnchanged(r: Run, e: Event, d: MemberDomainKey)
    requires DomainOf(e) != d
    ensures ViewOf(Step(r, e), d) == ViewOf(r, d)
  {
    hide Printed, ValidIdentifier, Candidate, TakenOver;
    var t := Step(r, e);
    match e
    case AdmitEvent(x, i, now) =>
      assert Admit(r.members, x, i, now).members.At(d) == r.members.At(d);
      hide Admit;
    case RetireEvent(x, i) =>
    case PublishEvent(o) => hide Fence;
  }

  /** An admission: the view stays, or the candidate takes over, above the live
      incarnation or, when there is none, at or above the counter. */
  lemma AdmitChanges(r: Run, d: MemberDomainKey, i: Incarnation, now: int)
    ensures var v, t := ViewOf(r, d), ViewOf(Step(r, AdmitEvent(d, i, now)), d);
            var c := Candidate(v.state, i);
            if Admit(r.members, d, i, now).status.Ok? then
              && Printed(c) !in v.dead
              && (if v.state.hasLive then v.state.live.sequence < c.sequence else v.state.nextSequence <= c.sequence)
              && t == View(TakenOver(v.state, c), v.dead + (if v.state.hasLive then {Printed(v.state.live)} else {}),
                           v.admitted + [c], v.accepted)
            else t == v
  {
    hide Printed, ValidIdentifier;
  }

  lemma RetireChanges(r: Run, d: MemberDomainKey, i: Incarnation)
    ensures var v, t := ViewOf(r, d), ViewOf(Step(r, RetireEvent(d, i)), d);
            t == v || t == v.(dead := v.dead + {Printed(i)},
                              state := if v.state.hasLive && v.state.live == i then v.state.(hasLive := false) else v.state)
  {
    hide Printed, ValidIdentifier;
  }

  function With(s: DomainState, o: Offer): DomainState {
    s.(observedEpoch := o.epoch, generation := o.generation, digest := o.digest, attempt := o.attempt, published := true)
  }

  lemma PublishChanges(r: Run, o: Offer)
    ensures var v, t := ViewOf(r, o.domain), ViewOf(Step(r, PublishEvent(o)), o.domain);
            if Fence(r.members, o).IsOk() then
              && v.state.hasLive && v.state.live == o.incarnation && v.state.observedEpoch <= o.epoch
              && (v.state.published ==> Advances(v.state, o))
              && t == v.(accepted := v.accepted + [o], state := With(v.state, o))
            else t == v
  {
    hide Printed, ValidIdentifier;
  }

  // ----- Within one incarnation ---------------------------------------------

  predicate AttemptBelow(a: PublishAttempt, b: PublishAttempt) {
    a.sequence < b.sequence || (a.sequence == b.sequence && a.attempt < b.attempt)
  }

  /** The offer goes beyond what is recorded, in generation or with another attempt
      at the same content. */
  predicate Advances(s: DomainState, o: Offer) {
    s.generation < o.generation || (s.generation == o.generation && s.digest == o.digest && AttemptBelow(s.attempt, o.attempt))
  }

  /** `b` goes beyond `a` in (generation, attempt), and a generation has one content. */
  predicate Beyond(a: Offer, b: Offer) {
    a.generation < b.generation || (a.generation == b.generation && a.digest == b.digest && AttemptBelow(a.attempt, b.attempt))
  }

  /** The recorded publication is this one or one beyond it. */
  predicate Recorded(s: DomainState, o: Offer) {
    && s.published
    && (|| (s.generation == o.generation && s.digest == o.digest && s.attempt == o.attempt)
        || o.generation < s.generation
        || (o.generation == s.generation && o.digest == s.digest && AttemptBelow(o.attempt, s.attempt)))
  }

  /** Epochs never decrease, and within one incarnation publications strictly
      increase in (generation, attempt) and a generation has one content. */
  ghost predicate InOrder(accepted: seq<Offer>) {
    forall i, j | 0 <= i < j < |accepted| ::
      && accepted[i].epoch <= accepted[j].epoch
      && (accepted[i].incarnation == accepted[j].incarnation ==> Beyond(accepted[i], accepted[j]))
  }

  ghost predicate AdmittedOnce(admitted: seq<Incarnation>) {
    forall i, j | 0 <= i < j < |admitted| :: admitted[i] != admitted[j]
  }

  /** The incarnation is dead, or it is the one that lives. */
  predicate Placed(v: View, i: Incarnation) { Printed(i) in v.dead || (v.state.hasLive && v.state.live == i) }

  /** What holds of every domain of every run: the live incarnation is not dead,
      everybody else ever admitted is, and what was accepted is in order. */
  ghost predicate Settled(v: View) {
    && (v.state.hasLive ==> Printed(v.state.live) !in v.dead && v.state.live in v.admitted)
    && (forall i | i in v.admitted :: Placed(v, i))
    && (forall o | o in v.accepted ::
          o.incarnation in v.admitted && o.epoch <= v.state.observedEpoch
          && (v.state.hasLive && v.state.live == o.incarnation ==> Recorded(v.state, o)))
    && InOrder(v.accepted) && AdmittedOnce(v.admitted)
  }

  lemma TakeOverSettles(v: View, c: Incarnation, t: View)
    requires Settled(v) && Printed(c) !in v.dead
    requires if v.state.hasLive then v.state.live.sequence < c.sequence else v.state.nextSequence <= c.sequence
    requires t == View(TakenOver(v.state, c), v.dead + (if v.state.hasLive then {Printed(v.state.live)} else {}),
                       v.admitted + [c], v.accepted)
    ensures Settled(t)
  {
    assert c in v.admitted ==> Placed(v, c);
    if v.state.hasLive && Printed(v.state.live) == Printed(c) { PrintedIsInjective(v.state.live, c); }
    hide Printed, Recorded, InOrder;
  }

  lemma RetireSettles(v: View, i: Incarnation, t: View)
    requires Settled(v)
    requires t == v.(dead := v.dead + {Printed(i)},
                     state := if v.state.hasLive && v.state.live == i then v.state.(hasLive := false) else v.state)
    ensures Settled(t)
  {
    if v.state.hasLive && Printed(v.state.live) == Printed(i) { PrintedIsInjective(v.state.live, i); }
    hide Printed, InOrder;
  }

  lemma PublishSettles(v: View, o: Offer, t: View)
    requires Settled(v) && v.state.hasLive && v.state.live == o.incarnation && v.state.observedEpoch <= o.epoch
    requires v.state.published ==> Advances(v.state, o)
    requires t == v.(accepted := v.accepted + [o], state := With(v.state, o))
    ensures Settled(t)
  {
    hide Printed;
    forall a | a in v.accepted
      ensures a.epoch <= o.epoch && (a.incarnation == o.incarnation ==> Beyond(a, o) && Recorded(t.state, a))
    {
    }
    hide Beyond, Recorded, Advances;
  }

  lemma StepSettles(r: Run, e: Event, d: MemberDomainKey)
    requires Settled(ViewOf(r, d))
    ensures Settled(ViewOf(Step(r, e), d))
  {
    hide *;
    var v, t := ViewOf(r, d), ViewOf(Step(r, e), d);
    if DomainOf(e) != d {
      OthersUnchanged(r, e, d);
    } else {
      ItsDomain(e);
      match e
      case AdmitEvent(_, i, now) =>
        AdmitChanges(r, d, i, now);
        if t != v { TakeOverSettles(v, Candidate(v.state, i), t); }
      case RetireEvent(_, i) =>
        RetireChanges(r, d, i);
        if t != v { RetireSettles(v, i, t); }
      case PublishEvent(o) =>
        PublishChanges(r, o);
        if t != v { PublishSettles(v, o, t); }
    }
  }

  lemma ItsDomain(e: Event)
    ensures e.AdmitEvent? || e.RetireEvent? ==> e.domain == DomainOf(e)
    ensures e.PublishEvent? ==> e.offer.domain == DomainOf(e)
  {
  }

  lemma {:induction false} RunSettles(events: seq<Event>, d: MemberDomainKey)
    ensures Settled(ViewOf(After(START, events), d))
  {
    hide Settled, Step;
    if events == [] {
      NothingHappened(d);
    } else {
      RunSettles(events[..|events| - 1], d);
      StepSettles(After(START, events[..|events| - 1]), events[|events| - 1], d);
    }
  }

  lemma NothingHappened(d: MemberDomainKey)
    ensures ViewOf(START, d) == View(NEW_DOMAIN, {}, [], []) && Settled(ViewOf(START, d))
  {
  }

  /** Over every run, whatever sequences were used up: the observed epochs of the
      accepted publications of a domain never decrease, the publications of one
      incarnation strictly increase in (generation, attempt), a generation of an
      incarnation has one content, and no incarnation is admitted twice. */
  lemma PublicationsNeverFallBack(events: seq<Event>, d: MemberDomainKey)
    ensures InOrder(AcceptedOf(After(START, events).accepted, d))
    ensures AdmittedOnce(AdmittedOf(After(START, events).admitted, d))
  {
    hide After, InOrder, AdmittedOnce;
    RunSettles(events, d);
  }

  // ----- Across incarnations ------------------------------------------------

  /** 2^64 - 1 is at most the last sequence the domain was admitted under. */
  ghost predicate SequencesLeft(admitted: seq<Incarnation>) {
    forall i | 0 <= i < |admitted| - 1 :: admitted[i].sequence < MAX_U64
  }

  ghost predicate SequencesIncrease(admitted: seq<Incarnation>) {
    forall i, j | 0 <= i < j < |admitted| :: admitted[i].sequence < admitted[j].sequence
  }

  /** `a` comes strictly before `b` in (incarnation sequence, generation,
      attempt sequence, attempt number). */
  predicate Before(a: Offer, b: Offer) {
    || a.incarnation.sequence < b.incarnation.sequence
    || (a.incarnation.sequence == b.incarnation.sequence
        && (a.generation < b.generation || (a.generation == b.generation && AttemptBelow(a.attempt, b.attempt))))
  }

  ghost predicate PublicationsOrdered(accepted: seq<Offer>) {
    forall i, j | 0 <= i < j < |accepted| :: Before(accepted[i], accepted[j])
  }

  /** While sequences are left: everybody admitted stands at or below the live
      sequence, the counter above it unless it is the last one there is. */
  ghost predicate Rising(v: View) {
    && SequencesIncrease(v.admitted) && PublicationsOrdered(v.accepted)
    && (forall i | i in v.admitted :: i.sequence <= v.state.live.sequence)
    && (|| v.state.live.sequence < v.state.nextSequence
        || (v.state.live.sequence == MAX_U64 && v.state.live in v.admitted))
  }

  lemma TakeOverRises(v: View, c: Incarnation, t: View)
    requires Settled(v) && Rising(v) && SequencesLeft(t.admitted)
    requires if v.state.hasLive then v.state.live.sequence < c.sequence else v.state.nextSequence <= c.sequence
    requires t == View(TakenOver(v.state, c), v.dead + (if v.state.hasLive then {Printed(v.state.live)} else {}),
                       v.admitted + [c], v.accepted)
    ensures Rising(t)
  {
    hide Printed, Settled, PublicationsOrdered;
    forall i | 0 <= i < |v.admitted| ensures v.admitted[i].sequence < MAX_U64 {
      assert t.admitted[i] == v.admitted[i];
    }
    assert v.state.live.sequence < c.sequence;
    assert c in t.admitted;
  }

  lemma PublishRises(v: View, o: Offer, t: View)
    requires Settled(v) && Settled(t) && Rising(v) && v.state.hasLive && v.state.live == o.incarnation
    requires t == v.(accepted := v.accepted + [o], state := With(v.state, o))
    ensures Rising(t)
  {
    hide Printed, Recorded;
    forall i | 0 <= i < |v.accepted| ensures Before(v.accepted[i], o) {
      var a := v.accepted[i];
      assert a in v.accepted;
      if a.incarnation.sequence == o.incarnation.sequence {
        SameSequenceSame(v.admitted, a.incarnation, o.incarnation);
        assert t.accepted[i] == a && t.accepted[|v.accepted|] == o;
      }
    }
    hide Before;
  }

  lemma SameSequenceSame(admitted: seq<Incarnation>, a: Incarnation, b: Incarnation)
    requires SequencesIncrease(admitted) && a in admitted && b in admitted && a.sequence == b.sequence
    ensures a == b
  {
  }

  lemma StepRises(r: Run, e: Event, d: MemberDomainKey)
    requires Settled(ViewOf(r, d)) && Rising(ViewOf(r, d)) && SequencesLeft(ViewOf(Step(r, e), d).admitted)
    ensures Rising(ViewOf(Step(r, e), d))
  {
    hide *;
    var v, t := ViewOf(r, d), ViewOf(Step(r, e), d);
    if DomainOf(e) != d {
      OthersUnchanged(r, e, d);
    } else {
      ItsDomain(e);
      StepSettles(r, e, d);
      match e
      case AdmitEvent(_, i, now) =>
        AdmitChanges(r, d, i, now);
        if t != v { TakeOverRises(v, Candidate(v.state, i), t); }
      case RetireEvent(_, i) =>
        RetireChanges(r, d, i);
        RetireRises(v, t);
      case PublishEvent(o) =>
        PublishChanges(r, o);
        if t != v { PublishRises(v, o, t); }
    }
  }

  lemma RetireRises(v: View, t: View)
    requires Rising(v) && t.admitted == v.admitted && t.accepted == v.accepted
    requires t.state.live == v.state.live && t.state.nextSequence == v.state.nextSequence
    ensures Rising(t)
  {
  }

  /** Admissions are only ever added. */
  lemma AdmittedGrows(r: Run, e: Event, d: MemberDomainKey)
    ensures ViewOf(r, d).admitted <= ViewOf(Step(r, e), d).admitted
  {
    hide *;
    if DomainOf(e) != d { OthersUnchanged(r, e, d); }
    else {
      ItsDomain(e);
      match e
      case AdmitEvent(_, i, now) => AdmitChanges(r, d, i, now);
      case RetireEvent(_, i) => RetireChanges(r, d, i);
      case PublishEvent(o) => PublishChanges(r, o);
    }
  }

  lemma LeftBefore(a: seq<Incarnation>, b: seq<Incarnation>)
    requires a <= b && SequencesLeft(b)
    ensures SequencesLeft(a)
  {
    assert forall i | 0 <= i < |a| :: a[i] == b[i];
  }

  lemma {:induction false} RunRises(events: seq<Event>, d: MemberDomainKey)
    requires SequencesLeft(AdmittedOf(After(START, events).admitted, d))
    ensures Rising(ViewOf(After(START, events), d))
  {
    hide Settled, Step, SequencesLeft;
    if events == [] {
      NothingHappened(d);
    } else {
      var before := After(START, events[..|events| - 1]);
      hide Rising;
      AdmittedGrows(before, events[|events| - 1], d);
      LeftBefore(AdmittedOf(before.admitted, d), AdmittedOf(After(START, events).admitted, d));
      RunRises(events[..|events| - 1], d);
      RunSettles(events[..|events| - 1], d);
      StepRises(before, events[|events| - 1], d);
    }
  }

  /** Over every run the sequences a domain is admitted under strictly increase, so
      that none is held by two boot nonces, exactly when no admission of the domain
      follows one under 2^64 - 1. What other domains do is irrelevant. */
  lemma AdmittedSequencesIncreaseIff(events: seq<Event>, d: MemberDomainKey)
    ensures var admitted := AdmittedOf(After(START, events).admitted, d);
            SequencesIncrease(admitted) <==> SequencesLeft(admitted)
  {
    hide After, AdmittedOf;
    var admitted := AdmittedOf(After(START, events).admitted, d);
    if SequencesLeft(admitted) { RunRises(events, d); }
    if SequencesIncrease(admitted) {
      forall i | 0 <= i < |admitted| - 1 ensures admitted[i].sequence < MAX_U64 {
        assert admitted[i].sequence < admitted[i + 1].sequence;
      }
    }
  }

  /** Over every run in which no admission of the domain follows one under
      2^64 - 1, its accepted publications strictly increase in (incarnation
      sequence, generation, attempt). */
  lemma AcceptedPublicationsAreOrdered(events: seq<Event>, d: MemberDomainKey)
    requires SequencesLeft(AdmittedOf(After(START, events).admitted, d))
    ensures PublicationsOrdered(AcceptedOf(After(START, events).accepted, d))
  {
    hide After, PublicationsOrdered;
    RunRises(events, d);
  }

  // ----- Who passes -----------------------------------------------------------

  /** An offer with all its parts in place. */
  predicate SoundOffer(o: Offer) {
    Named(o.domain) && o.generation != 0 && o.digest != ZERO_DIGEST && o.attempt.sequence != 0
  }

  /** A later generation under no lower attempt sequence, or the same content under a
      later attempt. */
  predicate Follows(generation: u64, digest: Digest, attempt: PublishAttempt, o: Offer) {
    || (generation < o.generation && attempt.sequence <= o.attempt.sequence)
    || (generation == o.generation && digest == o.digest && AttemptBelow(attempt, o.attempt))
  }

  /** The offer comes from the incarnation that lives, of no epoch before the one last
      observed, and follows what it published last. */
  predicate MayPublish(m: Members, o: Offer) {
    && SoundOffer(o) && !m.Dead(o.domain, o.incarnation)
    && o.domain in m.domains
    && var s := m.domains[o.domain];
       && s.hasLive && s.live == o.incarnation && s.observedEpoch <= o.epoch
       && (s.published ==> Follows(s.generation, s.digest, s.attempt, o))
  }

  /** The fence lets through exactly these. */
  lemma FenceIff(m: Members, o: Offer)
    ensures Fence(m, o) == Status.Ok <==> MayPublish(m, o)
    ensures Fence(m, o).IsOk() <==> MayPublish(m, o)
  {
    hide Printed, ValidIdentifier;
  }

  /** An admission succeeds exactly for a named domain and boot at a positive instant,
      when the candidate is not dead and outranks whoever lives, or reaches the counter
      when nobody does; it is repeated exactly for the incarnation that lives already. */
  lemma AdmittedIff(m: Members, d: MemberDomainKey, i: Incarnation, now: int)
    ensures var a, s := Admit(m, d, i, now), m.At(d);
            var c := if i.sequence == 0 then i.(sequence := s.nextSequence) else i;
            var sound := Named(d) && ValidIdentifier(i.boot) && now > 0 && !m.Dead(d, c);
            && (a.status == Status.Ok <==>
                  sound && (if s.hasLive then s.live.sequence < c.sequence && s.live != c else s.nextSequence <= c.sequence))
            && (a.status == Status.AlreadyExists <==> sound && s.hasLive && s.live == c)
            && (a.status == Status.Invalid <==> !(Named(d) && ValidIdentifier(i.boot) && now > 0))
            && a.status in {Status.Ok, Status.AlreadyExists, Status.Invalid, Status.FencedIncarnation}
            && a.issued == (if a.status.IsOk() then Some(c.sequence) else None)
  {
    hide Printed, ValidIdentifier;
  }

  /** Retiring succeeds for every named domain and incarnation, which is dead from then
      on and does not live. */
  lemma RetiredIff(m: Members, d: MemberDomainKey, i: Incarnation)
    ensures var (status, t) := Retire(m, d, i);
            var sound := Named(d) && SoundIncarnation(i);
            && status == (if sound then Status.Ok else Status.Invalid)
            && (sound ==> t.Dead(d, i) && !t.Live(d, i) && !(t.At(d).hasLive && t.At(d).live == i))
            && (!sound ==> t == m)
            && forall x, j :: (x != d || Printed(j) != Printed(i)) ==> (t.Dead(x, j) <==> m.Dead(x, j)) && (t.Live(x, j) <==> m.Live(x, j))
  {
    hide Printed, ValidIdentifier;
  }

  // ----- The next publication of a run ----------------------------------------

  /** What the registry knows of a domain is what was accepted from it last. */
  ghost predicate Remembers(v: View) {
    && (v.accepted == [] ==> v.state.observedEpoch == 0)
    && (v.accepted != [] ==> v.state.observedEpoch == v.accepted[|v.accepted| - 1].epoch)
    && (v.state.published <==> v.accepted != [] && v.accepted[|v.accepted| - 1].incarnation == v.state.live)
    && (v.state.published ==>
          var last := v.accepted[|v.accepted| - 1];
          v.state.generation == last.generation && v.state.digest == last.digest && v.state.attempt == last.attempt)
    && (v.accepted != [] ==> v.accepted[|v.accepted| - 1].incarnation in v.admitted)
  }

  lemma TakeOverRemembers(v: View, c: Incarnation, t: View)
    requires Settled(v) && Remembers(v) && Printed(c) !in v.dead
    requires if v.state.hasLive then v.state.live.sequence < c.sequence else v.state.nextSequence <= c.sequence
    requires t == View(TakenOver(v.state, c), v.dead + (if v.state.hasLive then {Printed(v.state.live)} else {}),
                       v.admitted + [c], v.accepted)
    ensures Remembers(t)
  {
    assert c in v.admitted ==> Placed(v, c);
    hide Printed, Recorded, InOrder;
  }

  lemma StepRemembers(r: Run, e: Event, d: MemberDomainKey)
    requires Settled(ViewOf(r, d)) && Remembers(ViewOf(r, d))
    ensures Remembers(ViewOf(Step(r, e), d))
  {
    hide *;
    var v, t := ViewOf(r, d), ViewOf(Step(r, e), d);
    if DomainOf(e) != d {
      OthersUnchanged(r, e, d);
    } else {
      ItsDomain(e);
      match e
      case AdmitEvent(_, i, now) =>
        AdmitChanges(r, d, i, now);
        if t != v { TakeOverRemembers(v, Candidate(v.state, i), t); }
      case RetireEvent(_, i) =>
        RetireChanges(r, d, i);
        if t != v { RetireRemembers(v, i, t); }
      case PublishEvent(o) =>
        PublishChanges(r, o);
        if t != v { PublishRemembers(v, o, t); }
    }
  }

  lemma RetireRemembers(v: View, i: Incarnation, t: View)
    requires Remembers(v)
    requires t == v.(dead := v.dead + {Printed(i)},
                     state := if v.state.hasLive && v.state.live == i then v.state.(hasLive := false) else v.state)
    ensures Remembers(t)
  {
    hide Printed;
  }

  lemma PublishRemembers(v: View, o: Offer, t: View)
    requires Settled(v) && v.state.hasLive && v.state.live == o.incarnation
    requires t == v.(accepted := v.accepted + [o], state := With(v.state, o))
    ensures Remembers(t)
  {
    hide Printed, Recorded, InOrder, Placed;
  }

  lemma {:induction false} RunRemembers(events: seq<Event>, d: MemberDomainKey)
    ensures Remembers(ViewOf(After(START, events), d))
  {
    hide Settled, Step;
    if events == [] {
      NothingHappened(d);
    } else {
      hide Remembers;
      RunRemembers(events[..|events| - 1], d);
      RunSettles(events[..|events| - 1], d);
      StepRemembers(After(START, events[..|events| - 1]), events[|events| - 1], d);
    }
  }

  /** The offer goes on from everything the domain published. */
  predicate GoesOn(accepted: seq<Offer>, o: Offer) {
    accepted != [] ==>
      var last := accepted[|accepted| - 1];
      && last.epoch <= o.epoch
      && (last.incarnation == o.incarnation ==> Follows(last.generation, last.digest, last.attempt, o))
  }

  /** After any run an offer is accepted exactly when it is sound, comes from the
      incarnation that lives, and goes on from what the domain published last: under no
      earlier epoch, and if the same incarnation published that, with a later generation
      or with a later attempt at the same content. */
  lemma NextPublicationIff(events: seq<Event>, o: Offer)
    ensures var r := After(START, events);
            var v, next := ViewOf(r, o.domain), After(START, events + [PublishEvent(o)]);
            var passes := SoundOffer(o) && v.state.hasLive && v.state.live == o.incarnation && GoesOn(v.accepted, o);
            && next.accepted == (if passes then r.accepted + [o] else r.accepted)
            && ViewOf(next, o.domain).accepted == (if passes then v.accepted + [o] else v.accepted)
  {
    hide *;
    var r := After(START, events);
    RunRemembers(events, o.domain);
    RunSettles(events, o.domain);
    AfterSnoc(events, PublishEvent(o));
    FenceIff(r.members, o);
    PassesIff(r, o);
    PublishStep(r, o);
    AcceptedSnoc(r.accepted, o);
  }

  lemma PassesIff(r: Run, o: Offer)
    requires Settled(ViewOf(r, o.domain)) && Remembers(ViewOf(r, o.domain))
    ensures var v := ViewOf(r, o.domain);
            MayPublish(r.members, o) <==>
              SoundOffer(o) && v.state.hasLive && v.state.live == o.incarnation && GoesOn(v.accepted, o)
  {
    hide Printed, ValidIdentifier, Recorded, InOrder, AdmittedOnce, Follows, AcceptedOf, AdmittedOf, SoundOffer;
  }

  lemma PublishStep(r: Run, o: Offer)
    ensures Step(r, PublishEvent(o)).accepted == if Fence(r.members, o).IsOk() then r.accepted + [o] else r.accepted
    ensures forall d :: ViewOf(Step(r, PublishEvent(o)), d).accepted == AcceptedOf(Step(r, PublishEvent(o)).accepted, d)
    ensures ViewOf(r, o.domain).accepted == AcceptedOf(r.accepted, o.domain)
  {
    hide Fence, AcceptedOf, AdmittedOf;
  }

  lemma AcceptedSnoc(accepted: seq<Offer>, o: Offer)
    ensures AcceptedOf(accepted + [o], o.domain) == AcceptedOf(accepted, o.domain) + [o]
  {
    assert (accepted + [o])[..|accepted|] == accepted;
  }

  // ----- Death is permanent -------------------------------------------------

  lemma {:induction false} DeadStaysDead(r: Run, events: seq<Event>, d: MemberDomainKey, i: Incarnation)
    requires r.members.Dead(d, i)
    ensures After(r, events).members.Dead(d, i)
  {
    if events != [] { DeadStaysDead(r, events[..|events| - 1], d, i); }
  }

  lemma {:induction false} AfterConcat(r: Run, e: seq<Event>, f: seq<Event>)
    ensures After(r, e + f) == After(After(r, e), f)
  {
    if f == [] {
      assert e + f == e;
    } else {
      assert (e + f)[..|e + f| - 1] == e + f[..|f| - 1];
      AfterConcat(r, e, f[..|f| - 1]);
    }
  }

  /** Once an incarnation is recorded dead, then after any continuation of the
      run it is not the live one, no admission hands it out again, and nothing
      it offers passes the fence. */
  lemma TheDeadDoNotReturn(events: seq<Event>, more: seq<Event>, d: MemberDomainKey, i: Incarnation)
    requires After(START, events).members.Dead(d, i)
    ensures var m := After(START, events + more).members;
            && (d in m.domains && m.domains[d].hasLive ==> m.domains[d].live != i)
            && !m.Live(d, i)
            && (forall j, now :: Admit(m, d, j, now).status.IsOk() ==> Candidate(m.At(d), j) != i)
            && (forall o: Offer | o.domain == d && o.incarnation == i :: !Fence(m, o).IsOk())
  {
    hide After, Printed;
    AfterConcat(START, events, more);
    DeadStaysDead(After(START, events), more, d, i);
    RunSettles(events + more, d);
    TheDeadAreFenced(After(START, events + more), d, i);
  }

  lemma TheDeadAreFenced(r: Run, d: MemberDomainKey, i: Incarnation)
    requires Settled(ViewOf(r, d)) && r.members.Dead(d, i)
    ensures var m := r.members;
            && (d in m.domains && m.domains[d].hasLive ==> m.domains[d].live != i)
            && !m.Live(d, i)
            && (forall j, now :: Admit(m, d, j, now).status.IsOk() ==> Candidate(m.At(d), j) != i)
            && (forall o: Offer | o.domain == d && o.incarnation == i :: !Fence(m, o).IsOk())
  {
    hide Printed, ValidIdentifier, InOrder, AdmittedOnce, Recorded;
    assert d in r.members.domains ==> r.members.At(d) == r.members.domains[d];
    forall j, now | Admit(r.members, d, j, now).status.IsOk() ensures Candidate(r.members.At(d), j) != i {
    }
  }

  // ----- The sequence counter wraps ----------------------------------------

  /** Taking a domain over leaves its counter above the incarnation it admitted
      exactly when that incarnation's sequence is not the largest one. */
  lemma TakeOverAdvancesIff(m: Members, d: MemberDomainKey, i: Incarnation, now: int)
    requires Admit(m, d, i, now).status.Ok?
    ensures var s := Admit(m, d, i, now).members.At(d);
            s.live.sequence < s.nextSequence <==> Candidate(m.At(d), i).sequence != MAX_U64
  {
  }

  /** Without sequences left the order is lost: after 2^64 - 1 has been taken and
      retired, the next incarnation is issued sequence zero, and what it publishes
      comes after what the one before it published. */
  lemma ExhaustedSequencesRestart(d: MemberDomainKey, boot: Text, other: Text, o: Offer, p: Offer)
    requires d.Valid() && ValidIdentifier(boot) && ValidIdentifier(other) && o.epoch <= p.epoch
    requires o.domain == d && o.incarnation == Incarnation(MAX_U64, boot) && Publishable(o)
    requires p.domain == d && p.incarnation == Incarnation(0, other) && Publishable(p)
    ensures var last, zero := Incarnation(MAX_U64, boot), Incarnation(0, other);
            var r := After(START, [AdmitEvent(d, last, 1), PublishEvent(o), RetireEvent(d, last), AdmitEvent(d, zero, 1), PublishEvent(p)]);
            && AdmittedOf(r.admitted, d) == [last, zero] && AcceptedOf(r.accepted, d) == [o, p]
            && !SequencesIncrease(AdmittedOf(r.admitted, d)) && !PublicationsOrdered(AcceptedOf(r.accepted, d))
  {
    hide ViewOf, Step, After, Printed, ValidIdentifier, Settled, AdmittedOf, AcceptedOf, PublicationsOrdered, SequencesIncrease;
    var last, zero := Incarnation(MAX_U64, boot), Incarnation(0, other);
    OnlyBoot(last, zero);
    var e0, e1, e2, e3, e4 := AdmitEvent(d, last, 1), PublishEvent(o), RetireEvent(d, last), AdmitEvent(d, zero, 1), PublishEvent(p);
    var v0 := View(NEW_DOMAIN, {}, [], []);
    NothingHappened(d);
    var v1 := View(TakenOver(v0.state, last), {}, [last], []);
    Taken(START, d, last, v0);
    var r1 := Step(START, e0);
    var v2 := v1.(accepted := [o], state := With(v1.state, o));
    Published(r1, o, v1);
    var r2 := Step(r1, e1);
    var v3 := v2.(dead := {Printed(last)}, state := v2.state.(hasLive := false));
    Retired(r2, d, last, v2);
    var r3 := Step(r2, e2);
    var v4 := View(TakenOver(v3.state, zero), v3.dead, [last, zero], [o]);
    Taken(r3, d, zero, v3);
    var r4 := Step(r3, e3);
    Published(r4, p, v4);
    var v5 := v4.(accepted := [o, p], state := With(v4.state, p));
    FiveSteps(e0, e1, e2, e3, e4);
    assert ViewOf(Step(r4, e4), d) == v5;
    ViewIs(Step(r4, e4), d);
    OutOfOrder(v5, o, p);
  }

  lemma ViewIs(r: Run, d: MemberDomainKey)
    ensures ViewOf(r, d).admitted == AdmittedOf(r.admitted, d) && ViewOf(r, d).accepted == AcceptedOf(r.accepted, d)
  {
  }

  predicate Publishable(o: Offer) { o.generation != 0 && o.digest != ZERO_DIGEST && o.attempt.Valid() }

  lemma OnlyBoot(last: Incarnation, zero: Incarnation)
    requires last.sequence == MAX_U64 && zero.sequence == 0
    ensures Printed(last) != Printed(zero)
  {
    if Printed(last) == Printed(zero) { PrintedIsInjective(last, zero); }
  }

  /** A domain without a live incarnation is taken. */
  lemma Taken(r: Run, d: MemberDomainKey, i: Incarnation, v: View)
    requires ViewOf(r, d) == v && !v.state.hasLive && d.Valid() && ValidIdentifier(i.boot)
    requires Candidate(v.state, i) == i && v.state.nextSequence <= i.sequence && Printed(i) !in v.dead
    ensures ViewOf(Step(r, AdmitEvent(d, i, 1)), d) == View(TakenOver(v.state, i), v.dead, v.admitted + [i], v.accepted)
  {
    AdmitChanges(r, d, i, 1);
    hide Printed, ValidIdentifier, AdmittedOf, AcceptedOf;
  }

  lemma Published(r: Run, o: Offer, v: View)
    requires ViewOf(r, o.domain) == v && o.domain.Valid() && Publishable(o) && v.state.hasLive && v.state.live == o.incarnation
    requires Printed(o.incarnation) !in v.dead && v.state.observedEpoch <= o.epoch && !v.state.published
    ensures ViewOf(Step(r, PublishEvent(o)), o.domain) == v.(accepted := v.accepted + [o], state := With(v.state, o))
  {
    PublishChanges(r, o);
    hide Printed, ValidIdentifier, AdmittedOf, AcceptedOf;
  }

  lemma Retired(r: Run, d: MemberDomainKey, i: Incarnation, v: View)
    requires ViewOf(r, d) == v && d.Valid() && i.Valid() && v.state.hasLive && v.state.live == i
    ensures ViewOf(Step(r, RetireEvent(d, i)), d) == v.(dead := v.dead + {Printed(i)}, state := v.state.(hasLive := false))
  {
    hide Printed, ValidIdentifier, AdmittedOf, AcceptedOf;
  }

  lemma OutOfOrder(v: View, o: Offer, p: Offer)
    requires v.admitted == [o.incarnation, p.incarnation] && v.accepted == [o, p]
    requires o.incarnation.sequence > p.incarnation.sequence
    ensures !SequencesIncrease(v.admitted) && !PublicationsOrdered(v.accepted)
  {
    assert !(v.admitted[0].sequence < v.admitted[1].sequence);
    assert !Before(v.accepted[0], v.accepted[1]);
  }

  lemma FiveSteps(a: Event, b: Event, c: Event, d: Event, e: Event)
    ensures After(START, [a, b, c, d, e]) == Step(Step(Step(Step(Step(START, a), b), c), d), e)
  {
    hide Step;
    AfterSnoc([], a);
    AfterSnoc([a], b);
    AfterSnoc([a, b], c);
    AfterSnoc([a, b, c], d);
    AfterSnoc([a, b, c, d], e);
    assert [] + [a] == [a] && [a] + [b] == [a, b] && [a, b] + [c] == [a, b, c];
    assert [a, b, c] + [d] == [a, b, c, d] && [a, b, c, d] + [e] == [a, b, c, d, e];
  }

  lemma AfterSnoc(events: seq<Event>, e: Event)
    ensures After(START, events + [e]) == Step(After(START, events), e)
  {
    hide Step;
    assert (events + [e])[..|events|] == events;
  }
}
