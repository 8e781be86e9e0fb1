/** One controller of a site at a time: when the registry keeps to it, and the run
    in which it does not. */
module LeaseRuns {
  import opened Model
  import opened Authority

  /** The only lease of a site that is active is that of its controller. */
  ghost predicate Sole(s: Sites) {
    forall k | k in s.leases && s.leases[k].state.ActiveLease? :: k.site in s.controllers && s.controllers[k.site] == k
  }

  /** The controller of a site holds a lease of that site. */
  ghost predicate Housed(s: Sites) {
    forall site | site in s.controllers :: s.controllers[site] in s.leases && s.controllers[site].site == site
  }

  predicate Controls(s: Sites, k: LeaseKey) { k.site in s.controllers && s.controllers[k.site] == k }

  /** A request with all its parts in place. */
  predicate SoundRequest(q: Request) {
    && q.holder != [] && ValidIdentifier(q.site) && q.epoch != 0 && SoundIncarnation(q.incarnation)
    && q.ttl > 0 && q.now > 0
  }

  /** Another lease controls the site the request is for. */
  predicate HeldByAnother(s: Sites, q: Request) {
    q.site in s.controllers && s.controllers[q.site] != q.Key() && s.controllers[q.site] in s.leases
  }

  /** A holder without a lease may take a site: the request is sound, its epoch not
      behind, and if another controls the site, the lease of that one is not revoked,
      is not both active and unexpired, and is of a lower incarnation. */
  predicate MayTake(s: Sites, q: Request)
    requires q.Key() !in s.leases
  {
    && SoundRequest(q) && s.Epoch(q.site) <= q.epoch
    && (HeldByAnother(s, q) ==>
          var r := s.leases[s.controllers[q.site]];
          && !r.state.RevokedLease? && !(r.state.ActiveLease? && q.now <= r.token.expiresAt)
          && r.token.incarnation.sequence < q.incarnation.sequence)
  }

  /** A recorded holder may take its lease again: the request is sound and its epoch
      not behind, the lease is not revoked, its generation not ahead, and its
      incarnation is the same, or an older one whose term is over. */
  predicate MayRetake(s: Sites, q: Request)
    requires q.Key() in s.leases
  {
    var r := s.leases[q.Key()];
    && SoundRequest(q) && s.Epoch(q.site) <= q.epoch && !r.state.RevokedLease? && r.token.generation <= q.generation
    && (|| r.token.incarnation == q.incarnation
        || (&& (r.state.ActiveLease? ==> r.token.expiresAt < q.now)
            && r.token.incarnation.sequence < q.incarnation.sequence))
  }

  /** A lease may be renewed: the token is sound and not of a past epoch, it is the
      one recorded but for its term, and the recorded one stands at the instant. */
  predicate MayRenew(s: Sites, t: AuthorityToken, now: i64, ttl: i64) {
    && SoundToken(t) && ttl > 0 && now > 0 && s.Epoch(t.site) <= t.epoch
    && KeyOf(t) in s.leases
    && var r := s.leases[KeyOf(t)];
       && r.token.leaseId == t.leaseId && r.token.incarnation == t.incarnation && r.token.generation == t.generation
       && !r.state.RevokedLease? && Stands(r.token, now)
  }

  /** The event makes a lease active beside one that nobody superseded: a recorded
      holder may take the site again while the lease of another, its present
      controller, is active, or a lease may be renewed that is not the controller's. */
  predicate Reinstates(s: Sites, e: SiteEvent) {
    match e
    case AcquireEvent(q) =>
      && q.Key() in s.leases && MayRetake(s, q)
      && HeldByAnother(s, q) && s.leases[s.controllers[q.site]].state.ActiveLease?
    case RenewEvent(t, now, ttl) => MayRenew(s, t, now, ttl) && !Controls(s, KeyOf(t))
    case RevokeEvent(_) => false
  }

  /** The guards decide the grant and the renewal. */
  lemma TakenIff(s: Sites, q: Request)
    requires q.Key() !in s.leases
    ensures Acquire(s, q).status == Status.Granted <==> MayTake(s, q)
  {
    hide Plus, ValidIdentifier;
  }

  lemma RetakenIff(s: Sites, q: Request)
    requires q.Key() in s.leases
    ensures Acquire(s, q).status == Status.Granted <==> MayRetake(s, q)
  {
    hide Plus, ValidIdentifier;
  }

  lemma RenewedIff(s: Sites, t: AuthorityToken, now: i64, ttl: i64)
    ensures Renew(s, t, now, ttl).status == Status.Renewed <==> MayRenew(s, t, now, ttl)
  {
    StandsIff(t, now);
    if KeyOf(t) in s.leases { StandsIff(s.leases[KeyOf(t)].token, now); }
    hide Plus, ValidIdentifier, SoundToken;
  }

  /** A token validates exactly when it is sound, of the epoch observed last, and the
      lease recorded for its holder has its number and incarnation, no later generation,
      is neither revoked nor superseded, and stands at the instant. */
  lemma ValidatesIff(s: Sites, t: AuthorityToken, now: int)
    ensures Validate(s, t, now) == Status.Ok <==>
      && SoundToken(t) && t.site in s.epochs && t.epoch == s.epochs[t.site]
      && KeyOf(t) in s.leases
      && var r := s.leases[KeyOf(t)];
         && r.token.leaseId == t.leaseId && r.token.incarnation == t.incarnation && r.token.generation <= t.generation
         && (r.state.ActiveLease? || r.state.ExpiredLease?) && Stands(r.token, now)
  {
    StandsIff(t, now);
    if KeyOf(t) in s.leases { StandsIff(s.leases[KeyOf(t)].token, now); }
    hide ValidIdentifier, SoundToken;
  }

  /** A revocation succeeds exactly for a sound token under the number of the lease
      recorded for its holder, whatever the epoch; that lease is then revoked. */
  lemma RevokedIff(s: Sites, t: AuthorityToken)
    ensures var (status, u) := Revoke(s, t);
            var may := SoundToken(t) && KeyOf(t) in s.leases && s.leases[KeyOf(t)].token.leaseId == t.leaseId;
            && (status == Status.Ok <==> may) && (may ==> u.Revoked(KeyOf(t))) && (!may ==> u == s)
            && u.epochs == s.epochs && u.controllers == s.controllers && u.nextLeaseId == s.nextLeaseId
            && u.leases.Keys == s.leases.Keys
            && forall k | k in s.leases :: u.leases[k].token == s.leases[k].token && (k != KeyOf(t) ==> u.leases[k] == s.leases[k])
  {
    StandsIff(t, 0);
    hide ValidIdentifier, SoundToken;
  }

  /** A renewal hands out the recorded token under a new term, recorded active, and
      touches nothing else. */
  lemma RenewalExtends(s: Sites, t: AuthorityToken, now: i64, ttl: i64)
    requires Renew(s, t, now, ttl).status == Status.Renewed
    ensures KeyOf(t) in s.leases
    ensures var g, r := Renew(s, t, now, ttl), s.leases[KeyOf(t)];
            var token := r.token.(issuedAt := now, expiresAt := Plus(now, ttl));
            && g.token == Some(token)
            && g.sites == s.(leases := s.leases[KeyOf(t) := LeaseRecord(token, ActiveLease, r.renewals + 1)])
  {
    hide Plus, ValidIdentifier;
  }

  // ----- Who ends a lease -----------------------------------------------------

  /** The event takes the site over from the lease. */
  predicate Supersedes(s: Sites, e: SiteEvent, k: LeaseKey) {
    && e.AcquireEvent? && e.request.Key() !in s.leases && MayTake(s, e.request)
    && e.request.site in s.controllers && s.controllers[e.request.site] == k
  }

  /** Of the events that are not for a lease itself, exactly a takeover by a holder
      without a lease touches it, and that only marks it superseded. */
  lemma OthersTouchLeaseIff(s: Sites, e: SiteEvent, k: LeaseKey)
    requires k in s.leases && KeyFor(e) != k
    ensures k in SiteStep(s, e).leases
    ensures SiteStep(s, e).leases[k] == if Supersedes(s, e, k) then s.leases[k].(state := SupersededLease) else s.leases[k]
  {
    match e
    case AcquireEvent(q) =>
      hide *;
      AcquireTouches(s, q, k);
    case RenewEvent(t, now, ttl) => hide ValidIdentifier, Plus;
    case RevokeEvent(t) =>
  }

  lemma AcquireTouches(s: Sites, q: Request, k: LeaseKey)
    requires k in s.leases && q.Key() != k
    ensures k in SiteStep(s, AcquireEvent(q)).leases
    ensures SiteStep(s, AcquireEvent(q)).leases[k]
      == if Supersedes(s, AcquireEvent(q), k) then s.leases[k].(state := SupersededLease) else s.leases[k]
  {
    if q.Key() !in s.leases { TakenIff(s, q); }
    hide MayTake, ValidIdentifier, Plus;
  }

  lemma HousedStep(s: Sites, e: SiteEvent)
    requires Housed(s)
    ensures Housed(SiteStep(s, e))
  {
    hide Plus, ValidIdentifier;
  }

  lemma {:induction false} AlwaysHoused(events: seq<SiteEvent>)
    ensures Housed(AfterEvents(NO_SITES, events))
  {
    hide SiteStep;
    if events != [] {
      AlwaysHoused(events[..|events| - 1]);
      HousedStep(AfterEvents(NO_SITES, events[..|events| - 1]), events[|events| - 1]);
    }
  }

  /** The event is not for the lease, and if it asks for the site of the lease, it does
      so within the term. */
  predicate WithinTerm(e: SiteEvent, k: LeaseKey, expiresAt: int) {
    KeyFor(e) != k && (e.AcquireEvent? && e.request.site == k.site ==> e.request.now <= expiresAt)
  }

  /** After any run, nobody else ends the term of an active lease: as long as its holder
      neither takes, renews nor gives it back, and the site is asked for within the term
      only, the lease is recorded as it was, whatever else happens. */
  lemma {:induction false} TermIsKept(events: seq<SiteEvent>, more: seq<SiteEvent>, k: LeaseKey)
    requires var s := AfterEvents(NO_SITES, events); k in s.leases && s.leases[k].state.ActiveLease?
    requires forall i | 0 <= i < |more| ::
      WithinTerm(more[i], k, AfterEvents(NO_SITES, events).leases[k].token.expiresAt)
    ensures var s, t := AfterEvents(NO_SITES, events), AfterEvents(NO_SITES, events + more);
            k in t.leases && t.leases[k] == s.leases[k]
  {
    if more == [] {
      assert events + more == events;
    } else {
      var front, e := more[..|more| - 1], more[|more| - 1];
      TermIsKept(events, front, k);
      assert events + more == (events + front) + [e];
      AfterLast(events + front, e);
      AlwaysHoused(events + front);
      var s := AfterEvents(NO_SITES, events + front);
      hide AfterEvents;
      assert WithinTerm(e, k, s.leases[k].token.expiresAt);
      NotSuperseded(s, e, k);
      hide *;
      OthersTouchLeaseIff(s, e, k);
    }
  }

  lemma NotSuperseded(s: Sites, e: SiteEvent, k: LeaseKey)
    requires Housed(s) && k in s.leases && s.leases[k].state.ActiveLease? && WithinTerm(e, k, s.leases[k].token.expiresAt)
    ensures KeyFor(e) != k && !Supersedes(s, e, k)
  {
    hide ValidIdentifier;
  }

  lemma AcquireSole(s: Sites, q: Request)
    requires Sole(s) && Housed(s)
    ensures var t := Acquire(s, q).sites; Housed(t) && (Sole(t) <==> !Reinstates(s, AcquireEvent(q)))
  {
    hide Plus, ValidIdentifier;
    var known := s.Epoch(q.site);
    var seen := Sites(s.leases, s.epochs[q.site := if q.epoch > known then q.epoch else known], s.controllers, s.nextLeaseId);
    assert Sole(seen) && Housed(seen);
    if q.Key() in s.leases {
      HeldSole(seen, q);
      RetakenIff(s, q);
    } else {
      NewSole(seen, q);
    }
    hide AcquireHeld, AcquireNew, Sole, Housed, MayRetake;
  }

  lemma NewSole(s: Sites, q: Request)
    requires Sole(s) && Housed(s) && q.Key() !in s.leases
    ensures var t := AcquireNew(s, q).sites; Housed(t) && Sole(t)
  {
    hide Plus, Wrap64;
  }

  lemma HeldSole(s: Sites, q: Request)
    requires Sole(s) && Housed(s) && q.Key() in s.leases
    ensures var g := AcquireHeld(s, q);
            && Housed(g.sites)
            && (Sole(g.sites) <==>
                  !(g.status == Status.Granted && Blocked(s, q) && s.leases[s.controllers[q.site]].state.ActiveLease?))
  {
    hide Plus;
    var g := AcquireHeld(s, q);
    if g.status == Status.Granted {
      HeldGranted(s, g.sites, q);
    }
  }

  lemma HeldGranted(s: Sites, t: Sites, q: Request)
    requires Sole(s) && Housed(s) && q.Key() in s.leases
    requires t.controllers == s.controllers[q.site := q.Key()] && t.leases.Keys == s.leases.Keys
    requires t.leases[q.Key()].state.ActiveLease? && forall k | k in s.leases && k != q.Key() :: t.leases[k] == s.leases[k]
    ensures Housed(t) && (Sole(t) <==> !(Blocked(s, q) && s.leases[s.controllers[q.site]].state.ActiveLease?))
  {
    if Blocked(s, q) && s.leases[s.controllers[q.site]].state.ActiveLease? {
      var c := s.controllers[q.site];
      assert t.leases[c].state.ActiveLease? && c.site == q.site;
    }
  }

  lemma RenewSole(s: Sites, token: AuthorityToken, now: i64, ttl: i64)
    requires Sole(s) && Housed(s)
    ensures var t := Renew(s, token, now, ttl).sites; Housed(t) && (Sole(t) <==> !Reinstates(s, RenewEvent(token, now, ttl)))
  {
    hide Plus, ValidIdentifier;
    RenewedIff(s, token, now, ttl);
    hide MayRenew;
  }

  /** One event keeps the controller's the only active lease exactly when it does
      not reinstate another. */
  lemma StepSoleIff(s: Sites, e: SiteEvent)
    requires Sole(s) && Housed(s)
    ensures Housed(SiteStep(s, e)) && (Sole(SiteStep(s, e)) <==> !Reinstates(s, e))
  {
    match e
    case AcquireEvent(q) => AcquireSole(s, q);
    case RenewEvent(t, now, ttl) => RenewSole(s, t, now, ttl);
    case RevokeEvent(t) =>
    hide Acquire, Renew;
  }

  ghost predicate NeverReinstates(events: seq<SiteEvent>) {
    forall n | 0 <= n < |events| :: !Reinstates(AfterEvents(NO_SITES, events[..n]), events[n])
  }

  ghost predicate AlwaysSole(events: seq<SiteEvent>) {
    forall n | 0 <= n <= |events| :: Sole(AfterEvents(NO_SITES, events[..n]))
  }

  lemma AfterLast(events: seq<SiteEvent>, e: SiteEvent)
    ensures AfterEvents(NO_SITES, events + [e]) == SiteStep(AfterEvents(NO_SITES, events), e)
  {
    assert (events + [e])[..|events|] == events;
  }

  lemma AlwaysMore(front: seq<SiteEvent>, e: SiteEvent)
    ensures AlwaysSole(front + [e]) <==> AlwaysSole(front) && Sole(AfterEvents(NO_SITES, front + [e]))
    ensures NeverReinstates(front + [e]) <==> NeverReinstates(front) && !Reinstates(AfterEvents(NO_SITES, front), e)
  {
    hide AfterEvents, Sole, Reinstates;
    var events := front + [e];
    assert forall n | 0 <= n <= |front| :: events[..n] == front[..n];
    assert events[..|events|] == events && events[..|front|] == front;
  }

  /** Over every run: the controller's lease is the only active one all along exactly
      when no event reinstates another. */
  lemma {:induction false} AlwaysSoleIff(events: seq<SiteEvent>)
    ensures AlwaysSole(events) <==> NeverReinstates(events)
    ensures AlwaysSole(events) ==> Sole(AfterEvents(NO_SITES, events)) && Housed(AfterEvents(NO_SITES, events))
  {
    if events == [] {
      assert AfterEvents(NO_SITES, []) == NO_SITES;
    } else {
      var front, e := events[..|events| - 1], events[|events| - 1];
      AlwaysSoleIff(front);
      assert events == front + [e];
      AfterLast(front, e);
      AlwaysMore(front, e);
      hide *;
      if AlwaysSole(front) { StepSoleIff(AfterEvents(NO_SITES, front), e); }
    }
  }

  /** While the controller's lease is the only active one, two tokens that validate on
      active leases of a site, at any instants, are tokens of one holder. */
  lemma OneHolderAtATime(s: Sites, t: AuthorityToken, u: AuthorityToken, now: int, later: int)
    requires Sole(s) && t.site == u.site
    requires Validate(s, t, now) == Status.Ok && s.leases[KeyOf(t)].state.ActiveLease?
    requires Validate(s, u, later) == Status.Ok && s.leases[KeyOf(u)].state.ActiveLease?
    ensures KeyOf(t) == KeyOf(u) == s.controllers[t.site] && t.holder == u.holder && t.leaseId == u.leaseId
      && t.incarnation == u.incarnation
  {
    hide ValidIdentifier;
  }

  // ----- The run that keeps two -----------------------------------------------

  /** A holder whose lease ran out, and was superseded by another, asks again with the
      incarnation it had. */
  ghost predicate Returns(a: Request, b: Request, back: Request) {
    && a.Valid() && b.Valid() && back.Valid() && a.site == b.site && a.holder != b.holder && a.epoch == b.epoch
    && back == a.(now := back.now, ttl := back.ttl) && a.incarnation.sequence < b.incarnation.sequence
    && a.now + a.ttl < b.now <= back.now <= b.now + b.ttl <= 0x7FFF_FFFF_FFFF_FFFF
    && back.now + back.ttl <= 0x7FFF_FFFF_FFFF_FFFF
  }

  /** Both then hold the site: the tokens of both validate at one instant. */
  lemma ReturningHolderIsReinstated(a: Request, b: Request, back: Request)
    requires Returns(a, b, back)
    ensures var s := AfterEvents(NO_SITES, [AcquireEvent(a), AcquireEvent(b), AcquireEvent(back)]);
            && Validate(s, b.Token(2), back.now) == Status.Ok && Validate(s, back.Token(1), back.now) == Status.Ok
            && b.Token(2).holder != back.Token(1).holder && !Sole(s)
  {
    var one, two := SiteStep(NO_SITES, AcquireEvent(a)), SiteStep(SiteStep(NO_SITES, AcquireEvent(a)), AcquireEvent(b));
    var s := SiteStep(two, AcquireEvent(back));
    ThreeSteps(AcquireEvent(a), AcquireEvent(b), AcquireEvent(back));
    hide AfterEvents;
    FirstGrant(a);
    SecondGrant(one, a, b, back);
    ThirdGrant(two, a, b, back);
    hide *;
    BothStand(s, a, b, back);
  }

  lemma ThreeSteps(a: SiteEvent, b: SiteEvent, c: SiteEvent)
    ensures AfterEvents(NO_SITES, [a, b, c]) == SiteStep(SiteStep(SiteStep(NO_SITES, a), b), c)
  {
    hide SiteStep;
    AfterLast([], a);
    AfterLast([a], b);
    AfterLast([a, b], c);
    assert [] + [a] == [a] && [a] + [b] == [a, b] && [a, b] + [c] == [a, b, c];
  }

  lemma FirstGrant(a: Request)
    requires a.Valid()
    ensures var s := SiteStep(NO_SITES, AcquireEvent(a));
            && s.leases == map[a.Key() := LeaseRecord(a.Token(1), ActiveLease, 0)] && s.controllers == map[a.site := a.Key()]
            && s.epochs == map[a.site := a.epoch] && s.nextLeaseId == 2
  {
    hide Plus, ValidIdentifier;
  }

  lemma SecondGrant(s: Sites, a: Request, b: Request, back: Request)
    requires Returns(a, b, back)
    requires s.leases == map[a.Key() := LeaseRecord(a.Token(1), ActiveLease, 0)] && s.controllers == map[a.site := a.Key()]
    requires s.epochs == map[a.site := a.epoch] && s.nextLeaseId == 2
    ensures var t := SiteStep(s, AcquireEvent(b));
            && t.leases == map[a.Key() := LeaseRecord(a.Token(1), SupersededLease, 0),
                               b.Key() := LeaseRecord(b.Token(2), ActiveLease, 0)]
            && t.controllers == map[a.site := b.Key()] && t.epochs == map[a.site := a.epoch]
  {
    hide ValidIdentifier;
    assert a.Key() != b.Key();
  }

  lemma ThirdGrant(s: Sites, a: Request, b: Request, back: Request)
    requires Returns(a, b, back)
    requires s.leases == map[a.Key() := LeaseRecord(a.Token(1), SupersededLease, 0),
                             b.Key() := LeaseRecord(b.Token(2), ActiveLease, 0)]
    requires s.controllers == map[a.site := b.Key()] && s.epochs == map[a.site := a.epoch]
    ensures var t := SiteStep(s, AcquireEvent(back));
            && t.leases == map[a.Key() := LeaseRecord(back.Token(1), ActiveLease, 0),
                               b.Key() := LeaseRecord(b.Token(2), ActiveLease, 0)]
            && t.controllers == map[a.site := a.Key()] && t.epochs == map[a.site := a.epoch]
  {
    hide Plus, ValidIdentifier;
    assert a.Key() != b.Key() && back.Key() == a.Key();
  }

  lemma BothStand(s: Sites, a: Request, b: Request, back: Request)
    requires Returns(a, b, back)
    requires s.leases == map[a.Key() := LeaseRecord(back.Token(1), ActiveLease, 0),
                             b.Key() := LeaseRecord(b.Token(2), ActiveLease, 0)]
    requires s.controllers == map[a.site := a.Key()] && s.epochs == map[a.site := a.epoch]
    ensures Validate(s, b.Token(2), back.now) == Status.Ok && Validate(s, back.Token(1), back.now) == Status.Ok
    ensures b.Token(2).holder != back.Token(1).holder && !Sole(s)
  {
    hide ValidIdentifier;
    assert a.Key() != b.Key() && back.Key() == a.Key() && KeyOf(b.Token(2)) == b.Key() && KeyOf(back.Token(1)) == a.Key();
  }

  // ----- The run that uses up the numbers --------------------------------------

  /** The number in binary, lowest digit first, as an identifier of letters. */
  function Spelled(n: nat, width: nat): (t: Text)
    ensures |t| == width && forall i | 0 <= i < width :: 97 <= t[i] <= 98
  {
    if width == 0 then [] else [97 + n % 2] + Spelled(n / 2, width - 1)
  }

  function Power(width: nat): nat { if width == 0 then 1 else 2 * Power(width - 1) }

  lemma {:induction false} SpellingsDiffer(m: nat, n: nat, width: nat)
    requires m < Power(width) && n < Power(width) && Spelled(m, width) == Spelled(n, width)
    ensures m == n
  {
    if width > 0 {
      var a, b := Spelled(m, width), Spelled(n, width);
      assert a[0] == b[0] && a[1..] == b[1..];
      SpellingsDiffer(m / 2, n / 2, width - 1);
    }
  }

  lemma {:induction false} PowerAdds(a: nat, b: nat)
    ensures Power(a + b) == Power(a) * Power(b)
  {
    if a > 0 {
      PowerAdds(a - 1, b);
      var x, y := Power(a - 1), Power(b);
      assert 2 * (x * y) == (2 * x) * y;
    }
  }

  lemma SixtyFive()
    ensures Power(65) == 2 * (MAX_U64 + 1)
  {
    assert Power(1) == 2 && Power(2) == 4;
    PowerAdds(2, 2);
    PowerAdds(4, 4);
    PowerAdds(8, 8);
    PowerAdds(16, 16);
    PowerAdds(32, 32);
    PowerAdds(1, 64);
  }

  /** The first request for the n-th of many sites. */
  function FirstFor(n: nat): Request {
    Request([97], Spelled(n, 65), 1, Incarnation(1, [97]), 1, 1, 1)
  }

  /** One holder takes one site after another. */
  function ManySites(n: nat): seq<SiteEvent> {
    if n == 0 then [] else ManySites(n - 1) + [AcquireEvent(FirstFor(n - 1))]
  }

  ghost predicate OnlyBefore(s: Sites, n: nat) {
    && (forall k | k in s.leases :: exists m: nat :: m < n && k.site == Spelled(m, 65))
    && (forall x | x in s.controllers :: exists m: nat :: m < n && x == Spelled(m, 65))
    && (forall x | x in s.epochs :: exists m: nat :: m < n && x == Spelled(m, 65))
  }

  lemma NewSite(s: Sites, n: nat)
    requires OnlyBefore(s, n) && n <= MAX_U64 + 1
    ensures var q := FirstFor(n);
            q.Key() !in s.leases && q.site !in s.controllers && q.site !in s.epochs && q.Valid()
  {
    SixtyFive();
    var q := FirstFor(n);
    forall m: nat | m < n ensures Spelled(m, 65) != q.site {
      if Spelled(m, 65) == q.site { SpellingsDiffer(m, n, 65); }
    }
    hide Power, Spelled;
  }

  /** A site nobody asked for is granted under the next number. */
  lemma NewSiteIsGranted(s: Sites, n: nat)
    requires OnlyBefore(s, n) && n <= MAX_U64 + 1
    ensures var q := FirstFor(n);
            && TakesNumber(s, AcquireEvent(q)) && NumberFor(s, q) == s.nextLeaseId
            && OnlyBefore(SiteStep(s, AcquireEvent(q)), n + 1)
  {
    hide ValidIdentifier, Spelled, Plus;
    NewSite(s, n);
    var q := FirstFor(n);
    var t := SiteStep(s, AcquireEvent(q));
    assert t.leases.Keys == s.leases.Keys + {q.Key()} && t.controllers.Keys == s.controllers.Keys + {q.site}
      && t.epochs.Keys == s.epochs.Keys + {q.site};
    OneMore(s, t, n);
  }

  lemma OneMore(s: Sites, t: Sites, n: nat)
    requires OnlyBefore(s, n)
    requires t.leases.Keys == s.leases.Keys + {FirstFor(n).Key()} && t.controllers.Keys == s.controllers.Keys + {Spelled(n, 65)}
    requires t.epochs.Keys == s.epochs.Keys + {Spelled(n, 65)}
    ensures OnlyBefore(t, n + 1)
  {
    hide Spelled;
    assert FirstFor(n).Key().site == Spelled(n, 65);
  }

  lemma ManyMore(n: nat)
    requires n > 0
    ensures var s, e := AfterEvents(NO_SITES, ManySites(n - 1)), AcquireEvent(FirstFor(n - 1));
            && AfterEvents(NO_SITES, ManySites(n)) == SiteStep(s, e)
            && NumbersTaken(NO_SITES, ManySites(n)) == NumbersTaken(NO_SITES, ManySites(n - 1)) + (if TakesNumber(s, e) then 1 else 0)
  {
    hide SiteStep, TakesNumber, FirstFor, Spelled;
    var front := ManySites(n - 1);
    assert ManySites(n)[..|front|] == front;
  }

  lemma NoSites()
    ensures NumbersTaken(NO_SITES, ManySites(0)) == 0 && OnlyBefore(AfterEvents(NO_SITES, ManySites(0)), 0)
  {
    hide Spelled;
  }

  lemma {:induction false} NumbersAreUsed(n: nat)
    requires n <= MAX_U64 + 2
    ensures NumbersTaken(NO_SITES, ManySites(n)) == n && OnlyBefore(AfterEvents(NO_SITES, ManySites(n)), n)
  {
    hide *;
    if n == 0 {
      NoSites();
    } else {
      NumbersAreUsed(n - 1);
      ManyMore(n);
      NewSiteIsGranted(AfterEvents(NO_SITES, ManySites(n - 1)), n - 1);
    }
  }

  /** After 2^64 - 1 sites were taken the next one is granted under the number zero,
      and the token granted is not valid. */
  lemma NumbersRunOut()
    ensures var events, q := ManySites(MAX_U64), FirstFor(MAX_U64);
            var g := Acquire(AfterEvents(NO_SITES, events), q);
            && NumbersTaken(NO_SITES, events) == MAX_U64 && !Numbered(AfterEvents(NO_SITES, events))
            && g.status == Status.Granted && g.token.Some? && g.token.value.leaseId == 0
            && Validate(g.sites, g.token.value, q.now) != Status.Ok
  {
    var n := MAX_U64;
    var s, q := AfterEvents(NO_SITES, ManySites(n)), FirstFor(n);
    hide *;
    NumbersAreUsed(n);
    NumberedIff(ManySites(n));
    NumbersAreCounted(ManySites(n));
    WrapsAt(n);
    NewSiteIsGranted(s, n);
    GrantedWhenTaken(s, q);
    GrantedIsRecorded(s, q);
    OldToken(q);
    GrantedTokenValidates(s, q, AuthorityToken(SiteControllerKind, [97], q.site, 0, q.incarnation, 1, 0, 1, 1));
    TokenCarries(q, NumberFor(s, q));
  }

  lemma GrantedWhenTaken(s: Sites, q: Request)
    requires TakesNumber(s, AcquireEvent(q))
    ensures Acquire(s, q).status == Status.Granted
  {
    hide Acquire;
  }

  lemma OldToken(q: Request)
    requires q == FirstFor(MAX_U64)
    ensures q.epoch == 1
  {
    hide Spelled;
  }

  lemma TokenCarries(q: Request, n: u64)
    ensures q.Token(n).leaseId == n
  {
  }
}
