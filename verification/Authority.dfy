/** Site leases: which controller may write a site, and the registry object that
    holds both the leases and the member fences. */
module Authority {
  import opened Model
  import opened Fencing

  datatype LeaseKey = LeaseKey(site: Text, kind: AuthorityKind, holder: Text)

  datatype LeaseState = ActiveLease | ExpiredLease | RevokedLease | SupersededLease

  datatype LeaseRecord = LeaseRecord(token: AuthorityToken, state: LeaseState, renewals: nat)

  datatype Sites = Sites(leases: map<LeaseKey, LeaseRecord>, epochs: map<Text, u64>,
                         controllers: map<Text, LeaseKey>, nextLeaseId: u64)
  {
    function Epoch(site: Text): u64 { if site in epochs then epochs[site] else 0 }

    predicate Revoked(k: LeaseKey) { k in leases && leases[k].state.RevokedLease? }

    function Put(k: LeaseKey, r: LeaseRecord): Sites { Sites(leases[k := r], epochs, controllers, nextLeaseId) }
  }

  const NO_SITES := Sites(map[], map[], map[], 1)

  datatype Grant = Grant(status: Status, sites: Sites, token: Option<AuthorityToken>)

  /** Signed 64-bit addition; the overflow the source leaves undefined wraps. */
  function Plus(a: i64, b: i64): i64 {
    (a + b + 0x8000_0000_0000_0000) % 0x1_0000_0000_0000_0000 - 0x8000_0000_0000_0000
  }

  function KeyOf(t: AuthorityToken): LeaseKey { LeaseKey(t.site, t.kind, t.holder) }

  // ----- Transitions --------------------------------------------------------

  datatype Request = Request(holder: Text, site: Text, epoch: u64, incarnation: Incarnation,
                             generation: u64, now: i64, ttl: i64)
  {
    predicate Valid() {
      holder != [] && ValidIdentifier(site) && epoch != 0 && incarnation.Valid() && ttl > 0 && now > 0
    }

    function Key(): LeaseKey { LeaseKey(site, SiteControllerKind, holder) }

    function Token(leaseId: u64): AuthorityToken {
      AuthorityToken(SiteControllerKind, holder, site, epoch, incarnation, generation, leaseId, now, Plus(now, ttl))
    }
  }

  /** Whether the site's present controller stands in the way of a new holder. */
  function Obstacle(other: LeaseRecord, q: Request): Status {
    if other.state.ActiveLease? && other.token.expiresAt >= q.now then Status.AuthorityHeldElsewhere
    else if other.state.RevokedLease? then Status.LeaseRevoked
    else if other.token.incarnation.sequence >= q.incarnation.sequence then Status.FencedIncarnation
    else Status.Ok
  }

  function Enthrone(s: Sites, q: Request, r: LeaseRecord, next: u64): Sites {
    Sites(s.leases[q.Key() := r], s.epochs, s.controllers[q.site := q.Key()], next)
  }

  /** Somebody else controls the site. */
  predicate Blocked(s: Sites, q: Request) {
    q.site in s.controllers && s.controllers[q.site] != q.Key() && s.controllers[q.site] in s.leases
  }

  function ObstacleTo(s: Sites, q: Request): Status {
    if Blocked(s, q) then Obstacle(s.leases[s.controllers[q.site]], q) else Status.Ok
  }

  function Cleared(s: Sites, q: Request): Sites {
    if Blocked(s, q) then s.Put(s.controllers[q.site], s.leases[s.controllers[q.site]].(state := SupersededLease)) else s
  }

  function AcquireNew(s: Sites, q: Request): Grant {
    var obstacle := ObstacleTo(s, q);
    if obstacle != Status.Ok then Grant(obstacle, s, None)
    else
      var token := q.Token(s.nextLeaseId);
      Grant(Status.Granted, Enthrone(Cleared(s, q), q, LeaseRecord(token, ActiveLease, 0), Wrap64(s.nextLeaseId + 1)), Some(token))
  }

  function AcquireHeld(s: Sites, q: Request): Grant
    requires q.Key() in s.leases
  {
    var r := s.leases[q.Key()];
    var other := r.token.incarnation != q.incarnation;
    if r.state.RevokedLease? then Grant(Status.LeaseRevoked, s, None)
    else if other && r.state.ActiveLease? && r.token.expiresAt >= q.now
    then Grant(Status.AuthorityHeldElsewhere, s, None)
    else if other && r.token.incarnation.sequence >= q.incarnation.sequence
    then Grant(Status.FencedIncarnation, s, None)
    else
      var taken := if other then r.(state := SupersededLease) else r;
      if q.generation < r.token.generation then Grant(Status.FencedGeneration, s.Put(q.Key(), taken), None)
      else
        var token := q.Token(r.token.leaseId);
        Grant(Status.Granted, Enthrone(s, q, LeaseRecord(token, ActiveLease, r.renewals), s.nextLeaseId), Some(token))
  }

  /** Becoming, or remaining, the controller of a site. The observed epoch moves
      up even when the lease is then refused. */
  function Acquire(s: Sites, q: Request): Grant {
    if !q.Valid() then Grant(Status.Invalid, s, None)
    else
      var known := s.Epoch(q.site);
      var seen := Sites(s.leases, s.epochs[q.site := if q.epoch > known then q.epoch else known],
                        s.controllers, s.nextLeaseId);
      if known != 0 && q.epoch < known then Grant(Status.FencedEpoch, seen, None)
      else if q.Key() !in s.leases then AcquireNew(seen, q)
      else AcquireHeld(seen, q)
  }

  function Renew(s: Sites, t: AuthorityToken, now: i64, ttl: i64): Grant {
    if !t.StructurallyValid() || ttl <= 0 || now <= 0 then Grant(Status.Invalid, s, None)
    else if t.site in s.epochs && t.epoch < s.epochs[t.site] then Grant(Status.FencedEpoch, s, None)
    else if KeyOf(t) !in s.leases || s.leases[KeyOf(t)].token.leaseId != t.leaseId
    then Grant(Status.Unauthorized, s, None)
    else
      var r := s.leases[KeyOf(t)];
      if r.token.incarnation != t.incarnation then Grant(Status.FencedIncarnation, s, None)
      else if r.token.generation != t.generation then Grant(Status.FencedGeneration, s, None)
      else if r.state.RevokedLease? then Grant(Status.LeaseRevoked, s, None)
      else if r.token.EvaluateAt(now) == Status.LeaseExpired
      then Grant(Status.LeaseExpired, s.Put(KeyOf(t), r.(state := ExpiredLease)), None)
      else if !r.token.EvaluateAt(now).IsOk() then Grant(r.token.EvaluateAt(now), s, None)
      else
        var token := r.token.(expiresAt := Plus(now, ttl), issuedAt := now);
        Grant(Status.Renewed, s.Put(KeyOf(t), LeaseRecord(token, ActiveLease, r.renewals + 1)), Some(token))
  }

  function Revoke(s: Sites, t: AuthorityToken): (Status, Sites) {
    if !t.StructurallyValid() then (Status.Invalid, s)
    else if KeyOf(t) !in s.leases then (Status.NotFound, s)
    else if s.leases[KeyOf(t)].token.leaseId != t.leaseId then (Status.Unauthorized, s)
    else (Status.Ok, s.Put(KeyOf(t), s.leases[KeyOf(t)].(state := RevokedLease)))
  }

  function Validate(s: Sites, t: AuthorityToken, now: int): Status {
    if !t.StructurallyValid() then Status.Invalid
    else if t.site !in s.epochs then Status.Unauthorized
    else if t.epoch < s.epochs[t.site] then Status.FencedEpoch
    else if t.epoch > s.epochs[t.site] then Status.Unauthorized
    else if KeyOf(t) !in s.leases || s.leases[KeyOf(t)].token.leaseId != t.leaseId then Status.Unauthorized
    else
      var r := s.leases[KeyOf(t)];
      if r.token.incarnation != t.incarnation then Status.FencedIncarnation
      else if t.generation < r.token.generation then Status.FencedGeneration
      else if r.state.RevokedLease? then Status.LeaseRevoked
      else if r.state.SupersededLease? then Status.AuthorityHeldElsewhere
      else r.token.EvaluateAt(now)
  }

  // ----- Runs ---------------------------------------------------------------

  datatype SiteEvent =
    | AcquireEvent(request: Request)
    | RenewEvent(token: AuthorityToken, now: i64, ttl: i64)
    | RevokeEvent(token: AuthorityToken)

  function SiteStep(s: Sites, e: SiteEvent): Sites {
    match e
    case AcquireEvent(q) => Acquire(s, q).sites
    case RenewEvent(t, now, ttl) => Renew(s, t, now, ttl).sites
    case RevokeEvent(t) => Revoke(s, t).1
  }

  function AfterEvents(s: Sites, events: seq<SiteEvent>): Sites {
    if events == [] then s else SiteStep(AfterEvents(s, events[..|events| - 1]), events[|events| - 1])
  }

  lemma AcquireKeeps(s: Sites, q: Request, site: Text, k: LeaseKey)
    ensures s.Epoch(site) <= Acquire(s, q).sites.Epoch(site)
    ensures s.Revoked(k) ==> Acquire(s, q).sites.Revoked(k)
  {
    hide Plus, ValidIdentifier;
  }

  lemma RenewKeeps(s: Sites, t: AuthorityToken, now: i64, ttl: i64, k: LeaseKey)
    ensures Renew(s, t, now, ttl).sites.epochs == s.epochs
    ensures s.Revoked(k) ==> Renew(s, t, now, ttl).sites.Revoked(k)
  {
    hide Plus, ValidIdentifier;
  }

  lemma StepKeepsEpochAndRevocation(s: Sites, e: SiteEvent, site: Text, k: LeaseKey)
    ensures s.Epoch(site) <= SiteStep(s, e).Epoch(site)
    ensures s.Revoked(k) ==> SiteStep(s, e).Revoked(k)
  {
    match e
    case AcquireEvent(q) => AcquireKeeps(s, q, site, k);
    case RenewEvent(t, now, ttl) => RenewKeeps(s, t, now, ttl, k);
    case RevokeEvent(t) =>
    hide Acquire, Renew;
  }

  lemma {:induction false} RunKeepsEpochAndRevocation(s: Sites, events: seq<SiteEvent>, site: Text, k: LeaseKey)
    ensures s.Epoch(site) <= AfterEvents(s, events).Epoch(site)
    ensures s.Revoked(k) ==> AfterEvents(s, events).Revoked(k)
  {
    if events != [] {
      RunKeepsEpochAndRevocation(s, events[..|events| - 1], site, k);
      StepKeepsEpochAndRevocation(AfterEvents(s, events[..|events| - 1]), events[|events| - 1], site, k);
    }
  }

  /** A lower epoch is fenced forever: whatever happens after an epoch was
      observed, no lower one is granted, renewed or found valid. */
  lemma LowerEpochNeverReturns(s: Sites, events: seq<SiteEvent>, q: Request, t: AuthorityToken, now: i64, ttl: i64)
    requires q.epoch < s.Epoch(q.site) && t.epoch < s.Epoch(t.site)
    ensures !Acquire(AfterEvents(s, events), q).status.IsOk()
    ensures !Renew(AfterEvents(s, events), t, now, ttl).status.IsOk()
    ensures !Validate(AfterEvents(s, events), t, now).IsOk()
  {
    RunKeepsEpochAndRevocation(s, events, q.site, q.Key());
    RunKeepsEpochAndRevocation(s, events, t.site, KeyOf(t));
    hide AfterEvents, Plus;
  }

  /** A revoked lease never returns: whatever happens after the revocation, its
      holder is not granted the site again, and its token is neither renewed nor
      valid. */
  lemma RevokedLeaseNeverReturns(s: Sites, events: seq<SiteEvent>, q: Request, t: AuthorityToken, now: i64, ttl: i64)
    requires s.Revoked(q.Key()) && s.Revoked(KeyOf(t))
    ensures !Acquire(AfterEvents(s, events), q).status.IsOk()
    ensures !Renew(AfterEvents(s, events), t, now, ttl).status.IsOk()
    ensures !Validate(AfterEvents(s, events), t, now).IsOk()
  {
    RunKeepsEpochAndRevocation(s, events, q.site, q.Key());
    RunKeepsEpochAndRevocation(s, events, t.site, KeyOf(t));
    hide AfterEvents, Plus;
  }

  // ----- Lease numbers ------------------------------------------------------

  /** The number a grant to this request carries: its lease's own, or the next. */
  function NumberFor(s: Sites, q: Request): u64 {
    if q.Key() in s.leases then s.leases[q.Key()].token.leaseId else s.nextLeaseId
  }

  /** Zero, which no valid token carries, neither was issued nor comes next. */
  ghost predicate Numbered(s: Sites) {
    s.nextLeaseId != 0 && forall k | k in s.leases :: s.leases[k].token.leaseId != 0
  }

  /** The event is granted a lease number that was not in use. */
  predicate TakesNumber(s: Sites, e: SiteEvent) {
    e.AcquireEvent? && e.request.Key() !in s.leases && Acquire(s, e.request).status == Status.Granted
  }

  function NumbersTaken(s: Sites, events: seq<SiteEvent>): nat {
    if events == [] then 0
    else
      var front := events[..|events| - 1];
      NumbersTaken(s, front) + (if TakesNumber(AfterEvents(s, front), events[|events| - 1]) then 1 else 0)
  }

  ghost predicate HasLease(s: Sites, k: LeaseKey, leaseId: u64) { k in s.leases && s.leases[k].token.leaseId == leaseId }

  function KeyFor(e: SiteEvent): LeaseKey {
    match e
    case AcquireEvent(q) => q.Key() case RenewEvent(t, _, _) => KeyOf(t) case RevokeEvent(t) => KeyOf(t)
  }

  lemma NewNumbers(s: Sites, q: Request)
    requires q.Key() !in s.leases
    ensures var g := AcquireNew(s, q);
            var anew := g.status == Status.Granted;
            && g.sites.nextLeaseId == (if anew then Wrap64(s.nextLeaseId + 1) else s.nextLeaseId)
            && forall k, n :: HasLease(g.sites, k, n) <==> HasLease(s, k, n) || (anew && k == q.Key() && n == s.nextLeaseId)
  {
    hide Plus, Wrap64;
    var g := AcquireNew(s, q);
    if g.status == Status.Granted {
      forall k, n ensures HasLease(g.sites, k, n) <==> HasLease(s, k, n) || (k == q.Key() && n == s.nextLeaseId) {
        assert HasLease(Cleared(s, q), k, n) <==> HasLease(s, k, n);
      }
    }
  }

  lemma HeldNumbers(s: Sites, q: Request)
    requires q.Key() in s.leases
    ensures var g := AcquireHeld(s, q);
            g.sites.nextLeaseId == s.nextLeaseId && forall k, n :: HasLease(g.sites, k, n) <==> HasLease(s, k, n)
  {
    hide Plus;
  }

  /** Granting uses up a number only for a new lease, and no lease is renumbered. */
  lemma AcquireNumbers(s: Sites, q: Request)
    ensures var t, anew := Acquire(s, q).sites, TakesNumber(s, AcquireEvent(q));
            && t.nextLeaseId == (if anew then Wrap64(s.nextLeaseId + 1) else s.nextLeaseId)
            && forall k, n :: HasLease(t, k, n) <==> HasLease(s, k, n) || (anew && k == q.Key() && n == s.nextLeaseId)
  {
    hide Plus, ValidIdentifier, AcquireNew, AcquireHeld, Wrap64;
    var known := s.Epoch(q.site);
    var seen := Sites(s.leases, s.epochs[q.site := if q.epoch > known then q.epoch else known], s.controllers, s.nextLeaseId);
    forall k, n ensures HasLease(seen, k, n) <==> HasLease(s, k, n) {}
    if q.Key() in s.leases { HeldNumbers(seen, q); } else { NewNumbers(seen, q); }
  }

  lemma RenewNumbers(s: Sites, t: AuthorityToken, now: i64, ttl: i64)
    ensures var r := Renew(s, t, now, ttl).sites;
            r.nextLeaseId == s.nextLeaseId && forall k, n :: HasLease(r, k, n) <==> HasLease(s, k, n)
  {
    hide Plus, ValidIdentifier;
  }

  lemma StepNumbers(s: Sites, e: SiteEvent)
    ensures var t, anew := SiteStep(s, e), TakesNumber(s, e);
            && t.nextLeaseId == (if anew then Wrap64(s.nextLeaseId + 1) else s.nextLeaseId)
            && forall k, n :: HasLease(t, k, n) <==>
                 HasLease(s, k, n) || (anew && k == KeyFor(e) && n == s.nextLeaseId)
  {
    match e
    case AcquireEvent(q) => AcquireNumbers(s, q);
    case RenewEvent(t, now, ttl) => RenewNumbers(s, t, now, ttl);
    case RevokeEvent(t) =>
    hide Acquire, Renew;
  }

  ghost predicate ZeroIssued(s: Sites) { exists k :: HasLease(s, k, 0) }

  /** The next number counts the numbers taken, and zero is issued only after all
      the others were. */
  lemma {:induction false} NumbersAreCounted(events: seq<SiteEvent>)
    ensures var s, n := AfterEvents(NO_SITES, events), NumbersTaken(NO_SITES, events);
            s.nextLeaseId == Wrap64(n + 1) && (ZeroIssued(s) <==> n > MAX_U64)
  {
    hide SiteStep, TakesNumber;
    if events != [] {
      var front, e := events[..|events| - 1], events[|events| - 1];
      NumbersAreCounted(front);
      var s := AfterEvents(NO_SITES, front);
      StepNumbers(s, e);
      var n := NumbersTaken(NO_SITES, front);
      hide AfterEvents, NumbersTaken, HasLease;
      ZeroStep(s, SiteStep(s, e), TakesNumber(s, e), KeyFor(e));
      WrapsAt(n);
    }
  }

  lemma ZeroStep(s: Sites, t: Sites, anew: bool, key: LeaseKey)
    requires forall k, n :: HasLease(t, k, n) <==> HasLease(s, k, n) || (anew && k == key && n == s.nextLeaseId)
    ensures ZeroIssued(t) <==> ZeroIssued(s) || (anew && s.nextLeaseId == 0)
  {
    hide HasLease;
    if anew && s.nextLeaseId == 0 { assert HasLease(t, key, 0); }
    if k :| HasLease(s, k, 0) { assert HasLease(t, k, 0); }
  }

  lemma WrapsAt(n: nat)
    ensures Wrap64(Wrap64(n + 1) + 1) == Wrap64(n + 2)
    ensures n <= MAX_U64 ==> (Wrap64(n + 1) == 0 <==> n == MAX_U64)
  {
  }

  /** A registry is numbered exactly as long as it issued fewer than 2^64 - 1 lease
      numbers; from then on it hands out the number zero, or has done so. */
  lemma NumberedIff(events: seq<SiteEvent>)
    ensures Numbered(AfterEvents(NO_SITES, events)) <==> NumbersTaken(NO_SITES, events) < MAX_U64
  {
    var s, n := AfterEvents(NO_SITES, events), NumbersTaken(NO_SITES, events);
    NumbersAreCounted(events);
    WrapsAt(n);
    hide AfterEvents, NumbersTaken, Wrap64;
    forall k | k in s.leases ensures HasLease(s, k, s.leases[k].token.leaseId) {}
  }

  // ----- What a grant is worth ----------------------------------------------

  /** The token says what was asked for, from now on and as long as asked, under the
      number. */
  predicate IssuedFor(t: AuthorityToken, q: Request, leaseId: u64) {
    && t.kind == SiteControllerKind && t.holder == q.holder && t.site == q.site && t.epoch == q.epoch
    && t.incarnation == q.incarnation && t.generation == q.generation && t.leaseId == leaseId
    && t.issuedAt == q.now && (q.now + q.ttl <= 0x7FFF_FFFF_FFFF_FFFF ==> t.expiresAt == q.now + q.ttl)
  }

  /** The site of the request aside, nothing but leases changes. */
  ghost predicate OnlyAt(site: Text, s: Sites, g: Grant) {
    && g.sites.epochs == s.epochs
    && (forall x | x != site :: x in g.sites.controllers <==> x in s.controllers)
    && (forall x | x != site && x in s.controllers :: g.sites.controllers[x] == s.controllers[x])
    && (g.status != Status.Granted ==> g.sites.controllers == s.controllers && g.sites.nextLeaseId == s.nextLeaseId)
  }

  lemma NewKeeps(s: Sites, q: Request)
    ensures OnlyAt(q.site, s, AcquireNew(s, q))
  {
    hide Plus, Wrap64;
  }

  lemma HeldKeeps(s: Sites, q: Request)
    requires q.Key() in s.leases
    ensures OnlyAt(q.site, s, AcquireHeld(s, q))
  {
    hide Plus;
  }

  /** What asking for a site does whether or not it is granted: a sound request makes its
      epoch the one observed last, unless a later one was; no other site is affected. */
  lemma AcquireObserves(s: Sites, q: Request)
    ensures var t := Acquire(s, q).sites;
            && (forall site | site != q.site :: t.Epoch(site) == s.Epoch(site))
            && t.Epoch(q.site) == (if q.Valid() && s.Epoch(q.site) < q.epoch then q.epoch else s.Epoch(q.site))
            && (forall site | site != q.site :: site in t.controllers <==> site in s.controllers)
            && (forall site | site != q.site && site in s.controllers :: t.controllers[site] == s.controllers[site])
            && (Acquire(s, q).status != Status.Granted ==> t.controllers == s.controllers && t.nextLeaseId == s.nextLeaseId)
  {
    hide Plus, ValidIdentifier, AcquireNew, AcquireHeld;
    var known := s.Epoch(q.site);
    var seen := Sites(s.leases, s.epochs[q.site := if q.epoch > known then q.epoch else known], s.controllers, s.nextLeaseId);
    if q.Key() in s.leases { HeldKeeps(seen, q); } else { NewKeeps(seen, q); }
  }

  /** What every grant hands out: the request's own token under its number,
      recorded active as the site's controller in the request's epoch. */
  lemma GrantedIsRecorded(s: Sites, q: Request)
    requires Acquire(s, q).status == Status.Granted
    ensures var g := Acquire(s, q);
            && g.token == Some(q.Token(NumberFor(s, q))) && IssuedFor(g.token.value, q, NumberFor(s, q))
            && q.site in g.sites.epochs && g.sites.epochs[q.site] == q.epoch
            && q.site in g.sites.controllers && g.sites.controllers[q.site] == q.Key()
            && q.Key() in g.sites.leases && g.sites.leases[q.Key()].token == g.token.value
            && g.sites.leases[q.Key()].state.ActiveLease?
  {
    hide Plus, ValidIdentifier, Wrap64;
    TokenIsIssued(q, NumberFor(s, q));
    hide IssuedFor;
  }

  /** A granted token validates at once exactly when its number is not zero and its
      expiry is within the clock; a controller of an older epoch never does. */
  lemma GrantedTokenValidates(s: Sites, q: Request, older: AuthorityToken)
    requires Acquire(s, q).status == Status.Granted
    requires older.site == q.site && older.epoch < q.epoch
    ensures var g := Acquire(s, q);
            && g.token.Some?
            && (Validate(g.sites, g.token.value, q.now) == Status.Ok <==>
                  NumberFor(s, q) != 0 && q.now + q.ttl <= 0x7FFF_FFFF_FFFF_FFFF)
            && !Validate(g.sites, older, q.now).IsOk()
  {
    GrantedIsRecorded(s, q);
    hide *;
    GrantedWasValid(s, q);
    var g := Acquire(s, q);
    TokenStands(q, NumberFor(s, q));
    if g.token.value.StructurallyValid() {
      RecordedValidates(g.sites, g.token.value, q.now);
    } else {
      InvalidIsRefused(g.sites, g.token.value, q.now);
    }
    TokenIs(q, NumberFor(s, q));
    OlderIsFenced(g.sites, older, q.now);
  }

  lemma TokenIsIssued(q: Request, leaseId: u64)
    requires q.Valid()
    ensures IssuedFor(q.Token(leaseId), q, leaseId)
  {
    hide ValidIdentifier;
  }

  lemma TokenIs(q: Request, leaseId: u64)
    ensures var t := q.Token(leaseId); KeyOf(t) == q.Key() && t.site == q.site && t.epoch == q.epoch
  {
  }

  lemma InvalidIsRefused(s: Sites, t: AuthorityToken, now: int)
    requires !t.StructurallyValid()
    ensures Validate(s, t, now) == Status.Invalid
  {
  }

  /** Over every run that issued fewer than 2^64 - 1 numbers, every grant validates
      at once if its expiry is within the clock. */
  lemma GrantsOfARunValidate(events: seq<SiteEvent>, q: Request, older: AuthorityToken)
    requires NumbersTaken(NO_SITES, events) < MAX_U64
    requires Acquire(AfterEvents(NO_SITES, events), q).status == Status.Granted
    requires older.site == q.site && older.epoch < q.epoch && q.now + q.ttl <= 0x7FFF_FFFF_FFFF_FFFF
    ensures var g := Acquire(AfterEvents(NO_SITES, events), q);
            && g.token.Some? && Validate(g.sites, g.token.value, q.now) == Status.Ok
            && !Validate(g.sites, older, q.now).IsOk()
  {
    hide AfterEvents, NumbersTaken, Acquire, Validate;
    NumberedIff(events);
    GrantedTokenValidates(AfterEvents(NO_SITES, events), q, older);
  }

  lemma GrantedWasValid(s: Sites, q: Request)
    requires Acquire(s, q).status == Status.Granted
    ensures q.Valid()
  {
    hide ValidIdentifier;
  }

  /** A token is sound unless it has no number or its expiry wrapped. */
  lemma TokenStands(q: Request, leaseId: u64)
    requires q.Valid()
    ensures var t := q.Token(leaseId);
            && (t.StructurallyValid() <==> leaseId != 0 && q.now + q.ttl <= 0x7FFF_FFFF_FFFF_FFFF)
            && (t.StructurallyValid() ==> t.EvaluateAt(q.now) == Status.Ok)
            && KeyOf(t) == q.Key() && t.site == q.site && t.epoch == q.epoch
  {
    hide ValidIdentifier;
  }

  lemma RecordedValidates(s: Sites, t: AuthorityToken, now: int)
    requires t.StructurallyValid() && t.EvaluateAt(now) == Status.Ok
    requires t.site in s.epochs && s.epochs[t.site] == t.epoch
    requires KeyOf(t) in s.leases && s.leases[KeyOf(t)].token == t && s.leases[KeyOf(t)].state.ActiveLease?
    ensures Validate(s, t, now) == Status.Ok
  {
    hide ValidIdentifier;
  }

  lemma OlderIsFenced(s: Sites, t: AuthorityToken, now: int)
    requires t.site in s.epochs && t.epoch < s.epochs[t.site]
    ensures !Validate(s, t, now).IsOk()
  {
    hide ValidIdentifier;
  }

  // ----- The registry -------------------------------------------------------

  class AuthorityRegistry {
    var leases: map<LeaseKey, LeaseRecord>
    var siteEpochs: map<Text, u64>
    var siteControllers: map<Text, LeaseKey>
    var nextLeaseId: u64
    var domains: map<MemberDomainKey, DomainState>
    var tombstones: map<MemberDomainKey, set<Text>>

    function SiteState(): Sites
      reads this
    {
      Sites(leases, siteEpochs, siteControllers, nextLeaseId)
    }

    function MemberState(): Members
      reads this
    {
      Members(domains, tombstones)
    }

    constructor ()
      ensures SiteState() == NO_SITES && MemberState() == NOBODY
    {
      leases, siteEpochs, siteControllers, nextLeaseId := map[], map[], map[], 1;
      domains, tombstones := map[], map[];
    }

    method AcquireSiteAuthority(q: Request) returns (status: Status, token: Option<AuthorityToken>)
      modifies this`leases, this`siteEpochs, this`siteControllers, this`nextLeaseId
      ensures Grant(status, SiteState(), token) == Acquire(old(SiteState()), q)
    {
      hide Plus, ValidIdentifier, AcquireNew, AcquireHeld;
      token := None;
      if !q.Valid() { return Status.Invalid, None; }
      var known := if q.site in siteEpochs then siteEpochs[q.site] else 0;
      siteEpochs := siteEpochs[q.site := known];
      if known != 0 && q.epoch < known {
        assert siteEpochs == old(siteEpochs)[q.site := if q.epoch > known then q.epoch else known];
        return Status.FencedEpoch, None;
      }
      if q.epoch > known { siteEpochs := siteEpochs[q.site := q.epoch]; }
      assert siteEpochs == old(siteEpochs)[q.site := if q.epoch > known then q.epoch else known];
      if q.Key() in leases {
        status, token := RetakeLease(q);
      } else {
        status, token := TakeVacantSite(q);
      }
    }

    method RetakeLease(q: Request) returns (status: Status, token: Option<AuthorityToken>)
      requires q.Key() in leases
      modifies this`leases, this`siteControllers
      ensures Grant(status, SiteState(), token) == AcquireHeld(old(SiteState()), q)
    {
      hide Plus, ValidIdentifier;
      var record := leases[q.Key()];
      if record.state.RevokedLease? { return Status.LeaseRevoked, None; }
      if record.token.incarnation != q.incarnation {
        if record.state.ActiveLease? && record.token.expiresAt >= q.now { return Status.AuthorityHeldElsewhere, None; }
        if record.token.incarnation.sequence >= q.incarnation.sequence { return Status.FencedIncarnation, None; }
        record := record.(state := SupersededLease);
      }
      if q.generation < record.token.generation {
        leases := leases[q.Key() := record];
        return Status.FencedGeneration, None;
      }
      record := LeaseRecord(q.Token(record.token.leaseId), ActiveLease, record.renewals);
      leases := leases[q.Key() := record];
      siteControllers := siteControllers[q.site := q.Key()];
      return Status.Granted, Some(record.token);
    }

    method TakeVacantSite(q: Request) returns (status: Status, token: Option<AuthorityToken>)
      requires q.Key() !in leases
      modifies this`leases, this`siteControllers, this`nextLeaseId
      ensures Grant(status, SiteState(), token) == AcquireNew(old(SiteState()), q)
    {
      hide Plus, ObstacleTo, Cleared;
      status := ClearSite(q);
      if status != Status.Ok { return status, None; }
      var granted := q.Token(nextLeaseId);
      nextLeaseId := Wrap64(nextLeaseId + 1);
      leases := leases[q.Key() := LeaseRecord(granted, ActiveLease, 0)];
      siteControllers := siteControllers[q.site := q.Key()];
      return Status.Granted, Some(granted);
    }

    /** Supersedes the site's previous controller, unless it still stands. */
    method ClearSite(q: Request) returns (status: Status)
      modifies this`leases
      ensures status == ObstacleTo(old(SiteState()), q)
      ensures SiteState() == if status == Status.Ok then Cleared(old(SiteState()), q) else old(SiteState())
    {
      if q.site in siteControllers && siteControllers[q.site] != q.Key() {
        var controller := siteControllers[q.site];
        if controller in leases {
          var other := leases[controller];
          if other.state.ActiveLease? && other.token.expiresAt >= q.now { return Status.AuthorityHeldElsewhere; }
          if other.state.RevokedLease? { return Status.LeaseRevoked; }
          if other.token.incarnation.sequence >= q.incarnation.sequence { return Status.FencedIncarnation; }
          leases := leases[controller := other.(state := SupersededLease)];
        }
      }
      return Status.Ok;
    }

    method RenewLease(t: AuthorityToken, now: i64, ttl: i64) returns (status: Status, token: Option<AuthorityToken>)
      modifies this`leases
      ensures Grant(status, SiteState(), token) == Renew(old(SiteState()), t, now, ttl)
    {
      hide Plus;
      if !t.StructurallyValid() || ttl <= 0 || now <= 0 { return Status.Invalid, None; }
      if t.site in siteEpochs && t.epoch < siteEpochs[t.site] { return Status.FencedEpoch, None; }
      if KeyOf(t) !in leases { return Status.Unauthorized, None; }
      var record := leases[KeyOf(t)];
      if record.token.leaseId != t.leaseId { return Status.Unauthorized, None; }
      if record.token.incarnation != t.incarnation { return Status.FencedIncarnation, None; }
      if record.token.generation != t.generation { return Status.FencedGeneration, None; }
      if record.state.RevokedLease? { return Status.LeaseRevoked, None; }
      var evaluated := record.token.EvaluateAt(now);
      if evaluated == Status.LeaseExpired {
        leases := leases[KeyOf(t) := record.(state := ExpiredLease)];
        return Status.LeaseExpired, None;
      }
      if !evaluated.IsOk() { return evaluated, None; }
      record := LeaseRecord(record.token.(expiresAt := Plus(now, ttl), issuedAt := now), ActiveLease, record.renewals + 1);
      leases := leases[KeyOf(t) := record];
      return Status.Renewed, Some(record.token);
    }

    method RevokeLease(t: AuthorityToken) returns (status: Status)
      modifies this`leases
      ensures (status, SiteState()) == Revoke(old(SiteState()), t)
    {
      if !t.StructurallyValid() { return Status.Invalid; }
      if KeyOf(t) !in leases { return Status.NotFound; }
      if leases[KeyOf(t)].token.leaseId != t.leaseId { return Status.Unauthorized; }
      leases := leases[KeyOf(t) := leases[KeyOf(t)].(state := RevokedLease)];
      return Status.Ok;
    }

    method AdmitMemberIncarnation(d: MemberDomainKey, incarnation: Incarnation, now: int)
        returns (status: Status, issued: Option<u64>)
      modifies this`domains, this`tombstones
      ensures Admission(status, MemberState(), issued) == Admit(old(MemberState()), d, incarnation, now)
    {
      hide Printed;
      if !d.Valid() || !ValidIdentifier(incarnation.boot) || now <= 0 { return Status.Invalid, None; }
      if d !in domains { domains := domains[d := NEW_DOMAIN]; }
      var state := domains[d];
      var candidate := incarnation;
      if candidate.sequence == 0 { candidate := candidate.(sequence := state.nextSequence); }
      if d in tombstones && Printed(candidate) in tombstones[d] { return Status.FencedIncarnation, None; }
      if state.hasLive {
        if state.live == candidate { return Status.AlreadyExists, Some(candidate.sequence); }
        if candidate.sequence < state.live.sequence { return Status.FencedIncarnation, None; }
        if candidate.sequence == state.live.sequence { return Status.FencedIncarnation, None; }
        tombstones := tombstones[d := (if d in tombstones then tombstones[d] else {}) + {Printed(state.live)}];
      } else if candidate.sequence < state.nextSequence {
        return Status.FencedIncarnation, None;
      }
      state := state.(live := candidate, hasLive := true, nextSequence := Wrap64(candidate.sequence + 1),
                      published := false, generation := 0, digest := ZERO_DIGEST, attempt := PublishAttempt(0, 0));
      domains := domains[d := state];
      return Status.Ok, Some(candidate.sequence);
    }

    method RetireMemberIncarnation(d: MemberDomainKey, incarnation: Incarnation) returns (status: Status)
      modifies this`domains, this`tombstones
      ensures (status, MemberState()) == Retire(old(MemberState()), d, incarnation)
    {
      hide Printed;
      if !d.Valid() || !incarnation.Valid() { return Status.Invalid; }
      tombstones := tombstones[d := (if d in tombstones then tombstones[d] else {}) + {Printed(incarnation)}];
      if d in domains && domains[d].hasLive && domains[d].live == incarnation {
        domains := domains[d := domains[d].(hasLive := false)];
      }
      return Status.Ok;
    }

    method RecordPublication(o: Offer) returns (status: Status)
      modifies this`domains
      ensures (status, MemberState()) == Record(old(MemberState()), o)
    {
      if !o.domain.Valid() || o.generation == 0 || o.digest == ZERO_DIGEST { return Status.Invalid; }
      var state := if o.domain in domains then domains[o.domain] else NEW_DOMAIN;
      domains := domains[o.domain := state.(observedEpoch := o.epoch, generation := o.generation,
        digest := o.digest, attempt := o.attempt, published := true)];
      return Status.Ok;
    }

    method MemberIncarnationLive(d: MemberDomainKey, incarnation: Incarnation) returns (live: bool)
      ensures live <==> MemberState().Live(d, incarnation)
    {
      hide Printed;
      if d in tombstones && Printed(incarnation) in tombstones[d] { return false; }
      return d in domains && domains[d].hasLive && domains[d].live == incarnation;
    }

    /** The fences in order: the dead, the epoch, the generation, the attempt. */
    method FencePublication(o: Offer) returns (status: Status)
      ensures status == Fence(MemberState(), o)
    {
      hide Printed, ValidIdentifier;
      if !o.domain.Valid() || o.generation == 0 || o.digest == ZERO_DIGEST || !o.attempt.Valid() { return Status.Invalid; }
      if o.domain in tombstones && Printed(o.incarnation) in tombstones[o.domain] { return Status.FencedIncarnation; }
      if o.domain !in domains || !domains[o.domain].hasLive { return Status.Unauthorized; }
      var state := domains[o.domain];
      if state.live != o.incarnation { return Status.FencedIncarnation; }
      if state.observedEpoch != 0 && o.epoch < state.observedEpoch { return Status.FencedEpoch; }
      if state.published {
        if o.generation < state.generation { return Status.FencedGeneration; }
        if o.generation == state.generation {
          if o.digest != state.digest { return Status.FencedGeneration; }
          if o.attempt.sequence < state.attempt.sequence { return Status.Replayed; }
          if o.attempt.sequence == state.attempt.sequence && o.attempt.attempt <= state.attempt.attempt {
            return Status.FencedAttempt;
          }
        }
        if o.attempt.sequence != 0 && o.attempt.sequence < state.attempt.sequence { return Status.Replayed; }
      }
      return Status.Ok;
    }

    /** Applies the fences and, when they pass, records the publication. */
    method PublishOnce(o: Offer) returns (status: Status)
      modifies this`domains
      ensures status == Fence(old(MemberState()), o)
      ensures MemberState() == if status.IsOk() then Record(old(MemberState()), o).1 else old(MemberState())
    {
      status := FencePublication(o);
      if status.IsOk() {
        var recorded := RecordPublication(o);
      }
    }
  }
}
