/** Why a call is refused: for every refusal of the registries and of the chain, exactly
    when it is the answer. */
module Refusals {
  import opened Model
  import opened Authority
  import opened Chain
  import opened LeaseRuns
  import Fencing

  // ----- Publications ---------------------------------------------------------

  lemma PublicationRefused(m: Fencing.Members, o: Fencing.Offer)
    ensures var f, s := Fencing.Fence(m, o), m.At(o.domain);
            var sound, alive := Fencing.SoundOffer(o), !m.Dead(o.domain, o.incarnation);
            var mine := sound && alive && s.hasLive && s.live == o.incarnation;
            var timely := mine && s.observedEpoch <= o.epoch;
            var same := o.generation == s.generation && o.digest == s.digest;
            && (f == Status.Invalid <==> !sound)
            && (f == Status.FencedIncarnation <==> sound && (!alive || (s.hasLive && s.live != o.incarnation)))
            && (f == Status.Unauthorized <==> sound && alive && !s.hasLive)
            && (f == Status.FencedEpoch <==> mine && o.epoch < s.observedEpoch)
            && (f == Status.FencedGeneration <==>
                  timely && s.published && !same && o.generation <= s.generation)
            && (f == Status.Replayed <==>
                  && timely && s.published && (same || s.generation < o.generation)
                  && o.attempt.sequence < s.attempt.sequence)
            && (f == Status.FencedAttempt <==>
                  && timely && s.published && same
                  && o.attempt.sequence == s.attempt.sequence && o.attempt.attempt <= s.attempt.attempt)
  {
    hide Fencing.Printed, ValidIdentifier;
  }

  // ----- Leases ---------------------------------------------------------------

  /** The lease is active and its term is not over. */
  predicate Holds(r: LeaseRecord, now: int) { r.state.ActiveLease? && now <= r.token.expiresAt }

  predicate Timely(s: Sites, q: Request) { SoundRequest(q) && s.Epoch(q.site) <= q.epoch }

  lemma RequestRefused(s: Sites, q: Request)
    ensures Acquire(s, q).status == Status.Invalid <==> !SoundRequest(q)
    ensures Acquire(s, q).status == Status.FencedEpoch <==> SoundRequest(q) && q.epoch < s.Epoch(q.site)
  {
    hide Plus, ValidIdentifier;
  }

  /** A holder without a lease: somebody else's unexpired lease, a revoked one, or one of
      no lower incarnation is in the way. */
  lemma TakingRefused(s: Sites, q: Request)
    requires q.Key() !in s.leases && Timely(s, q)
    ensures var a, held := Acquire(s, q).status, HeldByAnother(s, q);
            && (!held ==> a == Status.Granted)
            && (held ==>
                  var r := s.leases[s.controllers[q.site]];
                  var below := r.token.incarnation.sequence < q.incarnation.sequence;
                  && (a == Status.AuthorityHeldElsewhere <==> Holds(r, q.now))
                  && (a == Status.LeaseRevoked <==> r.state.RevokedLease?)
                  && (a == Status.FencedIncarnation <==> !Holds(r, q.now) && !r.state.RevokedLease? && !below)
                  && (a == Status.Granted <==> !Holds(r, q.now) && !r.state.RevokedLease? && below))
  {
    hide Plus, ValidIdentifier;
  }

  /** A holder with a lease of its own: it is revoked, another incarnation holds it or is
      not lower, or its generation is ahead. */
  lemma RetakingRefused(s: Sites, q: Request)
    requires q.Key() in s.leases && Timely(s, q)
    ensures var a, r := Acquire(s, q).status, s.leases[q.Key()];
            var other, revoked := r.token.incarnation != q.incarnation, r.state.RevokedLease?;
            var below := r.token.incarnation.sequence < q.incarnation.sequence;
            var admitted := !revoked && (!other || (!Holds(r, q.now) && below));
            && (a == Status.LeaseRevoked <==> revoked)
            && (a == Status.AuthorityHeldElsewhere <==> other && Holds(r, q.now))
            && (a == Status.FencedIncarnation <==> !revoked && other && !Holds(r, q.now) && !below)
            && (a == Status.FencedGeneration <==> admitted && q.generation < r.token.generation)
            && (a == Status.Granted <==> admitted && r.token.generation <= q.generation)
  {
    hide Plus, ValidIdentifier;
  }

  /** The lease recorded for the holder of the token goes by the number of the token. */
  predicate Recorded(s: Sites, t: AuthorityToken) { KeyOf(t) in s.leases && s.leases[KeyOf(t)].token.leaseId == t.leaseId }

  lemma RenewalRefused(s: Sites, t: AuthorityToken, now: i64, ttl: i64)
    ensures var a := Renew(s, t, now, ttl).status;
            var sound := SoundToken(t) && ttl > 0 && now > 0;
            && (!sound ==> a == Status.Invalid)
            && (a == Status.FencedEpoch <==> sound && t.epoch < s.Epoch(t.site))
            && (a == Status.Unauthorized <==> sound && s.Epoch(t.site) <= t.epoch && !Recorded(s, t))
            && (sound && s.Epoch(t.site) <= t.epoch && Recorded(s, t) ==>
                  var r := s.leases[KeyOf(t)];
                  var same := r.token.incarnation == t.incarnation && r.token.generation == t.generation;
                  && (a == Status.FencedIncarnation <==> r.token.incarnation != t.incarnation)
                  && (a == Status.FencedGeneration <==>
                        r.token.incarnation == t.incarnation && r.token.generation != t.generation)
                  && (a == Status.LeaseRevoked <==> same && r.state.RevokedLease?)
                  && (a == Status.LeaseExpired <==>
                        same && !r.state.RevokedLease? && SoundToken(r.token) && r.token.expiresAt < now)
                  && (a == Status.LeaseNotYetValid <==>
                        same && !r.state.RevokedLease? && SoundToken(r.token) && now < r.token.issuedAt)
                  && (a == Status.Invalid <==> same && !r.state.RevokedLease? && !SoundToken(r.token)))
  {
    StandsIff(t, now);
    if KeyOf(t) in s.leases { StandsIff(s.leases[KeyOf(t)].token, now); }
    hide Plus, ValidIdentifier, SoundToken;
  }

  lemma ValidationRefused(s: Sites, t: AuthorityToken, now: int)
    ensures var a, sound := Validate(s, t, now), SoundToken(t);
            var known := t.site in s.epochs && s.epochs[t.site] == t.epoch && Recorded(s, t);
            && (!sound ==> a == Status.Invalid)
            && (a == Status.FencedEpoch <==> sound && t.site in s.epochs && t.epoch < s.epochs[t.site])
            && (a == Status.Unauthorized <==> sound && !known && (t.site in s.epochs ==> s.epochs[t.site] <= t.epoch))
            && (sound && known ==>
                  var r := s.leases[KeyOf(t)];
                  var follows := r.token.incarnation == t.incarnation && r.token.generation <= t.generation;
                  && (a == Status.FencedIncarnation <==> r.token.incarnation != t.incarnation)
                  && (a == Status.FencedGeneration <==>
                        r.token.incarnation == t.incarnation && t.generation < r.token.generation)
                  && (a == Status.LeaseRevoked <==> follows && r.state.RevokedLease?)
                  && (a == Status.AuthorityHeldElsewhere <==> follows && r.state.SupersededLease?)
                  && (a == Status.LeaseExpired <==>
                        && follows && !r.state.RevokedLease? && !r.state.SupersededLease?
                        && SoundToken(r.token) && r.token.expiresAt < now)
                  && (a == Status.LeaseNotYetValid <==>
                        && follows && !r.state.RevokedLease? && !r.state.SupersededLease?
                        && SoundToken(r.token) && now < r.token.issuedAt)
                  && (a == Status.Invalid <==>
                        follows && !r.state.RevokedLease? && !r.state.SupersededLease? && !SoundToken(r.token)))
  {
    StandsIff(t, now);
    if KeyOf(t) in s.leases { StandsIff(s.leases[KeyOf(t)].token, now); }
    hide ValidIdentifier, SoundToken;
  }

  lemma RevocationRefused(s: Sites, t: AuthorityToken)
    ensures var a := Revoke(s, t).0;
            && (a == Status.Invalid <==> !SoundToken(t))
            && (a == Status.NotFound <==> SoundToken(t) && KeyOf(t) !in s.leases)
            && (a == Status.Unauthorized <==> SoundToken(t) && KeyOf(t) in s.leases && !Recorded(s, t))
  {
    StandsIff(t, 0);
    hide ValidIdentifier, SoundToken;
  }

  // ----- Snapshots ------------------------------------------------------------

  /** What the screen finds wrong with a snapshot or its token. */
  lemma ScreenRefused(env: ChainEnv, s: Snapshot, token: AuthorityToken, now: int)
    ensures var a := Screened(env, s, token, now);
            var named := ValidIdentifier(s.site) && s.epoch != 0;
            var ours := named && token.site == s.site;
            var agree := s.state.site == s.site && s.state.epoch == s.epoch && s.state.generation == s.generation;
            && (a == Status.SiteMismatch <==> named && token.site != s.site)
            && (a == Status.LeaseNotYetValid <==> ours && SoundToken(token) && now < token.issuedAt)
            && (a == Status.LeaseExpired <==> ours && SoundToken(token) && token.expiresAt < now)
            && (a == Status.Invalid <==> !named || (ours && (!SoundToken(token) || (Stands(token, now) && !agree))))
            && (a == Status.IntegrityFailure <==>
                  ours && Stands(token, now) && agree && s.siteDigest != ZERO_DIGEST && s.siteDigest != env.digestOf(s.state))
  {
    StandsIff(token, now);
    hide ValidIdentifier;
  }

  /** What keeps an entitled snapshot from going past the last entry. */
  lemma EntryRefused(env: ChainEnv, history: seq<Snapshot>, s: Snapshot, token: AuthorityToken, now: int)
    requires history != [] && Entitled(env, s, token, now)
    ensures var a, last := VerdictOn(env, history, s, token, now), history[|history| - 1];
            var level := token.epoch == last.epoch;
            var mine := token.incarnation == last.incarnation;
            && (a == Status.FencedEpoch <==> token.epoch < last.epoch)
            && (a == Status.FencedIncarnation <==>
                  level && !mine && token.incarnation.sequence < last.incarnation.sequence)
            && (a == Status.FencedGeneration <==>
                  && level && mine && token.generation <= last.generation
                  && !(token.generation == last.generation && env.digestOf(s.state) == last.siteDigest))
  {
    EntitledIff(env, s, token, now);
    hide Entitled, Screened;
  }
}
