/** The snapshot chain: where a stale controller is stopped. */
module Chain {
  import opened Model
  import opened Membership
  import opened Decisions

  const DEFAULT_SNAPSHOT_HISTORY := 256
  const MAX_SNAPSHOT_HISTORY := 4096

  datatype Snapshot = Snapshot(
    site: Text, epoch: u64, generation: u64, incarnation: Incarnation, sequence: u64, siteDigest: Digest,
    snapshotDigest: Digest, publishedAt: i64, lifecycle: SiteLifecycle, status: Status, complete: bool,
    sources: set<SourceRef>, state: ComposedSite)

  /** The digest of a composed site and that of a snapshot's envelope. */
  datatype ChainEnv = ChainEnv(digestOf: ComposedSite -> Digest, envelopeOf: Snapshot -> Digest)

  function LimitFor(n: u32): (limit: nat)
    ensures 1 <= limit <= MAX_SNAPSHOT_HISTORY
  {
    if n == 0 then DEFAULT_SNAPSHOT_HISTORY else if n > MAX_SNAPSHOT_HISTORY then MAX_SNAPSHOT_HISTORY else n
  }

  /** The snapshot as the chain numbers and digests it. */
  function Stamped(env: ChainEnv, s: Snapshot, sequence: u64): (r: Snapshot)
    ensures r.sequence == sequence && r.epoch == s.epoch && r.incarnation == s.incarnation && r.generation == s.generation
    ensures r.state == s.state && r.siteDigest == env.digestOf(s.state) && r.site == s.site
  {
    var numbered := s.(sequence := sequence, siteDigest := env.digestOf(s.state));
    numbered.(snapshotDigest := env.envelopeOf(numbered))
  }

  function Newest(history: seq<Snapshot>, limit: nat): (r: seq<Snapshot>)
    ensures |r| <= limit
    ensures |history| <= limit ==> r == history
  {
    if |history| > limit then history[|history| - limit..] else history
  }

  // ----- What one call decides ----------------------------------------------

  /** The checks before the chain itself is consulted. */
  function Screened(env: ChainEnv, s: Snapshot, token: AuthorityToken, now: int): Status {
    if !ValidIdentifier(s.site) || s.epoch == 0 then Status.Invalid
    else if token.site != s.site then Status.SiteMismatch
    else if !token.EvaluateAt(now).IsOk() then token.EvaluateAt(now)
    else if s.state.site != s.site then Status.Invalid
    else if s.state.epoch != s.epoch || s.state.generation != s.generation then Status.Invalid
    else if s.siteDigest != ZERO_DIGEST && env.digestOf(s.state) != s.siteDigest then Status.IntegrityFailure
    else Status.Ok
  }

  /** Whether a snapshot advances past the one the chain accepted last. */
  function Fenced(env: ChainEnv, current: Snapshot, s: Snapshot, token: AuthorityToken): Status {
    if token.epoch < current.epoch then Status.FencedEpoch
    else if token.epoch == current.epoch && token.incarnation != current.incarnation then
      (if token.incarnation.sequence < current.incarnation.sequence then Status.FencedIncarnation else Status.Published)
    else if token.epoch == current.epoch && token.generation < current.generation then Status.FencedGeneration
    else if token.epoch == current.epoch && token.generation == current.generation then
      (if env.digestOf(s.state) == current.siteDigest then Status.AlreadyExists else Status.FencedGeneration)
    else Status.Published
  }

  function VerdictOn(env: ChainEnv, history: seq<Snapshot>, s: Snapshot, token: AuthorityToken, now: int): Status {
    var screened := Screened(env, s, token, now);
    if screened != Status.Ok then screened
    else if history == [] then Status.Published
    else Fenced(env, history[|history| - 1], s, token)
  }

  function NextSequence(history: seq<Snapshot>): u64 {
    if history == [] then 1 else Wrap64(history[|history| - 1].sequence + 1)
  }

  function RestoreVerdict(env: ChainEnv, history: seq<Snapshot>, s: Snapshot): Status {
    if !ValidIdentifier(s.site) || s.epoch == 0 || s.sequence == 0 then Status.Invalid
    else if env.digestOf(s.state) != s.siteDigest then Status.IntegrityFailure
    else if s.snapshotDigest != ZERO_DIGEST && env.envelopeOf(s) != s.snapshotDigest then Status.IntegrityFailure
    else if history != [] && s.sequence == history[|history| - 1].sequence then Status.AlreadyExists
    else if history != [] && s.sequence < history[|history| - 1].sequence then Status.Replayed
    else Status.Ok
  }

  // ----- The chain ----------------------------------------------------------

  class SnapshotChain {
    const env: ChainEnv
    var history: seq<Snapshot>
    var limit: nat
    var refusals: map<Status, nat>

    constructor (env: ChainEnv, historyLimit: u32)
      ensures this.env == env && history == [] && limit == LimitFor(historyLimit) && refusals == map[]
    {
      this.env, history, limit, refusals := env, [], LimitFor(historyLimit), map[];
    }

    method Refuse(code: Status)
      modifies this`refusals
      ensures refusals == old(refusals)[code := (if code in old(refusals) then old(refusals)[code] else 0) + 1]
    {
      refusals := refusals[code := (if code in refusals then refusals[code] else 0) + 1];
    }

    method Screen(s: Snapshot, token: AuthorityToken, now: int) returns (code: Status)
      ensures code == Screened(env, s, token, now)
    {
      hide ValidIdentifier;
      if !ValidIdentifier(s.site) || s.epoch == 0 { return Status.Invalid; }
      if token.site != s.site { return Status.SiteMismatch; }
      var evaluated := token.EvaluateAt(now);
      if !evaluated.IsOk() { return evaluated; }
      if s.state.site != s.site { return Status.Invalid; }
      if s.state.epoch != s.epoch || s.state.generation != s.generation { return Status.Invalid; }
      if s.siteDigest != ZERO_DIGEST && env.digestOf(s.state) != s.siteDigest { return Status.IntegrityFailure; }
      return Status.Ok;
    }

    /** Compares a candidate with the entry accepted last. */
    method Fence(current: Snapshot, candidate: Snapshot, token: AuthorityToken) returns (code: Status)
      requires candidate.siteDigest == env.digestOf(candidate.state)
      ensures code == Fenced(env, current, candidate, token)
    {
      if token.epoch < current.epoch { return Status.FencedEpoch; }
      if token.epoch == current.epoch {
        if token.incarnation != current.incarnation {
          if token.incarnation.sequence < current.incarnation.sequence { return Status.FencedIncarnation; }
        } else {
          if token.generation < current.generation { return Status.FencedGeneration; }
          if token.generation == current.generation {
            if candidate.siteDigest == current.siteDigest { return Status.AlreadyExists; }
            return Status.FencedGeneration;
          }
        }
      }
      return Status.Published;
    }

    /** Offers a snapshot; only one that strictly advances is appended. */
    method Publish(s: Snapshot, token: AuthorityToken, now: int) returns (status: Status, sequence: u64)
      modifies this`history, this`refusals
      ensures status == VerdictOn(env, old(history), s, token, now)
      ensures status == Status.Published ==>
        (&& sequence == NextSequence(old(history))
         && history == (if old(history) == [] then [Stamped(env, s, sequence)]
                        else Newest(old(history) + [Stamped(env, s, sequence)], limit))
         && refusals == old(refusals))
      ensures status != Status.Published ==>
        (&& history == old(history) && status in refusals
         && refusals == old(refusals)[status := (if status in old(refusals) then old(refusals)[status] else 0) + 1])
      ensures status == Status.AlreadyExists ==> history != [] && sequence == history[|history| - 1].sequence
      ensures status != Status.AlreadyExists && status != Status.Published ==> sequence == 0
    {
      hide *;
      var code := Consider(s, token, now);
      if code != Status.Published {
        Refuse(code);
        NothingToRepeat(env, history, s, token, now);
        return code, if code == Status.AlreadyExists then history[|history| - 1].sequence else 0;
      }
      sequence := NextSequence(history);
      if history == [] { history := [Stamped(env, s, sequence)]; }
      else { history := Trim(history + [Stamped(env, s, sequence)]); }
      return Status.Published, sequence;
    }

    /** The checks in order, up to the comparison with the last entry. */
    method Consider(s: Snapshot, token: AuthorityToken, now: int) returns (code: Status)
      ensures code == VerdictOn(env, history, s, token, now)
    {
      hide Screened, Fenced;
      code := Screen(s, token, now);
      if code != Status.Ok { return; }
      if history == [] { return Status.Published; }
      code := Fence(history[|history| - 1], Stamped(env, s, NextSequence(history)), token);
      FencedByContent(env, history[|history| - 1], s, Stamped(env, s, NextSequence(history)), token);
    }

    /** Drops entries from the front while there are too many. */
    function Trim(h: seq<Snapshot>): (r: seq<Snapshot>)
      reads this`limit
      ensures r == Newest(h, limit)
      decreases |h|
    {
      if |h| > limit then Trim(h[1..]) else h
    }

    method Restore(s: Snapshot) returns (status: Status)
      modifies this`history
      ensures status == RestoreVerdict(env, old(history), s)
      ensures history == if status == Status.Ok then Newest(old(history) + [s], limit) else old(history)
    {
      hide ValidIdentifier;
      if !ValidIdentifier(s.site) || s.epoch == 0 || s.sequence == 0 { return Status.Invalid; }
      if env.digestOf(s.state) != s.siteDigest { return Status.IntegrityFailure; }
      if s.snapshotDigest != ZERO_DIGEST && env.envelopeOf(s) != s.snapshotDigest { return Status.IntegrityFailure; }
      if history != [] {
        var newest := history[|history| - 1].sequence;
        if s.sequence == newest { return Status.AlreadyExists; }
        if s.sequence < newest { return Status.Replayed; }
      }
      history := Trim(history + [s]);
      return Status.Ok;
    }

    method SetHistoryLimit(historyLimit: u32)
      modifies this`limit
      ensures limit == LimitFor(historyLimit)
    {
      limit := LimitFor(historyLimit);
    }
  }

  lemma NothingToRepeat(env: ChainEnv, history: seq<Snapshot>, s: Snapshot, token: AuthorityToken, now: int)
    ensures VerdictOn(env, history, s, token, now) == Status.AlreadyExists ==> history != []
  {
    hide Screened;
    ScreenedStatuses(env, s, token, now);
  }

  lemma ScreenedStatuses(env: ChainEnv, s: Snapshot, token: AuthorityToken, now: int)
    ensures Screened(env, s, token, now) != Status.Published && Screened(env, s, token, now) != Status.AlreadyExists
  {
    hide ValidIdentifier;
  }

  lemma FencedByContent(env: ChainEnv, current: Snapshot, s: Snapshot, t: Snapshot, token: AuthorityToken)
    requires s.state == t.state
    ensures Fenced(env, current, s, token) == Fenced(env, current, t, token)
  {
  }

  // ----- Runs ---------------------------------------------------------------

  /** The state of a chain, with everything it ever appended. */
  datatype ChainRun = ChainRun(history: seq<Snapshot>, limit: nat, log: seq<Snapshot>)

  datatype ChainEvent = Publish(snapshot: Snapshot, token: AuthorityToken, now: int) | SetLimit(n: u32)
  {
    /** The token speaks for the snapshot it publishes. */
    predicate Matches() {
      Publish? ==>
        token.epoch == snapshot.epoch && token.incarnation == snapshot.incarnation && token.generation == snapshot.generation
    }
  }

  function Step(env: ChainEnv, run: ChainRun, event: ChainEvent): ChainRun {
    match event
    case SetLimit(n) => run.(limit := LimitFor(n))
    case Publish(s, token, now) =>
      if VerdictOn(env, run.history, s, token, now) != Status.Published then run
      else
        var stamped := Stamped(env, s, NextSequence(run.history));
        ChainRun(if run.history == [] then [stamped] else Newest(run.history + [stamped], run.limit), run.limit, run.log + [stamped])
  }

  function Run(env: ChainEnv, start: ChainRun, events: seq<ChainEvent>): ChainRun {
    if events == [] then start else Step(env, Run(env, start, events[..|events| - 1]), events[|events| - 1])
  }

  /** An empty chain, or a chain that holds one restored snapshot. */
  ghost predicate Starts(env: ChainEnv, run: ChainRun) {
    && 1 <= run.limit && run.log == run.history
    && (run.history == [] || (|run.history| == 1 && RestoreVerdict(env, [], run.history[0]) == Status.Ok))
  }

  /** One entry after another. */
  predicate Advances(a: Snapshot, b: Snapshot) {
    && b.sequence == Wrap64(a.sequence + 1)
    && (|| a.epoch < b.epoch
        || (a.epoch == b.epoch && a.incarnation == b.incarnation && a.generation < b.generation)
        || (a.epoch == b.epoch && a.incarnation != b.incarnation && a.incarnation.sequence <= b.incarnation.sequence))
  }

  ghost predicate Sound(env: ChainEnv, run: ChainRun) {
    && 1 <= run.limit
    && IsSuffix(run.history, run.log)
    && (run.log != [] ==> run.history != [])
    && AlwaysAdvances(run.log) && Digested(env, run.log)
  }

  ghost predicate AlwaysAdvances(log: seq<Snapshot>) { forall i | 0 <= i < |log| - 1 :: Advances(log[i], log[i + 1]) }

  ghost predicate Digested(env: ChainEnv, log: seq<Snapshot>) {
    forall i | 0 <= i < |log| :: log[i].siteDigest == env.digestOf(log[i].state)
  }

  ghost predicate IsSuffix(history: seq<Snapshot>, log: seq<Snapshot>) {
    |history| <= |log| && history == log[|log| - |history|..]
  }

  lemma StillASuffix(history: seq<Snapshot>, log: seq<Snapshot>, s: Snapshot, limit: nat)
    requires IsSuffix(history, log)
    ensures IsSuffix(Newest(history + [s], limit), log + [s])
  {
    var whole, all := history + [s], log + [s];
    assert whole == all[|all| - |whole|..];
    var kept := Newest(whole, limit);
    assert kept == all[|all| - |kept|..];
  }

  lemma StillAdvancing(log: seq<Snapshot>, s: Snapshot)
    requires AlwaysAdvances(log) && (log != [] ==> Advances(log[|log| - 1], s))
    ensures AlwaysAdvances(log + [s])
  {
    hide Advances;
    var all := log + [s];
    forall i | 0 <= i < |all| - 1 ensures Advances(all[i], all[i + 1]) {
      if i + 1 < |log| { assert Advances(log[i], log[i + 1]); }
    }
  }

  lemma AppendKeepsSound(env: ChainEnv, run: ChainRun, s: Snapshot)
    requires Sound(env, run) && s.siteDigest == env.digestOf(s.state)
    requires run.log != [] ==> Advances(run.log[|run.log| - 1], s)
    ensures Sound(env, ChainRun(Newest(run.history + [s], run.limit), run.limit, run.log + [s]))
  {
    hide Advances, IsSuffix, AlwaysAdvances, Digested;
    StillASuffix(run.history, run.log, s, run.limit);
    StillAdvancing(run.log, s);
    StillDigested(env, run.log, s);
  }

  lemma StillDigested(env: ChainEnv, log: seq<Snapshot>, s: Snapshot)
    requires Digested(env, log) && s.siteDigest == env.digestOf(s.state)
    ensures Digested(env, log + [s])
  {
  }

  lemma StepKeepsSound(env: ChainEnv, run: ChainRun, event: ChainEvent)
    requires Sound(env, run) && event.Matches()
    ensures Sound(env, Step(env, run, event))
    ensures run.log <= Step(env, run, event).log
    ensures Step(env, run, event).log != run.log ==> |Step(env, run, event).history| <= Step(env, run, event).limit
  {
    hide Screened, Stamped, Newest, Fenced, Advances, AlwaysAdvances, Digested, IsSuffix;
    if event.Publish? { ScreenedStatuses(env, event.snapshot, event.token, event.now); }
    if event.Publish? && VerdictOn(env, run.history, event.snapshot, event.token, event.now) == Status.Published {
      var s := Stamped(env, event.snapshot, NextSequence(run.history));
      if run.history != [] {
        SuffixLast(run.history, run.log);
        AdvancesWhenPublished(env, run.history[|run.history| - 1], event);
      }
      AppendKeepsSound(env, run, s);
      assert [] + [s] == [s];
    }
  }

  lemma SuffixLast(history: seq<Snapshot>, log: seq<Snapshot>)
    requires IsSuffix(history, log) && history != []
    ensures log != [] && log[|log| - 1] == history[|history| - 1]
  {
  }

  lemma AdvancesWhenPublished(env: ChainEnv, current: Snapshot, event: ChainEvent)
    requires event.Publish? && event.Matches() && Fenced(env, current, event.snapshot, event.token) == Status.Published
    ensures Advances(current, Stamped(env, event.snapshot, Wrap64(current.sequence + 1)))
  {
    hide Stamped;
  }

  lemma {:induction false} RunsAreSound(env: ChainEnv, start: ChainRun, events: seq<ChainEvent>)
    requires Starts(env, start) && forall i | 0 <= i < |events| :: events[i].Matches()
    ensures Sound(env, Run(env, start, events))
  {
    hide ValidIdentifier, Step;
    if events != [] {
      RunsAreSound(env, start, events[..|events| - 1]);
      StepKeepsSound(env, Run(env, start, events[..|events| - 1]), events[|events| - 1]);
    }
  }

  // ----- What is published ----------------------------------------------------

  /** The snapshot may be published by the token at the instant: its header is sound, the
      token is of its site and stands, what was composed is of its site, epoch and
      generation, and a digest it states is that of what was composed. */
  predicate Entitled(env: ChainEnv, s: Snapshot, token: AuthorityToken, now: int) {
    && ValidIdentifier(s.site) && s.epoch != 0
    && token.site == s.site && Stands(token, now)
    && s.state.site == s.site && s.state.epoch == s.epoch && s.state.generation == s.generation
    && (s.siteDigest == ZERO_DIGEST || s.siteDigest == env.digestOf(s.state))
  }

  /** The token goes past the entry: a later epoch, or under the same epoch a later
      generation of the same incarnation, or another of no lower sequence. */
  predicate Passes(last: Snapshot, token: AuthorityToken) {
    || last.epoch < token.epoch
    || (&& last.epoch == token.epoch
        && if token.incarnation == last.incarnation then last.generation < token.generation
           else last.incarnation.sequence <= token.incarnation.sequence)
  }

  /** The token stands where the entry does. */
  predicate Repeats(last: Snapshot, token: AuthorityToken) {
    last.epoch == token.epoch && last.incarnation == token.incarnation && last.generation == token.generation
  }

  /** A snapshot is published exactly when it is entitled and its token goes past the
      last entry, and is found there already exactly when it is entitled, its token
      stands where the last entry does, and its content is the same. An expired token
      is refused as expired. */
  lemma PublishedIff(env: ChainEnv, history: seq<Snapshot>, s: Snapshot, token: AuthorityToken, now: int)
    ensures var v := VerdictOn(env, history, s, token, now);
            && (v == Status.Published <==>
                  Entitled(env, s, token, now) && (history != [] ==> Passes(history[|history| - 1], token)))
            && (v == Status.AlreadyExists <==>
                  && Entitled(env, s, token, now) && history != [] && Repeats(history[|history| - 1], token)
                  && env.digestOf(s.state) == history[|history| - 1].siteDigest)
            && (ValidIdentifier(s.site) && s.epoch != 0 && token.site == s.site && SoundToken(token) && token.expiresAt < now ==>
                  v == Status.LeaseExpired)
  {
    StandsIff(token, now);
    EntitledIff(env, s, token, now);
    ScreenedStatuses(env, s, token, now);
    hide Entitled, Screened, Stands, SoundToken, ValidIdentifier;
  }

  lemma EntitledIff(env: ChainEnv, s: Snapshot, token: AuthorityToken, now: int)
    ensures Screened(env, s, token, now) == Status.Ok <==> Entitled(env, s, token, now)
    ensures ValidIdentifier(s.site) && s.epoch != 0 && token.site == s.site && !token.EvaluateAt(now).IsOk() ==>
      Screened(env, s, token, now) == token.EvaluateAt(now)
  {
    StandsIff(token, now);
    hide Stands, SoundToken, ValidIdentifier;
  }

  /** A recovered snapshot is taken exactly when its header is sound, its digests are
      right and its number is above the last. */
  lemma RestoredIff(env: ChainEnv, history: seq<Snapshot>, s: Snapshot)
    ensures RestoreVerdict(env, history, s) == Status.Ok <==>
      && ValidIdentifier(s.site) && s.epoch != 0 && s.sequence != 0 && s.siteDigest == env.digestOf(s.state)
      && (s.snapshotDigest == ZERO_DIGEST || s.snapshotDigest == env.envelopeOf(s))
      && (history != [] ==> history[|history| - 1].sequence < s.sequence)
  {
    hide ValidIdentifier;
  }

  /** Over any run: what is offered next becomes an entry exactly when it is entitled and
      goes past the last one ever accepted. */
  lemma NextEntryIff(env: ChainEnv, start: ChainRun, events: seq<ChainEvent>, s: Snapshot, token: AuthorityToken, now: int)
    requires Starts(env, start) && forall i | 0 <= i < |events| :: events[i].Matches()
    ensures var r, next := Run(env, start, events), Run(env, start, events + [Publish(s, token, now)]);
            var accepted := Entitled(env, s, token, now) && (r.log != [] ==> Passes(r.log[|r.log| - 1], token));
            next.log == if accepted then r.log + [Stamped(env, s, NextSequence(r.log))] else r.log
  {
    hide *;
    var r, e := Run(env, start, events), Publish(s, token, now);
    RunsAreSound(env, start, events);
    RunSnoc(env, start, events, e);
    SameLast(env, r);
    PublishedIff(env, r.history, s, token, now);
    SameNext(r.history, r.log);
    LogAfter(env, r, s, token, now);
  }

  lemma RunSnoc(env: ChainEnv, start: ChainRun, events: seq<ChainEvent>, e: ChainEvent)
    ensures Run(env, start, events + [e]) == Step(env, Run(env, start, events), e)
  {
    hide Step;
    assert (events + [e])[..|events|] == events;
  }

  lemma SameLast(env: ChainEnv, r: ChainRun)
    requires Sound(env, r)
    ensures (r.history == [] <==> r.log == []) && (r.log != [] ==> r.history[|r.history| - 1] == r.log[|r.log| - 1])
  {
    hide AlwaysAdvances, Digested;
  }

  lemma SameNext(a: seq<Snapshot>, b: seq<Snapshot>)
    requires (a == [] <==> b == []) && (b != [] ==> a[|a| - 1] == b[|b| - 1])
    ensures NextSequence(a) == NextSequence(b)
  {
  }

  lemma LogAfter(env: ChainEnv, r: ChainRun, s: Snapshot, token: AuthorityToken, now: int)
    ensures Step(env, r, Publish(s, token, now)).log
      == if VerdictOn(env, r.history, s, token, now) == Status.Published then r.log + [Stamped(env, s, NextSequence(r.history))] else r.log
  {
    hide VerdictOn, Stamped, Newest;
  }

  /** The event published the entry, under a token of its site that stood then and says
      where the entry stands. */
  predicate Authorizes(e: ChainEvent, entry: Snapshot) {
    && e.Publish? && Stands(e.token, e.now) && e.token.site == entry.site
    && e.token.epoch == entry.epoch && e.token.incarnation == entry.incarnation && e.token.generation == entry.generation
    && entry.state == e.snapshot.state
    && entry.state.site == entry.site && entry.state.epoch == entry.epoch && entry.state.generation == entry.generation
  }

  ghost predicate WasAuthorized(events: seq<ChainEvent>, entry: Snapshot) {
    exists n :: 0 <= n < |events| && Authorizes(events[n], entry)
  }

  /** Over any run, every entry but a restored one was published under a token whose term
      covers the instant of its publication. */
  lemma {:induction false} EntriesWereAuthorized(env: ChainEnv, start: ChainRun, events: seq<ChainEvent>, i: nat)
    requires forall j | 0 <= j < |events| :: events[j].Matches()
    requires |start.log| <= i < |Run(env, start, events).log|
    ensures WasAuthorized(events, Run(env, start, events).log[i])
  {
    hide Step, WasAuthorized, Authorizes;
    if events != [] {
      var front, e := events[..|events| - 1], events[|events| - 1];
      assert events == front + [e];
      RunSnoc(env, start, front, e);
      hide *;
      var before := Run(env, start, front);
      StepAppends(env, before, e);
      if i < |before.log| {
        EntriesWereAuthorized(env, start, front, i);
        assert Step(env, before, e).log[i] == before.log[i];
      }
      AuthorizedMore(front, e, Step(env, before, e).log[i], i < |before.log|);
    }
  }

  lemma AuthorizedMore(front: seq<ChainEvent>, e: ChainEvent, entry: Snapshot, before: bool)
    requires if before then WasAuthorized(front, entry) else Authorizes(e, entry)
    ensures WasAuthorized(front + [e], entry)
  {
    hide Authorizes;
    var events := front + [e];
    if before {
      var n :| 0 <= n < |front| && Authorizes(front[n], entry);
      assert events[n] == front[n];
    } else {
      assert events[|front|] == e;
    }
  }

  lemma StepAppends(env: ChainEnv, r: ChainRun, e: ChainEvent)
    requires e.Matches()
    ensures var t := Step(env, r, e);
            t.log == r.log || (|t.log| == |r.log| + 1 && t.log[..|r.log|] == r.log && Authorizes(e, t.log[|r.log|]))
  {
    hide VerdictOn, Newest, Stands;
    if e.Publish? { PublishedIff(env, r.history, e.snapshot, e.token, e.now); }
    hide Stamped, Passes, Repeats;
  }

  /** The number of an entry, and where it stands in authority. */
  predicate NotBefore(a: Snapshot, b: Snapshot) {
    a.epoch < b.epoch || (a.epoch == b.epoch && a.incarnation.sequence <= b.incarnation.sequence)
  }

  predicate StrictlyAfter(a: Snapshot, b: Snapshot) {
    || a.epoch < b.epoch
    || (a.epoch == b.epoch && a.incarnation.sequence < b.incarnation.sequence)
    || (a.epoch == b.epoch && a.incarnation.sequence == b.incarnation.sequence && a.generation < b.generation)
  }

  /** Over any run, of two accepted entries the later never stands lower in
      (epoch, incarnation sequence), and as long as the numbers do not run out its
      number is the higher one, by exactly their distance. */
  lemma {:induction false} AcceptedNeverFallBack(env: ChainEnv, run: ChainRun, i: nat, j: nat)
    requires Sound(env, run) && i < j < |run.log|
    ensures NotBefore(run.log[i], run.log[j])
    ensures run.log[i].sequence + (j - i) <= MAX_U64 ==> run.log[j].sequence == run.log[i].sequence + (j - i)
    decreases j
  {
    assert Advances(run.log[j - 1], run.log[j - 1 + 1]);
    if i < j - 1 { AcceptedNeverFallBack(env, run, i, j - 1); }
  }

  /** Adjacent entries of one epoch and incarnation have increasing generations. */
  lemma NeighboursIncrease(env: ChainEnv, run: ChainRun, i: nat)
    requires Sound(env, run) && i + 1 < |run.log|
    requires run.log[i].epoch == run.log[i + 1].epoch && run.log[i].incarnation == run.log[i + 1].incarnation
    ensures run.log[i].generation < run.log[i + 1].generation
  {
    assert Advances(run.log[i], run.log[i + 1]);
  }

  ghost predicate StrictlyOrdered(log: seq<Snapshot>) {
    forall i, j | 0 <= i < j < |log| :: StrictlyAfter(log[i], log[j])
  }

  /** Wherever one boot follows another under one epoch and sequence, the generation
      rises: what publishing does not ask of a new boot. */
  ghost predicate TurnsRise(log: seq<Snapshot>) {
    forall i | 0 <= i < |log| - 1 :: TurnRises(log[i], log[i + 1])
  }

  predicate TurnRises(a: Snapshot, b: Snapshot) {
    a.epoch == b.epoch && a.incarnation.sequence == b.incarnation.sequence && a.incarnation.boot != b.incarnation.boot ==>
      a.generation < b.generation
  }

  lemma StrictlyAfterIsTransitive(a: Snapshot, b: Snapshot, c: Snapshot)
    requires StrictlyAfter(a, b) && StrictlyAfter(b, c)
    ensures StrictlyAfter(a, c)
  {
  }

  lemma StepIsStrictIff(a: Snapshot, b: Snapshot)
    requires Advances(a, b)
    ensures StrictlyAfter(a, b) <==> TurnRises(a, b)
  {
  }

  lemma {:induction false} StepsAreStrict(log: seq<Snapshot>, i: nat, j: nat)
    requires AlwaysAdvances(log) && TurnsRise(log) && i < j < |log|
    ensures StrictlyAfter(log[i], log[j])
    decreases j
  {
    hide Advances, TurnRises, StrictlyAfter;
    assert Advances(log[j - 1], log[j - 1 + 1]) && TurnRises(log[j - 1], log[j - 1 + 1]);
    StepIsStrictIff(log[j - 1], log[j]);
    if i < j - 1 {
      StepsAreStrict(log, i, j - 1);
      StrictlyAfterIsTransitive(log[i], log[j - 1], log[j]);
    }
  }

  /** Over any run: (epoch, incarnation sequence, generation) increases strictly from
      every entry to every later one exactly when the generation rises wherever
      another boot takes over under the same epoch and sequence. */
  lemma StrictOrderIff(env: ChainEnv, run: ChainRun)
    requires Sound(env, run)
    ensures StrictlyOrdered(run.log) <==> TurnsRise(run.log)
  {
    hide Advances, TurnRises, StrictlyAfter;
    var log := run.log;
    if TurnsRise(log) {
      forall i, j | 0 <= i < j < |log| ensures StrictlyAfter(log[i], log[j]) { StepsAreStrict(log, i, j); }
    }
    if StrictlyOrdered(log) {
      forall i | 0 <= i < |log| - 1 ensures TurnRises(log[i], log[i + 1]) {
        assert Advances(log[i], log[i + 1]);
        StepIsStrictIff(log[i], log[i + 1]);
      }
    }
  }

  /** One boot for each (epoch, incarnation sequence). */
  ghost predicate OneBoot(log: seq<Snapshot>) {
    forall i, j | 0 <= i < |log| && 0 <= j < |log| ::
      (log[i].epoch == log[j].epoch && log[i].incarnation.sequence == log[j].incarnation.sequence) ==>
        log[i].incarnation == log[j].incarnation
  }

  /** With one boot for each nobody takes over, and the order is strict. */
  lemma OneBootIsStrict(env: ChainEnv, run: ChainRun, i: nat, j: nat)
    requires Sound(env, run) && OneBoot(run.log) && i < j < |run.log|
    ensures StrictlyAfter(run.log[i], run.log[j])
  {
    hide Sound, StrictlyAfter;
    StrictOrderIff(env, run);
  }

  /** Two boots that share a sequence number can take turns: `a`, then `b` of
      another boot, then `c` of the first boot again, with a generation no higher
      than before. Each is accepted, so the generations of one incarnation need
      not increase. */
  lemma TakingTurnsRepeatsGenerations(env: ChainEnv, a: ChainEvent, b: ChainEvent, c: ChainEvent, limit: nat)
    requires a.Publish? && b.Publish? && c.Publish? && a.Matches() && b.Matches() && c.Matches() && limit >= 1
    requires Entitled(env, a.snapshot, a.token, a.now) && Entitled(env, b.snapshot, b.token, b.now)
    requires Entitled(env, c.snapshot, c.token, c.now)
    requires a.snapshot.epoch == b.snapshot.epoch == c.snapshot.epoch
    requires a.snapshot.incarnation == c.snapshot.incarnation && c.snapshot.generation <= a.snapshot.generation
    requires b.snapshot.incarnation.sequence == a.snapshot.incarnation.sequence
    requires b.snapshot.incarnation.boot != a.snapshot.incarnation.boot
    ensures var log := Run(env, ChainRun([], limit, []), [a, b, c]).log;
            && |log| == 3 && log[0].epoch == log[2].epoch && log[0].incarnation == log[2].incarnation
            && log[2].generation <= log[0].generation
  {
    hide *;
    var start := ChainRun([], limit, []);
    var one := Step(env, start, a);
    var two := Step(env, one, b);
    ThreeSteps(env, start, a, b, c);
    EntitledIff(env, a.snapshot, a.token, a.now);
    EntitledIff(env, b.snapshot, b.token, b.now);
    EntitledIff(env, c.snapshot, c.token, c.now);
    FirstAccepted(env, start, a);
    OtherBootAccepted(env, one, b);
    OtherBootAccepted(env, two, c);
  }

  lemma FirstAccepted(env: ChainEnv, run: ChainRun, e: ChainEvent)
    requires e.Publish? && Screened(env, e.snapshot, e.token, e.now) == Status.Ok
    requires run.history == [] && run.log == [] && run.limit >= 1
    ensures var s, next := Stamped(env, e.snapshot, 1), Step(env, run, e);
            && next.history == [s] && next.log == [s] && next.limit == run.limit
            && s.epoch == e.snapshot.epoch && s.incarnation == e.snapshot.incarnation && s.generation == e.snapshot.generation
  {
    hide Screened, Stamped;
  }

  /** The generation is not compared when the boot differs. */
  lemma OtherBootAccepted(env: ChainEnv, run: ChainRun, e: ChainEvent)
    requires e.Publish? && e.Matches() && Screened(env, e.snapshot, e.token, e.now) == Status.Ok
    requires run.history != [] && run.limit >= 1
    requires var last := run.history[|run.history| - 1];
             && last.epoch == e.snapshot.epoch && last.incarnation != e.snapshot.incarnation
             && last.incarnation.sequence <= e.snapshot.incarnation.sequence
    ensures var s, next := Stamped(env, e.snapshot, NextSequence(run.history)), Step(env, run, e);
            && next.log == run.log + [s] && next.limit == run.limit
            && next.history != [] && next.history[|next.history| - 1] == s
            && s.epoch == e.snapshot.epoch && s.incarnation == e.snapshot.incarnation && s.generation == e.snapshot.generation
  {
    hide Screened, Stamped, Newest;
    LastOf(run.history, Stamped(env, e.snapshot, NextSequence(run.history)), run.limit);
  }

  lemma ThreeSteps(env: ChainEnv, start: ChainRun, a: ChainEvent, b: ChainEvent, c: ChainEvent)
    ensures Run(env, start, [a, b, c]) == Step(env, Step(env, Step(env, start, a), b), c)
  {
    hide Step;
    assert [a, b, c][..2] == [a, b] && [a, b][..1] == [a] && [a][..0] == [];
    assert Run(env, start, []) == start;
    assert Run(env, start, [a]) == Step(env, start, a);
    assert Run(env, start, [a, b]) == Step(env, Step(env, start, a), b);
  }

  lemma LastOf(history: seq<Snapshot>, s: Snapshot, limit: nat)
    requires limit >= 1
    ensures var kept := Newest(history + [s], limit); kept != [] && kept[|kept| - 1] == s
  {
  }

  /** A published entry carries the digest of its own state and the one its
      envelope was computed over. */
  lemma EntriesMatchTheirState(env: ChainEnv, start: ChainRun, events: seq<ChainEvent>, i: nat)
    requires Starts(env, start) && forall k | 0 <= k < |events| :: events[k].Matches()
    requires i < |Run(env, start, events).history|
    ensures var s := Run(env, start, events).history[i]; s.siteDigest == env.digestOf(s.state)
  {
    hide Run;
    RunsAreSound(env, start, events);
    var run := Run(env, start, events);
    assert run.history[i] == run.log[|run.log| - |run.history| + i];
  }
}
