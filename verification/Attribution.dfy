/** Attribution: who claims which resource, and whether they agree. */
module Attribution {
  import opened Model
  import opened Admission
  import Order

  datatype Attestation = Attestation(source: SourceRef, content: Digest, authoritative: bool)

  /** What is known about one resource. `pointers` holds, for each claim list,
      the claim about the resource that was seen last. */
  datatype ResourceRecord = ResourceRecord(
    attestations: seq<Attestation>, pointers: map<nat, Claim>, distinct: nat, consensus: Digest, status: Status)
  {
    predicate Has(list: nat) { list in pointers }
  }

  const NOTHING_HEARD := ResourceRecord([], map[], 0, ZERO_DIGEST, Status.Unknown)

  type Resources = map<ResourceKey, ResourceRecord>

  function Attestors(r: ResourceRecord): set<SourceRef> { set a | a in r.attestations :: a.source }

  // ----- One claim of one member, heard once --------------------------------

  datatype Voice = Voice(key: ResourceKey, claim: Claim, content: Digest, source: SourceRef, authoritative: bool)

  function VoiceOf(env: Env, a: Admission, c: Claim): Voice {
    Voice(c.Key(), c, env.claimDigest(c), a.record.Source(), a.lifecycle == CurrentMember)
  }

  function ListVoices(env: Env, a: Admission, claims: seq<Claim>): seq<Voice> {
    if claims == [] then []
    else ListVoices(env, a, claims[..|claims| - 1]) + [VoiceOf(env, a, claims[|claims| - 1])]
  }

  function DeclaredVoices(env: Env, a: Admission, lists: seq<seq<Claim>>): seq<Voice> {
    if lists == [] then []
    else DeclaredVoices(env, a, lists[..|lists| - 1]) + ListVoices(env, a, lists[|lists| - 1])
  }

  function MemberVoices(env: Env, a: Admission): seq<Voice> {
    if a.record.declaration.Some? then DeclaredVoices(env, a, a.record.declaration.value.lists) else []
  }

  /** Everything the members of `order` state, in that order. */
  function AllVoices(env: Env, admissions: Admissions, order: seq<MemberDomainKey>): seq<Voice>
    requires forall d | d in order :: d in admissions
  {
    if order == [] then []
    else
      assert order[|order| - 1] in order;
      AllVoices(env, admissions, order[..|order| - 1]) + MemberVoices(env, admissions[order[|order| - 1]])
  }

  function DomainOrder(domains: set<MemberDomainKey>): (r: seq<MemberDomainKey>)
    ensures |r| == |domains|
    ensures forall d :: d in r <==> d in domains
    ensures Order.StrictlySorted(r, Order.DomainText)
  {
    Order.KeysAreInjective();
    Order.Sorted(domains, Order.DomainText)
  }

  function KeyOrder(keys: set<ResourceKey>): (r: seq<ResourceKey>)
    ensures |r| == |keys|
    ensures forall k :: k in r <==> k in keys
    ensures Order.StrictlySorted(r, Order.ResourceText)
  {
    Order.KeysAreInjective();
    Order.Sorted(keys, Order.ResourceText)
  }

  function Voices(env: Env, admissions: Admissions): seq<Voice> {
    AllVoices(env, admissions, DomainOrder(admissions.Keys))
  }

  // ----- Hearing them -------------------------------------------------------

  predicate Attests(attestations: seq<Attestation>, source: SourceRef) {
    exists i | 0 <= i < |attestations| :: attestations[i].source == source
  }

  /** Only the first statement of a source counts, and only so many sources. */
  function Attested(attestations: seq<Attestation>, a: Attestation): seq<Attestation> {
    if Attests(attestations, a.source) || |attestations| >= MAX_ATTESTORS then attestations
    else attestations + [a]
  }

  /** A new source is recorded while there is room, and nothing else changes who attests. */
  lemma AttestsThenIff(attestations: seq<Attestation>, a: Attestation, source: SourceRef)
    requires |attestations| <= MAX_ATTESTORS
    ensures |Attested(attestations, a)| <= MAX_ATTESTORS
    ensures Attests(Attested(attestations, a), source) <==>
      Attests(attestations, source) || (source == a.source && |attestations| < MAX_ATTESTORS)
  {
    var r := Attested(attestations, a);
    if Attests(attestations, source) {
      var i :| 0 <= i < |attestations| && attestations[i].source == source;
      assert r[i].source == source;
    }
    if |r| > |attestations| { assert r[|attestations|] == a; }
  }

  function HearOne(r: ResourceRecord, v: Voice): ResourceRecord {
    r.(attestations := Attested(r.attestations, Attestation(v.source, v.content, v.authoritative)),
       pointers := r.pointers[v.claim.List() := v.claim])
  }

  function At(records: Resources, key: ResourceKey): ResourceRecord {
    if key in records then records[key] else NOTHING_HEARD
  }

  function Hear(records: Resources, v: Voice): Resources { records[v.key := HearOne(At(records, v.key), v)] }

  function HearAll(records: Resources, voices: seq<Voice>): Resources {
    if voices == [] then records
    else Hear(HearAll(records, voices[..|voices| - 1]), voices[|voices| - 1])
  }

  /** The voices about one resource. */
  function About(voices: seq<Voice>, key: ResourceKey): seq<Voice> {
    if voices == [] then []
    else
      var before := About(voices[..|voices| - 1], key);
      if voices[|voices| - 1].key == key then before + [voices[|voices| - 1]] else before
  }

  function HearRun(voices: seq<Voice>): ResourceRecord {
    if voices == [] then NOTHING_HEARD
    else HearOne(HearRun(voices[..|voices| - 1]), voices[|voices| - 1])
  }

  /** What is heard about a resource does not depend on the other resources. */
  lemma {:induction false} HeardAt(voices: seq<Voice>, key: ResourceKey)
    ensures key in HearAll(map[], voices) <==> About(voices, key) != []
    ensures key in HearAll(map[], voices) ==> HearAll(map[], voices)[key] == HearRun(About(voices, key))
  {
    hide HearOne;
    if voices != [] {
      var front, v := voices[..|voices| - 1], voices[|voices| - 1];
      HeardAt(front, key);
      if v.key == key {
        assert About(voices, key)[..|About(voices, key)| - 1] == About(front, key);
      }
    }
  }

  lemma {:induction false} HearAllAdds(records: Resources, u: seq<Voice>, v: seq<Voice>)
    ensures HearAll(HearAll(records, u), v) == HearAll(records, u + v)
  {
    hide Hear;
    if v == [] {
      assert u + v == u;
    } else {
      HearAllAdds(records, u, v[..|v| - 1]);
      assert (u + v)[..|u + v| - 1] == u + v[..|v| - 1];
    }
  }

  lemma {:induction false} AboutMembership(voices: seq<Voice>, key: ResourceKey, v: Voice)
    ensures v in About(voices, key) <==> v in voices && v.key == key
  {
    if voices != [] {
      AboutMembership(voices[..|voices| - 1], key, v);
      assert voices == voices[..|voices| - 1] + [voices[|voices| - 1]];
    }
  }

  lemma {:induction false} AboutAdds(u: seq<Voice>, v: seq<Voice>, key: ResourceKey)
    ensures About(u + v, key) == About(u, key) + About(v, key)
  {
    if v == [] {
      assert u + v == u;
    } else {
      AboutAdds(u, v[..|v| - 1], key);
      assert (u + v)[..|u + v| - 1] == u + v[..|v| - 1];
    }
  }

  // ----- Agreement ----------------------------------------------------------

  function Contents(attestations: seq<Attestation>): set<Digest> { set a | a in attestations :: a.content }

  predicate AllAuthoritative(attestations: seq<Attestation>) {
    forall i | 0 <= i < |attestations| :: attestations[i].authoritative
  }

  predicate Exclusive(kind: ResourceKind) {
    kind.RackKind? || kind.PodKind? || kind.ClusterKind? || kind.FailureDomainKind?
    || kind.MaintenanceZoneKind? || kind.ObligationKindOfResource?
  }

  function Disagreement(kind: ResourceKind): Status {
    if Exclusive(kind) then Status.OwnershipOverlap else Status.AccountingConflict
  }

  function AgreementStatus(kind: ResourceKind, attestations: seq<Attestation>): Status {
    if attestations == [] then Status.NoAuthoritativeSource
    else if |Contents(attestations)| > 1 then Disagreement(kind)
    else if !AllAuthoritative(attestations) then Status.NoAuthoritativeSource
    else Status.Ok
  }

  function Resolve(key: ResourceKey, r: ResourceRecord): ResourceRecord {
    var contents := Contents(r.attestations);
    r.(distinct := |contents|,
       consensus := if r.attestations != [] && |contents| <= 1 then r.attestations[0].content else r.consensus,
       status := AgreementStatus(key.kind, r.attestations))
  }

  function ResolveAll(records: Resources): (r: Resources)
    ensures r.Keys == records.Keys
    ensures forall k | k in records :: r[k] == Resolve(k, records[k])
  {
    map k | k in records :: Resolve(k, records[k])
  }

  /** The resources as the admitted members describe them. */
  function ResourcesOf(env: Env, admissions: Admissions): Resources {
    ResolveAll(HearAll(map[], Voices(env, admissions)))
  }

  lemma ResourceAt(env: Env, admissions: Admissions, key: ResourceKey)
    ensures var about := About(Voices(env, admissions), key);
            && (key in ResourcesOf(env, admissions) <==> about != [])
            && (about != [] ==> ResourcesOf(env, admissions)[key] == Resolve(key, HearRun(about)))
  {
    hide Resolve, HearRun, About, HearAll, Voices;
    HeardAt(Voices(env, admissions), key);
  }

  // ----- What the attestations are ------------------------------------------

  function SourcesOf(voices: seq<Voice>): set<SourceRef> { set v | v in voices :: v.source }

  function HeardSources(attestations: seq<Attestation>): set<SourceRef> { set a | a in attestations :: a.source }

  ghost predicate DistinctSources(attestations: seq<Attestation>) {
    forall i, j | 0 <= i < j < |attestations| :: attestations[i].source != attestations[j].source
  }

  lemma {:induction false} AsManySources(attestations: seq<Attestation>)
    requires DistinctSources(attestations)
    ensures |HeardSources(attestations)| == |attestations|
  {
    if attestations != [] {
      var front, last := attestations[..|attestations| - 1], attestations[|attestations| - 1];
      assert attestations == front + [last];
      AsManySources(front);
      assert HeardSources(attestations) == HeardSources(front) + {last.source};
      assert last.source !in HeardSources(front);
    }
  }

  /** Room enough for everyone who speaks. */
  lemma {:induction false} NobodyTruncated(voices: seq<Voice>)
    requires |SourcesOf(voices)| <= MAX_ATTESTORS
    ensures DistinctSources(HearRun(voices).attestations)
    ensures HeardSources(HearRun(voices).attestations) == SourcesOf(voices)
  {
    if voices != [] {
      var front, v := voices[..|voices| - 1], voices[|voices| - 1];
      assert voices == front + [v];
      assert SourcesOf(voices) == SourcesOf(front) + {v.source};
      Order.SubsetSize(SourcesOf(front), SourcesOf(voices));
      NobodyTruncated(front);
      var heard := HearRun(front).attestations;
      AsManySources(heard);
      if !Attests(heard, v.source) {
        assert v.source !in HeardSources(heard);
        Order.SmallerSet(SourcesOf(front), SourcesOf(voices), v.source);
        hide HearRun, SourcesOf;
        MoreSources(heard, Attestation(v.source, v.content, v.authoritative));
      } else {
        assert v.source in HeardSources(heard);
      }
    }
  }

  lemma MoreSources(heard: seq<Attestation>, a: Attestation)
    requires DistinctSources(heard) && !Attests(heard, a.source)
    ensures DistinctSources(heard + [a]) && HeardSources(heard + [a]) == HeardSources(heard) + {a.source}
  {
  }

  function Said(v: Voice): Attestation { Attestation(v.source, v.content, v.authoritative) }

  /** An attestation is something that was said. */
  lemma {:induction false} AttestationsWereSaid(voices: seq<Voice>, a: Attestation)
    requires a in HearRun(voices).attestations
    ensures exists v :: v in voices && a == Said(v)
  {
    if voices != [] {
      var front, last := voices[..|voices| - 1], voices[|voices| - 1];
      assert voices == front + [last];
      if a in HearRun(front).attestations {
        AttestationsWereSaid(front, a);
      } else {
        assert a == Said(last) && last in voices;
      }
    }
  }

  predicate Spoke(voices: seq<Voice>, source: SourceRef) { exists i | 0 <= i < |voices| :: voices[i].source == source }

  /** The first thing each source says. */
  function FirstVoices(voices: seq<Voice>): seq<Voice> {
    if voices == [] then []
    else
      var front, last := voices[..|voices| - 1], voices[|voices| - 1];
      if Spoke(front, last.source) then FirstVoices(front) else FirstVoices(front) + [last]
  }

  lemma {:induction false} FirstVoicesAreVoices(voices: seq<Voice>)
    ensures forall v | v in FirstVoices(voices) :: v in voices
    ensures SourcesOf(FirstVoices(voices)) == SourcesOf(voices)
  {
    if voices != [] {
      var front, last := voices[..|voices| - 1], voices[|voices| - 1];
      assert voices == front + [last];
      FirstVoicesAreVoices(front);
      hide FirstVoices;
      assert SourcesOf(voices) == SourcesOf(front) + {last.source};
      assert SourcesOf(FirstVoices(front) + [last]) == SourcesOf(FirstVoices(front)) + {last.source};
      assert Spoke(front, last.source) ==> last.source in SourcesOf(front);
      FirstStep(front, last);
    }
  }

  lemma FirstStep(front: seq<Voice>, last: Voice)
    ensures FirstVoices(front + [last])
      == if Spoke(front, last.source) then FirstVoices(front) else FirstVoices(front) + [last]
  {
    assert (front + [last])[..|front|] == front;
  }

  /** What one source says comes down to its first word. */
  lemma {:induction false} OneSource(voices: seq<Voice>)
    requires voices != [] && forall v | v in voices :: v.source == voices[0].source
    ensures FirstVoices(voices) == [voices[0]]
  {
    var front, last := voices[..|voices| - 1], voices[|voices| - 1];
    assert voices == front + [last];
    if front != [] {
      OneSource(front);
      assert front[0].source == last.source;
    }
  }

  lemma {:induction false} FirstVoicesAdd(u: seq<Voice>, v: seq<Voice>)
    requires SourcesOf(u) !! SourcesOf(v)
    ensures FirstVoices(u + v) == FirstVoices(u) + FirstVoices(v)
  {
    if v == [] {
      assert u + v == u;
    } else {
      var front, last := v[..|v| - 1], v[|v| - 1];
      assert v == front + [last];
      assert last.source in SourcesOf(v) && SourcesOf(front) <= SourcesOf(v);
      FirstVoicesAdd(u, front);
      OneVoiceMore(u, front, last);
    }
  }

  lemma OneVoiceMore(u: seq<Voice>, front: seq<Voice>, last: Voice)
    requires last.source !in SourcesOf(u) && FirstVoices(u + front) == FirstVoices(u) + FirstVoices(front)
    ensures FirstVoices(u + (front + [last])) == FirstVoices(u) + FirstVoices(front + [last])
  {
    hide FirstVoices, Spoke;
    assert u + (front + [last]) == (u + front) + [last];
    FirstStep(u + front, last);
    FirstStep(front, last);
    SpokeAdds(u, front, last.source);
    SpeakersAreSources(u, last.source);
    assert FirstVoices(u) + (FirstVoices(front) + [last]) == (FirstVoices(u) + FirstVoices(front)) + [last];
  }

  lemma SpeakersAreSources(voices: seq<Voice>, source: SourceRef)
    ensures Spoke(voices, source) <==> source in SourcesOf(voices)
  {
    if Spoke(voices, source) {
      var i :| 0 <= i < |voices| && voices[i].source == source;
      assert voices[i] in voices;
    }
  }

  lemma SpokeAdds(u: seq<Voice>, v: seq<Voice>, source: SourceRef)
    ensures Spoke(u + v, source) <==> Spoke(u, source) || Spoke(v, source)
  {
    if Spoke(u, source) {
      var i :| 0 <= i < |u| && u[i].source == source;
      assert (u + v)[i].source == source;
    }
    if Spoke(v, source) {
      var i :| 0 <= i < |v| && v[i].source == source;
      assert (u + v)[|u| + i].source == source;
    }
  }

  function AllSaid(voices: seq<Voice>): seq<Attestation> { seq(|voices|, i requires 0 <= i < |voices| => Said(voices[i])) }

  lemma SpokeIsHeard(voices: seq<Voice>, heard: seq<Attestation>, source: SourceRef)
    requires HeardSources(heard) == SourcesOf(voices)
    ensures Attests(heard, source) <==> Spoke(voices, source)
  {
    if Attests(heard, source) { assert source in HeardSources(heard); }
    if Spoke(voices, source) { assert source in SourcesOf(voices); }
  }

  /** With room for everyone, the attestations are the first things said. */
  lemma {:induction false} FirstIsAttested(voices: seq<Voice>)
    requires |SourcesOf(voices)| <= MAX_ATTESTORS
    ensures HearRun(voices).attestations == AllSaid(FirstVoices(voices))
  {
    if voices != [] {
      var front, last := voices[..|voices| - 1], voices[|voices| - 1];
      assert voices == front + [last];
      assert SourcesOf(voices) == SourcesOf(front) + {last.source};
      Order.SubsetSize(SourcesOf(front), SourcesOf(voices));
      FirstIsAttested(front);
      assert HearRun(voices).attestations == Attested(HearRun(front).attestations, Said(last));
      OneMoreAttested(front, last);
    }
  }

  lemma OneMoreAttested(front: seq<Voice>, last: Voice)
    requires |SourcesOf(front + [last])| <= MAX_ATTESTORS && |SourcesOf(front)| <= MAX_ATTESTORS
    requires HearRun(front).attestations == AllSaid(FirstVoices(front))
    ensures Attested(HearRun(front).attestations, Said(last)) == AllSaid(FirstVoices(front + [last]))
  {
    hide HearRun, FirstVoices, Attests, HeardSources, DistinctSources, Spoke;
    var heard := HearRun(front).attestations;
    NobodyTruncated(front);
    SpokeIsHeard(front, heard, last.source);
    FirstStep(front, last);
    SpeakersAreSources(front, last.source);
    if !Spoke(front, last.source) {
      AsManySources(heard);
      assert SourcesOf(front + [last]) == SourcesOf(front) + {last.source};
      Order.SmallerSet(SourcesOf(front), SourcesOf(front + [last]), last.source);
      assert AllSaid(FirstVoices(front) + [last]) == AllSaid(FirstVoices(front)) + [Said(last)];
    }
  }

  ghost predicate AllCurrent(voices: seq<Voice>) { forall v | v in voices :: v.authoritative }

  ghost predicate Unanimous(voices: seq<Voice>) {
    forall u, v | u in voices && v in voices :: u.content == v.content
  }

  /** The attestations are what was said, without the claims. */
  ghost predicate Matches(voices: seq<Voice>, heard: seq<Attestation>) {
    && (forall a | a in heard :: exists v :: v in voices && a == Said(v))
    && (forall v | v in voices :: Said(v) in heard)
  }

  lemma AllSaidMatches(voices: seq<Voice>)
    ensures Matches(voices, AllSaid(voices)) && |AllSaid(voices)| == |voices|
    ensures voices != [] ==> AllSaid(voices)[0] == Said(voices[0])
  {
    var heard := AllSaid(voices);
    forall v | v in voices ensures Said(v) in heard {
      var i :| 0 <= i < |voices| && voices[i] == v;
      assert heard[i] == Said(v);
    }
    forall a | a in heard ensures exists v :: v in voices && a == Said(v) {
      var i :| 0 <= i < |heard| && heard[i] == a;
      assert voices[i] in voices;
    }
  }

  /** The verdict on a resource, read off what each source says about it first:
      agreed when everyone who mentions it is CURRENT and says the same; disputed
      when two contents differ, whoever says them; unsourced otherwise. */
  lemma VerdictFromVoices(key: ResourceKey, voices: seq<Voice>)
    requires voices != [] && |SourcesOf(voices)| <= MAX_ATTESTORS
    ensures var r, said := Resolve(key, HearRun(voices)), FirstVoices(voices);
            && said != []
            && (r.status == Status.Ok <==> AllCurrent(said) && Unanimous(said))
            && (r.status == Disagreement(key.kind) <==> !Unanimous(said))
            && r.status in {Status.Ok, Disagreement(key.kind), Status.NoAuthoritativeSource}
            && (Unanimous(said) ==> r.consensus == said[0].content && r.distinct == 1)
            && Attestors(r) == SourcesOf(voices)
  {
    hide HearRun, FirstVoices, Matches, AllCurrent, Unanimous, Contents, AllAuthoritative, AllSaid;
    var said, heard := FirstVoices(voices), HearRun(voices).attestations;
    NobodyTruncated(voices);
    FirstIsAttested(voices);
    SomethingFirst(voices);
    AllSaidMatches(said);
    hide SourcesOf, HeardSources, DistinctSources;
    ContentsCount(heard);
    AuthoritativeVoices(said, heard);
    DifferentVoices(said, heard);
    AttestorsAreHeard(HearRun(voices));
  }

  lemma AttestorsAreHeard(r: ResourceRecord)
    ensures Attestors(r) == HeardSources(r.attestations)
  {
  }

  lemma SomethingFirst(voices: seq<Voice>)
    requires voices != []
    ensures FirstVoices(voices) != []
  {
    hide FirstVoices;
    FirstVoicesAreVoices(voices);
    assert voices[0].source in SourcesOf(voices);
  }

  lemma AuthoritativeVoices(voices: seq<Voice>, heard: seq<Attestation>)
    requires Matches(voices, heard)
    ensures AllAuthoritative(heard) <==> AllCurrent(voices)
  {
    if AllAuthoritative(heard) {
      forall v | v in voices ensures v.authoritative {
        var i :| 0 <= i < |heard| && heard[i] == Said(v);
      }
    }
    if AllCurrent(voices) {
      forall i | 0 <= i < |heard| ensures heard[i].authoritative {
        assert heard[i] in heard;
      }
    }
  }

  lemma DifferentVoices(voices: seq<Voice>, heard: seq<Attestation>)
    requires Matches(voices, heard)
    ensures (exists a, b :: a in heard && b in heard && a.content != b.content) <==> !Unanimous(voices)
  {
    if u, v :| u in voices && v in voices && u.content != v.content {
      assert Said(u) in heard && Said(v) in heard && Said(u).content != Said(v).content;
    }
  }

  lemma ContentsCount(heard: seq<Attestation>)
    requires heard != []
    ensures |Contents(heard)| >= 1
    ensures |Contents(heard)| > 1 <==> exists a, b :: a in heard && b in heard && a.content != b.content
  {
    var c := heard[0].content;
    assert heard[0] in heard && c in Contents(heard);
    if a, b :| a in heard && b in heard && a.content != b.content {
      assert a.content in Contents(heard) && b.content in Contents(heard);
      Order.SubsetSize({a.content, b.content}, Contents(heard));
    } else {
      forall x | x in Contents(heard) ensures x == c {
        var a :| a in heard && a.content == x;
      }
      assert Contents(heard) == {c};
    }
  }

  // ----- From voices back to members ----------------------------------------

  /** The member's retained declaration contains the claim. */
  ghost predicate Claims(a: Admission, c: Claim) {
    && a.record.declaration.Some?
    && var lists := a.record.declaration.value.lists;
       exists i, j :: 0 <= i < |lists| && 0 <= j < |lists[i]| && lists[i][j] == c
  }

  ghost predicate Mentions(a: Admission, key: ResourceKey) { exists c :: Claims(a, c) && c.Key() == key }

  lemma {:induction false} ListVoicesAt(env: Env, a: Admission, claims: seq<Claim>, v: Voice)
    ensures v in ListVoices(env, a, claims) <==> exists j :: 0 <= j < |claims| && v == VoiceOf(env, a, claims[j])
  {
    hide VoiceOf;
    if claims != [] {
      var n := |claims| - 1;
      ListVoicesAt(env, a, claims[..n], v);
      assert v == VoiceOf(env, a, claims[n]) || v in ListVoices(env, a, claims[..n]) <==> v in ListVoices(env, a, claims);
    }
  }

  lemma {:induction false} DeclaredVoicesAt(env: Env, a: Admission, lists: seq<seq<Claim>>, v: Voice)
    ensures v in DeclaredVoices(env, a, lists) <==>
      exists i, j :: 0 <= i < |lists| && 0 <= j < |lists[i]| && v == VoiceOf(env, a, lists[i][j])
  {
    hide VoiceOf, ListVoices;
    if lists != [] {
      var n := |lists| - 1;
      DeclaredVoicesAt(env, a, lists[..n], v);
      ListVoicesAt(env, a, lists[n], v);
    }
  }

  lemma MemberVoicesAt(env: Env, a: Admission, v: Voice)
    ensures v in MemberVoices(env, a) <==> exists c :: Claims(a, c) && v == VoiceOf(env, a, c)
  {
    hide VoiceOf, DeclaredVoices;
    if a.record.declaration.Some? {
      var lists := a.record.declaration.value.lists;
      DeclaredVoicesAt(env, a, lists, v);
      if v in MemberVoices(env, a) {
        var i, j :| 0 <= i < |lists| && 0 <= j < |lists[i]| && v == VoiceOf(env, a, lists[i][j]);
        assert Claims(a, lists[i][j]);
      }
    }
  }

  lemma {:induction false} AllVoicesAt(env: Env, admissions: Admissions, order: seq<MemberDomainKey>, v: Voice)
    requires forall d | d in order :: d in admissions
    ensures v in AllVoices(env, admissions, order) <==>
      exists d, c :: d in order && Claims(admissions[d], c) && v == VoiceOf(env, admissions[d], c)
  {
    hide VoiceOf, MemberVoices, Claims;
    if order != [] {
      var front, d := order[..|order| - 1], order[|order| - 1];
      assert order == front + [d];
      AllVoicesAt(env, admissions, front, v);
      MemberVoicesAt(env, admissions[d], v);
    }
  }

  lemma VoicesAt(env: Env, admissions: Admissions, v: Voice)
    ensures v in Voices(env, admissions) <==>
      exists d, c :: d in admissions && Claims(admissions[d], c) && v == VoiceOf(env, admissions[d], c)
  {
    hide VoiceOf, Claims, AllVoices;
    AllVoicesAt(env, admissions, DomainOrder(admissions.Keys), v);
  }

  /** What is said about a resource, by whom. */
  lemma AboutAt(env: Env, admissions: Admissions, key: ResourceKey, v: Voice)
    ensures v in About(Voices(env, admissions), key) <==>
      exists d, c :: d in admissions && Claims(admissions[d], c) && c.Key() == key && v == VoiceOf(env, admissions[d], c)
  {
    hide Claims, Voices, About;
    AboutMembership(Voices(env, admissions), key, v);
    VoicesAt(env, admissions, v);
  }

  function SourcesOfMembers(admissions: Admissions): set<SourceRef> {
    set d | d in admissions :: admissions[d].record.Source()
  }

  lemma {:induction false} FewSources(admissions: Admissions)
    ensures |SourcesOfMembers(admissions)| <= |admissions|
  {
    if admissions != map[] {
      var d :| d in admissions;
      var rest := admissions - {d};
      FewSources(rest);
      forall s | s in SourcesOfMembers(admissions) ensures s in SourcesOfMembers(rest) + {admissions[d].record.Source()} {
        var e :| e in admissions && s == admissions[e].record.Source();
        if e != d { assert e in rest && rest[e] == admissions[e]; }
      }
      Order.SubsetSize(SourcesOfMembers(admissions), SourcesOfMembers(rest) + {admissions[d].record.Source()});
      assert admissions.Keys == rest.Keys + {d};
      assert |admissions| == |admissions.Keys| && |rest| == |rest.Keys|;
    }
  }

  lemma AboutSources(env: Env, admissions: Admissions, key: ResourceKey)
    ensures |SourcesOf(About(Voices(env, admissions), key))| <= |admissions|
  {
    var about := About(Voices(env, admissions), key);
    hide About, Voices, Claims;
    forall s | s in SourcesOf(about) ensures s in SourcesOfMembers(admissions) {
      var v :| v in about && v.source == s;
      AboutAt(env, admissions, key, v);
    }
    Order.SubsetSize(SourcesOf(about), SourcesOfMembers(admissions));
    FewSources(admissions);
  }

  /** Within the bound on member domains no attestor is ever dropped: the
      attestors of a resource are exactly the members that mention it. */
  lemma AttestorsAreTheMentioners(env: Env, admissions: Admissions, key: ResourceKey)
    requires |admissions| <= MAX_MEMBER_DOMAINS
    ensures var resources := ResourcesOf(env, admissions);
            && (key in resources <==> exists d :: d in admissions && Mentions(admissions[d], key))
            && (key in resources ==> forall s :: s in Attestors(resources[key]) <==>
                 exists d :: d in admissions && Mentions(admissions[d], key) && s == admissions[d].record.Source())
  {
    var about := About(Voices(env, admissions), key);
    hide About, Voices, ResourcesOf, Claims, HearRun;
    ResourceAt(env, admissions, key);
    AboutSources(env, admissions, key);
    NobodyTruncated(about);
    forall s ensures s in SourcesOf(about) <==>
      exists d :: d in admissions && Mentions(admissions[d], key) && s == admissions[d].record.Source()
    {
      if s in SourcesOf(about) {
        var v :| v in about && v.source == s;
        AboutAt(env, admissions, key, v);
      }
      if d :| d in admissions && Mentions(admissions[d], key) && s == admissions[d].record.Source() {
        var c :| Claims(admissions[d], c) && c.Key() == key;
        AboutAt(env, admissions, key, VoiceOf(env, admissions[d], c));
      }
    }
    if about != [] {
      assert about[0] in about && about[0].source in SourcesOf(about);
    } else if d :| d in admissions && Mentions(admissions[d], key) {
      assert admissions[d].record.Source() in SourcesOf(about);
    }
  }

  // ----- The first claim of each member -------------------------------------

  /** The first claim about a resource in a list, then in a declaration. */
  function FirstIn(claims: seq<Claim>, key: ResourceKey): Option<Claim> {
    if claims == [] then None
    else
      var front, last := claims[..|claims| - 1], claims[|claims| - 1];
      if FirstIn(front, key).Some? then FirstIn(front, key) else if last.Key() == key then Some(last) else None
  }

  function FirstOf(lists: seq<seq<Claim>>, key: ResourceKey): Option<Claim> {
    if lists == [] then None
    else
      var front := FirstOf(lists[..|lists| - 1], key);
      if front.Some? then front else FirstIn(lists[|lists| - 1], key)
  }

  function FirstClaim(a: Admission, key: ResourceKey): Option<Claim> {
    if a.record.declaration.Some? then FirstOf(a.record.declaration.value.lists, key) else None
  }

  /** What is heard first of some voices about a resource. */
  ghost predicate Begins(env: Env, a: Admission, about: seq<Voice>, first: Option<Claim>) {
    && (first.None? <==> about == [])
    && (first.Some? ==> about != [] && about[0] == VoiceOf(env, a, first.value))
  }

  lemma {:induction false} ListBegins(env: Env, a: Admission, claims: seq<Claim>, key: ResourceKey)
    ensures Begins(env, a, About(ListVoices(env, a, claims), key), FirstIn(claims, key))
  {
    if claims != [] {
      var front, last := claims[..|claims| - 1], claims[|claims| - 1];
      ListBegins(env, a, front, key);
      var u, v := ListVoices(env, a, front), [VoiceOf(env, a, last)];
      AboutAdds(u, v, key);
      assert [VoiceOf(env, a, last)][..0] == [];
    }
  }

  lemma {:induction false} DeclarationBegins(env: Env, a: Admission, lists: seq<seq<Claim>>, key: ResourceKey)
    ensures Begins(env, a, About(DeclaredVoices(env, a, lists), key), FirstOf(lists, key))
  {
    hide About, FirstIn, ListVoices, VoiceOf;
    if lists != [] {
      var front, last := lists[..|lists| - 1], lists[|lists| - 1];
      DeclarationBegins(env, a, front, key);
      ListBegins(env, a, last, key);
      AboutAdds(DeclaredVoices(env, a, front), ListVoices(env, a, last), key);
    } else {
      AboutNothing(key);
    }
  }

  lemma AboutNothing(key: ResourceKey)
    ensures About([], key) == [] && FirstVoices([]) == []
  {
  }

  /** A member is heard by its first claim about the resource. */
  lemma MemberBegins(env: Env, a: Admission, key: ResourceKey)
    ensures var about := About(MemberVoices(env, a), key);
            && Begins(env, a, about, FirstClaim(a, key)) && (forall v | v in about :: v.source == a.record.Source())
            && FirstVoices(about) == if FirstClaim(a, key).Some? then [VoiceOf(env, a, FirstClaim(a, key).value)] else []
  {
    hide About, DeclaredVoices, FirstOf, FirstVoices, Claims;
    AboutNothing(key);
    if a.record.declaration.Some? { DeclarationBegins(env, a, a.record.declaration.value.lists, key); }
    var about := About(MemberVoices(env, a), key);
    forall v | v in about ensures v.source == a.record.Source() {
      AboutMembership(MemberVoices(env, a), key, v);
      MemberVoicesAt(env, a, v);
    }
    if about != [] {
      assert about[0] in about;
      OneSource(about);
    }
  }

  /** The first claim is one of the member's claims, and there is one as soon as the
      member mentions the resource. */
  lemma FirstIsClaimed(env: Env, a: Admission, key: ResourceKey)
    ensures FirstClaim(a, key).Some? <==> Mentions(a, key)
    ensures FirstClaim(a, key).Some? ==> Claims(a, FirstClaim(a, key).value) && FirstClaim(a, key).value.Key() == key
  {
    hide About, FirstClaim, Claims, MemberVoices;
    var about := About(MemberVoices(env, a), key);
    MemberBegins(env, a, key);
    if about != [] {
      assert about[0] in about;
      AboutMembership(MemberVoices(env, a), key, about[0]);
      MemberVoicesAt(env, a, about[0]);
    }
    if c :| Claims(a, c) && c.Key() == key {
      AboutMembership(MemberVoices(env, a), key, VoiceOf(env, a, c));
      MemberVoicesAt(env, a, VoiceOf(env, a, c));
    }
  }

  /** Every admission stands under its own domain. */
  ghost predicate OwnRecords(admissions: Admissions) { forall d | d in admissions :: admissions[d].record.domain == d }

  ghost predicate SpeaksFirst(env: Env, admissions: Admissions, d: MemberDomainKey, key: ResourceKey, v: Voice)
    requires d in admissions
  {
    FirstClaim(admissions[d], key).Some? && v == VoiceOf(env, admissions[d], FirstClaim(admissions[d], key).value)
  }

  lemma {:induction false} FirstVoicesAt(env: Env, admissions: Admissions, order: seq<MemberDomainKey>, key: ResourceKey)
    requires OwnRecords(admissions) && forall d | d in order :: d in admissions
    requires forall i, j | 0 <= i < j < |order| :: order[i] != order[j]
    ensures var about := About(AllVoices(env, admissions, order), key);
            && (forall v | v in about :: v.source.domain in order)
            && forall v :: v in FirstVoices(about) <==> exists d :: d in order && SpeaksFirst(env, admissions, d, key, v)
  {
    hide About, FirstVoices, FirstClaim, MemberVoices, VoiceOf;
    if order == [] {
      AboutNothing(key);
    } else {
      var front, d := order[..|order| - 1], order[|order| - 1];
      assert order == front + [d];
      assert d !in front;
      FirstVoicesAt(env, admissions, front, key);
      MemberBegins(env, admissions[d], key);
      var u, v := About(AllVoices(env, admissions, front), key), About(MemberVoices(env, admissions[d]), key);
      AboutAdds(AllVoices(env, admissions, front), MemberVoices(env, admissions[d]), key);
      assert forall x | x in v :: x.source.domain == d;
      FirstVoicesAdd(u, v);
    }
  }

  /** Everybody who mentions the resource is CURRENT. */
  ghost predicate OnlyCurrentMention(admissions: Admissions, key: ResourceKey) {
    forall d | d in admissions && Mentions(admissions[d], key) :: admissions[d].lifecycle == CurrentMember
  }

  /** The first claims of any two members about the resource have one digest. */
  ghost predicate AgreedContent(env: Env, admissions: Admissions, key: ResourceKey) {
    forall d, e | d in admissions && e in admissions ::
      FirstClaim(admissions[d], key).Some? && FirstClaim(admissions[e], key).Some? ==>
        env.claimDigest(FirstClaim(admissions[d], key).value) == env.claimDigest(FirstClaim(admissions[e], key).value)
  }

  /** The first claim of every member about the resource has this digest. */
  ghost predicate ClaimedContent(env: Env, admissions: Admissions, key: ResourceKey, content: Digest) {
    forall d | d in admissions ::
      FirstClaim(admissions[d], key).Some? ==> env.claimDigest(FirstClaim(admissions[d], key).value) == content
  }

  /** What is said first, said by some member. */
  ghost predicate SaidFirst(env: Env, admissions: Admissions, key: ResourceKey, said: seq<Voice>) {
    forall v :: v in said <==> exists d :: d in admissions && SpeaksFirst(env, admissions, d, key, v)
  }

  lemma VoicesFirst(env: Env, admissions: Admissions, key: ResourceKey)
    requires OwnRecords(admissions)
    ensures SaidFirst(env, admissions, key, FirstVoices(About(Voices(env, admissions), key)))
  {
    hide FirstClaim, DomainOrder, VoiceOf, MemberVoices;
    var order := DomainOrder(admissions.Keys);
    Order.SortedHasNoRepeats(order, Order.DomainText);
    FirstVoicesAt(env, admissions, order, key);
    InOrderIsAdmitted(env, admissions, order, key, FirstVoices(About(Voices(env, admissions), key)));
  }

  lemma InOrderIsAdmitted(env: Env, admissions: Admissions, order: seq<MemberDomainKey>, key: ResourceKey, said: seq<Voice>)
    requires forall d :: d in order <==> d in admissions
    requires forall v :: v in said <==> exists d :: d in order && SpeaksFirst(env, admissions, d, key, v)
    ensures SaidFirst(env, admissions, key, said)
  {
    hide SpeaksFirst;
  }

  lemma CurrentVoices(env: Env, admissions: Admissions, key: ResourceKey, said: seq<Voice>)
    requires SaidFirst(env, admissions, key, said)
    ensures AllCurrent(said) <==> OnlyCurrentMention(admissions, key)
  {
    hide FirstClaim, Mentions;
    forall d | d in admissions && FirstClaim(admissions[d], key).Some?
      ensures VoiceOf(env, admissions[d], FirstClaim(admissions[d], key).value) in said
    {
      assert SpeaksFirst(env, admissions, d, key, VoiceOf(env, admissions[d], FirstClaim(admissions[d], key).value));
    }
    forall d | d in admissions ensures FirstClaim(admissions[d], key).Some? <==> Mentions(admissions[d], key) {
      FirstIsClaimed(env, admissions[d], key);
    }
  }

  lemma UnanimousVoices(env: Env, admissions: Admissions, key: ResourceKey, said: seq<Voice>)
    requires SaidFirst(env, admissions, key, said)
    ensures Unanimous(said) <==> AgreedContent(env, admissions, key)
    ensures said != [] && Unanimous(said) ==> ClaimedContent(env, admissions, key, said[0].content)
  {
    hide FirstClaim;
    forall d | d in admissions && FirstClaim(admissions[d], key).Some?
      ensures VoiceOf(env, admissions[d], FirstClaim(admissions[d], key).value) in said
    {
      assert SpeaksFirst(env, admissions, d, key, VoiceOf(env, admissions[d], FirstClaim(admissions[d], key).value));
    }
    if Unanimous(said) && said != [] { assert said[0] in said; }
    if AgreedContent(env, admissions, key) {
      forall u, v | u in said && v in said ensures u.content == v.content {
        var d :| d in admissions && SpeaksFirst(env, admissions, d, key, u);
        var e :| e in admissions && SpeaksFirst(env, admissions, e, key, v);
      }
    }
  }

  /** What one member owns, unlike links, gateways, pools and what has no kind, which are
      accounted for together. */
  predicate HasOneOwner(kind: ResourceKind) {
    kind !in {SharedLinkKind, GatewayKind, CapacityPoolKind, UnknownResource}
  }

  /** A resource is attributed exactly when every member that mentions it is
      CURRENT and the first claims of all of them say the same; it is disputed
      exactly when two of those first claims differ, even if a member that does not
      count made one; otherwise it has no authoritative source. What a member says
      about a resource after its first claim is never compared. */
  lemma AttributedIff(env: Env, admissions: Admissions, key: ResourceKey)
    requires |admissions| <= MAX_MEMBER_DOMAINS && OwnRecords(admissions)
    requires key in ResourcesOf(env, admissions)
    ensures var r := ResourcesOf(env, admissions)[key];
            && (r.status == Status.Ok <==> OnlyCurrentMention(admissions, key) && AgreedContent(env, admissions, key))
            && (r.status == Disagreement(key.kind) <==> !AgreedContent(env, admissions, key))
            && r.status in {Status.Ok, Disagreement(key.kind), Status.NoAuthoritativeSource}
            && (r.status == Status.OwnershipOverlap <==> !AgreedContent(env, admissions, key) && HasOneOwner(key.kind))
            && (r.status == Status.AccountingConflict <==> !AgreedContent(env, admissions, key) && !HasOneOwner(key.kind))
            && (r.status == Status.Ok ==> r.distinct == 1 && ClaimedContent(env, admissions, key, r.consensus))
  {
    var about := About(Voices(env, admissions), key);
    hide About, Voices, ResourcesOf, FirstVoices, HearRun, Resolve, AllCurrent, Unanimous, OnlyCurrentMention,
      AgreedContent, ClaimedContent, OwnRecords, SaidFirst, SourcesOf;
    ResourceAt(env, admissions, key);
    AboutSources(env, admissions, key);
    VerdictFromVoices(key, about);
    VoicesFirst(env, admissions, key);
    CurrentVoices(env, admissions, key, FirstVoices(about));
    UnanimousVoices(env, admissions, key, FirstVoices(about));
  }

  // ----- Claims behind the pointers -----------------------------------------

  /** A pointer is one of the claims about the resource. */
  lemma {:induction false} PointersWereSaid(voices: seq<Voice>, list: nat)
    ensures list in HearRun(voices).pointers <==> exists v :: v in voices && v.claim.List() == list
    ensures list in HearRun(voices).pointers ==>
      exists v :: v in voices && v.claim == HearRun(voices).pointers[list] && v.claim.List() == list
  {
    hide Attested;
    if voices != [] {
      var front, last := voices[..|voices| - 1], voices[|voices| - 1];
      assert voices == front + [last];
      PointersWereSaid(front, list);
      assert last in voices;
    }
  }

  /** Nothing of the list is said after it. */
  ghost predicate LastOfList(voices: seq<Voice>, list: nat, c: Claim) {
    exists i | 0 <= i < |voices| ::
      && voices[i].claim == c && c.List() == list
      && forall j | i < j < |voices| :: voices[j].claim.List() != list
  }

  /** Of several claims of one list about a resource the last one said stands. */
  lemma {:induction false} PointersAreTheLast(voices: seq<Voice>, list: nat)
    ensures list in HearRun(voices).pointers ==> LastOfList(voices, list, HearRun(voices).pointers[list])
  {
    hide Attested;
    if voices != [] {
      var front, last := voices[..|voices| - 1], voices[|voices| - 1];
      assert voices == front + [last];
      PointersAreTheLast(front, list);
      if last.claim.List() == list {
        assert voices[|voices| - 1].claim == last.claim;
      } else if list in HearRun(front).pointers {
        var c := HearRun(front).pointers[list];
        var i :| 0 <= i < |front| && front[i].claim == c && c.List() == list
                 && forall j | i < j < |front| :: front[j].claim.List() != list;
        assert voices[i].claim == c;
      }
    }
  }

  /** A pointer of a resource is the last claim of its kind about it, in the order of the
      domains and of the lists in their declarations. */
  lemma PointerIsTheLast(env: Env, admissions: Admissions, key: ResourceKey, list: nat)
    requires key in ResourcesOf(env, admissions) && ResourcesOf(env, admissions)[key].Has(list)
    ensures LastOfList(About(Voices(env, admissions), key), list, ResourcesOf(env, admissions)[key].pointers[list])
  {
    var about := About(Voices(env, admissions), key);
    hide About, Voices, ResourcesOf, HearRun, LastOfList;
    ResourceAt(env, admissions, key);
    PointersAreTheLast(about, list);
  }

  lemma PointerIsAClaim(env: Env, admissions: Admissions, key: ResourceKey, list: nat)
    requires key in ResourcesOf(env, admissions)
    ensures var r := ResourcesOf(env, admissions)[key];
            && (r.Has(list) <==> exists d, c :: d in admissions && Claims(admissions[d], c) && c.Key() == key && c.List() == list)
            && (r.Has(list) ==>
                 && r.pointers[list].Key() == key && r.pointers[list].List() == list
                 && exists d :: d in admissions && Claims(admissions[d], r.pointers[list]))
  {
    var about := About(Voices(env, admissions), key);
    hide About, Voices, ResourcesOf, Claims, HearRun;
    ResourceAt(env, admissions, key);
    PointersWereSaid(about, list);
    forall v | v in about
      ensures exists d, c :: d in admissions && Claims(admissions[d], c) && c.Key() == key && v == VoiceOf(env, admissions[d], c)
    {
      AboutAt(env, admissions, key, v);
    }
    if d, c :| d in admissions && Claims(admissions[d], c) && c.Key() == key && c.List() == list {
      AboutAt(env, admissions, key, VoiceOf(env, admissions[d], c));
      assert VoiceOf(env, admissions[d], c).claim.List() == list;
    }
  }

  // ----- Withdrawing a member -----------------------------------------------

  function Without(order: seq<MemberDomainKey>, d: MemberDomainKey): seq<MemberDomainKey> {
    if order == [] then []
    else
      var front := Without(order[..|order| - 1], d);
      if order[|order| - 1] == d then front else front + [order[|order| - 1]]
  }

  lemma {:induction false} WithoutKeepsOrder(order: seq<MemberDomainKey>, d: MemberDomainKey)
    requires Order.StrictlySorted(order, Order.DomainText)
    ensures Order.StrictlySorted(Without(order, d), Order.DomainText)
    ensures forall x :: x in Without(order, d) <==> x in order && x != d
  {
    if order != [] {
      var front, last := order[..|order| - 1], order[|order| - 1];
      assert order == front + [last];
      WithoutKeepsOrder(front, d);
      forall x | x in front ensures Order.Less(Order.DomainText(x), Order.DomainText(last)) {
        var i :| 0 <= i < |front| && front[i] == x;
        assert order[i] == x && order[|order| - 1] == last;
      }
    }
  }

  lemma OrderWithout(domains: set<MemberDomainKey>, d: MemberDomainKey)
    ensures DomainOrder(domains - {d}) == Without(DomainOrder(domains), d)
  {
    var order := Without(DomainOrder(domains), d);
    WithoutKeepsOrder(DomainOrder(domains), d);
    Order.KeysAreInjective();
    assert domains - {d} == set x | x in order;
    Order.SortedIsUnique(order, domains - {d}, Order.DomainText);
  }

  lemma SilentMember(env: Env, a: Admission, key: ResourceKey)
    requires !Mentions(a, key)
    ensures About(MemberVoices(env, a), key) == []
  {
    var about := About(MemberVoices(env, a), key);
    if about != [] {
      assert about[0] in about;
      AboutMembership(MemberVoices(env, a), key, about[0]);
      MemberVoicesAt(env, a, about[0]);
      assert false;
    }
  }

  lemma {:induction false} AboutWithout(env: Env, admissions: Admissions, order: seq<MemberDomainKey>,
      d: MemberDomainKey, key: ResourceKey)
    requires forall x | x in order :: x in admissions
    requires forall x | x in Without(order, d) :: x in (admissions - {d})
    requires d in admissions ==> !Mentions(admissions[d], key)
    ensures About(AllVoices(env, admissions, order), key) == About(AllVoices(env, admissions - {d}, Without(order, d)), key)
  {
    hide MemberVoices, Mentions, About;
    if order == [] {
    } else {
      var front, last := order[..|order| - 1], order[|order| - 1];
      assert order == front + [last];
      var rest := Without(front, d);
      AboutWithout(env, admissions, front, d, key);
      AboutAdds(AllVoices(env, admissions, front), MemberVoices(env, admissions[last]), key);
      if last == d {
        SilentMember(env, admissions[d], key);
      } else {
        assert Without(order, d)[..|Without(order, d)| - 1] == rest;
        AboutAdds(AllVoices(env, admissions - {d}, rest), MemberVoices(env, admissions[last]), key);
      }
    }
  }

  /** Withdrawing a member leaves every resource it does not mention exactly as
      it was. */
  lemma WithdrawalLeavesTheRest(env: Env, admissions: Admissions, d: MemberDomainKey, key: ResourceKey)
    requires d in admissions ==> !Mentions(admissions[d], key)
    ensures key in ResourcesOf(env, admissions) <==> key in ResourcesOf(env, admissions - {d})
    ensures key in ResourcesOf(env, admissions) ==>
      ResourcesOf(env, admissions)[key] == ResourcesOf(env, admissions - {d})[key]
  {
    hide ResourcesOf, Resolve, HearRun, About, Mentions;
    ResourceAt(env, admissions, key);
    ResourceAt(env, admissions - {d}, key);
    OrderWithout(admissions.Keys, d);
    assert (admissions - {d}).Keys == admissions.Keys - {d};
    WithoutKeepsOrder(DomainOrder(admissions.Keys), d);
    AboutWithout(env, admissions, DomainOrder(admissions.Keys), d, key);
  }

  // ----- Conflicts over ownership -------------------------------------------

  datatype Conflict = Conflict(code: Status, subject: ResourceKey, parties: set<SourceRef>)

  /** A conflict beyond the bound is dropped. */
  function AddConflict(conflicts: seq<Conflict>, c: Conflict): (r: seq<Conflict>)
    ensures r != []
    ensures conflicts <= r
  {
    if |conflicts| >= MAX_CONFLICTS then conflicts else conflicts + [c]
  }

  predicate Disputed(r: ResourceRecord) { r.status.OwnershipOverlap? || r.status.AccountingConflict? }

  function OwnershipConflicts(resources: Resources, order: seq<ResourceKey>): (r: seq<Conflict>)
    requires forall k | k in order :: k in resources
    ensures r == [] <==> forall k | k in order :: !Disputed(resources[k])
  {
    if order == [] then []
    else
      var front, k := order[..|order| - 1], order[|order| - 1];
      assert order == front + [k];
      var before := OwnershipConflicts(resources, front);
      if Disputed(resources[k]) then AddConflict(before, Conflict(resources[k].status, k, Attestors(resources[k])))
      else before
  }

  // ----- The loops ----------------------------------------------------------

  method RecordAttestation(attestations: seq<Attestation>, a: Attestation) returns (r: seq<Attestation>)
    ensures r == Attested(attestations, a)
  {
    for i := 0 to |attestations|
      invariant forall k | 0 <= k < i :: attestations[k].source != a.source
    {
      if attestations[i].source == a.source { return attestations; }
    }
    if |attestations| >= MAX_ATTESTORS { return attestations; }
    return attestations + [a];
  }

  /** Records one claim: who makes it, and a pointer to it. */
  method AttestClaim(env: Env, a: Admission, claim: Claim, before: Resources) returns (records: Resources)
    ensures records == Hear(before, VoiceOf(env, a, claim))
  {
    hide Attested;
    var key, list := claim.Key(), claim.List();
    var record := At(before, key);
    var authoritative := a.lifecycle == CurrentMember;
    var attestations := RecordAttestation(record.attestations,
      Attestation(a.record.Source(), env.claimDigest(claim), authoritative));
    records := before[key := record.(attestations := attestations, pointers := record.pointers[list := claim])];
  }

  lemma AttestStep(env: Env, a: Admission, claims: seq<Claim>, before: Resources, i: nat)
    requires i < |claims|
    ensures HearAll(before, ListVoices(env, a, claims[..i + 1]))
      == Hear(HearAll(before, ListVoices(env, a, claims[..i])), VoiceOf(env, a, claims[i]))
  {
    hide Hear, VoiceOf;
    var v, voices := VoiceOf(env, a, claims[i]), ListVoices(env, a, claims[..i]);
    assert claims[..i + 1][..i] == claims[..i];
    assert (voices + [v])[..|voices|] == voices;
  }

  method AttestClaims(env: Env, a: Admission, claims: seq<Claim>, before: Resources) returns (records: Resources)
    ensures records == HearAll(before, ListVoices(env, a, claims))
  {
    hide Hear, VoiceOf;
    records := before;
    for i := 0 to |claims|
      invariant records == HearAll(before, ListVoices(env, a, claims[..i]))
    {
      AttestStep(env, a, claims, before, i);
      records := AttestClaim(env, a, claims[i], records);
    }
    assert claims[..|claims|] == claims;
  }

  method AttestMember(env: Env, a: Admission, before: Resources) returns (records: Resources)
    ensures records == HearAll(before, MemberVoices(env, a))
  {
    hide ListVoices, HearAll;
    records := before;
    if a.record.declaration.None? {
      NothingToHear(before);
      return;
    }
    var lists := a.record.declaration.value.lists;
    NothingToHear(before);
    for i := 0 to |lists|
      invariant records == HearAll(before, DeclaredVoices(env, a, lists[..i]))
    {
      assert lists[..i + 1][..i] == lists[..i];
      HearAllAdds(before, DeclaredVoices(env, a, lists[..i]), ListVoices(env, a, lists[i]));
      records := AttestClaims(env, a, lists[i], records);
    }
    assert lists[..|lists|] == lists;
  }

  lemma NothingToHear(records: Resources)
    ensures HearAll(records, []) == records
  {
  }

  lemma MemberStep(env: Env, admissions: Admissions, order: seq<MemberDomainKey>, i: nat)
    requires i < |order| && forall d | d in order :: d in admissions
    ensures order[i] in admissions
    ensures (forall d | d in order[..i] :: d in admissions) && (forall d | d in order[..i + 1] :: d in admissions)
    ensures HearAll(map[], AllVoices(env, admissions, order[..i + 1]))
      == HearAll(HearAll(map[], AllVoices(env, admissions, order[..i])), MemberVoices(env, admissions[order[i]]))
  {
    hide MemberVoices, HearAll;
    assert order[i] in order;
    assert order[..i + 1][..i] == order[..i];
    HearAllAdds(map[], AllVoices(env, admissions, order[..i]), MemberVoices(env, admissions[order[i]]));
  }

  lemma NobodyHeard(env: Env, admissions: Admissions)
    ensures HearAll(map[], AllVoices(env, admissions, [])) == map[]
  {
  }

  method AttestAll(env: Env, admissions: Admissions) returns (records: Resources)
    ensures records == HearAll(map[], Voices(env, admissions))
  {
    hide MemberVoices, HearAll, AllVoices, DomainOrder, Order.StrictlySorted;
    var order := DomainOrder(admissions.Keys);
    records := map[];
    NobodyHeard(env, admissions);
    assert order[..0] == [];
    for i := 0 to |order|
      invariant forall d | d in order[..i] :: d in admissions
      invariant records == HearAll(map[], AllVoices(env, admissions, order[..i]))
    {
      MemberStep(env, admissions, order, i);
      records := AttestMember(env, admissions[order[i]], records);
    }
    assert order[..|order|] == order;
  }

  method CollectContents(attestations: seq<Attestation>) returns (distinct: set<Digest>, allAuthoritative: bool)
    ensures distinct == Contents(attestations) && allAuthoritative == AllAuthoritative(attestations)
  {
    distinct, allAuthoritative := {}, true;
    for i := 0 to |attestations|
      invariant distinct == Contents(attestations[..i])
      invariant allAuthoritative <==> AllAuthoritative(attestations[..i])
    {
      assert attestations[..i + 1] == attestations[..i] + [attestations[i]];
      distinct := distinct + {attestations[i].content};
      if !attestations[i].authoritative { allAuthoritative := false; }
    }
    assert attestations[..|attestations|] == attestations;
  }

  /** Finalises the agreement state of one resource. */
  method ResolveResource(key: ResourceKey, r: ResourceRecord) returns (resolved: ResourceRecord)
    ensures resolved == Resolve(key, r)
  {
    hide Contents, AllAuthoritative, Disagreement;
    var distinct, allAuthoritative := CollectContents(r.attestations);
    resolved := r.(distinct := |distinct|);
    if r.attestations == [] { return resolved.(status := Status.NoAuthoritativeSource); }
    if |distinct| > 1 { return resolved.(status := Disagreement(key.kind)); }
    resolved := resolved.(consensus := r.attestations[0].content);
    return resolved.(status := if allAuthoritative then Status.Ok else Status.NoAuthoritativeSource);
  }

  method AttributeResources(env: Env, admissions: Admissions) returns (resources: Resources, conflicts: seq<Conflict>)
    ensures resources == ResourcesOf(env, admissions)
    ensures conflicts == OwnershipConflicts(resources, KeyOrder(resources.Keys))
  {
    hide *;
    var records := AttestAll(env, admissions);
    ghost var all := ResolveAll(records);
    var order := KeyOrder(records.Keys);
    resources, conflicts := map[], [];
    StartOfConflicts(all);
    for i := 0 to |order|
      invariant forall k :: k in resources <==> k in order[..i]
      invariant forall k | k in resources :: k in records && resources[k] == Resolve(k, records[k])
      invariant forall k | k in order[..i] :: k in all
      invariant conflicts == OwnershipConflicts(all, order[..i])
    {
      var key := order[i];
      assert order[..i + 1] == order[..i] + [key];
      assert key in order;
      var record := ResolveResource(key, records[key]);
      resources := resources[key := record];
      ConflictsStep(all, order, i);
      if record.status.OwnershipOverlap? || record.status.AccountingConflict? {
        conflicts := AddConflict(conflicts, Conflict(record.status, key, Attestors(record)));
      }
    }
    assert order[..|order|] == order;
    assert resources == all;
    AreTheResources(env, admissions, records);
  }

  lemma StartOfConflicts(resources: Resources)
    ensures OwnershipConflicts(resources, []) == []
  {
  }

  lemma ConflictsStep(resources: Resources, order: seq<ResourceKey>, i: nat)
    requires i < |order| && forall k | k in order :: k in resources
    ensures forall k | k in order[..i] + [order[i]] :: k in resources
    ensures order[i] in resources
    ensures var r := resources[order[i]];
            OwnershipConflicts(resources, order[..i] + [order[i]])
              == if r.status.OwnershipOverlap? || r.status.AccountingConflict?
                 then AddConflict(OwnershipConflicts(resources, order[..i]), Conflict(r.status, order[i], Attestors(r)))
                 else OwnershipConflicts(resources, order[..i])
  {
    assert order[i] in order;
    assert (order[..i] + [order[i]])[..i] == order[..i];
  }

  lemma AreTheResources(env: Env, admissions: Admissions, records: Resources)
    requires records == HearAll(map[], Voices(env, admissions))
    ensures ResolveAll(records) == ResourcesOf(env, admissions)
  {
  }
}
