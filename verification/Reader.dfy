/** The canonical reader: a cursor over bytes that moves past each value it reads.
    Every method agrees with the reader function of the same encoding on what the
    cursor has left. */
module Reader {
  import opened Model
  import opened Canonical
  import opened ClaimCodec
  import opened RecordCodec
  import SnapshotCodec
  import SourceSets

  /** A read that agrees with what was expected of it. */
  ghost predicate Agrees<T>(r: Outcome<T>, rest: Bytes, expected: Parsed<T>) {
    if r.Success? then expected == Got(r.value, rest) else expected == Refused(r.status)
  }

  class CanonicalReader {
    const data: Bytes
    var offset: nat

    ghost predicate Valid()
      reads this
    {
      offset <= |data|
    }

    function Rest(): Bytes
      requires Valid()
      reads this
    {
      data[offset..]
    }

    constructor (data: Bytes)
      ensures this.data == data && Valid() && Rest() == data
    {
      this.data, offset := data, 0;
    }

    /** The next `n` bytes. */
    method Take(n: nat) returns (r: Bytes)
      requires Valid() && n <= |Rest()|
      modifies this`offset
      ensures Valid() && r == old(Rest())[..n] && Rest() == old(Rest())[n..]
    {
      r := data[offset..offset + n];
      offset := offset + n;
    }

    method U8() returns (r: Outcome<u8>)
      requires Valid()
      modifies this`offset
      ensures Valid() && Agrees(r, Rest(), Get8(old(Rest())))
    {
      if |Rest()| < 1 { return Failure(Status.Truncated); }
      var b := Take(1);
      return Success(b[0]);
    }

    method U32() returns (r: Outcome<u32>)
      requires Valid()
      modifies this`offset
      ensures Valid() && Agrees(r, Rest(), Get32(old(Rest())))
    {
      hide Put32;
      if |Rest()| < 4 { return Failure(Status.Truncated); }
      var b := Take(4);
      return Success(Word32(b));
    }

    method U64() returns (r: Outcome<u64>)
      requires Valid()
      modifies this`offset
      ensures Valid() && Agrees(r, Rest(), Get64(old(Rest())))
    {
      hide Put32, Word32;
      if |Rest()| < 8 { return Failure(Status.Truncated); }
      var low, high := Word32(Rest()), Word32(Rest()[4..]);
      offset := offset + 8;
      assert Rest() == old(Rest())[4..][4..];
      Join64(low, high);
      var wide: int := high;
      var value := low + 0x1_0000_0000 * wide;
      return Success(value);
    }

    method I64() returns (r: Outcome<i64>)
      requires Valid()
      modifies this`offset
      ensures Valid() && Agrees(r, Rest(), GetSigned(old(Rest())))
    {
      hide Get64, Put64;
      var x :- U64();
      var wide: int := x;
      return Success(if wide > 0x7FFF_FFFF_FFFF_FFFF then wide - 0x1_0000_0000_0000_0000 else wide);
    }

    method Flag() returns (r: Outcome<bool>)
      requires Valid()
      modifies this`offset
      ensures Valid() && Agrees(r, Rest(), GetFlag(old(Rest())))
    {
      hide Get8, Put8;
      var x :- U8();
      if x > 1 { return Failure(Status.Malformed); }
      return Success(x == 1);
    }

    /** The length is compared with the bound before a byte of the text is read. */
    method ReadText(limit: nat) returns (r: Outcome<Text>)
      requires Valid()
      modifies this`offset
      ensures Valid() && Agrees(r, Rest(), GetText(old(Rest()), limit))
    {
      hide Get32, Put32;
      var length :- U32();
      if length > limit { return Failure(Status.LimitExceeded); }
      if |Rest()| < length { return Failure(Status.Truncated); }
      var text := Take(length);
      return Success(text);
    }

    method ReadDigest() returns (r: Outcome<Digest>)
      requires Valid()
      modifies this`offset
      ensures Valid() && Agrees(r, Rest(), GetDigest(old(Rest())))
    {
      if |Rest()| < 32 { return Failure(Status.Truncated); }
      var digest := Take(32);
      return Success(digest);
    }

    method Count(bound: nat) returns (r: Outcome<nat>)
      requires Valid()
      modifies this`offset
      ensures Valid() && Agrees(r, Rest(), GetCount(old(Rest()), bound))
    {
      hide Get32, Put32;
      var x :- U32();
      if x > bound { return Failure(Status.LimitExceeded); }
      return Success(x);
    }

    method Identifier() returns (r: Outcome<Text>)
      requires Valid()
      modifies this`offset
      ensures Valid() && Agrees(r, Rest(), GetIdentifier(old(Rest())))
    {
      hide GetText, PutText, ValidIdentifier;
      var x :- ReadText(MAX_IDENTIFIER_BYTES);
      if !ValidIdentifier(x) { return Failure(Status.Malformed); }
      return Success(x);
    }

    method Code(limit: u8) returns (r: Outcome<u8>)
      requires Valid()
      modifies this`offset
      ensures Valid() && Agrees(r, Rest(), GetCode(old(Rest()), limit))
    {
      hide Get8, Put8;
      var x :- U8();
      if x > limit { return Failure(Status.Malformed); }
      return Success(x);
    }

    method Schema() returns (r: Outcome<SchemaVersion>)
      requires Valid()
      modifies this`offset
      ensures Valid() && Agrees(r, Rest(), GetSchema(old(Rest())))
    {
      hide Get32, Put32;
      var major :- U32();
      var minor :- U32();
      return Success(SchemaVersion(major, minor));
    }

    method ReadIncarnation() returns (r: Outcome<Incarnation>)
      requires Valid()
      modifies this`offset
      ensures Valid() && Agrees(r, Rest(), GetIncarnation(old(Rest())))
    {
      hide Get64, Put64, GetText, PutText;
      var sequence :- U64();
      var boot :- ReadText(MAX_IDENTIFIER_BYTES);
      return Success(Incarnation(sequence, boot));
    }

    method Domain() returns (r: Outcome<MemberDomainKey>)
      requires Valid()
      modifies this`offset
      ensures Valid() && Agrees(r, Rest(), GetDomain(old(Rest())))
    {
      hide Get8, Put8, GetText, PutText, GetIdentifier, ValidIdentifier;
      var kind :- U8();
      if kind == 0 {
        var empty :- ReadText(MAX_IDENTIFIER_BYTES);
        if empty != [] { return Failure(Status.Malformed); }
        return Success(MemberDomainKey(UnknownDomain, []));
      }
      if kind > 4 { return Failure(Status.Malformed); }
      var id :- Identifier();
      return Success(MemberDomainKey(DomainOf(kind), id));
    }

    method Resource() returns (r: Outcome<ResourceKey>)
      requires Valid()
      modifies this`offset
      ensures Valid() && Agrees(r, Rest(), GetResource(old(Rest())))
    {
      hide Get8, Put8, GetText, PutText, GetIdentifier, ValidIdentifier;
      var kind :- U8();
      if kind == 0 {
        var empty :- ReadText(MAX_IDENTIFIER_BYTES);
        if empty != [] { return Failure(Status.Malformed); }
        return Success(NO_SUBJECT);
      }
      if kind > 9 { return Failure(Status.Malformed); }
      var id :- Identifier();
      return Success(ResourceKey(ResourceOf(kind), id));
    }

    method ReadEvidence() returns (r: Outcome<Evidence>)
      requires Valid()
      modifies this`offset
      ensures Valid() && Agrees(r, Rest(), GetEvidence(old(Rest())))
    {
      hide GetCode, GetSigned, Get64, GetDigest, Put8, PutSigned, Put64, PutRaw, ProvenanceOf;
      var provenance :- Code(6);
      var observed :- I64();
      var ttl :- U64();
      if ttl > MAX_EVIDENCE_TTL_MS { return Failure(Status.LimitExceeded); }
      var payload :- ReadDigest();
      return Success(Evidence(ProvenanceOf(provenance), observed, ttl, payload));
    }

    method Value() returns (r: Outcome<CapacityValue>)
      requires Valid()
      modifies this`offset
      ensures Valid() && Agrees(r, Rest(), GetValue(old(Rest())))
    {
      hide GetFlag, Get64, PutFlag, Put64;
      var known :- Flag();
      var bps :- U64();
      if known && bps > MAX_CAPACITY_BPS { return Failure(Status.LimitExceeded); }
      if !known && bps != 0 { return Failure(Status.Malformed); }
      return Success(if known then Known(bps) else UnknownValue);
    }

    method Capacity() returns (r: Outcome<CapacityVector>)
      requires Valid()
      modifies this`offset
      ensures Valid() && Agrees(r, Rest(), GetCapacity(old(Rest())))
    {
      hide GetValue, PutValue, GoodValue;
      var ingress :- Value();
      var egress :- Value();
      var internal :- Value();
      return Success(CapacityVector(ingress, egress, internal));
    }

    method Names(bound: nat) returns (r: Outcome<seq<Text>>)
      requires Valid()
      modifies this`offset
      ensures Valid() && Agrees(r, Rest(), GetNames(old(Rest()), bound))
    {
      hide GetCount, GetIdentifier, PutText, PutCount, ValidIdentifier;
      var n :- Count(bound);
      ghost var start := Rest();
      var xs: seq<Text> := [];
      ContinuedNone(GetAll(n, GetIdentifier, start));
      for i := 0 to n
        invariant Valid() && |xs| == i
        invariant GetAll(n, GetIdentifier, start) == Continued(xs, GetAll(n - i, GetIdentifier, Rest()))
      {
        var x := Identifier();
        if x.Failure? { return Failure(x.status); }
        ContinuedMore(xs, x.value, GetAll(n - i - 1, GetIdentifier, Rest()));
        xs := xs + [x.value];
      }
      assert xs + [] == xs;
      return Success(xs);
    }

    method Resources(bound: nat) returns (r: Outcome<seq<ResourceKey>>)
      requires Valid()
      modifies this`offset
      ensures Valid() && Agrees(r, Rest(), GetResources(old(Rest()), bound))
    {
      hide GetCount, GetResource, PutResource, PutCount, GoodResource;
      var n :- Count(bound);
      ghost var start := Rest();
      var xs: seq<ResourceKey> := [];
      ContinuedNone(GetAll(n, GetResource, start));
      for i := 0 to n
        invariant Valid() && |xs| == i
        invariant GetAll(n, GetResource, start) == Continued(xs, GetAll(n - i, GetResource, Rest()))
      {
        var x := Resource();
        if x.Failure? { return Failure(x.status); }
        ContinuedMore(xs, x.value, GetAll(n - i - 1, GetResource, Rest()));
        xs := xs + [x.value];
      }
      assert xs + [] == xs;
      return Success(xs);
    }

    method OptionalName() returns (r: Outcome<Option<Text>>)
      requires Valid()
      modifies this`offset
      ensures Valid() && Agrees(r, Rest(), GetOptionalName(old(Rest())))
    {
      hide GetFlag, GetIdentifier, PutFlag, PutText, ValidIdentifier;
      var present :- Flag();
      if !present { return Success(None); }
      var x :- Identifier();
      return Success(Some(x));
    }

    method OptionalResource() returns (r: Outcome<Option<ResourceKey>>)
      requires Valid()
      modifies this`offset
      ensures Valid() && Agrees(r, Rest(), GetOptionalResource(old(Rest())))
    {
      hide GetFlag, GetResource, PutFlag, PutResource, GoodResource;
      var present :- Flag();
      if !present { return Success(None); }
      var x :- Resource();
      return Success(Some(x));
    }

    method Cluster() returns (r: Outcome<Claim>)
      requires Valid()
      modifies this`offset
      ensures Valid() && Agrees(r, Rest(), GetCluster(old(Rest())))
    {
      hide GetIdentifier, Get64, GetNames, GetEvidence, ValidIdentifier, GoodNames, GoodEvidence, PutText, Put64,
        PutNames, PutEvidence;
      var id :- Identifier();
      var generation :- U64();
      var pods :- Names(MAX_RESOURCE_MEMBERS + 1);
      var racks :- Names(MAX_RESOURCE_MEMBERS + 1);
      var evidence :- ReadEvidence();
      return Success(ClusterClaim(id, generation, pods, racks, evidence, ZERO_DIGEST));
    }

    method Pod() returns (r: Outcome<Claim>)
      requires Valid()
      modifies this`offset
      ensures Valid() && Agrees(r, Rest(), GetPod(old(Rest())))
    {
      hide GetIdentifier, Get64, GetNames, GetEvidence, ValidIdentifier, GoodNames, GoodEvidence, PutText, Put64,
        PutNames, PutEvidence;
      var id :- Identifier();
      var generation :- U64();
      var racks :- Names(MAX_RESOURCE_MEMBERS + 1);
      var evidence :- ReadEvidence();
      return Success(PodClaim(id, generation, racks, evidence, ZERO_DIGEST));
    }

    method Rack() returns (r: Outcome<Claim>)
      requires Valid()
      modifies this`offset
      ensures Valid() && Agrees(r, Rest(), GetRack(old(Rest())))
    {
      hide GetIdentifier, Get64, GetCapacity, GetCode, GetEvidence, ValidIdentifier, GoodCapacity, GoodEvidence,
        PutText, Put64,
        PutCapacity, Put8, PutEvidence, StateOf;
      var id :- Identifier();
      var generation :- U64();
      var capacity :- Capacity();
      var uplink :- Code(3);
      var evidence :- ReadEvidence();
      return Success(RackClaim(id, generation, capacity, StateOf(uplink), evidence, ZERO_DIGEST));
    }

    method Link() returns (r: Outcome<Claim>)
      requires Valid()
      modifies this`offset
      ensures Valid() && Agrees(r, Rest(), GetLink(old(Rest())))
    {
      hide GetIdentifier, GetFlag, Get64, GetCapacity, GetCode, GetEvidence, ValidIdentifier, GoodCapacity,
        GoodEvidence, PutText,
        PutFlag, Put64, PutCapacity, Put8, PutEvidence, StateOf;
      var id :- Identifier();
      var external :- Flag();
      var generation :- U64();
      var capacity :- Capacity();
      var state :- Code(3);
      var evidence :- ReadEvidence();
      return Success(SharedLinkClaim(id, external, generation, capacity, StateOf(state), evidence, ZERO_DIGEST));
    }

    method Gateway() returns (r: Outcome<Claim>)
      requires Valid()
      modifies this`offset
      ensures Valid() && Agrees(r, Rest(), GetGateway(old(Rest())))
    {
      hide GetIdentifier, Get64, GetCapacity, GetCode, GetEvidence, ValidIdentifier, GoodCapacity, GoodEvidence,
        PutText, Put64,
        PutCapacity, Put8, PutEvidence, StateOf;
      var id :- Identifier();
      var generation :- U64();
      var capacity :- Capacity();
      var state :- Code(3);
      var evidence :- ReadEvidence();
      return Success(GatewayClaim(id, generation, capacity, StateOf(state), evidence, ZERO_DIGEST));
    }

    method Pool() returns (r: Outcome<Claim>)
      requires Valid()
      modifies this`offset
      ensures Valid() && Agrees(r, Rest(), GetPool(old(Rest())))
    {
      hide GetResource, GetCode, Get64, GetCapacity, GetEvidence, GoodResource, GoodCapacity, GoodEvidence,
        PutResource, Put8, Put64,
        PutCapacity, PutEvidence, ScopeOf;
      var owner :- Resource();
      var scope :- Code(8);
      var generation :- U64();
      var capacity :- Capacity();
      var evidence :- ReadEvidence();
      return Success(PoolClaim(owner, ScopeOf(scope), generation, capacity, evidence, ZERO_DIGEST));
    }

    method FailureDomain() returns (r: Outcome<Claim>)
      requires Valid()
      modifies this`offset
      ensures Valid() && Agrees(r, Rest(), GetFailureDomain(old(Rest())))
    {
      hide GetIdentifier, GetCode, GetOptionalName, GetResources, Get64, GetEvidence, ValidIdentifier,
        GoodResources, GoodEvidence,
        PutText, Put8, PutOptionalName, PutResources, Put64, PutEvidence, ClassOf;
      var id :- Identifier();
      var domainClass :- Code(2);
      var parent :- OptionalName();
      var members :- Resources(MAX_RESOURCE_MEMBERS + 1);
      var generation :- U64();
      var evidence :- ReadEvidence();
      return Success(FailureDomainClaim(id, ClassOf(domainClass), parent, members, generation, evidence, ZERO_DIGEST));
    }

    method Zone() returns (r: Outcome<Claim>)
      requires Valid()
      modifies this`offset
      ensures Valid() && Agrees(r, Rest(), GetZone(old(Rest())))
    {
      hide GetIdentifier, GetCode, GetSigned, GetNames, GetResources, Get64, GetEvidence, ValidIdentifier,
        GoodNames, GoodResources,
        GoodEvidence, PutText, Put8, PutSigned, PutNames, PutResources, Put64, PutEvidence, MaintenanceOf;
      var id :- Identifier();
      var state :- Code(4);
      var start :- I64();
      var end :- I64();
      var domains :- Names(MAX_FAILURE_DOMAINS + 1);
      var resources :- Resources(MAX_RESOURCE_MEMBERS + 1);
      var generation :- U64();
      var evidence :- ReadEvidence();
      return Success(ZoneClaim(id, MaintenanceOf(state), start, end, domains, resources, generation, evidence,
        ZERO_DIGEST));
    }

    method Obligation() returns (r: Outcome<Claim>)
      requires Valid()
      modifies this`offset
      ensures Valid() && Agrees(r, Rest(), GetObligation(old(Rest())))
    {
      hide GetIdentifier, GetCode, GetOptionalName, GetOptionalResource, GetFlag, Get64, GetEvidence,
        ValidIdentifier, GoodResource,
        GoodEvidence, PutText, Put8, PutOptionalName, PutOptionalResource, PutFlag, Put64, PutEvidence, ObligationOf;
      var id :- Identifier();
      var kind :- Code(7);
      var scopeDomain :- OptionalName();
      var scopeResource :- OptionalResource();
      var required :- U64();
      var isProtected :- Flag();
      var generation :- U64();
      var evidence :- ReadEvidence();
      return Success(ObligationClaim(id, ObligationOf(kind), scopeDomain, scopeResource, required, isProtected,
        generation, evidence,
                                     ZERO_DIGEST));
    }

    method ReadClaim(list: nat) returns (r: Outcome<Claim>)
      requires Valid() && list < 9
      modifies this`offset
      ensures Valid() && Agrees(r, Rest(), GetClaim(list, old(Rest())))
    {
      hide GetCluster, GetPod, GetRack, GetLink, GetGateway, GetPool, GetFailureDomain, GetZone, GetObligation;
      if list == 0 { r := Cluster(); }
      else if list == 1 { r := Pod(); }
      else if list == 2 { r := Rack(); }
      else if list == 3 { r := Link(); }
      else if list == 4 { r := Gateway(); }
      else if list == 5 { r := Pool(); }
      else if list == 6 { r := FailureDomain(); }
      else if list == 7 { r := Zone(); }
      else { r := Obligation(); }
    }

    /** Refuses a count above the bound before a claim is read. */
    method Claims(list: nat) returns (r: Outcome<seq<Claim>>)
      requires Valid() && list < 9
      modifies this`offset
      ensures Valid() && Agrees(r, Rest(), GetClaims(list, old(Rest())))
    {
      hide GetCount, GetClaim, PutCount, ListBound;
      var n :- Count(ListBound(list));
      ghost var start := Rest();
      var xs: seq<Claim> := [];
      ContinuedNone(GetRun(list, n, start));
      for i := 0 to n
        invariant Valid() && |xs| == i
        invariant GetRun(list, n, start) == Continued(xs, GetRun(list, n - i, Rest()))
      {
        var x := ReadClaim(list);
        if x.Failure? { return Failure(x.status); }
        ContinuedMore(xs, x.value, GetRun(list, n - i - 1, Rest()));
        xs := xs + [x.value];
      }
      assert xs + [] == xs;
      return Success(xs);
    }

    method ClaimLists() returns (r: Outcome<seq<seq<Claim>>>)
      requires Valid()
      modifies this`offset
      ensures Valid() && Agrees(r, Rest(), GetLists(0, old(Rest())))
    {
      hide GetClaims;
      ghost var start := Rest();
      var xs: seq<seq<Claim>> := [];
      ContinuedNone(GetLists(0, start));
      for i := 0 to 9
        invariant Valid() && |xs| == i
        invariant GetLists(0, start) == Continued(xs, GetLists(i, Rest()))
      {
        var x := Claims(i);
        if x.Failure? { return Failure(x.status); }
        ContinuedMore(xs, x.value, GetLists(i + 1, Rest()));
        xs := xs + [x.value];
      }
      assert xs + [] == xs;
      return Success(xs);
    }

    /** The digest is recomputed from what was read. */
    method ReadDeclaration(hash: Bytes -> Digest) returns (r: Outcome<Declaration>)
      requires Valid()
      modifies this`offset
      ensures Valid() && Agrees(r, Rest(), GetDeclaration(hash, old(Rest())))
    {
      hide GetDomain, GetIdentifier, Get64, GetSchema, GetEvidence, GetLists, GoodDomain, ValidIdentifier,
        GoodEvidence, PutDomain,
        PutText, Put64, PutSchema, PutEvidence, PutLists, BareLists, Content;
      var domain :- Domain();
      var site :- Identifier();
      var generation :- U64();
      var schema :- Schema();
      var epoch :- U64();
      var evidence :- ReadEvidence();
      var lists :- ClaimLists();
      var d := Declaration(domain, site, generation, schema, ZERO_DIGEST, epoch, evidence, lists);
      return Success(Sealed(d, hash(Content(d))));
    }

    method ReadHeader() returns (r: Outcome<PublicationRecord>)
      requires Valid()
      modifies this`offset
      ensures Valid() && Agrees(r, Rest(), GetHeader(old(Rest())))
    {
      hide GetDomain, Get64, Get32, GetDigest, GetSchema, GetIdentifier, GetIncarnation, GetSigned, GoodDomain,
        ValidIdentifier,
        PutDomain, Put64, Put32, PutRaw, PutSchema, PutText, PutIncarnation, PutSigned;
      var domain :- Domain();
      var generation :- U64();
      var digest :- ReadDigest();
      var schema :- Schema();
      var site :- Identifier();
      var epoch :- U64();
      var incarnation :- ReadIncarnation();
      var publisher :- Identifier();
      var sequence :- U64();
      var attempt :- U32();
      var receivedAt :- I64();
      var acceptance :- U64();
      return Success(PublicationRecord(domain, generation, digest, schema, site, epoch, incarnation, publisher,
                                       PublishAttempt(sequence, attempt), receivedAt, acceptance, None));
    }

    method ReadPublication(hash: Bytes -> Digest) returns (r: Outcome<PublicationRecord>)
      requires Valid()
      modifies this`offset
      ensures Valid() && Agrees(r, Rest(), GetPublication(hash, old(Rest())))
    {
      hide GetHeader, GetFlag, GetDeclaration, PutFlag;
      var p :- ReadHeader();
      var present :- Flag();
      if !present { return Success(p.(declaration := None)); }
      var d :- ReadDeclaration(hash);
      return Success(p.(declaration := Some(d.(digest := p.digest))));
    }

    method ReadRetirement() returns (r: Outcome<RetirementRecord>)
      requires Valid()
      modifies this`offset
      ensures Valid() && Agrees(r, Rest(), GetRetirement(old(Rest())))
    {
      hide GetDomain, Get64, GetIncarnation, GetSigned, GetText, GoodDomain, PutDomain, Put64, PutIncarnation,
        PutSigned, PutText;
      var domain :- Domain();
      var generation :- U64();
      var incarnation :- ReadIncarnation();
      var receivedAt :- I64();
      var acceptance :- U64();
      var reason :- ReadText(MAX_TEXT_BYTES);
      return Success(RetirementRecord(domain, generation, incarnation, receivedAt, acceptance, reason));
    }

    method ReadToken() returns (r: Outcome<AuthorityToken>)
      requires Valid()
      modifies this`offset
      ensures Valid() && Agrees(r, Rest(), GetToken(old(Rest())))
    {
      hide GetCode, GetText, GetIdentifier, Get64, GetIncarnation, GetSigned, ValidIdentifier, Put8, PutText,
        Put64, PutIncarnation,
        PutSigned, AuthorityOf;
      var kind :- Code(4);
      var holder :- ReadText(MAX_IDENTIFIER_BYTES);
      var site :- Identifier();
      var epoch :- U64();
      var incarnation :- ReadIncarnation();
      var generation :- U64();
      var leaseId :- U64();
      var issuedAt :- I64();
      var expiresAt :- I64();
      return Success(AuthorityToken(AuthorityOf(kind), holder, site, epoch, incarnation, generation, leaseId,
        issuedAt, expiresAt));
    }

    method ReadMember() returns (r: Outcome<ExpectedMember>)
      requires Valid()
      modifies this`offset
      ensures Valid() && Agrees(r, Rest(), GetMember(old(Rest())))
    {
      hide GetDomain, GetFlag, Get64, GetDigest, GoodDomain, PutDomain, PutFlag, Put64, PutRaw;
      var domain :- Domain();
      var pinned :- Flag();
      var generation :- U64();
      var digest :- ReadDigest();
      var required :- Flag();
      return Success(ExpectedMember(domain, pinned, generation, digest, required));
    }

    method ReadMembers(bound: nat) returns (r: Outcome<seq<ExpectedMember>>)
      requires Valid()
      modifies this`offset
      ensures Valid() && Agrees(r, Rest(), GetList(old(Rest()), bound, GetMember))
    {
      hide GetCount, GetMember, PutCount;
      var n :- Count(bound);
      ghost var start := Rest();
      var xs: seq<ExpectedMember> := [];
      ContinuedNone(GetAll(n, GetMember, start));
      for i := 0 to n
        invariant Valid() && |xs| == i
        invariant GetAll(n, GetMember, start) == Continued(xs, GetAll(n - i, GetMember, Rest()))
      {
        var x := ReadMember();
        if x.Failure? { return Failure(x.status); }
        ContinuedMore(xs, x.value, GetAll(n - i - 1, GetMember, Rest()));
        xs := xs + [x.value];
      }
      assert xs + [] == xs;
      return Success(xs);
    }

    method ReadExpectation() returns (r: Outcome<SiteExpectation>)
      requires Valid()
      modifies this`offset
      ensures Valid() && Agrees(r, Rest(), GetExpectation(old(Rest())))
    {
      hide GetIdentifier, GetSchema, Get64, GetFlag, GetList, ValidIdentifier, PutText, PutSchema, Put64, PutFlag;
      var site :- Identifier();
      var schema :- Schema();
      var epoch :- U64();
      var reject :- Flag();
      var members :- ReadMembers(MAX_EXPECTED_MEMBERS + 1);
      return Success(SiteExpectation(site, schema, epoch, members, reject));
    }

    /** A source; of an absent one nothing is kept. */
    method ReadRef() returns (r: Outcome<SourceRef>)
      requires Valid()
      modifies this`offset
      ensures Valid() && Agrees(r, Rest(), SnapshotCodec.GetRef(old(Rest())))
    {
      hide GetDomain, Get64, GetDigest, PutDomain, Put64, PutRaw, GoodDomain, SnapshotCodec.PutRef;
      var domain :- Domain();
      var generation :- U64();
      var digest :- ReadDigest();
      if domain.kind == UnknownDomain { return Success(SnapshotCodec.ABSENT); }
      return Success(SourceRef(domain, generation, digest));
    }

    /** Reads sources into a set, one after another. */
    method ReadSources() returns (r: Outcome<seq<SourceRef>>)
      requires Valid()
      modifies this`offset
      ensures Valid() && Agrees(r, Rest(), SnapshotCodec.GetRefs(old(Rest())))
    {
      hide GetCount, PutCount, GetAll, Continued, SnapshotCodec.GetRaw, SnapshotCodec.Normal, SnapshotCodec.Normals,
        SourceSets.VectorOf, SourceSets.Taking, SourceSets.Ascending, SourceSets.Below, SourceSets.Inserting,
        SourceSets.Elements;
      var n :- Count(MAX_DECISION_SOURCES + 1);
      var sources := new SourceSets.SourceSet();
      ghost var start := Rest();
      ghost var raw: seq<SourceRef> := [];
      ContinuedNone(GetAll(n, SnapshotCodec.GetRaw, start));
      NothingTaken();
      for i := 0 to n
        invariant Valid() && fresh(sources) && sources.Valid() && |raw| == i
        invariant sources.items == SourceSets.VectorOf(SnapshotCodec.Normals(raw))
        invariant GetAll(n, SnapshotCodec.GetRaw, start) == Continued(raw, GetAll(n - i, SnapshotCodec.GetRaw, Rest()))
      {
        ghost var before := Rest();
        var x := ReadRef();
        RawsGoOn(n - i, raw, before);
        if x.Failure? { return Failure(x.status); }
        sources.Insert(x.value);
        TakenNext(raw, SnapshotCodec.GetRaw(before).value);
        raw := raw + [SnapshotCodec.GetRaw(before).value];
      }
      RawsEnd(raw, Rest());
      return Success(sources.items);
    }

    /** Factors; those there is no room for are read and dropped. */
    method ReadFactors() returns (r: Outcome<seq<Text>>)
      requires Valid()
      modifies this`offset
      ensures Valid() && Agrees(r, Rest(), SnapshotCodec.GetFactors(old(Rest())))
    {
      hide GetCount, GetText, PutCount, PutText;
      var n :- Count(SnapshotCodec.MAX_FACTORS + 1);
      ghost var start := Rest();
      ghost var all: seq<Text> := [];
      var xs: seq<Text> := [];
      ContinuedNone(GetAll(n, SnapshotCodec.GetLine, start));
      for i := 0 to n
        invariant Valid() && |all| == i && xs == SnapshotCodec.Fitting(all)
        invariant GetAll(n, SnapshotCodec.GetLine, start) == Continued(all, GetAll(n - i, SnapshotCodec.GetLine, Rest()))
      {
        var x := ReadText(MAX_TEXT_BYTES);
        if x.Failure? { return Failure(x.status); }
        ContinuedMore(all, x.value, GetAll(n - i - 1, SnapshotCodec.GetLine, Rest()));
        if |xs| < SnapshotCodec.MAX_FACTORS { xs := xs + [x.value]; }
        all := all + [x.value];
      }
      assert all + [] == all;
      return Success(xs);
    }
  }

  /** One source more, or its refusal. */
  lemma RawsGoOn(n: nat, raw: seq<SourceRef>, b: Bytes)
    requires n > 0
    ensures var r := SnapshotCodec.GetRaw(b);
            Continued(raw, GetAll(n, SnapshotCodec.GetRaw, b))
              == if r.Got? then Continued(raw + [r.value], GetAll(n - 1, SnapshotCodec.GetRaw, r.rest)) else Refused(r.status)
  {
    hide SnapshotCodec.GetRaw;
    var r := SnapshotCodec.GetRaw(b);
    if r.Got? { ContinuedMore(raw, r.value, GetAll(n - 1, SnapshotCodec.GetRaw, r.rest)); }
  }

  lemma RawsEnd(raw: seq<SourceRef>, b: Bytes)
    ensures Continued(raw, GetAll(0, SnapshotCodec.GetRaw, b)) == Got(raw, b)
  {
    assert raw + [] == raw;
  }

  lemma NothingTaken()
    ensures SourceSets.VectorOf(SnapshotCodec.Normals([])) == []
  {
  }

  lemma TakenNext(raw: seq<SourceRef>, x: SourceRef)
    ensures SourceSets.VectorOf(SnapshotCodec.Normals(raw + [x]))
      == SourceSets.Taking(SourceSets.VectorOf(SnapshotCodec.Normals(raw)), SnapshotCodec.Normal(x))
  {
    hide *;
    assert SnapshotCodec.Normals(raw + [x]) == SnapshotCodec.Normals(raw) + [SnapshotCodec.Normal(x)];
    SourceSets.VectorOfMore(SnapshotCodec.Normals(raw), SnapshotCodec.Normal(x));
  }

  /** A list whose front has been read already. */
  function Continued<T>(xs: seq<T>, rest: Parsed<seq<T>>): Parsed<seq<T>> {
    if rest.Got? then Got(xs + rest.value, rest.rest) else rest
  }

  lemma ContinuedNone<T>(rest: Parsed<seq<T>>)
    ensures Continued([], rest) == rest
  {
    if rest.Got? { assert [] + rest.value == rest.value; }
  }

  lemma ContinuedMore<T>(xs: seq<T>, x: T, rest: Parsed<seq<T>>)
    ensures Continued(xs, Continued([x], rest)) == Continued(xs + [x], rest)
  {
    if rest.Got? { assert xs + ([x] + rest.value) == xs + [x] + rest.value; }
  }
}
