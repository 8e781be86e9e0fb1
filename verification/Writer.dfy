/** The canonical writer: a buffer that grows at its end. Whatever is written next
    follows what was written before, so each method says what the buffer is once
    any further bytes are appended to it. */
module Writer {
  import opened Model
  import opened Canonical
  import opened ClaimCodec
  import opened RecordCodec
  import Order

  class CanonicalWriter {
    var buffer: Bytes

    constructor ()
      ensures buffer == []
    {
      buffer := [];
    }

    method Raw(x: Bytes)
      modifies this
      ensures forall k {:trigger buffer + k} :: buffer + k == old(buffer) + PutRaw(x, k)
    {
      buffer := buffer + x;
      forall k ensures buffer + k == old(buffer) + PutRaw(x, k) { assert old(buffer) + x + k == old(buffer) + (x + k); }
    }

    method U8(x: u8)
      modifies this
      ensures forall k {:trigger buffer + k} :: buffer + k == old(buffer) + Put8(x, k)
    {
      Raw([x]);
    }

    /** Least significant byte first. */
    method U32(x: u32)
      modifies this
      ensures forall k {:trigger buffer + k} :: buffer + k == old(buffer) + Put32(x, k)
    {
      Raw([x % 256, x / 256 % 256, x / 0x1_0000 % 256, x / 0x100_0000]);
    }

    method U64(x: u64)
      modifies this
      ensures forall k {:trigger buffer + k} :: buffer + k == old(buffer) + Put64(x, k)
    {
      hide Put32;
      U32(x % 0x1_0000_0000);
      U32(x / 0x1_0000_0000);
    }

    method I64(x: i64)
      modifies this
      ensures forall k {:trigger buffer + k} :: buffer + k == old(buffer) + PutSigned(x, k)
    {
      hide Put64;
      U64(if x < 0 then x + 0x1_0000_0000_0000_0000 else x);
    }

    method Flag(x: bool)
      modifies this
      ensures forall k {:trigger buffer + k} :: buffer + k == old(buffer) + PutFlag(x, k)
    {
      hide Put8;
      U8(if x then 1 else 0);
    }

    method Text(x: Text)
      modifies this
      ensures forall k {:trigger buffer + k} :: buffer + k == old(buffer) + PutText(x, k)
    {
      hide Put32, PutRaw;
      U32(|x| % 0x1_0000_0000);
      Raw(x);
    }

    method Count(x: nat)
      modifies this
      ensures forall k {:trigger buffer + k} :: buffer + k == old(buffer) + PutCount(x, k)
    {
      hide Put32;
      U32(x % 0x1_0000_0000);
    }

    method Schema(x: SchemaVersion)
      modifies this
      ensures forall k {:trigger buffer + k} :: buffer + k == old(buffer) + PutSchema(x, k)
    {
      hide Put32;
      U32(x.major);
      U32(x.minor);
    }

    method WriteIncarnation(x: Incarnation)
      modifies this
      ensures forall k {:trigger buffer + k} :: buffer + k == old(buffer) + PutIncarnation(x, k)
    {
      hide Put64, PutText;
      U64(x.sequence);
      Text(x.boot);
    }

    method Domain(x: MemberDomainKey)
      modifies this
      ensures forall k {:trigger buffer + k} :: buffer + k == old(buffer) + PutDomain(x, k)
    {
      hide Put8, PutText;
      U8(Order.DomainCode(x.kind));
      Text(x.id);
    }

    method Resource(x: ResourceKey)
      modifies this
      ensures forall k {:trigger buffer + k} :: buffer + k == old(buffer) + PutResource(x, k)
    {
      hide Put8, PutText;
      U8(Order.ResourceCode(x.kind));
      Text(x.id);
    }

    method WriteEvidence(x: Evidence)
      modifies this
      ensures forall k {:trigger buffer + k} :: buffer + k == old(buffer) + PutEvidence(x, k)
    {
      hide Put8, PutSigned, Put64, PutRaw, ProvenanceCode;
      U8(ProvenanceCode(x.provenance));
      I64(x.observedAt);
      U64(x.ttl);
      Raw(x.payload);
    }

    method Value(x: CapacityValue)
      modifies this
      ensures forall k {:trigger buffer + k} :: buffer + k == old(buffer) + PutValue(x, k)
    {
      hide PutFlag, Put64;
      Flag(x.Known?);
      U64(if x.Known? then x.bps else 0);
    }

    method Capacity(x: CapacityVector)
      modifies this
      ensures forall k {:trigger buffer + k} :: buffer + k == old(buffer) + PutCapacity(x, k)
    {
      hide PutValue;
      Value(x.ingress);
      Value(x.egress);
      Value(x.internal);
    }

    /** A counted list: what is already written, and what is still to come. */
    method Names(xs: seq<Text>)
      modifies this
      ensures forall k {:trigger buffer + k} :: buffer + k == old(buffer) + PutNames(xs, k)
    {
      hide PutText, PutCount;
      Count(|xs|);
      ghost var start := old(buffer);
      for i := 0 to |xs|
        invariant forall k {:trigger PutAll(xs[i..], PutText, k)} ::
          buffer + PutAll(xs[i..], PutText, k) == start + PutNames(xs, k)
      {
        assert forall k {:trigger PutAll(xs[i..], PutText, k)} :: PutAll(xs[i..], PutText, k) == PutText(xs[i], PutAll(xs[i + 1..], PutText, k)) by {
          assert xs[i..][1..] == xs[i + 1..];
        }
        Text(xs[i]);
        forall k ensures buffer + PutAll(xs[i + 1..], PutText, k) == start + PutNames(xs, k) {
          assert PutAll(xs[i..], PutText, k) == PutText(xs[i], PutAll(xs[i + 1..], PutText, k));
        }
      }
      assert xs[|xs|..] == [];
      forall k ensures buffer + k == start + PutNames(xs, k) { assert PutAll(xs[|xs|..], PutText, k) == k; }
    }

    method Resources(xs: seq<ResourceKey>)
      modifies this
      ensures forall k {:trigger buffer + k} :: buffer + k == old(buffer) + PutResources(xs, k)
    {
      hide PutResource, PutCount;
      Count(|xs|);
      ghost var start := old(buffer);
      for i := 0 to |xs|
        invariant forall k {:trigger PutAll(xs[i..], PutResource, k)} ::
          buffer + PutAll(xs[i..], PutResource, k) == start + PutResources(xs, k)
      {
        assert xs[i..][1..] == xs[i + 1..];
        Resource(xs[i]);
        forall k ensures buffer + PutAll(xs[i + 1..], PutResource, k) == start + PutResources(xs, k) {
          assert PutAll(xs[i..], PutResource, k) == PutResource(xs[i], PutAll(xs[i + 1..], PutResource, k));
        }
      }
      assert xs[|xs|..] == [];
      forall k ensures buffer + k == start + PutResources(xs, k) { assert PutAll(xs[|xs|..], PutResource, k) == k; }
    }

    method OptionalName(x: Option<Text>)
      modifies this
      ensures forall k {:trigger buffer + k} :: buffer + k == old(buffer) + PutOptionalName(x, k)
    {
      hide PutFlag, PutText;
      Flag(x.Some?);
      if x.Some? { Text(x.value); }
    }

    method OptionalResource(x: Option<ResourceKey>)
      modifies this
      ensures forall k {:trigger buffer + k} :: buffer + k == old(buffer) + PutOptionalResource(x, k)
    {
      hide PutFlag, PutResource;
      Flag(x.Some?);
      if x.Some? { Resource(x.value); }
    }

    /** Identity and content of a claim, without its own digest. */
    method WriteClaim(c: Claim)
      modifies this
      ensures forall k {:trigger buffer + k} :: buffer + k == old(buffer) + PutClaim(c, k)
    {
      hide Put8, PutText, Put64, PutSigned, PutFlag, PutNames, PutResources, PutEvidence, PutCapacity, PutResource,
        PutOptionalName, PutOptionalResource;
      match c {
        case ClusterClaim(id, generation, pods, racks, evidence, _) =>
          Text(id); U64(generation); Names(pods); Names(racks); WriteEvidence(evidence);
        case PodClaim(id, generation, racks, evidence, _) =>
          Text(id); U64(generation); Names(racks); WriteEvidence(evidence);
        case RackClaim(id, generation, capacity, uplink, evidence, _) =>
          Text(id); U64(generation); Capacity(capacity); U8(StateCode(uplink)); WriteEvidence(evidence);
        case SharedLinkClaim(id, external, generation, capacity, state, evidence, _) =>
          Text(id); Flag(external); U64(generation); Capacity(capacity); U8(StateCode(state)); WriteEvidence(evidence);
        case GatewayClaim(id, generation, capacity, state, evidence, _) =>
          Text(id); U64(generation); Capacity(capacity); U8(StateCode(state)); WriteEvidence(evidence);
        case PoolClaim(owner, scope, generation, capacity, evidence, _) =>
          Resource(owner); U8(ScopeCode(scope)); U64(generation); Capacity(capacity); WriteEvidence(evidence);
        case FailureDomainClaim(id, domainClass, parent, members, generation, evidence, _) =>
          Text(id); U8(ClassCode(domainClass)); OptionalName(parent); Resources(members); U64(generation); WriteEvidence(evidence);
        case ZoneClaim(id, state, start, end, domains, resources, generation, evidence, _) =>
          Text(id); U8(MaintenanceCode(state)); I64(start); I64(end); Names(domains); Resources(resources); U64(generation);
          WriteEvidence(evidence);
        case ObligationClaim(id, kind, scopeDomain, scopeResource, required, isProtected, generation, evidence, _) =>
          Text(id); U8(ObligationCode(kind)); OptionalName(scopeDomain); OptionalResource(scopeResource); U64(required);
          Flag(isProtected); U64(generation); WriteEvidence(evidence);
      }
    }

    method Claims(xs: seq<Claim>)
      modifies this
      ensures forall k {:trigger buffer + k} :: buffer + k == old(buffer) + PutClaims(xs, k)
    {
      hide PutClaim, PutCount;
      Count(|xs|);
      ghost var start := old(buffer);
      for i := 0 to |xs|
        invariant forall k {:trigger PutAll(xs[i..], PutClaim, k)} ::
          buffer + PutAll(xs[i..], PutClaim, k) == start + PutClaims(xs, k)
      {
        assert xs[i..][1..] == xs[i + 1..];
        WriteClaim(xs[i]);
        forall k ensures buffer + PutAll(xs[i + 1..], PutClaim, k) == start + PutClaims(xs, k) {
          assert PutAll(xs[i..], PutClaim, k) == PutClaim(xs[i], PutAll(xs[i + 1..], PutClaim, k));
        }
      }
      assert xs[|xs|..] == [];
      forall k ensures buffer + k == start + PutClaims(xs, k) { assert PutAll(xs[|xs|..], PutClaim, k) == k; }
    }

    method ClaimLists(xs: seq<seq<Claim>>)
      modifies this
      ensures forall k {:trigger buffer + k} :: buffer + k == old(buffer) + PutLists(xs, k)
    {
      hide PutClaims;
      ghost var start := old(buffer);
      assert xs[0..] == xs;
      for i := 0 to |xs|
        invariant forall k {:trigger PutLists(xs[i..], k)} :: buffer + PutLists(xs[i..], k) == start + PutLists(xs, k)
      {
        assert xs[i..][1..] == xs[i + 1..];
        Claims(xs[i]);
        forall k ensures buffer + PutLists(xs[i + 1..], k) == start + PutLists(xs, k) {
          assert PutLists(xs[i..], k) == PutClaims(xs[i], PutLists(xs[i + 1..], k));
        }
      }
      assert xs[|xs|..] == [];
      forall k ensures buffer + k == start + PutLists(xs, k) { assert PutLists(xs[|xs|..], k) == k; }
    }

    method WriteDeclaration(d: Declaration)
      modifies this
      ensures forall k {:trigger buffer + k} :: buffer + k == old(buffer) + PutDeclaration(d, k)
    {
      hide PutDomain, PutText, Put64, PutSchema, PutEvidence, PutLists;
      Domain(d.domain);
      Text(d.site);
      U64(d.generation);
      Schema(d.schema);
      U64(d.observedEpoch);
      WriteEvidence(d.evidence);
      ClaimLists(d.lists);
    }

    method WriteHeader(p: PublicationRecord)
      modifies this
      ensures forall k {:trigger buffer + k} :: buffer + k == old(buffer) + PutHeader(p, k)
    {
      hide PutDomain, Put64, Put32, PutRaw, PutSchema, PutText, PutIncarnation, PutSigned;
      Domain(p.domain);
      U64(p.generation);
      Raw(p.digest);
      Schema(p.schema);
      Text(p.site);
      U64(p.observedEpoch);
      WriteIncarnation(p.incarnation);
      Text(p.publisher);
      U64(p.attempt.sequence);
      U32(p.attempt.attempt);
      I64(p.receivedAt);
      U64(p.acceptance);
    }

    method WritePublication(p: PublicationRecord)
      modifies this
      ensures forall k {:trigger buffer + k} :: buffer + k == old(buffer) + PutPublication(p, k)
    {
      hide PutHeader, PutFlag, PutDeclaration;
      WriteHeader(p);
      Flag(p.declaration.Some?);
      if p.declaration.Some? { WriteDeclaration(p.declaration.value); }
    }

    method WriteRetirement(r: RetirementRecord)
      modifies this
      ensures forall k {:trigger buffer + k} :: buffer + k == old(buffer) + PutRetirement(r, k)
    {
      hide PutDomain, Put64, PutIncarnation, PutSigned, PutText;
      Domain(r.domain);
      U64(r.generation);
      WriteIncarnation(r.incarnation);
      I64(r.receivedAt);
      U64(r.acceptance);
      Text(r.reason);
    }

    method WriteToken(t: AuthorityToken)
      modifies this
      ensures forall k {:trigger buffer + k} :: buffer + k == old(buffer) + PutToken(t, k)
    {
      hide Put8, PutText, Put64, PutIncarnation, PutSigned, AuthorityCode;
      U8(AuthorityCode(t.kind));
      Text(t.holder);
      Text(t.site);
      U64(t.epoch);
      WriteIncarnation(t.incarnation);
      U64(t.generation);
      U64(t.leaseId);
      I64(t.issuedAt);
      I64(t.expiresAt);
    }

    method WriteMember(m: ExpectedMember)
      modifies this
      ensures forall k {:trigger buffer + k} :: buffer + k == old(buffer) + PutMember(m, k)
    {
      hide PutDomain, PutFlag, Put64, PutRaw;
      Domain(m.domain);
      Flag(m.pinned);
      U64(m.generation);
      Raw(m.digest);
      Flag(m.required);
    }

    method WriteMembers(xs: seq<ExpectedMember>)
      modifies this
      ensures forall k {:trigger buffer + k} :: buffer + k == old(buffer) + PutList(xs, PutMember, k)
    {
      hide PutMember, PutCount;
      Count(|xs|);
      ghost var start := old(buffer);
      for i := 0 to |xs|
        invariant forall k {:trigger PutAll(xs[i..], PutMember, k)} ::
          buffer + PutAll(xs[i..], PutMember, k) == start + PutList(xs, PutMember, k)
      {
        assert xs[i..][1..] == xs[i + 1..];
        WriteMember(xs[i]);
        forall k ensures buffer + PutAll(xs[i + 1..], PutMember, k) == start + PutList(xs, PutMember, k) {
          assert PutAll(xs[i..], PutMember, k) == PutMember(xs[i], PutAll(xs[i + 1..], PutMember, k));
        }
      }
      assert xs[|xs|..] == [];
      forall k ensures buffer + k == start + PutList(xs, PutMember, k) { assert PutAll(xs[|xs|..], PutMember, k) == k; }
    }

    method WriteExpectation(e: SiteExpectation)
      modifies this
      ensures forall k {:trigger buffer + k} :: buffer + k == old(buffer) + PutExpectation(e, k)
    {
      hide PutText, PutSchema, Put64, PutFlag, PutList;
      Text(e.site);
      Schema(e.schema);
      U64(e.minimumEpoch);
      Flag(e.rejectUnexpected);
      WriteMembers(e.members);
    }
  }

  /** The digest of a declaration is that of the bytes a fresh writer holds. */
  method ContentDigest(hash: Bytes -> Digest, d: Declaration) returns (digest: Digest)
    ensures digest == hash(Content(d))
  {
    hide PutDeclaration;
    var writer := new CanonicalWriter();
    writer.WriteDeclaration(d);
    var nothing: Bytes := [];
    assert writer.buffer + nothing == nothing + PutDeclaration(d, nothing);
    assert writer.buffer + nothing == writer.buffer && nothing + PutDeclaration(d, nothing) == PutDeclaration(d, nothing);
    digest := hash(writer.buffer);
  }
}
