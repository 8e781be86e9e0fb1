/** Records whose every field has a value of its own, and the bytes they are written as:
    little-endian words, lengths in front of texts and lists, fields in their order. */
module KnownBytes {
  import opened Model
  import opened Canonical
  import opened ClaimCodec
  import opened RecordCodec
  import Order

  lemma Word(x: u32, a: u8, b: u8, c: u8, d: u8, rest: Bytes)
    requires x == a + 256 * (b + 256 * (c + 256 * d))
    ensures Put32(x, rest) == [a, b, c, d] + rest
  {
    assert x / 256 == b + 256 * (c + 256 * d) && x / 0x1_0000 == c + 256 * d && x / 0x100_0000 == d;
  }

  /** Least significant byte first; a negative number as its two's complement. */
  lemma WordOrder(rest: Bytes)
    ensures Put32(0x04030201, rest) == [1, 2, 3, 4] + rest
    ensures Put64(0x0807060504030201, rest) == [1, 2, 3, 4] + ([5, 6, 7, 8] + rest)
    ensures PutSigned(-2, rest) == [254, 255, 255, 255] + ([255, 255, 255, 255] + rest)
  {
    hide Put32;
    Word(0x04030201, 1, 2, 3, 4, rest);
    Word(0x08070605, 5, 6, 7, 8, rest);
    Word(0x04030201, 1, 2, 3, 4, [5, 6, 7, 8] + rest);
    Word(0xFFFF_FFFF, 255, 255, 255, 255, rest);
    Word(0xFFFF_FFFE, 254, 255, 255, 255, [255, 255, 255, 255] + rest);
  }

  /** Some bytes, and what follows them. */
  function Then(bytes: Bytes, rest: Bytes): Bytes { bytes + rest }

  lemma Small64(x: u8, rest: Bytes)
    ensures Put64(x, rest) == [x, 0, 0, 0, 0, 0, 0, 0] + rest
  {
    assert Put64(x, rest) == [x, 0, 0, 0] + ([0, 0, 0, 0] + rest);
  }

  lemma Pieces()
    ensures forall x: u8, rest :: Put8(x, rest) == Then([x], rest)
    ensures forall x: u8, rest :: Put32(x, rest) == Then([x, 0, 0, 0], rest)
    ensures forall x: u8, rest :: Put64(x, rest) == Then([x, 0, 0, 0, 0, 0, 0, 0], rest)
    ensures forall x, rest :: PutRaw(x, rest) == Then(x, rest)
  {
    forall x: u8, rest ensures Put64(x, rest) == Then([x, 0, 0, 0, 0, 0, 0, 0], rest) { Small64(x, rest); }
  }

  lemma One<T>(a: T, put: (T, Bytes) -> Bytes, rest: Bytes)
    ensures PutList([a], put, rest) == Put32(1, put(a, rest))
  {
    assert [a][1..] == [];
    assert PutAll([a], put, rest) == put(a, PutAll([], put, rest));
    hide Put32;
  }

  lemma Two<T>(a: T, b: T, put: (T, Bytes) -> Bytes, rest: Bytes)
    ensures PutList([a, b], put, rest) == Put32(2, put(a, put(b, rest)))
  {
    assert [a, b][1..] == [b] && [b][1..] == [];
    assert PutAll([b], put, rest) == put(b, PutAll([], put, rest));
    hide Put32;
  }

  lemma Lists()
    ensures forall a: Text, rest :: PutNames([a], rest) == Put32(1, PutText(a, rest))
    ensures forall a: Text, b: Text, rest :: PutNames([a, b], rest) == Put32(2, PutText(a, PutText(b, rest)))
    ensures forall k, rest :: PutResources([k], rest) == Put32(1, PutResource(k, rest))
    ensures forall m, rest :: PutList([m], PutMember, rest) == Put32(1, PutMember(m, rest))
  {
    hide PutList, Put32, PutText, PutResource, PutMember;
    forall a: Text, rest ensures PutNames([a], rest) == Put32(1, PutText(a, rest)) { One(a, PutText, rest); }
    forall a: Text, b: Text, rest ensures PutNames([a, b], rest) == Put32(2, PutText(a, PutText(b, rest))) {
      Two(a, b, PutText, rest);
    }
    forall k, rest ensures PutResources([k], rest) == Put32(1, PutResource(k, rest)) { One(k, PutResource, rest); }
    forall m, rest ensures PutList([m], PutMember, rest) == Put32(1, PutMember(m, rest)) { One(m, PutMember, rest); }
  }

  const DIGEST: Digest := seq(32, _ => 77)

  const EVIDENCE := Evidence(Reported, 21, 22, DIGEST)

  const CAPACITY := CapacityVector(Known(11), UnknownValue, Known(13))

  // ----- Claims ---------------------------------------------------------------

  const CLUSTER := ClusterClaim([97], 1, [[98], [99]], [[100]], EVIDENCE, ZERO_DIGEST)

  lemma ClusterBytes()
    ensures PutClaim(CLUSTER, []) ==
      Then([1, 0, 0, 0], Then([97], Then([1, 0, 0, 0, 0, 0, 0, 0], Then([2, 0, 0, 0], Then([1, 0, 0, 0], Then([98],
      Then([1, 0, 0, 0], Then([99], Then([1, 0, 0, 0], Then([1, 0, 0, 0], Then([100], Then([2],
      Then([21, 0, 0, 0, 0, 0, 0, 0], Then([22, 0, 0, 0, 0, 0, 0, 0], Then(DIGEST, [])))))))))))))))
  {
    Pieces();
    Lists();
    hide Put8, Put32, Put64, PutRaw, Then, PutNames, PutResources, PutList;
  }

  const POD := PodClaim([97], 1, [[98]], EVIDENCE, ZERO_DIGEST)

  lemma PodBytes()
    ensures PutClaim(POD, []) ==
      Then([1, 0, 0, 0], Then([97], Then([1, 0, 0, 0, 0, 0, 0, 0], Then([1, 0, 0, 0], Then([1, 0, 0, 0], Then([98],
      Then([2], Then([21, 0, 0, 0, 0, 0, 0, 0], Then([22, 0, 0, 0, 0, 0, 0, 0], Then(DIGEST, []))))))))))
  {
    Pieces();
    Lists();
    hide Put8, Put32, Put64, PutRaw, Then, PutNames, PutResources, PutList;
  }

  const RACK := RackClaim([97], 1, CAPACITY, DegradedState, EVIDENCE, ZERO_DIGEST)

  lemma RackBytes()
    ensures PutClaim(RACK, []) ==
      Then([1, 0, 0, 0], Then([97], Then([1, 0, 0, 0, 0, 0, 0, 0], Then([1], Then([11, 0, 0, 0, 0, 0, 0, 0],
      Then([0], Then([0, 0, 0, 0, 0, 0, 0, 0], Then([1], Then([13, 0, 0, 0, 0, 0, 0, 0], Then([3], Then([2],
      Then([21, 0, 0, 0, 0, 0, 0, 0], Then([22, 0, 0, 0, 0, 0, 0, 0], Then(DIGEST, []))))))))))))))
  {
    Pieces();
    hide Put8, Put32, Put64, PutRaw, Then;
  }

  const LINK := SharedLinkClaim([97], true, 2, CAPACITY, Down, EVIDENCE, ZERO_DIGEST)

  lemma LinkBytes()
    ensures PutClaim(LINK, []) ==
      Then([1, 0, 0, 0], Then([97], Then([1], Then([2, 0, 0, 0, 0, 0, 0, 0], Then([1],
      Then([11, 0, 0, 0, 0, 0, 0, 0], Then([0], Then([0, 0, 0, 0, 0, 0, 0, 0], Then([1],
      Then([13, 0, 0, 0, 0, 0, 0, 0], Then([2], Then([2], Then([21, 0, 0, 0, 0, 0, 0, 0],
      Then([22, 0, 0, 0, 0, 0, 0, 0], Then(DIGEST, [])))))))))))))))
  {
    Pieces();
    hide Put8, Put32, Put64, PutRaw, Then;
  }

  const GATEWAY := GatewayClaim([97], 2, CAPACITY, Up, EVIDENCE, ZERO_DIGEST)

  lemma GatewayBytes()
    ensures PutClaim(GATEWAY, []) ==
      Then([1, 0, 0, 0], Then([97], Then([2, 0, 0, 0, 0, 0, 0, 0], Then([1], Then([11, 0, 0, 0, 0, 0, 0, 0],
      Then([0], Then([0, 0, 0, 0, 0, 0, 0, 0], Then([1], Then([13, 0, 0, 0, 0, 0, 0, 0], Then([1], Then([2],
      Then([21, 0, 0, 0, 0, 0, 0, 0], Then([22, 0, 0, 0, 0, 0, 0, 0], Then(DIGEST, []))))))))))))))
  {
    Pieces();
    hide Put8, Put32, Put64, PutRaw, Then;
  }

  const POOL := PoolClaim(ResourceKey(RackKind, [97]), ClusterLocal, 2, CAPACITY, EVIDENCE, ZERO_DIGEST)

  lemma PoolBytes()
    ensures PutClaim(POOL, []) ==
      Then([3], Then([1, 0, 0, 0], Then([97], Then([6], Then([2, 0, 0, 0, 0, 0, 0, 0], Then([1],
      Then([11, 0, 0, 0, 0, 0, 0, 0], Then([0], Then([0, 0, 0, 0, 0, 0, 0, 0], Then([1],
      Then([13, 0, 0, 0, 0, 0, 0, 0], Then([2], Then([21, 0, 0, 0, 0, 0, 0, 0], Then([22, 0, 0, 0, 0, 0, 0, 0],
      Then(DIGEST, [])))))))))))))))
  {
    Pieces();
    hide Put8, Put32, Put64, PutRaw, Then;
  }

  const FAILURE_DOMAIN := FailureDomainClaim([97], Administrative, Some([98]), [ResourceKey(GatewayKind,
    [99])], 4, EVIDENCE, ZERO_DIGEST)

  lemma FailureDomainBytes()
    ensures PutClaim(FAILURE_DOMAIN, []) ==
      Then([1, 0, 0, 0], Then([97], Then([2], Then([1], Then([1, 0, 0, 0], Then([98], Then([1, 0, 0, 0], Then([5],
      Then([1, 0, 0, 0], Then([99], Then([4, 0, 0, 0, 0, 0, 0, 0], Then([2], Then([21, 0, 0, 0, 0, 0, 0, 0],
      Then([22, 0, 0, 0, 0, 0, 0, 0], Then(DIGEST, [])))))))))))))))
  {
    Pieces();
    Lists();
    hide Put8, Put32, Put64, PutRaw, Then, PutNames, PutResources, PutList;
  }

  const ZONE := ZoneClaim([97], Active, 3, 4, [[98]], [ResourceKey(PodKind, [99])], 5, EVIDENCE, ZERO_DIGEST)

  lemma ZoneBytes()
    ensures PutClaim(ZONE, []) ==
      Then([1, 0, 0, 0], Then([97], Then([2], Then([3, 0, 0, 0, 0, 0, 0, 0], Then([4, 0, 0, 0, 0, 0, 0, 0],
      Then([1, 0, 0, 0], Then([1, 0, 0, 0], Then([98], Then([1, 0, 0, 0], Then([2], Then([1, 0, 0, 0], Then([99],
      Then([5, 0, 0, 0, 0, 0, 0, 0], Then([2], Then([21, 0, 0, 0, 0, 0, 0, 0], Then([22, 0, 0, 0, 0, 0, 0, 0],
      Then(DIGEST, [])))))))))))))))))
  {
    Pieces();
    Lists();
    hide Put8, Put32, Put64, PutRaw, Then, PutNames, PutResources, PutList;
  }

  const OBLIGATION := ObligationClaim([97], MinUpGateways, Some([98]), Some(ResourceKey(ClusterKind, [99])), 3,
    true, 4, EVIDENCE, ZERO_DIGEST)

  lemma ObligationBytes()
    ensures PutClaim(OBLIGATION, []) ==
      Then([1, 0, 0, 0], Then([97], Then([6], Then([1], Then([1, 0, 0, 0], Then([98], Then([1], Then([1],
      Then([1, 0, 0, 0], Then([99], Then([3, 0, 0, 0, 0, 0, 0, 0], Then([1], Then([4, 0, 0, 0, 0, 0, 0, 0],
      Then([2], Then([21, 0, 0, 0, 0, 0, 0, 0], Then([22, 0, 0, 0, 0, 0, 0, 0], Then(DIGEST, [])))))))))))))))))
  {
    Pieces();
    hide Put8, Put32, Put64, PutRaw, Then;
  }

  // ----- Records --------------------------------------------------------------

  const DECLARATION := Declaration(MemberDomainKey(RackDomain, [97]), [98], 1, SchemaVersion(2, 3),
    ZERO_DIGEST, 4, EVIDENCE, [])

  lemma DeclarationBytes()
    ensures PutDeclaration(DECLARATION, []) ==
      Then([3], Then([1, 0, 0, 0], Then([97], Then([1, 0, 0, 0], Then([98], Then([1, 0, 0, 0, 0, 0, 0, 0],
      Then([2, 0, 0, 0], Then([3, 0, 0, 0], Then([4, 0, 0, 0, 0, 0, 0, 0], Then([2],
      Then([21, 0, 0, 0, 0, 0, 0, 0], Then([22, 0, 0, 0, 0, 0, 0, 0], Then(DIGEST, [])))))))))))))
  {
    Pieces();
    hide Put8, Put32, Put64, PutRaw, Then;
  }

  const PUBLICATION := PublicationRecord(MemberDomainKey(PodDomain, [97]), 1, DIGEST, SchemaVersion(2, 3),
    [98], 4, Incarnation(5, [99]), [100], PublishAttempt(6, 7), 8, 9, None)

  lemma PublicationBytes()
    ensures PutPublication(PUBLICATION, []) ==
      Then([2], Then([1, 0, 0, 0], Then([97], Then([1, 0, 0, 0, 0, 0, 0, 0], Then(DIGEST, Then([2, 0, 0, 0],
      Then([3, 0, 0, 0], Then([1, 0, 0, 0], Then([98], Then([4, 0, 0, 0, 0, 0, 0, 0],
      Then([5, 0, 0, 0, 0, 0, 0, 0], Then([1, 0, 0, 0], Then([99], Then([1, 0, 0, 0], Then([100],
      Then([6, 0, 0, 0, 0, 0, 0, 0], Then([7, 0, 0, 0], Then([8, 0, 0, 0, 0, 0, 0, 0],
      Then([9, 0, 0, 0, 0, 0, 0, 0], Then([0], []))))))))))))))))))))
  {
    Pieces();
    hide Put8, Put32, Put64, PutRaw, Then;
  }

  const RETIREMENT := RetirementRecord(MemberDomainKey(SharedDomain, [97]), 1, Incarnation(2, [98]), 3, 4, [99])

  lemma RetirementBytes()
    ensures PutRetirement(RETIREMENT, []) ==
      Then([4], Then([1, 0, 0, 0], Then([97], Then([1, 0, 0, 0, 0, 0, 0, 0], Then([2, 0, 0, 0, 0, 0, 0, 0],
      Then([1, 0, 0, 0], Then([98], Then([3, 0, 0, 0, 0, 0, 0, 0], Then([4, 0, 0, 0, 0, 0, 0, 0],
      Then([1, 0, 0, 0], Then([99], [])))))))))))
  {
    Pieces();
    hide Put8, Put32, Put64, PutRaw, Then;
  }

  const TOKEN := AuthorityToken(MemberPublisher, [97], [98, 99], 3, Incarnation(4, [100]), 5, 6, 7, 8)

  lemma TokenBytes()
    ensures PutToken(TOKEN, []) ==
      Then([2], Then([1, 0, 0, 0], Then([97], Then([2, 0, 0, 0], Then([98, 99], Then([3, 0, 0, 0, 0, 0, 0, 0],
      Then([4, 0, 0, 0, 0, 0, 0, 0], Then([1, 0, 0, 0], Then([100], Then([5, 0, 0, 0, 0, 0, 0, 0],
      Then([6, 0, 0, 0, 0, 0, 0, 0], Then([7, 0, 0, 0, 0, 0, 0, 0], Then([8, 0, 0, 0, 0, 0, 0, 0], [])))))))))))))
  {
    Pieces();
    hide Put8, Put32, Put64, PutRaw, Then;
  }

  const EXPECTATION := SiteExpectation([97], SchemaVersion(2, 3), 4,
    [ExpectedMember(MemberDomainKey(ClusterDomain, [98]), true, 5, DIGEST, false)], true)

  lemma ExpectationBytes()
    ensures PutExpectation(EXPECTATION, []) ==
      Then([1, 0, 0, 0], Then([97], Then([2, 0, 0, 0], Then([3, 0, 0, 0], Then([4, 0, 0, 0, 0, 0, 0, 0], Then([1],
      Then([1, 0, 0, 0], Then([1], Then([1, 0, 0, 0], Then([98], Then([1], Then([5, 0, 0, 0, 0, 0, 0, 0],
      Then(DIGEST, Then([0], []))))))))))))))
  {
    Pieces();
    Lists();
    hide Put8, Put32, Put64, PutRaw, Then, PutNames, PutResources, PutList;
  }
}
