/** The encodings of declarations, expectations, publications, retirements and
    authority tokens, and what follows for all of them from three laws: reading
    undoes writing, whatever is read was written that way, and an encoding does
    not look at what follows it. */
module RecordCodec {
  import opened Model
  import opened Canonical
  import opened ClaimCodec

  // ----- Codecs in general --------------------------------------------------

  /** `put` and `get` belong together: on the good values `get` undoes `put` up
      to the fields that are not encoded (`bare`), and `get` accepts nothing else. */
  ghost predicate Lawful<T(!new)>(put: (T, Bytes) -> Bytes, get: Bytes -> Parsed<T>, good: T -> bool, bare: T -> T) {
    && (forall x, k | good(x) :: get(put(x, k)) == Got(bare(x), k))
    && (forall b | get(b).Got? :: good(get(b).value) && b == put(get(b).value, get(b).rest))
    && (forall x, k, m :: put(x, k) + m == put(x, k + m))
  }

  /** Bytes appended to something readable are left over after reading it. */
  lemma LongerDecodes<T(!new)>(put: (T, Bytes) -> Bytes, get: Bytes -> Parsed<T>,
      good: T -> bool, bare: T -> T, front: Bytes, tail: Bytes)
    requires Lawful(put, get, good, bare) && get(front).Got?
    ensures get(front + tail).Got? && get(front + tail).rest == get(front).rest + tail
  {
    var y, q := get(front).value, get(front).rest;
    assert put(y, q) + tail == put(y, q + tail);
    assert get(put(y, q + tail)) == Got(bare(y), q + tail);
  }

  /** An encoding with its tail cut off is refused. */
  lemma NoStrictPrefixDecodes<T(!new)>(put: (T, Bytes) -> Bytes, get: Bytes -> Parsed<T>,
      good: T -> bool, bare: T -> T, x: T, n: nat)
    requires Lawful(put, get, good, bare) && good(x) && n < |put(x, [])|
    ensures get(put(x, [])[..n]).Refused?
  {
    var whole := put(x, []);
    assert get(whole).rest == [];
    assert whole == whole[..n] + whole[n..];
    if get(whole[..n]).Got? {
      LongerDecodes(put, get, good, bare, whole[..n], whole[n..]);
      assert false;
    }
  }

  /** Two encodings that agree up to some point hold the same content and the
      same bytes after it. */
  lemma EncodingsAreInjective<T(!new)>(put: (T, Bytes) -> Bytes, get: Bytes -> Parsed<T>,
      good: T -> bool, bare: T -> T, x: T, y: T, k: Bytes, m: Bytes)
    requires Lawful(put, get, good, bare) && good(x) && good(y) && put(x, k) == put(y, m)
    ensures bare(x) == bare(y) && k == m
  {
    assert get(put(x, k)) == Got(bare(x), k);
    assert get(put(y, m)) == Got(bare(y), m);
  }

  /** The bytes a reader accepts are exactly the encodings of good values. */
  lemma AcceptsExactlyEncodings<T(!new)>(put: (T, Bytes) -> Bytes, get: Bytes -> Parsed<T>,
      good: T -> bool, bare: T -> T, b: Bytes)
    requires Lawful(put, get, good, bare)
    ensures get(b).Got? <==> exists x, k :: good(x) && b == put(x, k)
  {
    if get(b).Got? {
      assert b == put(get(b).value, get(b).rest);
    }
    if x, k :| good(x) && b == put(x, k) {
      assert get(put(x, k)) == Got(bare(x), k);
    }
  }

  // ----- Declarations -------------------------------------------------------

  function ListBound(list: nat): nat {
    if list < 5 then MAX_CLAIM_LISTS + 1
    else if list == 5 then MAX_CAPACITY_CONTRIBUTIONS + 1
    else if list == 6 then MAX_FAILURE_DOMAINS + 1
    else if list == 7 then MAX_MAINTENANCE_ZONES + 1
    else MAX_OBLIGATIONS + 1
  }

  predicate GoodList(list: nat, claims: seq<Claim>) {
    forall i | 0 <= i < |claims| :: claims[i].List() == list && GoodClaim(claims[i])
  }

  function BareList(claims: seq<Claim>): (r: seq<Claim>)
    ensures |r| == |claims| && forall i | 0 <= i < |r| :: r[i] == Bare(claims[i])
  {
    if claims == [] then [] else [Bare(claims[0])] + BareList(claims[1..])
  }

  function GetRun(list: nat, n: nat, b: Bytes): Parsed<seq<Claim>>
    requires list < 9
  {
    if n == 0 then Got([], b)
    else
      var (x, b1) :- GetClaim(list, b);
      var (xs, b2) :- GetRun(list, n - 1, b1);
      Got([x] + xs, b2)
  }

  lemma {:induction false} ReadRun(list: nat, claims: seq<Claim>, rest: Bytes)
    requires list < 9 && GoodList(list, claims)
    ensures GetRun(list, |claims|, PutAll(claims, PutClaim, rest)) == Got(BareList(claims), rest)
  {
    hide PutClaim, GetClaim, GoodClaim, Bare;
    if claims != [] {
      assert claims[0].List() == list && GoodClaim(claims[0]);
      ReadClaim(claims[0], PutAll(claims[1..], PutClaim, rest));
      ReadRun(list, claims[1..], rest);
    }
  }

  lemma {:induction false} RunCanonical(list: nat, n: nat, b: Bytes)
    requires list < 9 && GetRun(list, n, b).Got?
    ensures var r := GetRun(list, n, b);
            && |r.value| == n && GoodList(list, r.value) && r.value == BareList(r.value)
            && b == PutAll(r.value, PutClaim, r.rest)
  {
    hide PutClaim, GetClaim, GoodClaim, Bare;
    if n > 0 {
      ClaimCanonical(list, b);
      var x := GetClaim(list, b);
      RunCanonical(list, n - 1, x.rest);
      var xs := GetRun(list, n - 1, x.rest);
      var r := GetRun(list, n, b);
      assert r.value == [x.value] + xs.value && r.value[1..] == xs.value;
    }
  }

  function PutClaims(claims: seq<Claim>, rest: Bytes): Bytes { PutList(claims, PutClaim, rest) }

  function GetClaims(list: nat, b: Bytes): Parsed<seq<Claim>>
    requires list < 9
  {
    var (n, b1) :- GetCount(b, ListBound(list));
    GetRun(list, n, b1)
  }

  lemma ReadClaims(list: nat, claims: seq<Claim>, rest: Bytes)
    requires list < 9 && GoodList(list, claims) && |claims| <= ListBound(list)
    ensures GetClaims(list, PutClaims(claims, rest)) == Got(BareList(claims), rest)
  {
    hide PutCount, GetCount, GetRun, GoodList;
    ReadCount(|claims|, PutAll(claims, PutClaim, rest), ListBound(list));
    ReadRun(list, claims, rest);
  }

  lemma ClaimsCanonical(list: nat, b: Bytes)
    requires list < 9 && GetClaims(list, b).Got?
    ensures var r := GetClaims(list, b);
            && |r.value| <= ListBound(list) && GoodList(list, r.value) && r.value == BareList(r.value)
            && b == PutClaims(r.value, r.rest)
  {
    hide PutCount, GetCount, GetRun, GoodList, PutClaim;
    var n := GetCount(b, ListBound(list));
    RunCanonical(list, n.value, n.rest);
  }

  lemma ClaimsAppend(claims: seq<Claim>, rest: Bytes, more: Bytes)
    ensures PutClaims(claims, rest) + more == PutClaims(claims, rest + more)
  {
    hide PutClaim, PutCount;
    PrimitivesAppend();
    forall i, k: Bytes, m: Bytes | 0 <= i < |claims|
      ensures PutClaim(claims[i], k) + m == PutClaim(claims[i], k + m)
    {
      ClaimAppend(claims[i], k, m);
    }
    AllAppend(claims, PutClaim, rest, more);
  }

  /** The lists from `i` on. */
  function PutLists(lists: seq<seq<Claim>>, rest: Bytes): Bytes { PutAll(lists, PutClaims, rest) }

  function GetLists(i: nat, b: Bytes): Parsed<seq<seq<Claim>>>
    requires i <= 9
    decreases 9 - i
  {
    if i == 9 then Got([], b)
    else
      var (x, b1) :- GetClaims(i, b);
      var (xs, b2) :- GetLists(i + 1, b1);
      Got([x] + xs, b2)
  }

  predicate GoodLists(i: nat, lists: seq<seq<Claim>>) {
    forall j | 0 <= j < |lists| :: GoodList(i + j, lists[j]) && |lists[j]| <= ListBound(i + j)
  }

  function BareLists(lists: seq<seq<Claim>>): (r: seq<seq<Claim>>)
    ensures |r| == |lists| && forall i | 0 <= i < |r| :: r[i] == BareList(lists[i])
  {
    if lists == [] then [] else [BareList(lists[0])] + BareLists(lists[1..])
  }

  lemma {:induction false} ReadLists(i: nat, lists: seq<seq<Claim>>, rest: Bytes)
    requires i + |lists| == 9 && GoodLists(i, lists)
    ensures GetLists(i, PutLists(lists, rest)) == Got(BareLists(lists), rest)
    decreases |lists|
  {
    hide PutClaims, GetClaims, GoodList, BareList;
    if lists != [] {
      assert GoodList(i + 0, lists[0]);
      ReadClaims(i, lists[0], PutLists(lists[1..], rest));
      forall j | 0 <= j < |lists| - 1
        ensures GoodList(i + 1 + j, lists[1..][j]) && |lists[1..][j]| <= ListBound(i + 1 + j)
      {
        assert GoodList(i + (j + 1), lists[j + 1]);
      }
      ReadLists(i + 1, lists[1..], rest);
    }
  }

  lemma {:induction false} ListsCanonical(i: nat, b: Bytes)
    requires i <= 9 && GetLists(i, b).Got?
    ensures var r := GetLists(i, b);
            && i + |r.value| == 9 && GoodLists(i, r.value) && r.value == BareLists(r.value)
            && b == PutLists(r.value, r.rest)
    decreases 9 - i
  {
    hide PutClaims, GetClaims, GoodList, BareList, ListBound;
    if i < 9 {
      ClaimsCanonical(i, b);
      var x := GetClaims(i, b);
      ListsCanonical(i + 1, x.rest);
      var xs := GetLists(i + 1, x.rest);
      var r := GetLists(i, b);
      assert r.value == [x.value] + xs.value && r.value[1..] == xs.value;
      MoreGoodLists(i, x.value, xs.value);
      hide BareLists;
    }
  }

  lemma MoreGoodLists(i: nat, x: seq<Claim>, xs: seq<seq<Claim>>)
    requires GoodList(i, x) && |x| <= ListBound(i) && GoodLists(i + 1, xs)
    ensures GoodLists(i, [x] + xs)
  {
    hide GoodList, ListBound;
    var lists := [x] + xs;
    forall j | 0 <= j < |lists| ensures GoodList(i + j, lists[j]) && |lists[j]| <= ListBound(i + j) {
      if j > 0 {
        assert GoodList(i + 1 + (j - 1), xs[j - 1]);
      }
    }
  }

  lemma ListsAppend(lists: seq<seq<Claim>>, rest: Bytes, more: Bytes)
    ensures PutLists(lists, rest) + more == PutLists(lists, rest + more)
  {
    hide PutClaims;
    forall i, k: Bytes, m: Bytes | 0 <= i < |lists|
      ensures PutClaims(lists[i], k) + m == PutClaims(lists[i], k + m)
    {
      ClaimsAppend(lists[i], k, m);
    }
    AllAppend(lists, PutClaims, rest, more);
  }

  /** What is hashed and what travels: everything but the digests. */
  function PutDeclaration(d: Declaration, rest: Bytes): Bytes {
    PutDomain(d.domain, PutText(d.site, Put64(d.generation, PutSchema(d.schema, Put64(d.observedEpoch,
      PutEvidence(d.evidence, PutLists(d.lists, rest)))))))
  }

  function Content(d: Declaration): Bytes { PutDeclaration(d, []) }

  predicate GoodDeclaration(d: Declaration) {
    && GoodDomain(d.domain) && ValidIdentifier(d.site) && GoodEvidence(d.evidence)
    && |d.lists| == 9 && GoodLists(0, d.lists)
  }

  function Sealed(d: Declaration, digest: Digest): Declaration { d.(lists := BareLists(d.lists), digest := digest) }

  /** The digest does not travel: it is recomputed from the content. */
  function GetDeclaration(hash: Bytes -> Digest, b: Bytes): Parsed<Declaration> {
    hide PutDomain, PutText, Put64, PutSchema, PutEvidence, GetDomain, GetIdentifier, Get64, GetSchema,
      GetEvidence, GetLists, GoodDomain, ValidIdentifier, GoodEvidence, BareLists;
    var (domain, b1) :- GetDomain(b);
    var (site, b2) :- GetIdentifier(b1);
    var (generation, b3) :- Get64(b2);
    var (schema, b4) :- GetSchema(b3);
    var (epoch, b5) :- Get64(b4);
    var (evidence, b6) :- GetEvidence(b5);
    var (lists, b7) :- GetLists(0, b6);
    var d := Declaration(domain, site, generation, schema, ZERO_DIGEST, epoch, evidence, lists);
    Got(Sealed(d, hash(Content(d))), b7)
  }

  lemma BareTwice(lists: seq<seq<Claim>>)
    ensures BareLists(BareLists(lists)) == BareLists(lists)
  {
    hide BareLists, BareList;
    forall i | 0 <= i < |lists| ensures BareList(BareList(lists[i])) == BareList(lists[i]) {
      BareListTwice(lists[i]);
    }
  }

  lemma BareListTwice(claims: seq<Claim>)
    ensures BareList(BareList(claims)) == BareList(claims)
  {
    hide BareList;
  }

  /** Digests of claims are not part of the content. */
  lemma {:induction false} BareRunSameBytes(claims: seq<Claim>, rest: Bytes)
    ensures PutAll(BareList(claims), PutClaim, rest) == PutAll(claims, PutClaim, rest)
  {
    if claims != [] {
      BareRunSameBytes(claims[1..], rest);
      assert BareList(claims)[1..] == BareList(claims[1..]);
      BareClaimSameBytes(claims[0], PutAll(claims[1..], PutClaim, rest));
      hide PutClaim, Bare;
    }
  }

  lemma BareClaimSameBytes(c: Claim, rest: Bytes)
    ensures PutClaim(Bare(c), rest) == PutClaim(c, rest)
  {
    hide Put8, PutText, Put64, PutSigned, PutFlag, PutNames, PutResources, PutEvidence, PutCapacity, PutResource,
      PutOptionalName, PutOptionalResource;
  }

  lemma {:induction false} BareListsSameBytes(lists: seq<seq<Claim>>, rest: Bytes)
    ensures PutLists(BareLists(lists), rest) == PutLists(lists, rest)
  {
    if lists != [] {
      BareListsSameBytes(lists[1..], rest);
      assert BareLists(lists)[1..] == BareLists(lists[1..]);
      BareRunSameBytes(lists[0], PutLists(lists[1..], rest));
      hide PutClaim, PutCount, BareList;
    }
  }

  lemma SealingKeepsTheContent(d: Declaration, digest: Digest, rest: Bytes)
    ensures PutDeclaration(Sealed(d, digest), rest) == PutDeclaration(d, rest)
  {
    hide PutDomain, PutText, Put64, PutSchema, PutEvidence, PutLists, BareLists;
    BareListsSameBytes(d.lists, rest);
  }

  lemma ReadDeclaration(hash: Bytes -> Digest, d: Declaration, rest: Bytes)
    requires GoodDeclaration(d)
    ensures GetDeclaration(hash, PutDeclaration(d, rest)) == Got(Sealed(d, hash(Content(d))), rest)
  {
    hide PutDomain, PutText, Put64, PutSchema, PutEvidence, PutLists, GetDomain, GetIdentifier, Get64, GetSchema,
      GetEvidence, GetLists, GoodDomain, ValidIdentifier, GoodEvidence, GoodLists, BareLists;
    PrimitivesReadBack();
    PartsReadBack();
    ReadLists(0, d.lists, rest);
    BareTwice(d.lists);
    BareListsSameBytes(d.lists, []);
    ReadDomain(d.domain, PutText(d.site, Put64(d.generation, PutSchema(d.schema, Put64(d.observedEpoch,
      PutEvidence(d.evidence, PutLists(d.lists, rest)))))));
  }

  lemma DeclarationCanonical(hash: Bytes -> Digest, b: Bytes)
    requires GetDeclaration(hash, b).Got?
    ensures var r := GetDeclaration(hash, b);
            && GoodDeclaration(r.value) && r.value == Sealed(r.value, hash(Content(r.value)))
            && b == PutDeclaration(r.value, r.rest)
  {
    hide PutDomain, PutText, Put64, PutSchema, PutEvidence, PutLists, GetDomain, GetIdentifier, Get64, GetSchema,
      GetEvidence, GetLists, GoodDomain, ValidIdentifier, GoodEvidence, GoodLists, BareLists;
    var b6 := GetEvidence(Get64(GetSchema(Get64(GetIdentifier(GetDomain(b).rest).rest).rest).rest).rest).rest;
    ListsCanonical(0, b6);
  }

  lemma DeclarationAppend(d: Declaration, rest: Bytes, more: Bytes)
    ensures PutDeclaration(d, rest) + more == PutDeclaration(d, rest + more)
  {
    hide PutDomain, PutText, Put64, PutSchema, PutEvidence, PutLists;
    PrimitivesAppend();
    PartsAppend();
    ListsAppend(d.lists, rest, more);
  }

  lemma DeclarationsAreLawful(hash: Bytes -> Digest)
    ensures Lawful(PutDeclaration, b => GetDeclaration(hash, b), GoodDeclaration, d => Sealed(d, hash(Content(d))))
  {
    hide PutDeclaration, GetDeclaration, GoodDeclaration, Sealed;
    forall d, k | GoodDeclaration(d)
      ensures GetDeclaration(hash, PutDeclaration(d, k)) == Got(Sealed(d, hash(Content(d))), k)
    {
      ReadDeclaration(hash, d, k);
    }
    forall b | GetDeclaration(hash, b).Got?
      ensures var r := GetDeclaration(hash, b); GoodDeclaration(r.value) && b == PutDeclaration(r.value, r.rest)
    {
      DeclarationCanonical(hash, b);
    }
    forall d, k, m ensures PutDeclaration(d, k) + m == PutDeclaration(d, k + m) { DeclarationAppend(d, k, m); }
  }

  // ----- Publications -------------------------------------------------------

  function PutAttempt(a: PublishAttempt, rest: Bytes): Bytes { Put64(a.sequence, Put32(a.attempt, rest)) }

  function GetAttempt(b: Bytes): (r: Parsed<PublishAttempt>)
    ensures r.Got? ==> b == PutAttempt(r.value, r.rest)
  {
    hide Put64, Put32;
    var (sequence, b1) :- Get64(b);
    var (attempt, b2) :- Get32(b1);
    Got(PublishAttempt(sequence, attempt), b2)
  }

  /** Everything before the declaration; `declaration` itself is not looked at. */
  function PutHeader(p: PublicationRecord, rest: Bytes): Bytes {
    PutDomain(p.domain, Put64(p.generation, PutRaw(p.digest, PutSchema(p.schema, PutText(p.site,
      Put64(p.observedEpoch, PutIncarnation(p.incarnation, PutText(p.publisher, PutAttempt(p.attempt,
        PutSigned(p.receivedAt, Put64(p.acceptance, rest)))))))))))
  }

  function GetHeader(b: Bytes): Parsed<PublicationRecord> {
    hide PutDomain, Put64, PutRaw, PutSchema, PutText, PutIncarnation, PutAttempt, PutSigned, GetDomain, Get64,
      GetDigest, GetSchema, GetIdentifier, GetIncarnation, GetAttempt, GetSigned, ValidIdentifier, GoodDomain;
    var (domain, b1) :- GetDomain(b);
    var (generation, b2) :- Get64(b1);
    var (digest, b3) :- GetDigest(b2);
    var (schema, b4) :- GetSchema(b3);
    var (site, b5) :- GetIdentifier(b4);
    var (epoch, b6) :- Get64(b5);
    var (incarnation, b7) :- GetIncarnation(b6);
    var (publisher, b8) :- GetIdentifier(b7);
    var (attempt, b9) :- GetAttempt(b8);
    var (receivedAt, b10) :- GetSigned(b9);
    var (acceptance, b11) :- Get64(b10);
    Got(PublicationRecord(domain, generation, digest, schema, site, epoch, incarnation, publisher, attempt,
                          receivedAt, acceptance, None), b11)
  }

  predicate GoodHeader(p: PublicationRecord) {
    && GoodDomain(p.domain) && ValidIdentifier(p.site) && ValidIdentifier(p.publisher)
    && |p.incarnation.boot| <= MAX_IDENTIFIER_BYTES
  }

  lemma ReadHeader(p: PublicationRecord, rest: Bytes)
    requires GoodHeader(p)
    ensures GetHeader(PutHeader(p, rest)) == Got(p.(declaration := None), rest)
  {
    hide PutDomain, Put64, PutRaw, PutSchema, PutText, PutIncarnation, PutAttempt, PutSigned, GetDomain, Get64,
      GetDigest, GetSchema, GetIdentifier, GetIncarnation, GetAttempt, GetSigned, ValidIdentifier, GoodDomain;
    PrimitivesReadBack();
    PartsReadBack();
    forall a, k ensures GetAttempt(PutAttempt(a, k)) == Got(a, k) { ReadAttempt(a, k); }
    forall d, k | GoodDomain(d) ensures GetDomain(PutDomain(d, k)) == Got(d, k) { ReadDomain(d, k); }
  }

  lemma ReadAttempt(a: PublishAttempt, rest: Bytes)
    ensures GetAttempt(PutAttempt(a, rest)) == Got(a, rest)
  {
    hide Put64, Put32, Get64, Get32;
    PrimitivesReadBack();
  }

  lemma HeaderCanonical(b: Bytes)
    requires GetHeader(b).Got?
    ensures var r := GetHeader(b);
            GoodHeader(r.value) && r.value.declaration == None && b == PutHeader(r.value, r.rest)
  {
    hide PutDomain, Put64, PutRaw, PutSchema, PutText, PutIncarnation, PutAttempt, PutSigned, GetDomain, Get64,
      GetDigest, GetSchema, GetIdentifier, GetIncarnation, GetAttempt, GetSigned, ValidIdentifier, GoodDomain;
  }

  lemma HeaderAppend(p: PublicationRecord, rest: Bytes, more: Bytes)
    ensures PutHeader(p, rest) + more == PutHeader(p, rest + more)
  {
    hide PutDomain, Put64, PutRaw, PutSchema, PutText, PutIncarnation, PutAttempt, PutSigned;
    PrimitivesAppend();
    PartsAppend();
    forall a, k: Bytes, m: Bytes ensures PutAttempt(a, k) + m == PutAttempt(a, k + m) { AttemptAppend(a, k, m); }
  }

  lemma AttemptAppend(a: PublishAttempt, rest: Bytes, more: Bytes)
    ensures PutAttempt(a, rest) + more == PutAttempt(a, rest + more)
  {
    hide Put64, Put32;
    PrimitivesAppend();
  }

  function PutPublication(p: PublicationRecord, rest: Bytes): Bytes {
    PutHeader(p, PutFlag(p.declaration.Some?,
      if p.declaration.Some? then PutDeclaration(p.declaration.value, rest) else rest))
  }

  /** The declaration read back carries the digest the record states for it. */
  function GetPublication(hash: Bytes -> Digest, b: Bytes): Parsed<PublicationRecord> {
    var (p, b1) :- GetHeader(b);
    var (present, b2) :- GetFlag(b1);
    if !present then Got(p.(declaration := None), b2)
    else
      var (d, b3) :- GetDeclaration(hash, b2);
      Got(p.(declaration := Some(d.(digest := p.digest))), b3)
  }

  predicate GoodPublication(p: PublicationRecord) {
    GoodHeader(p) && (p.declaration.Some? ==> GoodDeclaration(p.declaration.value))
  }

  function BarePublication(p: PublicationRecord): PublicationRecord {
    p.(declaration := if p.declaration.Some? then Some(Sealed(p.declaration.value, p.digest)) else None)
  }

  lemma ReadPublication(hash: Bytes -> Digest, p: PublicationRecord, rest: Bytes)
    requires GoodPublication(p)
    ensures GetPublication(hash, PutPublication(p, rest)) == Got(BarePublication(p), rest)
  {
    hide PutHeader, GetHeader, PutFlag, GetFlag, PutDeclaration, GetDeclaration, GoodHeader, GoodDeclaration;
    var tail := if p.declaration.Some? then PutDeclaration(p.declaration.value, rest) else rest;
    ReadHeader(p, PutFlag(p.declaration.Some?, tail));
    ReadFlag(p.declaration.Some?, tail);
    if p.declaration.Some? { ReadDeclaration(hash, p.declaration.value, rest); }
  }

  lemma PublicationCanonical(hash: Bytes -> Digest, b: Bytes)
    requires GetPublication(hash, b).Got?
    ensures var r := GetPublication(hash, b);
            GoodPublication(r.value) && r.value == BarePublication(r.value) && b == PutPublication(r.value, r.rest)
  {
    hide PutHeader, GetHeader, PutFlag, GetFlag, PutDeclaration, GetDeclaration, GoodHeader, GoodDeclaration;
    HeaderCanonical(b);
    var p := GetHeader(b);
    var flag := GetFlag(p.rest);
    var r := GetPublication(hash, b);
    HeaderIgnoresTheDeclaration(p.value, r.value.declaration, r.rest, PutFlag(r.value.declaration.Some?,
      if r.value.declaration.Some? then PutDeclaration(r.value.declaration.value, r.rest) else r.rest));
    if flag.value {
      var d := GetDeclaration(hash, flag.rest);
      DeclarationCanonical(hash, flag.rest);
      SealingKeepsTheContent(d.value, p.value.digest, d.rest);
      ResealingIsGood(d.value, hash(Content(d.value)), p.value.digest);
    }
  }

  lemma HeaderIgnoresTheDeclaration(p: PublicationRecord, d: Option<Declaration>, rest: Bytes, tail: Bytes)
    ensures PutHeader(p.(declaration := d), tail) == PutHeader(p, tail)
    ensures GoodHeader(p.(declaration := d)) == GoodHeader(p)
  {
  }

  lemma ResealingIsGood(d: Declaration, before: Digest, digest: Digest)
    requires GoodDeclaration(d) && d == Sealed(d, before)
    ensures GoodDeclaration(d.(digest := digest)) && d.(digest := digest) == Sealed(d, digest)
    ensures Sealed(d.(digest := digest), digest) == d.(digest := digest)
  {
  }

  lemma PublicationAppend(p: PublicationRecord, rest: Bytes, more: Bytes)
    ensures PutPublication(p, rest) + more == PutPublication(p, rest + more)
  {
    hide PutHeader, PutFlag, PutDeclaration;
    PrimitivesAppend();
    forall d, k: Bytes, m: Bytes ensures PutDeclaration(d, k) + m == PutDeclaration(d, k + m) {
      DeclarationAppend(d, k, m);
    }
    forall k: Bytes, m: Bytes ensures PutHeader(p, k) + m == PutHeader(p, k + m) { HeaderAppend(p, k, m); }
  }

  /** What is not stored does not matter for reading back. */
  lemma BareIsAsGood(p: PublicationRecord)
    ensures GoodPublication(BarePublication(p)) <==> GoodPublication(p)
  {
    hide GoodEvidence, GoodDomain, ValidIdentifier, GoodList, BareList;
    if p.declaration.Some? { BareListsAreAsGood(p.declaration.value.lists); }
  }

  lemma BareListsAreAsGood(lists: seq<seq<Claim>>)
    ensures GoodLists(0, BareLists(lists)) <==> GoodLists(0, lists)
  {
    hide GoodList, BareList;
    forall i | 0 <= i < |lists| ensures GoodList(i, BareList(lists[i])) <==> GoodList(i, lists[i]) { BareListIsAsGood(i, lists[i]); }
    if GoodLists(0, BareLists(lists)) {
      forall j | 0 <= j < |lists| ensures GoodList(0 + j, lists[j]) && |lists[j]| <= ListBound(0 + j) {
        assert GoodList(0 + j, BareLists(lists)[j]) && |BareLists(lists)[j]| <= ListBound(0 + j);
      }
    }
    if GoodLists(0, lists) {
      forall j | 0 <= j < |lists| ensures GoodList(0 + j, BareLists(lists)[j]) && |BareLists(lists)[j]| <= ListBound(0 + j) {
        assert GoodList(0 + j, lists[j]) && |lists[j]| <= ListBound(0 + j);
      }
    }
  }

  lemma BareListIsAsGood(list: nat, claims: seq<Claim>)
    ensures GoodList(list, BareList(claims)) <==> GoodList(list, claims)
  {
    forall i | 0 <= i < |claims| ensures GoodClaim(BareList(claims)[i]) <==> GoodClaim(claims[i]) { BareClaimIsAsGood(claims[i]); }
    hide GoodClaim, Bare;
    forall i | 0 <= i < |claims| ensures BareList(claims)[i].List() == claims[i].List() { SameList(claims[i]); }
  }

  lemma BareClaimIsAsGood(c: Claim)
    ensures GoodClaim(Bare(c)) <==> GoodClaim(c)
  {
    hide GoodEvidence, ValidIdentifier, GoodNames, GoodResources, GoodCapacity, GoodResource;
  }

  lemma SameList(c: Claim)
    ensures Bare(c).List() == c.List()
  {
  }

  lemma PublicationsAreLawful(hash: Bytes -> Digest)
    ensures Lawful(PutPublication, b => GetPublication(hash, b), GoodPublication, BarePublication)
  {
    hide PutPublication, GetPublication, GoodPublication, BarePublication;
    forall p, k | GoodPublication(p)
      ensures GetPublication(hash, PutPublication(p, k)) == Got(BarePublication(p), k)
    {
      ReadPublication(hash, p, k);
    }
    forall b | GetPublication(hash, b).Got?
      ensures var r := GetPublication(hash, b); GoodPublication(r.value) && b == PutPublication(r.value, r.rest)
    {
      PublicationCanonical(hash, b);
    }
    forall p, k, m ensures PutPublication(p, k) + m == PutPublication(p, k + m) { PublicationAppend(p, k, m); }
  }

  // ----- Retirements --------------------------------------------------------

  function PutRetirement(r: RetirementRecord, rest: Bytes): Bytes {
    PutDomain(r.domain, Put64(r.generation, PutIncarnation(r.incarnation, PutSigned(r.receivedAt,
      Put64(r.acceptance, PutText(r.reason, rest))))))
  }

  function GetRetirement(b: Bytes): Parsed<RetirementRecord> {
    var (domain, b1) :- GetDomain(b);
    var (generation, b2) :- Get64(b1);
    var (incarnation, b3) :- GetIncarnation(b2);
    var (receivedAt, b4) :- GetSigned(b3);
    var (acceptance, b5) :- Get64(b4);
    var (reason, b6) :- GetText(b5, MAX_TEXT_BYTES);
    Got(RetirementRecord(domain, generation, incarnation, receivedAt, acceptance, reason), b6)
  }

  predicate GoodRetirement(r: RetirementRecord) {
    GoodDomain(r.domain) && |r.incarnation.boot| <= MAX_IDENTIFIER_BYTES && |r.reason| <= MAX_TEXT_BYTES
  }

  lemma RetirementsAreLawful()
    ensures Lawful(PutRetirement, GetRetirement, GoodRetirement, r => r)
  {
    hide PutDomain, Put64, PutText, PutIncarnation, PutSigned, GetDomain, Get64, GetText, GetIncarnation,
      GetSigned, GoodDomain;
    forall r, k | GoodRetirement(r) ensures GetRetirement(PutRetirement(r, k)) == Got(r, k) {
      PrimitivesReadBack();
      forall d, m | GoodDomain(d) ensures GetDomain(PutDomain(d, m)) == Got(d, m) { ReadDomain(d, m); }
    }
    forall r, k, m ensures PutRetirement(r, k) + m == PutRetirement(r, k + m) {
      PrimitivesAppend();
      PartsAppend();
    }
  }

  // ----- Authority tokens ---------------------------------------------------

  function AuthorityCode(k: AuthorityKind): (n: u8)
    ensures n <= 4
  {
    match k case UnknownAuthority => 0 case SiteControllerKind => 1 case MemberPublisher => 2
    case MaintenanceOperator => 3 case Observer => 4
  }

  function AuthorityOf(n: u8): (k: AuthorityKind)
    requires n <= 4
    ensures AuthorityCode(k) == n
  {
    if n == 0 then UnknownAuthority else if n == 1 then SiteControllerKind else if n == 2 then MemberPublisher
    else if n == 3 then MaintenanceOperator else Observer
  }

  function PutToken(t: AuthorityToken, rest: Bytes): Bytes {
    Put8(AuthorityCode(t.kind), PutText(t.holder, PutText(t.site, Put64(t.epoch, PutIncarnation(t.incarnation,
      Put64(t.generation, Put64(t.leaseId, PutSigned(t.issuedAt, PutSigned(t.expiresAt, rest)))))))))
  }

  function GetToken(b: Bytes): Parsed<AuthorityToken> {
    hide AuthorityOf, GetText, GetIdentifier, Get64, GetIncarnation, GetSigned, Put8, PutText, Put64,
      PutIncarnation, PutSigned, ValidIdentifier;
    var (kind, b1) :- GetCode(b, 4);
    var (holder, b2) :- GetText(b1, MAX_IDENTIFIER_BYTES);
    var (site, b3) :- GetIdentifier(b2);
    var (epoch, b4) :- Get64(b3);
    var (incarnation, b5) :- GetIncarnation(b4);
    var (generation, b6) :- Get64(b5);
    var (leaseId, b7) :- Get64(b6);
    var (issuedAt, b8) :- GetSigned(b7);
    var (expiresAt, b9) :- GetSigned(b8);
    Got(AuthorityToken(AuthorityOf(kind), holder, site, epoch, incarnation, generation, leaseId, issuedAt, expiresAt),
        b9)
  }

  predicate GoodToken(t: AuthorityToken) {
    && |t.holder| <= MAX_IDENTIFIER_BYTES && ValidIdentifier(t.site)
    && |t.incarnation.boot| <= MAX_IDENTIFIER_BYTES
  }

  lemma ReadToken(t: AuthorityToken, rest: Bytes)
    requires GoodToken(t)
    ensures GetToken(PutToken(t, rest)) == Got(t, rest)
  {
    hide Put8, Put64, PutText, PutIncarnation, PutSigned, Get64, GetText, GetIncarnation, GetCode, GetIdentifier,
      GetSigned, ValidIdentifier;
    PrimitivesReadBack();
    PartsReadBack();
  }

  lemma TokensAreLawful()
    ensures Lawful(PutToken, GetToken, GoodToken, t => t)
  {
    hide Put8, Put64, PutText, PutIncarnation, PutSigned, Get64, GetText, GetIncarnation, GetCode, GetIdentifier,
      GetSigned, ValidIdentifier;
    forall t, k | GoodToken(t) ensures GetToken(PutToken(t, k)) == Got(t, k) { ReadToken(t, k); }
    forall t, k, m ensures PutToken(t, k) + m == PutToken(t, k + m) { PrimitivesAppend(); }
  }

  // ----- Expectations -------------------------------------------------------

  function PutMember(m: ExpectedMember, rest: Bytes): Bytes {
    PutDomain(m.domain, PutFlag(m.pinned, Put64(m.generation, PutRaw(m.digest, PutFlag(m.required, rest)))))
  }

  function GetMember(b: Bytes): Parsed<ExpectedMember> {
    var (domain, b1) :- GetDomain(b);
    var (pinned, b2) :- GetFlag(b1);
    var (generation, b3) :- Get64(b2);
    var (digest, b4) :- GetDigest(b3);
    var (required, b5) :- GetFlag(b4);
    Got(ExpectedMember(domain, pinned, generation, digest, required), b5)
  }

  predicate GoodMember(m: ExpectedMember) { GoodDomain(m.domain) }

  lemma MembersAreLawful()
    ensures Lawful(PutMember, GetMember, GoodMember, m => m)
  {
    hide PutDomain, Put64, PutRaw, PutFlag, GetDomain, Get64, GetDigest, GetFlag, GoodDomain;
    forall m, k | GoodMember(m) ensures GetMember(PutMember(m, k)) == Got(m, k) {
      PrimitivesReadBack();
      ReadDomain(m.domain, PutFlag(m.pinned, Put64(m.generation, PutRaw(m.digest, PutFlag(m.required, k)))));
    }
    forall x, k, m ensures PutMember(x, k) + m == PutMember(x, k + m) {
      PrimitivesAppend();
      PartsAppend();
    }
  }

  function PutExpectation(e: SiteExpectation, rest: Bytes): Bytes {
    PutText(e.site, PutSchema(e.schema, Put64(e.minimumEpoch, PutFlag(e.rejectUnexpected,
      PutList(e.members, PutMember, rest)))))
  }

  function GetExpectation(b: Bytes): Parsed<SiteExpectation> {
    var (site, b1) :- GetIdentifier(b);
    var (schema, b2) :- GetSchema(b1);
    var (epoch, b3) :- Get64(b2);
    var (reject, b4) :- GetFlag(b3);
    var (members, b5) :- GetList(b4, MAX_EXPECTED_MEMBERS + 1, GetMember);
    Got(SiteExpectation(site, schema, epoch, members, reject), b5)
  }

  predicate GoodExpectation(e: SiteExpectation) {
    && ValidIdentifier(e.site) && |e.members| <= MAX_EXPECTED_MEMBERS + 1
    && forall i | 0 <= i < |e.members| :: GoodMember(e.members[i])
  }

  lemma ReadExpectation(e: SiteExpectation, rest: Bytes)
    requires GoodExpectation(e)
    ensures GetExpectation(PutExpectation(e, rest)) == Got(e, rest)
  {
    hide PutText, Put64, PutSchema, PutFlag, GetIdentifier, Get64, GetSchema, GetFlag, ValidIdentifier, PutMember,
      GetMember, GoodMember, PutCount, GetCount;
    PrimitivesReadBack();
    PartsReadBack();
    MembersAreLawful();
    ReadCount(|e.members|, PutAll(e.members, PutMember, rest), MAX_EXPECTED_MEMBERS + 1);
    AllReadBack(e.members, e.members, PutMember, GetMember, rest);
  }

  lemma ExpectationCanonical(b: Bytes)
    requires GetExpectation(b).Got?
    ensures var r := GetExpectation(b); GoodExpectation(r.value) && b == PutExpectation(r.value, r.rest)
  {
    hide PutText, Put64, PutSchema, PutFlag, GetIdentifier, Get64, GetSchema, GetFlag, ValidIdentifier, PutMember,
      GetMember, GoodMember, PutCount, GetCount;
    MembersAreLawful();
    var b4 := GetFlag(Get64(GetSchema(GetIdentifier(b).rest).rest).rest).rest;
    var n := GetCount(b4, MAX_EXPECTED_MEMBERS + 1);
    AllCanonical(n.value, GetMember, PutMember, GoodMember, n.rest);
  }

  lemma ExpectationAppend(e: SiteExpectation, rest: Bytes, more: Bytes)
    ensures PutExpectation(e, rest) + more == PutExpectation(e, rest + more)
  {
    hide PutText, Put64, PutSchema, PutFlag, PutMember, PutCount;
    PrimitivesAppend();
    MembersAreLawful();
    AllAppend(e.members, PutMember, rest, more);
  }

  lemma ExpectationsAreLawful()
    ensures Lawful(PutExpectation, GetExpectation, GoodExpectation, e => e)
  {
    hide PutExpectation, GetExpectation, GoodExpectation;
    forall e, k | GoodExpectation(e) ensures GetExpectation(PutExpectation(e, k)) == Got(e, k) { ReadExpectation(e, k); }
    forall b | GetExpectation(b).Got?
      ensures var r := GetExpectation(b); GoodExpectation(r.value) && b == PutExpectation(r.value, r.rest)
    {
      ExpectationCanonical(b);
    }
    forall e, k, m ensures PutExpectation(e, k) + m == PutExpectation(e, k + m) { ExpectationAppend(e, k, m); }
  }
}
