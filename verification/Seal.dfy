/** Sealing a declaration: every list in one order, exact duplicates collapsed,
    disagreement refused, and the digest of what is left. */
module Seal {
  import opened Model
  import opened Canonical
  import opened ClaimCodec
  import opened RecordCodec
  import opened Order

  // ----- One claim ----------------------------------------------------------

  function TidyNames(xs: seq<Text>): (r: seq<Text>)
    ensures forall x :: x in r <==> x in xs
    ensures StrictlySorted(r, Identity)
  {
    KeysAreInjective();
    Sorted((set x | x in xs), Identity)
  }

  function TidyResources(xs: seq<ResourceKey>): (r: seq<ResourceKey>)
    ensures forall x :: x in r <==> x in xs
    ensures StrictlySorted(r, ResourceText)
  {
    KeysAreInjective();
    Sorted((set x | x in xs), ResourceText)
  }

  /** The claim with its inner lists sorted and without repetitions. */
  function Norm(c: Claim): (n: Claim)
    ensures n.List() == c.List() && n.evidence == c.evidence && n.recordDigest == c.recordDigest && n.Key() == c.Key()
  {
    match c
    case ClusterClaim(id, generation, pods, racks, evidence, recordDigest) =>
      ClusterClaim(id, generation, TidyNames(pods), TidyNames(racks), evidence, recordDigest)
    case PodClaim(id, generation, racks, evidence, recordDigest) =>
      PodClaim(id, generation, TidyNames(racks), evidence, recordDigest)
    case FailureDomainClaim(_, _, _, members, _, _, _) => c.(members := TidyResources(members))
    case ZoneClaim(_, _, _, _, domains, resources, _, _, _) =>
      c.(domains := TidyNames(domains), resources := TidyResources(resources))
    case _ => c
  }

  lemma TidyIsStable(xs: seq<Text>, ys: seq<Text>, ks: seq<ResourceKey>, ls: seq<ResourceKey>)
    ensures (forall x :: x in xs <==> x in ys) ==> TidyNames(xs) == TidyNames(ys)
    ensures (forall k :: k in ks <==> k in ls) ==> TidyResources(ks) == TidyResources(ls)
  {
    if forall x :: x in xs <==> x in ys { assert (set x | x in xs) == (set x | x in ys); }
    if forall k :: k in ks <==> k in ls { assert (set k | k in ks) == (set k | k in ls); }
  }

  lemma NormTwice(c: Claim)
    ensures Norm(Norm(c)) == Norm(c)
  {
    hide TidyNames, TidyResources;
    match c
    case ClusterClaim(_, _, pods, racks, _, _) =>
      TidyIsStable(TidyNames(pods), pods, [], []);
      TidyIsStable(TidyNames(racks), racks, [], []);
    case PodClaim(_, _, racks, _, _) => TidyIsStable(TidyNames(racks), racks, [], []);
    case FailureDomainClaim(_, _, _, members, _, _, _) => TidyIsStable([], [], TidyResources(members), members);
    case ZoneClaim(_, _, _, _, domains, resources, _, _, _) =>
      TidyIsStable(TidyNames(domains), domains, TidyResources(resources), resources);
    case _ =>
  }

  predicate ValidNames(xs: seq<Text>) { forall i | 0 <= i < |xs| :: ValidIdentifier(xs[i]) }

  predicate ValidKeys(xs: seq<ResourceKey>) { forall i | 0 <= i < |xs| :: xs[i].Valid() }

  predicate WellFormed(c: Claim) {
    && (c.PoolClaim? || ValidIdentifier(c.id)) && c.generation != 0
    && match c
       case PoolClaim(owner, scope, _, _, _, _) => owner.Valid() && scope != UnknownScope
       case FailureDomainClaim(id, domainClass, parent, members, _, _, _) =>
         domainClass != UnknownClass && (parent.Some? ==> ValidIdentifier(parent.value) && parent.value != id) && ValidKeys(members)
       case ZoneClaim(_, _, start, end, domains, resources, _, _, _) =>
         end >= start && ValidNames(domains) && ValidKeys(resources)
       case ObligationClaim(_, kind, scopeDomain, scopeResource, required, _, _, _, _) =>
         && kind != UnknownObligation
         && (scopeDomain.Some? ==> ValidIdentifier(scopeDomain.value))
         && (scopeResource.Some? ==> scopeResource.value.Valid())
         && required <= (if kind.IsCount() then MAX_COUNT_VALUE else MAX_CAPACITY_BPS)
       case _ => true
  }

  function EvidenceRefusal(e: Evidence): Option<Status> {
    if e.provenance == UnknownProvenance then Some(Status.EvidenceMissing)
    else if e.observedAt <= 0 then Some(Status.Invalid)
    else if e.ttl == 0 || e.ttl > MAX_EVIDENCE_TTL_MS then Some(Status.Invalid)
    else None
  }

  /** What a list demands of the contents of a tidied claim. */
  function ContentRefusal(n: Claim): Option<Status> {
    match n
    case RackClaim(_, _, capacity, _, _, _) => if GoodCapacity(capacity) then None else Some(Status.CapacityOverflow)
    case SharedLinkClaim(_, _, _, capacity, _, _, _) => if GoodCapacity(capacity) then None else Some(Status.CapacityOverflow)
    case GatewayClaim(_, _, capacity, _, _, _) => if GoodCapacity(capacity) then None else Some(Status.CapacityOverflow)
    case PoolClaim(_, _, _, capacity, _, _) => if GoodCapacity(capacity) then None else Some(Status.CapacityOverflow)
    case FailureDomainClaim(_, _, _, members, _, _, _) =>
      if |members| > MAX_RESOURCE_MEMBERS then Some(Status.LimitExceeded) else None
    case ZoneClaim(_, _, _, _, domains, resources, _, _, _) =>
      if domains == [] && resources == [] then Some(Status.Invalid) else None
    case _ => None
  }

  function ClaimDigest(hash: Bytes -> Digest, c: Claim): Digest { hash(PutClaim(c, [])) }

  /** Checks one claim and tidies it. */
  function Tidied(hash: Bytes -> Digest, c: Claim): (r: Outcome<Claim>)
    ensures r.Success? ==> r.value == Norm(c)
  {
    if !WellFormed(c) then Failure(Status.Malformed)
    else if EvidenceRefusal(c.evidence).Some? then Failure(EvidenceRefusal(c.evidence).value)
    else
      var n := Norm(c);
      if ContentRefusal(n).Some? then Failure(ContentRefusal(n).value)
      else if n.recordDigest != ZERO_DIGEST && n.recordDigest != ClaimDigest(hash, n) then
        Failure(Status.DigestMismatchDeclaration)
      else Success(n)
  }

  lemma WellFormedNorm(c: Claim)
    ensures WellFormed(Norm(c)) == WellFormed(c)
  {
    hide ValidIdentifier, TidyNames, TidyResources;
    match c
    case FailureDomainClaim(_, _, _, members, _, _, _) => SameValidity([], [], TidyResources(members), members);
    case ZoneClaim(_, _, _, _, domains, resources, _, _, _) =>
      SameValidity(TidyNames(domains), domains, TidyResources(resources), resources);
    case _ =>
  }

  lemma SameValidity(xs: seq<Text>, ys: seq<Text>, ks: seq<ResourceKey>, ls: seq<ResourceKey>)
    requires (forall x :: x in xs <==> x in ys) && (forall k :: k in ks <==> k in ls)
    ensures ValidNames(xs) == ValidNames(ys) && ValidKeys(ks) == ValidKeys(ls)
  {
    hide ValidIdentifier;
    forall i | 0 <= i < |xs| ensures xs[i] in ys { assert xs[i] in xs; }
    forall i | 0 <= i < |ys| ensures ys[i] in xs { assert ys[i] in ys; }
    forall i | 0 <= i < |ks| ensures ks[i] in ls { assert ks[i] in ks; }
    forall i | 0 <= i < |ls| ensures ls[i] in ks { assert ls[i] in ls; }
  }

  /** What becomes of a claim depends only on its tidied form. */
  lemma TidiedByNorm(hash: Bytes -> Digest, c: Claim)
    ensures Tidied(hash, c) == Tidied(hash, Norm(c))
  {
    hide WellFormed, Norm, ContentRefusal;
    NormTwice(c);
    WellFormedNorm(c);
  }

  function TidyAll(hash: Bytes -> Digest, claims: seq<Claim>): Outcome<seq<Claim>> {
    if claims == [] then Success([])
    else
      var before := TidyAll(hash, claims[..|claims| - 1]);
      if before.Failure? then before
      else
        var last := Tidied(hash, claims[|claims| - 1]);
        if last.Failure? then Failure(last.status) else Success(before.value + [last.value])
  }

  lemma {:induction false} TidyAllIff(hash: Bytes -> Digest, claims: seq<Claim>)
    ensures TidyAll(hash, claims).Success? <==> forall c | c in claims :: Tidied(hash, c).Success?
    ensures TidyAll(hash, claims).Success? ==>
      |TidyAll(hash, claims).value| == |claims| && forall i | 0 <= i < |claims| :: TidyAll(hash, claims).value[i] == Norm(claims[i])
  {
    hide Tidied, Norm;
    if claims != [] {
      var front, last := claims[..|claims| - 1], claims[|claims| - 1];
      assert claims == front + [last];
      TidyAllIff(hash, front);
      assert last in claims;
    }
  }

  // ----- One list -----------------------------------------------------------

  function Ascii(s: string): Text { seq(|s|, i requires 0 <= i < |s| => s[i] as int % 256) }

  function KindToken(k: ResourceKind): Text {
    match k
    case UnknownResource => Ascii("UNKNOWN") case ClusterKind => Ascii("CLUSTER") case PodKind => Ascii("POD")
    case RackKind => Ascii("RACK") case SharedLinkKind => Ascii("SHARED_LINK") case GatewayKind => Ascii("GATEWAY")
    case CapacityPoolKind => Ascii("CAPACITY_POOL") case FailureDomainKind => Ascii("FAILURE_DOMAIN")
    case MaintenanceZoneKind => Ascii("MAINTENANCE_ZONE") case ObligationKindOfResource => Ascii("OBLIGATION")
  }

  function ScopeToken(s: CapacityScope): Text {
    match s
    case UnknownScope => Ascii("UNKNOWN") case SiteIngress => Ascii("SITE_INGRESS") case SiteEgress => Ascii("SITE_EGRESS")
    case SiteInternal => Ascii("SITE_INTERNAL") case RackLocal => Ascii("RACK_LOCAL") case PodLocal => Ascii("POD_LOCAL")
    case ClusterLocal => Ascii("CLUSTER_LOCAL") case SharedLinkScope => Ascii("SHARED_LINK") case GatewayScope => Ascii("GATEWAY")
  }

  /** What a claim is sorted by: its identity, or for a contribution its owner and
      its scope. */
  function KeyText(c: Claim): Text {
    if c.PoolClaim? then KindToken(c.owner.kind) + [58] + c.owner.id + [124] + ScopeToken(c.scope) else c.id
  }

  function Bound(list: nat): nat {
    if list < 5 then MAX_CLAIM_LISTS
    else if list == 5 then MAX_CAPACITY_CONTRIBUTIONS
    else if list == 6 then MAX_FAILURE_DOMAINS
    else if list == 7 then MAX_MAINTENANCE_ZONES
    else MAX_OBLIGATIONS
  }

  /** Keeps the first of each run of equal keys; a run that disagrees is refused. */
  function Collapse(hash: Bytes -> Digest, items: seq<Claim>): Outcome<seq<Claim>> {
    if items == [] then Success([])
    else
      var before := Collapse(hash, items[..|items| - 1]);
      var x := items[|items| - 1];
      if before.Failure? then before
      else if before.value != [] && KeyText(before.value[|before.value| - 1]) == KeyText(x) then
        (if ClaimDigest(hash, before.value[|before.value| - 1]) == ClaimDigest(hash, x) then before else Failure(Status.Conflicting))
      else Success(before.value + [x])
  }

  /** Sorts a list by key and collapses exact duplicates. */
  function CanonicalItems(hash: Bytes -> Digest, items: seq<Claim>, bound: nat): Outcome<seq<Claim>> {
    if |items| > bound then Failure(Status.LimitExceeded) else Collapse(hash, StableSort(items, KeyText))
  }

  function CanonicalList(hash: Bytes -> Digest, list: nat, claims: seq<Claim>): Outcome<seq<Claim>> {
    var tidied := TidyAll(hash, claims);
    if tidied.Failure? then tidied else CanonicalItems(hash, tidied.value, Bound(list))
  }

  /** Claims under one key say the same. */
  ghost predicate Agree(hash: Bytes -> Digest, items: seq<Claim>) {
    forall a, b | a in items && b in items && KeyText(a) == KeyText(b) :: ClaimDigest(hash, a) == ClaimDigest(hash, b)
  }

  ghost predicate HasKey(r: seq<Claim>, key: Text) { exists x :: x in r && KeyText(x) == key }

  /** One representative of every key, in strict key order. */
  ghost predicate Represents(r: seq<Claim>, items: seq<Claim>) {
    && StrictlySorted(r, KeyText)
    && (forall x | x in r :: x in items)
    && (forall a | a in items :: HasKey(r, KeyText(a)))
  }

  lemma NothingAbove(items: seq<Claim>, r: seq<Claim>, x: Claim, y: Claim)
    requires Ordered(items + [x], KeyText) && y in r && y in items
    ensures !Less(KeyText(x), KeyText(y))
  {
    hide KeyText, Less;
    var all := items + [x];
    var i :| 0 <= i < |items| && items[i] == y;
    assert all[i] == y && all[|items|] == x;
  }

  lemma BelowTheLast(r: seq<Claim>, y: Claim)
    requires StrictlySorted(r, KeyText) && y in r
    ensures y == r[|r| - 1] || Less(KeyText(y), KeyText(r[|r| - 1]))
  {
    hide KeyText, Less;
    var i :| 0 <= i < |r| && r[i] == y;
  }

  /** A sorted list goes on with a new key, or with the one it ended on. */
  lemma NewKeyIsHighest(items: seq<Claim>, r: seq<Claim>, x: Claim, y: Claim)
    requires Ordered(items + [x], KeyText) && Represents(r, items) && y in r && KeyText(r[|r| - 1]) != KeyText(x)
    ensures Less(KeyText(y), KeyText(x))
  {
    hide HasKey, KeyText, Less, Ordered;
    var last := r[|r| - 1];
    assert last in r;
    NothingAbove(items, r, x, last);
    LessTotal(KeyText(last), KeyText(x));
    BelowTheLast(r, y);
    if y != last { LessTransitive(KeyText(y), KeyText(last), KeyText(x)); }
  }

  lemma AgreeFront(hash: Bytes -> Digest, front: seq<Claim>, x: Claim)
    requires Agree(hash, front + [x])
    ensures Agree(hash, front)
  {
    hide KeyText, ClaimDigest;
    forall a | a in front ensures a in front + [x] {}
  }

  /** Collapsing a sorted list succeeds exactly when claims under one key agree,
      and leaves one representative of every key. */
  lemma {:induction false} CollapseIff(hash: Bytes -> Digest, items: seq<Claim>)
    requires Ordered(items, KeyText)
    ensures Collapse(hash, items).Success? <==> Agree(hash, items)
    ensures Collapse(hash, items).Success? ==> Represents(Collapse(hash, items).value, items)
  {
    hide KeyText, ClaimDigest, Agree, Represents, Less;
    if items == [] {
      NothingToCollapse(hash);
    } else {
      var front, x := items[..|items| - 1], items[|items| - 1];
      assert items == front + [x];
      CollapseIff(hash, front);
      if Collapse(hash, front).Success? {
        CollapseMore(hash, front, Collapse(hash, front).value, x);
      } else if Agree(hash, items) {
        AgreeFront(hash, front, x);
      }
    }
  }

  lemma NothingToCollapse(hash: Bytes -> Digest)
    ensures Agree(hash, []) && Represents([], [])
  {
  }

  lemma CollapseMore(hash: Bytes -> Digest, front: seq<Claim>, r: seq<Claim>, x: Claim)
    requires Ordered(front + [x], KeyText) && Represents(r, front) && Agree(hash, front)
    ensures var same := r != [] && KeyText(r[|r| - 1]) == KeyText(x);
            && (same ==> (Agree(hash, front + [x]) <==> ClaimDigest(hash, r[|r| - 1]) == ClaimDigest(hash, x)))
            && (same ==> Represents(r, front + [x]))
            && (!same ==> Agree(hash, front + [x]) && Represents(r + [x], front + [x]))
  {
    hide KeyText, ClaimDigest, Agree, Represents, Less;
    if r != [] && KeyText(r[|r| - 1]) == KeyText(x) {
      SameKeyAgrees(hash, front, r, x);
      SameKeyRepresents(front, r, x);
    } else {
      forall y | y in r ensures Less(KeyText(y), KeyText(x)) { NewKeyIsHighest(front, r, x, y); }
      NewKeyAgrees(hash, front, r, x);
      NewKeyRepresents(front, r, x);
    }
  }

  lemma SameKeyAgrees(hash: Bytes -> Digest, front: seq<Claim>, r: seq<Claim>, x: Claim)
    requires Represents(r, front) && Agree(hash, front) && r != [] && KeyText(r[|r| - 1]) == KeyText(x)
    ensures Agree(hash, front + [x]) <==> ClaimDigest(hash, r[|r| - 1]) == ClaimDigest(hash, x)
  {
    hide KeyText, ClaimDigest, StrictlySorted, Less, HasKey;
    var last := r[|r| - 1];
    assert last in r && last in front && last in front + [x] && x in front + [x];
  }

  lemma SameKeyRepresents(front: seq<Claim>, r: seq<Claim>, x: Claim)
    requires Represents(r, front) && r != [] && KeyText(r[|r| - 1]) == KeyText(x)
    ensures Represents(r, front + [x])
  {
    hide KeyText, StrictlySorted, Less;
    var last := r[|r| - 1];
    assert last in r && HasKey(r, KeyText(x));
    hide HasKey;
  }

  lemma NewKeyAgrees(hash: Bytes -> Digest, front: seq<Claim>, r: seq<Claim>, x: Claim)
    requires Represents(r, front) && Agree(hash, front) && forall y | y in r :: Less(KeyText(y), KeyText(x))
    ensures Agree(hash, front + [x])
  {
    hide KeyText, ClaimDigest, StrictlySorted, Less;
    forall a | a in front ensures KeyText(a) != KeyText(x) {
      assert HasKey(r, KeyText(a));
      var y :| y in r && KeyText(y) == KeyText(a);
      LessAsymmetric(KeyText(y), KeyText(x));
    }
  }

  lemma NewKeyRepresents(front: seq<Claim>, r: seq<Claim>, x: Claim)
    requires Represents(r, front) && forall y | y in r :: Less(KeyText(y), KeyText(x))
    ensures Represents(r + [x], front + [x])
  {
    hide KeyText, Less, HasKey, StrictlySorted;
    OneMoreSorted(r, x);
    forall a | a in front + [x] ensures HasKey(r + [x], KeyText(a)) { OneMoreKey(r, x, KeyText(a)); }
  }

  lemma OneMoreKey(r: seq<Claim>, x: Claim, key: Text)
    ensures HasKey(r + [x], key) <==> HasKey(r, key) || key == KeyText(x)
  {
    hide KeyText;
    if y :| y in r && KeyText(y) == key { assert y in r + [x]; }
    assert x in r + [x];
  }

  lemma OneMoreSorted(r: seq<Claim>, x: Claim)
    requires StrictlySorted(r, KeyText) && forall y | y in r :: Less(KeyText(y), KeyText(x))
    ensures StrictlySorted(r + [x], KeyText)
  {
    hide KeyText, Less;
    var all := r + [x];
    forall i, j | 0 <= i < j < |all| ensures Less(KeyText(all[i]), KeyText(all[j])) {
      if j == |r| { assert r[i] in r; }
    }
  }

  lemma AgreeIgnoresOrder(hash: Bytes -> Digest, a: seq<Claim>, b: seq<Claim>)
    requires (forall x :: x in a <==> x in b) && Agree(hash, a)
    ensures Agree(hash, b)
  {
    hide KeyText, ClaimDigest;
  }

  lemma RepresentsIgnoresOrder(r: seq<Claim>, a: seq<Claim>, b: seq<Claim>)
    requires (forall x :: x in a <==> x in b) && Represents(r, a)
    ensures Represents(r, b)
  {
    hide KeyText, StrictlySorted, Less, HasKey;
  }

  /** A list is accepted exactly when it is within its bound and the claims under
      each key agree; what is left is one representative of each key, in order. */
  lemma CanonicalItemsIff(hash: Bytes -> Digest, items: seq<Claim>, bound: nat)
    ensures CanonicalItems(hash, items, bound).Success? <==> |items| <= bound && Agree(hash, items)
    ensures CanonicalItems(hash, items, bound).Success? ==> Represents(CanonicalItems(hash, items, bound).value, items)
  {
    var sorted := StableSort(items, KeyText);
    hide StableSort, KeyText, ClaimDigest, Collapse, Agree, Represents;
    StableSortSorts(items, KeyText);
    SameElements(sorted, items);
    CollapseIff(hash, sorted);
    if Agree(hash, sorted) {
      AgreeIgnoresOrder(hash, sorted, items);
      RepresentsIgnoresOrder(Collapse(hash, sorted).value, sorted, items);
    }
    if Agree(hash, items) { AgreeIgnoresOrder(hash, items, sorted); }
  }

  lemma {:induction false} CanonicalListIff(hash: Bytes -> Digest, list: nat, claims: seq<Claim>)
    ensures CanonicalList(hash, list, claims).Success? <==>
      (&& (forall c | c in claims :: Tidied(hash, c).Success?) && |claims| <= Bound(list)
       && forall a, b | a in claims && b in claims && KeyText(Norm(a)) == KeyText(Norm(b)) ::
            ClaimDigest(hash, Norm(a)) == ClaimDigest(hash, Norm(b)))
    ensures CanonicalList(hash, list, claims).Success? ==> Represents(CanonicalList(hash, list, claims).value, TidyAll(hash, claims).value)
  {
    hide Tidied, Norm, KeyText, ClaimDigest, CanonicalItems, Bound, TidyAll;
    TidyAllIff(hash, claims);
    if TidyAll(hash, claims).Success? {
      CanonicalItemsIff(hash, TidyAll(hash, claims).value, Bound(list));
      NormsAgree(hash, claims, TidyAll(hash, claims).value);
    }
  }

  /** Some claim has this tidied form. */
  ghost predicate HasNorm(claims: seq<Claim>, n: Claim) { exists c :: c in claims && Norm(c) == n }

  lemma NormsAgree(hash: Bytes -> Digest, claims: seq<Claim>, items: seq<Claim>)
    requires |items| == |claims| && forall i | 0 <= i < |claims| :: items[i] == Norm(claims[i])
    ensures Agree(hash, items) <==> forall a, b | a in claims && b in claims && KeyText(Norm(a)) == KeyText(Norm(b)) ::
      ClaimDigest(hash, Norm(a)) == ClaimDigest(hash, Norm(b))
    ensures forall n :: n in items <==> HasNorm(claims, n)
  {
    hide KeyText, ClaimDigest, Norm;
    forall n ensures n in items <==> HasNorm(claims, n) {
      if n in items {
        var i :| 0 <= i < |items| && items[i] == n;
        assert claims[i] in claims && Norm(claims[i]) == n;
      }
      if c :| c in claims && Norm(c) == n {
        var i :| 0 <= i < |claims| && claims[i] == c;
        assert items[i] == n;
      }
    }
  }

  // ----- Declarations -------------------------------------------------------

  function CanonicalLists(hash: Bytes -> Digest, lists: seq<seq<Claim>>): Outcome<seq<seq<Claim>>> {
    if lists == [] then Success([])
    else
      var before := CanonicalLists(hash, lists[..|lists| - 1]);
      if before.Failure? then before
      else
        var last := CanonicalList(hash, |lists| - 1, lists[|lists| - 1]);
        if last.Failure? then Failure(last.status) else Success(before.value + [last.value])
  }

  function ClaimCount(lists: seq<seq<Claim>>): nat {
    if lists == [] then 0 else ClaimCount(lists[..|lists| - 1]) + |lists[|lists| - 1]|
  }

  function HeaderRefusal(d: Declaration): Option<Status> {
    if !d.domain.Valid() || !ValidIdentifier(d.site) || d.generation == 0 then Some(Status.Invalid)
    else if !d.schema.Supported() then Some(Status.SchemaIncompatible)
    else if EvidenceRefusal(d.evidence).Some? then EvidenceRefusal(d.evidence)
    else if ClaimCount(d.lists) > MAX_CLAIM_LISTS then Some(Status.LimitExceeded)
    else None
  }

  function Canonicalized(hash: Bytes -> Digest, d: Declaration): Outcome<Declaration> {
    if HeaderRefusal(d).Some? then Failure(HeaderRefusal(d).value)
    else
      var lists := CanonicalLists(hash, d.lists);
      if lists.Failure? then Failure(lists.status) else Success(d.(lists := lists.value))
  }

  function SealOf(hash: Bytes -> Digest, d: Declaration): Outcome<Declaration> {
    var c := Canonicalized(hash, d);
    if c.Failure? then c else Success(c.value.(digest := hash(Content(c.value))))
  }

  lemma {:induction false} ListsIff(hash: Bytes -> Digest, lists: seq<seq<Claim>>)
    ensures CanonicalLists(hash, lists).Success? <==> forall i | 0 <= i < |lists| :: CanonicalList(hash, i, lists[i]).Success?
    ensures CanonicalLists(hash, lists).Success? ==>
      var r := CanonicalLists(hash, lists).value;
      |r| == |lists| && forall i | 0 <= i < |lists| :: r[i] == CanonicalList(hash, i, lists[i]).value
  {
    hide CanonicalList;
    if lists != [] { ListsIff(hash, lists[..|lists| - 1]); }
  }

  /** A declaration seals exactly when its header is sound, it is not too large, and
      each of its lists is accepted. */
  lemma SealsIff(hash: Bytes -> Digest, d: Declaration)
    ensures SealOf(hash, d).Success? <==>
      HeaderRefusal(d).None? && forall i | 0 <= i < |d.lists| :: CanonicalList(hash, i, d.lists[i]).Success?
    ensures SealOf(hash, d).Success? ==>
      (var s := SealOf(hash, d).value;
       && s == d.(lists := s.lists, digest := s.digest) && s.digest == hash(Content(s)) && |s.lists| == |d.lists|
       && forall i | 0 <= i < |d.lists| :: s.lists[i] == CanonicalList(hash, i, d.lists[i]).value)
  {
    hide CanonicalList, HeaderRefusal, CanonicalLists, PutLists;
    ListsIff(hash, d.lists);
  }

  /** Every list of a sealed declaration is in strict key order. */
  lemma SealedListsAreOrdered(hash: Bytes -> Digest, d: Declaration, i: nat)
    requires SealOf(hash, d).Success? && i < |d.lists|
    ensures |SealOf(hash, d).value.lists| == |d.lists| && StrictlySorted(SealOf(hash, d).value.lists[i], KeyText)
  {
    hide CanonicalList, HeaderRefusal, SealOf, KeyText, Less, Content;
    SealsIff(hash, d);
    CanonicalListIff(hash, i, d.lists[i]);
  }

  /** Two contents under one key always keep a declaration from being sealed. */
  lemma DisagreementNeverSeals(hash: Bytes -> Digest, d: Declaration, i: nat, a: Claim, b: Claim)
    requires i < |d.lists| && a in d.lists[i] && b in d.lists[i] && KeyText(Norm(a)) == KeyText(Norm(b))
    requires ClaimDigest(hash, Norm(a)) != ClaimDigest(hash, Norm(b))
    ensures SealOf(hash, d).Failure?
  {
    hide CanonicalList, HeaderRefusal, SealOf, KeyText, Norm, ClaimDigest, Content, Tidied, Represents;
    SealsIff(hash, d);
    CanonicalListIff(hash, i, d.lists[i]);
  }

  // ----- Idempotence --------------------------------------------------------

  lemma {:induction false} CollapseShrinks(hash: Bytes -> Digest, items: seq<Claim>)
    ensures Collapse(hash, items).Success? ==> |Collapse(hash, items).value| <= |items|
  {
    hide KeyText, ClaimDigest;
    if items != [] { CollapseShrinks(hash, items[..|items| - 1]); }
  }

  lemma {:induction false} SortedCollapsesToItself(hash: Bytes -> Digest, items: seq<Claim>)
    requires StrictlySorted(items, KeyText)
    ensures Collapse(hash, items) == Success(items) && StableSort(items, KeyText) == items
  {
    hide KeyText, ClaimDigest, Less;
    if items != [] {
      var front, x := items[..|items| - 1], items[|items| - 1];
      assert items == front + [x];
      SortedCollapsesToItself(hash, front);
      if front != [] {
        var last := front[|front| - 1];
        assert last == items[|front| - 1];
        LessAsymmetric(KeyText(last), KeyText(x));
      }
    }
  }

  lemma {:induction false} TidyTidied(hash: Bytes -> Digest, claims: seq<Claim>)
    requires forall c | c in claims :: Tidied(hash, c) == Success(c)
    ensures TidyAll(hash, claims) == Success(claims)
  {
    hide Tidied;
    if claims != [] {
      var front, last := claims[..|claims| - 1], claims[|claims| - 1];
      assert claims == front + [last];
      TidyTidied(hash, front);
    }
  }

  lemma ListTwice(hash: Bytes -> Digest, list: nat, claims: seq<Claim>)
    requires CanonicalList(hash, list, claims).Success?
    ensures var r := CanonicalList(hash, list, claims).value; CanonicalList(hash, list, r) == Success(r) && |r| <= |claims|
  {
    hide Tidied, Norm, KeyText, ClaimDigest, StableSort, Collapse, TidyAll, HasKey, Less;
    var items := TidyAll(hash, claims).value;
    var r := CanonicalList(hash, list, claims).value;
    TidyAllIff(hash, claims);
    CanonicalItemsIff(hash, items, Bound(list));
    StableSortSorts(items, KeyText);
    CollapseShrinks(hash, StableSort(items, KeyText));
    SortedCollapsesToItself(hash, r);
    hide StrictlySorted;
    forall c | c in r ensures Tidied(hash, c) == Success(c) {
      var i :| 0 <= i < |items| && items[i] == c;
      assert claims[i] in claims;
      TidiedByNorm(hash, claims[i]);
      TidiedIsNorm(hash, claims[i]);
    }
    TidyTidied(hash, r);
  }

  lemma TidiedIsNorm(hash: Bytes -> Digest, c: Claim)
    requires Tidied(hash, c).Success?
    ensures Tidied(hash, c) == Success(Norm(c))
  {
    hide Norm;
  }

  lemma {:induction false} FewerClaims(a: seq<seq<Claim>>, b: seq<seq<Claim>>)
    requires |a| == |b| && forall i | 0 <= i < |a| :: |a[i]| <= |b[i]|
    ensures ClaimCount(a) <= ClaimCount(b)
  {
    if a != [] { FewerClaims(a[..|a| - 1], b[..|b| - 1]); }
  }

  lemma ListsTwice(hash: Bytes -> Digest, lists: seq<seq<Claim>>)
    requires CanonicalLists(hash, lists).Success?
    ensures var r := CanonicalLists(hash, lists).value;
            CanonicalLists(hash, r) == Success(r) && ClaimCount(r) <= ClaimCount(lists)
  {
    hide CanonicalList, CanonicalLists, ClaimCount;
    var r := CanonicalLists(hash, lists).value;
    ListsIff(hash, lists);
    forall i | 0 <= i < |lists| ensures CanonicalList(hash, i, r[i]) == Success(r[i]) && |r[i]| <= |lists[i]| {
      ListTwice(hash, i, lists[i]);
    }
    ListsIff(hash, r);
    assert CanonicalLists(hash, r).value == r;
    FewerClaims(r, lists);
  }

  /** Sealing is idempotent. */
  lemma SealingIsIdempotent(hash: Bytes -> Digest, d: Declaration)
    requires SealOf(hash, d).Success?
    ensures SealOf(hash, SealOf(hash, d).value) == SealOf(hash, d)
  {
    hide CanonicalLists, ClaimCount, EvidenceRefusal, ValidIdentifier, PutLists, PutDomain, PutEvidence, PutText,
      Put64, PutSchema;
    ListsTwice(hash, d.lists);
  }

  // ----- Order and repetition -----------------------------------------------

  /** The same claims up to order and repetition, of the claims and inside them. */
  ghost predicate SameClaims(a: seq<Claim>, b: seq<Claim>) { forall n :: HasNorm(a, n) <==> HasNorm(b, n) }

  lemma SameItems(hash: Bytes -> Digest, a: seq<Claim>, b: seq<Claim>)
    requires SameClaims(a, b) && TidyAll(hash, a).Success?
    ensures TidyAll(hash, b).Success?
    ensures forall n :: n in TidyAll(hash, a).value <==> n in TidyAll(hash, b).value
  {
    hide Norm, Tidied, TidyAll, KeyText, ClaimDigest, HasNorm, Agree;
    TidyAllIff(hash, a);
    TidyAllIff(hash, b);
    forall c | c in b ensures Tidied(hash, c).Success? { TidiedAlike(hash, a, b, c); }
    NormsAgree(hash, a, TidyAll(hash, a).value);
    NormsAgree(hash, b, TidyAll(hash, b).value);
  }

  lemma TidiedAlike(hash: Bytes -> Digest, a: seq<Claim>, b: seq<Claim>, c: Claim)
    requires SameClaims(a, b) && c in b && forall e | e in a :: Tidied(hash, e).Success?
    ensures Tidied(hash, c).Success?
  {
    hide Norm, Tidied;
    assert HasNorm(b, Norm(c));
    assert HasNorm(a, Norm(c));
    var e :| e in a && Norm(e) == Norm(c);
    TidiedByNorm(hash, c);
    TidiedByNorm(hash, e);
  }

  /** Whether a list is accepted depends only on which claims it holds. */
  lemma AcceptedAlike(hash: Bytes -> Digest, list: nat, a: seq<Claim>, b: seq<Claim>)
    requires SameClaims(a, b) && |a| <= Bound(list) && |b| <= Bound(list)
    requires CanonicalList(hash, list, a).Success?
    ensures CanonicalList(hash, list, b).Success?
  {
    hide Norm, Tidied, TidyAll, KeyText, ClaimDigest, SameClaims, StableSort, Collapse, Agree, Represents,
      CanonicalItems;
    TidyAllIff(hash, a);
    SameItems(hash, a, b);
    TidyAllIff(hash, b);
    CanonicalItemsIff(hash, TidyAll(hash, a).value, Bound(list));
    CanonicalItemsIff(hash, TidyAll(hash, b).value, Bound(list));
    AgreeIgnoresOrder(hash, TidyAll(hash, a).value, TidyAll(hash, b).value);
  }

  /** Claims with one digest have one encoding. */
  ghost predicate NoCollision(hash: Bytes -> Digest, items: seq<Claim>) {
    forall x, y | x in items && y in items && ClaimDigest(hash, x) == ClaimDigest(hash, y) :: PutClaim(x, []) == PutClaim(y, [])
  }

  function Keys(r: seq<Claim>): (k: seq<Text>)
    ensures |k| == |r| && forall i | 0 <= i < |r| :: k[i] == KeyText(r[i])
  {
    if r == [] then [] else [KeyText(r[0])] + Keys(r[1..])
  }

  lemma SameKeys(r: seq<Claim>, t: seq<Claim>, items: seq<Claim>)
    requires Represents(r, items) && Represents(t, items)
    ensures Keys(r) == Keys(t)
  {
    hide KeyText, Less;
    KeysAreInjective();
    var all := set a | a in items :: KeyText(a);
    KeysCover(r, items);
    KeysCover(t, items);
    SortedIsUnique(Keys(r), all, Identity);
    SortedIsUnique(Keys(t), all, Identity);
  }

  lemma KeysCover(r: seq<Claim>, items: seq<Claim>)
    requires Represents(r, items)
    ensures StrictlySorted(Keys(r), Identity)
    ensures (set k | k in Keys(r)) == set a | a in items :: KeyText(a)
  {
    hide KeyText, Less;
    var keys := Keys(r);
    forall k ensures k in keys <==> exists a :: a in items && k == KeyText(a) {
      if k in keys {
        var i :| 0 <= i < |keys| && keys[i] == k;
        assert r[i] in r && r[i] in items;
      }
      if a :| a in items && k == KeyText(a) {
        assert HasKey(r, KeyText(a));
        var x :| x in r && KeyText(x) == KeyText(a);
        var i :| 0 <= i < |r| && r[i] == x;
        assert keys[i] == k;
      }
    }
  }

  lemma SameBytesAt(hash: Bytes -> Digest, r: seq<Claim>, t: seq<Claim>, items: seq<Claim>, i: nat)
    requires Represents(r, items) && Represents(t, items) && Agree(hash, items) && NoCollision(hash, items)
    requires i < |r|
    ensures |r| == |t| && PutClaim(r[i], []) == PutClaim(t[i], [])
  {
    hide KeyText, ClaimDigest, PutClaim, HasKey, StrictlySorted;
    SameKeys(r, t, items);
    assert |Keys(r)| == |Keys(t)| && Keys(r)[i] == Keys(t)[i];
    assert r[i] in r && t[i] in t;
  }

  lemma {:induction false} SamePieces(r: seq<Claim>, t: seq<Claim>, rest: Bytes)
    requires |r| == |t| && forall i | 0 <= i < |r| :: PutClaim(r[i], []) == PutClaim(t[i], [])
    ensures PutAll(r, PutClaim, rest) == PutAll(t, PutClaim, rest)
  {
    hide PutClaim;
    if r != [] {
      SamePieces(r[1..], t[1..], rest);
      var more := PutAll(r[1..], PutClaim, rest);
      ClaimAppend(r[0], [], more);
      ClaimAppend(t[0], [], more);
      assert [] + more == more;
    }
  }

  /** Accepted lists of the same claims have the same encoding. */
  lemma EncodedAlike(hash: Bytes -> Digest, list: nat, a: seq<Claim>, b: seq<Claim>, rest: Bytes)
    requires SameClaims(a, b) && CanonicalList(hash, list, a).Success? && CanonicalList(hash, list, b).Success?
    requires NoCollision(hash, TidyAll(hash, a).value)
    ensures PutClaims(CanonicalList(hash, list, a).value, rest) == PutClaims(CanonicalList(hash, list, b).value, rest)
  {
    hide Norm, Tidied, TidyAll, KeyText, ClaimDigest, SameClaims, StableSort, Collapse, Agree, Represents,
      CanonicalItems,
      PutClaim, NoCollision, PutCount;
    var items, others := TidyAll(hash, a).value, TidyAll(hash, b).value;
    var r, t := CanonicalList(hash, list, a).value, CanonicalList(hash, list, b).value;
    SameItems(hash, a, b);
    CanonicalItemsIff(hash, items, Bound(list));
    CanonicalItemsIff(hash, others, Bound(list));
    RepresentsIgnoresOrder(t, others, items);
    SameKeys(r, t, items);
    assert |Keys(r)| == |Keys(t)|;
    forall i | 0 <= i < |r| ensures PutClaim(r[i], []) == PutClaim(t[i], []) { SameBytesAt(hash, r, t, items, i); }
    SamePieces(r, t, rest);
  }

  ghost predicate SameLists(a: seq<seq<Claim>>, b: seq<seq<Claim>>) {
    |a| == |b| && forall i | 0 <= i < |a| :: SameClaims(a[i], b[i])
  }

  ghost predicate WithinBounds(lists: seq<seq<Claim>>) {
    ClaimCount(lists) <= MAX_CLAIM_LISTS && forall i | 0 <= i < |lists| :: |lists[i]| <= Bound(i)
  }

  lemma SameClaimsSymmetric(a: seq<Claim>, b: seq<Claim>)
    requires SameClaims(a, b)
    ensures SameClaims(b, a)
  {
    hide Norm;
  }

  /** Permuting claim lists and the lists inside claims, or repeating claims within
      the bounds, does not change whether a declaration can be sealed. */
  lemma SealingIgnoresOrder(hash: Bytes -> Digest, a: Declaration, b: Declaration)
    requires b == a.(lists := b.lists) && SameLists(a.lists, b.lists) && WithinBounds(a.lists) && WithinBounds(b.lists)
    ensures SealOf(hash, a).Success? <==> SealOf(hash, b).Success?
  {
    hide CanonicalList, ClaimCount, SameClaims, SealOf, EvidenceRefusal, ValidIdentifier, Content;
    SealsIff(hash, a);
    SealsIff(hash, b);
    assert HeaderRefusal(a) == HeaderRefusal(b);
    forall i | 0 <= i < |a.lists|
      ensures CanonicalList(hash, i, a.lists[i]).Success? <==> CanonicalList(hash, i, b.lists[i]).Success?
    {
      if CanonicalList(hash, i, a.lists[i]).Success? { AcceptedAlike(hash, i, a.lists[i], b.lists[i]); }
      SameClaimsSymmetric(a.lists[i], b.lists[i]);
      if CanonicalList(hash, i, b.lists[i]).Success? { AcceptedAlike(hash, i, b.lists[i], a.lists[i]); }
    }
  }

  /** No two claims of one list have one digest and different encodings. */
  ghost predicate CollisionFree(hash: Bytes -> Digest, lists: seq<seq<Claim>>) {
    forall i | 0 <= i < |lists| && TidyAll(hash, lists[i]).Success? :: NoCollision(hash, TidyAll(hash, lists[i]).value)
  }

  lemma {:induction false} SameListBytes(a: seq<seq<Claim>>, b: seq<seq<Claim>>, rest: Bytes)
    requires |a| == |b| && forall i, k: Bytes | 0 <= i < |a| :: PutClaims(a[i], k) == PutClaims(b[i], k)
    ensures PutLists(a, rest) == PutLists(b, rest)
  {
    hide PutClaims;
    if a != [] {
      forall i, k: Bytes | 0 <= i < |a| - 1 ensures PutClaims(a[1..][i], k) == PutClaims(b[1..][i], k) {
        assert PutClaims(a[i + 1], k) == PutClaims(b[i + 1], k);
      }
      SameListBytes(a[1..], b[1..], rest);
    }
  }

  /** Nor does it change the sealed digest, unless the hash collides on the claims. */
  lemma DigestIgnoresOrder(hash: Bytes -> Digest, a: Declaration, b: Declaration)
    requires b == a.(lists := b.lists) && SameLists(a.lists, b.lists) && CollisionFree(hash, a.lists)
    requires SealOf(hash, a).Success? && SealOf(hash, b).Success?
    ensures Content(SealOf(hash, a).value) == Content(SealOf(hash, b).value)
    ensures SealOf(hash, a).value.digest == SealOf(hash, b).value.digest
  {
    hide CanonicalList, HeaderRefusal, SameClaims, SealOf, PutClaims, NoCollision, TidyAll, PutLists, PutDomain,
      PutText, Put64,
      PutSchema, PutEvidence;
    SealsIff(hash, a);
    SealsIff(hash, b);
    var s, t := SealOf(hash, a).value, SealOf(hash, b).value;
    forall i, k: Bytes | 0 <= i < |s.lists| ensures PutClaims(s.lists[i], k) == PutClaims(t.lists[i], k) {
      TidiedWhenCanonical(hash, i, a.lists[i]);
      EncodedAlike(hash, i, a.lists[i], b.lists[i], k);
    }
    SameListBytes(s.lists, t.lists, []);
  }

  lemma TidiedWhenCanonical(hash: Bytes -> Digest, list: nat, claims: seq<Claim>)
    requires CanonicalList(hash, list, claims).Success?
    ensures TidyAll(hash, claims).Success?
  {
  }

  // ----- The loops ----------------------------------------------------------

  method TidyClaims(hash: Bytes -> Digest, claims: seq<Claim>) returns (r: Outcome<seq<Claim>>)
    ensures r == TidyAll(hash, claims)
  {
    hide Tidied;
    var items: seq<Claim> := [];
    for i := 0 to |claims|
      invariant TidyAll(hash, claims[..i]) == Success(items)
    {
      assert claims[..i + 1][..i] == claims[..i];
      var tidied := Tidied(hash, claims[i]);
      if tidied.Failure? {
        TidyFailureSticks(hash, claims, i + 1);
        return Failure(tidied.status);
      }
      items := items + [tidied.value];
    }
    assert claims[..|claims|] == claims;
    return Success(items);
  }

  lemma {:induction false} TidyFailureSticks(hash: Bytes -> Digest, claims: seq<Claim>, n: nat)
    requires n <= |claims| && TidyAll(hash, claims[..n]).Failure?
    ensures TidyAll(hash, claims) == TidyAll(hash, claims[..n])
    decreases |claims| - n
  {
    hide Tidied;
    if n < |claims| {
      assert claims[..n + 1][..n] == claims[..n];
      TidyFailureSticks(hash, claims, n + 1);
    } else {
      assert claims[..n] == claims;
    }
  }

  lemma {:induction false} CollapseFailureSticks(hash: Bytes -> Digest, items: seq<Claim>, n: nat)
    requires n <= |items| && Collapse(hash, items[..n]).Failure?
    ensures Collapse(hash, items) == Collapse(hash, items[..n])
    decreases |items| - n
  {
    hide KeyText, ClaimDigest;
    if n < |items| {
      assert items[..n + 1][..n] == items[..n];
      CollapseFailureSticks(hash, items, n + 1);
    } else {
      assert items[..n] == items;
    }
  }

  /** Runs of equal keys in a sorted list, each compared with its first claim. */
  method CollapseRuns(hash: Bytes -> Digest, items: seq<Claim>) returns (r: Outcome<seq<Claim>>)
    ensures r == Collapse(hash, items)
  {
    hide KeyText, ClaimDigest;
    var collapsed: seq<Claim> := [];
    var index := 0;
    while index < |items|
      invariant index <= |items| && Collapse(hash, items[..index]) == Success(collapsed)
      invariant index < |items| && collapsed != [] ==> KeyText(collapsed[|collapsed| - 1]) != KeyText(items[index])
    {
      var key, first := KeyText(items[index]), ClaimDigest(hash, items[index]);
      var end := index + 1;
      assert items[..index + 1][..index] == items[..index];
      while end < |items| && KeyText(items[end]) == key
        invariant index < end <= |items|
        invariant Collapse(hash, items[..end]) == Success(collapsed + [items[index]])
      {
        assert items[..end + 1][..end] == items[..end];
        if ClaimDigest(hash, items[end]) != first {
          CollapseFailureSticks(hash, items, end + 1);
          return Failure(Status.Conflicting);
        }
        end := end + 1;
      }
      collapsed := collapsed + [items[index]];
      index := end;
    }
    assert items[..|items|] == items;
    return Success(collapsed);
  }

  method CanonicalizeList(hash: Bytes -> Digest, list: nat, claims: seq<Claim>) returns (r: Outcome<seq<Claim>>)
    ensures r == CanonicalList(hash, list, claims)
  {
    hide TidyAll, Collapse, StableSort, KeyText;
    r := TidyClaims(hash, claims);
    if r.Failure? { return; }
    if |r.value| > Bound(list) { return Failure(Status.LimitExceeded); }
    r := CollapseRuns(hash, StableSort(r.value, KeyText));
  }

  lemma {:induction false} ListFailureSticks(hash: Bytes -> Digest, lists: seq<seq<Claim>>, n: nat)
    requires n <= |lists| && CanonicalLists(hash, lists[..n]).Failure?
    ensures CanonicalLists(hash, lists) == CanonicalLists(hash, lists[..n])
    decreases |lists| - n
  {
    hide CanonicalList;
    if n < |lists| {
      assert lists[..n + 1][..n] == lists[..n];
      ListFailureSticks(hash, lists, n + 1);
    } else {
      assert lists[..n] == lists;
    }
  }

  method SealDeclaration(hash: Bytes -> Digest, d: Declaration) returns (r: Outcome<Declaration>)
    ensures r == SealOf(hash, d)
  {
    hide CanonicalList, HeaderRefusal, Content;
    var refusal := HeaderRefusal(d);
    if refusal.Some? { return Failure(refusal.value); }
    var lists: seq<seq<Claim>> := [];
    for i := 0 to |d.lists|
      invariant CanonicalLists(hash, d.lists[..i]) == Success(lists)
    {
      assert d.lists[..i + 1][..i] == d.lists[..i];
      var list := CanonicalizeList(hash, i, d.lists[i]);
      if list.Failure? {
        ListFailureSticks(hash, d.lists, i + 1);
        return Failure(list.status);
      }
      lists := lists + [list.value];
    }
    assert d.lists[..|d.lists|] == d.lists;
    var canonical := d.(lists := lists);
    return Success(canonical.(digest := hash(Content(canonical))));
  }
}
