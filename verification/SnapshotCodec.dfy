/** The encoding of a snapshot body: a header and the composed site. A site is many
    records of a few kinds of field, so its layout is a value too, and one reader and
    one writer interpret it. Reading is more liberal than writing: sources are put in
    order, repeated and surplus ones dropped, and so are surplus factors. */
module SnapshotCodec {
  import opened Model
  import opened Canonical
  import opened ClaimCodec
  import opened SourceSets

  // ----- Layouts and values -------------------------------------------------

  const MAX_FACTORS := 64
  const MAX_DISTINCT_RESOURCES := 65536
  const MAX_DISTINCT_FAILURE_DOMAINS := 8192
  const MAX_DISTINCT_ZONES := 4096
  const MAX_DISTINCT_OBLIGATIONS := 4096

  /** What a field may be: a code up to a limit, a depth, a number, and so on. */
  datatype Kind =
    | Code(limit: u8) | Depth | Wide | Signed | Truth | Hashed
    | Name | OptionalName | Line | Version | Boot | DomainField | ResourceField | Amounts
    | Ref | Refs | Factors
    | Maybe(of: Kind) | Many(bound: nat, of: Kind) | Row(fields: seq<Kind>)

  datatype Value =
    | CodeValue(code: u8) | WordValue(word: u32) | WideValue(wide: u64) | SignedValue(signed: i64) | TruthValue(truth: bool)
    | HashedValue(digest: Digest) | TextValue(text: Text) | VersionValue(version: SchemaVersion)
    | BootValue(boot: Incarnation) | DomainValue(domain: MemberDomainKey) | ResourceValue(resource: ResourceKey)
    | AmountsValue(amounts: CapacityVector)
    | RefValue(ref: SourceRef) | RefsValue(refs: seq<SourceRef>) | FactorsValue(factors: seq<Text>)
    | MaybeValue(items: seq<Value>) | ManyValue(items: seq<Value>) | RowValue(items: seq<Value>)

  const STATUS := Code(70)

  const MEMBER_STATE := Row([
    DomainField, Code(9), STATUS, Wide, Hashed, Version, Boot, OptionalName, Signed, Code(6), Truth, Truth, Ref, Factors])
  const OWNERSHIP := Row([ResourceField, Refs, Hashed, Wide, STATUS, Factors])
  const LEDGER_ENTRY := Row([ResourceField, Code(8), Amounts, Refs, STATUS, Truth, Factors])
  const NODE := Row([
    Name, Code(2), Maybe(Name), Many(MAX_RESOURCE_MEMBERS + 1, ResourceField), Many(MAX_DISTINCT_FAILURE_DOMAINS + 1, Name),
    Many(MAX_FAILURE_DOMAIN_DEPTH + 1, Name), Depth, Refs, STATUS])
  const EFFECT := Row([
    Name, Code(4), Many(MAX_DISTINCT_RESOURCES + 1, ResourceField), Many(MAX_DISTINCT_RESOURCES + 1, ResourceField),
    Many(MAX_DISTINCT_OBLIGATIONS + 1, Name), Amounts, STATUS, Factors])
  const VERDICT := Row([Name, Code(7), STATUS, Wide, Wide, Truth, Refs, Factors])
  const CONFLICT := Row([STATUS, ResourceField, Refs, Many(MAX_ATTESTORS + 1, Line), Signed])
  const DEFICIT := Row([STATUS, DomainField, Line])
  const DECISION := Row([Code(12), ResourceField, STATUS, Refs, Hashed, Factors])
  const CONNECTIVITY := Row([
    Wide, Wide, Wide, Wide, Wide, Wide, Wide, Wide, Wide, Wide, Wide, Wide,
    Many(MAX_DISTINCT_RESOURCES + 1, ResourceField), Refs, STATUS])
  const LEDGER := Row([
    Many(MAX_DISTINCT_RESOURCES + 1, LEDGER_ENTRY), Amounts, Amounts, Amounts, Amounts, Truth, STATUS, Factors])
  const FOREST := Row([
    Many(MAX_DISTINCT_FAILURE_DOMAINS + 1, NODE), Many(MAX_DISTINCT_FAILURE_DOMAINS + 1, Name),
    Many(MAX_DISTINCT_FAILURE_DOMAINS + 1, Name), STATUS, Factors])

  /** The composed site, record by record. */
  const SITE := Row([
    Name, Wide, Wide, Boot, Signed, Code(8), STATUS, Truth, Truth, Truth, Truth,
    Many(MAX_MEMBER_DOMAINS + 1, MEMBER_STATE), Many(MAX_DISTINCT_RESOURCES + 1, OWNERSHIP), LEDGER, CONNECTIVITY, FOREST,
    Many(MAX_DISTINCT_ZONES + 1, EFFECT), Many(MAX_DISTINCT_OBLIGATIONS + 1, VERDICT), Many(MAX_CONFLICTS + 1, CONFLICT),
    Many(MAX_DEFICITS + 1, DEFICIT), Many(MAX_DECISIONS + 1, DECISION), Factors])

  /** The whole body. */
  const SNAPSHOT := Row([Name, Wide, Wide, Boot, Wide, Hashed, Signed, Code(8), STATUS, Truth, Refs, Factors, SITE])

  // ----- Sources ------------------------------------------------------------

  /** Nobody's source. */
  const ABSENT := SourceRef(MemberDomainKey(UnknownDomain, []), 0, ZERO_DIGEST)

  function PutRef(x: SourceRef, rest: Bytes): Bytes { PutDomain(x.domain, Put64(x.generation, PutRaw(x.digest, rest))) }

  /** A source as it stands in the bytes. */
  function GetRaw(b: Bytes): (r: Parsed<SourceRef>)
    ensures r.Got? ==> GoodDomain(r.value.domain) && b == PutRef(r.value, r.rest)
  {
    hide PutDomain, Put64, PutRaw, GoodDomain;
    var (domain, b1) :- GetDomain(b);
    var (generation, b2) :- Get64(b1);
    var (digest, b3) :- GetDigest(b2);
    Got(SourceRef(domain, generation, digest), b3)
  }

  /** Without a domain the rest of it is forgotten. */
  function Normal(x: SourceRef): SourceRef { if x.domain.kind == UnknownDomain then ABSENT else x }

  function Normals(xs: seq<SourceRef>): (r: seq<SourceRef>)
    ensures |r| == |xs| && forall i | 0 <= i < |xs| :: r[i] == Normal(xs[i])
  {
    if xs == [] then [] else [Normal(xs[0])] + Normals(xs[1..])
  }

  function GetRef(b: Bytes): Parsed<SourceRef> {
    var (x, rest) :- GetRaw(b);
    Got(Normal(x), rest)
  }

  function GetRefs(b: Bytes): Parsed<seq<SourceRef>> {
    var (xs, rest) :- GetList(b, MAX_DECISION_SOURCES + 1, GetRaw);
    Got(VectorOf(Normals(xs)), rest)
  }

  function PutRefs(xs: seq<SourceRef>, rest: Bytes): Bytes { PutList(xs, PutRef, rest) }

  function GetLine(b: Bytes): Parsed<Text> { GetText(b, MAX_TEXT_BYTES) }

  /** As many factors as there is room for. */
  function Fitting(xs: seq<Text>): seq<Text> { if |xs| > MAX_FACTORS then xs[..MAX_FACTORS] else xs }

  function GetFactors(b: Bytes): Parsed<seq<Text>> {
    var (xs, rest) :- GetList(b, MAX_FACTORS + 1, GetLine);
    Got(Fitting(xs), rest)
  }

  function PutFactors(xs: seq<Text>, rest: Bytes): Bytes { PutList(xs, PutText, rest) }

  // ----- Writing and reading a layout ---------------------------------------

  function Put(v: Value, rest: Bytes): Bytes
    decreases v
  {
    match v
    case CodeValue(x) => Put8(x, rest)
    case WordValue(x) => Put32(x, rest)
    case WideValue(x) => Put64(x, rest)
    case SignedValue(x) => PutSigned(x, rest)
    case TruthValue(x) => PutFlag(x, rest)
    case HashedValue(x) => PutRaw(x, rest)
    case TextValue(x) => PutText(x, rest)
    case VersionValue(x) => PutSchema(x, rest)
    case BootValue(x) => PutIncarnation(x, rest)
    case DomainValue(x) => PutDomain(x, rest)
    case ResourceValue(x) => PutResource(x, rest)
    case AmountsValue(x) => PutCapacity(x, rest)
    case RefValue(x) => PutRef(x, rest)
    case RefsValue(xs) => PutRefs(xs, rest)
    case FactorsValue(xs) => PutFactors(xs, rest)
    case MaybeValue(xs) => PutFlag(xs != [], PutEach(xs, rest))
    case ManyValue(xs) => PutCount(|xs|, PutEach(xs, rest))
    case RowValue(xs) => PutEach(xs, rest)
  }

  function PutEach(xs: seq<Value>, rest: Bytes): Bytes
    decreases xs
  {
    if xs == [] then rest else Put(xs[0], PutEach(xs[1..], rest))
  }

  function Wrapped<T>(r: Parsed<T>, wrap: T -> Value): Parsed<Value> {
    if r.Refused? then Refused(r.status) else Got(wrap(r.value), r.rest)
  }

  function GetDepth(b: Bytes): (r: Parsed<u32>)
    ensures r.Got? ==> r.value <= MAX_FAILURE_DOMAIN_DEPTH && b == Put32(r.value, r.rest)
  {
    var (x, rest) :- Get32(b);
    if x > MAX_FAILURE_DOMAIN_DEPTH then Refused(Status.LimitExceeded) else Got(x, rest)
  }

  /** An identifier, or nothing. */
  function GetOptional(b: Bytes): (r: Parsed<Text>)
    ensures r.Got? ==> (r.value == [] || ValidIdentifier(r.value)) && b == PutText(r.value, r.rest)
  {
    var (x, rest) :- GetText(b, MAX_IDENTIFIER_BYTES);
    if x == [] || ValidIdentifier(x) then Got(x, rest) else Refused(Status.Malformed)
  }

  function Get(k: Kind, b: Bytes): Parsed<Value>
    decreases k, 0
  {
    match k
    case Code(limit) => Wrapped(GetCode(b, limit), x => CodeValue(x))
    case Depth => Wrapped(GetDepth(b), x => WordValue(x))
    case Wide => Wrapped(Get64(b), x => WideValue(x))
    case Signed => Wrapped(GetSigned(b), x => SignedValue(x))
    case Truth => Wrapped(GetFlag(b), x => TruthValue(x))
    case Hashed => Wrapped(GetDigest(b), x => HashedValue(x))
    case Name => Wrapped(GetIdentifier(b), x => TextValue(x))
    case OptionalName => Wrapped(GetOptional(b), x => TextValue(x))
    case Line => Wrapped(GetLine(b), x => TextValue(x))
    case Version => Wrapped(GetSchema(b), x => VersionValue(x))
    case Boot => Wrapped(GetIncarnation(b), x => BootValue(x))
    case DomainField => Wrapped(GetDomain(b), x => DomainValue(x))
    case ResourceField => Wrapped(GetResource(b), x => ResourceValue(x))
    case Amounts => Wrapped(GetCapacity(b), x => AmountsValue(x))
    case Ref => Wrapped(GetRef(b), x => RefValue(x))
    case Refs => Wrapped(GetRefs(b), x => RefsValue(x))
    case Factors => Wrapped(GetFactors(b), x => FactorsValue(x))
    case Maybe(of) =>
      var (present, b1) :- GetFlag(b);
      Wrapped(GetMany(of, if present then 1 else 0, b1), xs => MaybeValue(xs))
    case Many(bound, of) =>
      var (n, b1) :- GetCount(b, bound);
      Wrapped(GetMany(of, n, b1), xs => ManyValue(xs))
    case Row(fields) => Wrapped(GetRow(fields, b), xs => RowValue(xs))
  }

  function GetMany(k: Kind, n: nat, b: Bytes): Parsed<seq<Value>>
    decreases k, n + 1
  {
    if n == 0 then Got([], b)
    else
      var (x, b1) :- Get(k, b);
      var (xs, b2) :- GetMany(k, n - 1, b1);
      Got([x] + xs, b2)
  }

  function GetRow(ks: seq<Kind>, b: Bytes): Parsed<seq<Value>>
    decreases ks, 0
  {
    if ks == [] then Got([], b)
    else
      var (x, b1) :- Get(ks[0], b);
      var (xs, b2) :- GetRow(ks[1..], b1);
      Got([x] + xs, b2)
  }

  // ----- What can be written and read back ----------------------------------

  predicate GoodRef(x: SourceRef) { x.domain.Valid() || x == ABSENT }

  ghost predicate GoodRefs(xs: seq<SourceRef>) {
    Ascending(xs) && |xs| <= MAX_DECISION_SOURCES && forall i | 0 <= i < |xs| :: GoodRef(xs[i])
  }

  predicate GoodFactors(xs: seq<Text>) {
    |xs| <= MAX_FACTORS && forall i | 0 <= i < |xs| :: |xs[i]| <= MAX_TEXT_BYTES
  }

  ghost predicate GoodAtom(k: Kind, v: Value) {
    match k
    case Code(limit) => v.CodeValue? && v.code <= limit
    case Depth => v.WordValue? && v.word <= MAX_FAILURE_DOMAIN_DEPTH
    case Wide => v.WideValue?
    case Signed => v.SignedValue?
    case Truth => v.TruthValue?
    case Hashed => v.HashedValue?
    case Name => v.TextValue? && ValidIdentifier(v.text)
    case OptionalName => v.TextValue? && (v.text == [] || ValidIdentifier(v.text))
    case Line => v.TextValue? && |v.text| <= MAX_TEXT_BYTES
    case Version => v.VersionValue?
    case Boot => v.BootValue? && |v.boot.boot| <= MAX_IDENTIFIER_BYTES
    case DomainField => v.DomainValue? && GoodDomain(v.domain)
    case ResourceField => v.ResourceValue? && GoodResource(v.resource)
    case Amounts => v.AmountsValue? && GoodCapacity(v.amounts)
    case Ref => v.RefValue? && GoodRef(v.ref)
    case Refs => v.RefsValue? && GoodRefs(v.refs)
    case Factors => v.FactorsValue? && GoodFactors(v.factors)
    case _ => false
  }

  /** The value fits the layout and can be read back. */
  ghost predicate Good(k: Kind, v: Value)
    decreases k
  {
    match k
    case Maybe(of) => v.MaybeValue? && |v.items| <= 1 && forall i | 0 <= i < |v.items| :: Good(of, v.items[i])
    case Many(bound, of) =>
      v.ManyValue? && |v.items| <= bound && |v.items| <= MAX_U32 && forall i | 0 <= i < |v.items| :: Good(of, v.items[i])
    case Row(fields) => v.RowValue? && |v.items| == |fields| && forall i | 0 <= i < |fields| :: Good(fields[i], v.items[i])
    case _ => GoodAtom(k, v)
  }

  /** A field that is one value of its own. */
  predicate Atomic(k: Kind) { !k.Maybe? && !k.Many? && !k.Row? }

  /** A field that is read exactly as it is written. */
  predicate Exact(k: Kind) { Atomic(k) && !k.Ref? && !k.Refs? && !k.Factors? }

  // ----- What follows an encoding -------------------------------------------

  lemma RefAppends(x: SourceRef, rest: Bytes, more: Bytes)
    ensures PutRef(x, rest) + more == PutRef(x, rest + more)
  {
    hide PutDomain, Put64, PutRaw;
    PrimitivesAppend();
    PartsAppend();
  }

  lemma RefsAppend(xs: seq<SourceRef>, rest: Bytes, more: Bytes)
    ensures PutRefs(xs, rest) + more == PutRefs(xs, rest + more)
  {
    forall i, k: Bytes, m: Bytes | 0 <= i < |xs| ensures PutRef(xs[i], k) + m == PutRef(xs[i], k + m) { RefAppends(xs[i], k, m); }
    hide PutRef, PutCount;
    PrimitivesAppend();
    AllAppend(xs, PutRef, rest, more);
  }

  lemma FactorsAppend(xs: seq<Text>, rest: Bytes, more: Bytes)
    ensures PutFactors(xs, rest) + more == PutFactors(xs, rest + more)
  {
    hide PutText, PutCount;
    PrimitivesAppend();
    AllAppend(xs, PutText, rest, more);
  }

  lemma {:induction false} Appends(v: Value, rest: Bytes, more: Bytes)
    ensures Put(v, rest) + more == Put(v, rest + more)
    decreases v
  {
    hide Put8, Put32, Put64, PutSigned, PutFlag, PutRaw, PutText, PutSchema, PutIncarnation, PutDomain, PutResource,
      PutCapacity, PutRef, PutRefs, PutFactors, PutCount;
    PrimitivesAppend();
    PartsAppend();
    match v
    case RefValue(x) => RefAppends(x, rest, more);
    case RefsValue(xs) => RefsAppend(xs, rest, more);
    case FactorsValue(xs) => FactorsAppend(xs, rest, more);
    case MaybeValue(xs) => EachAppends(xs, rest, more);
    case ManyValue(xs) => EachAppends(xs, rest, more);
    case RowValue(xs) => EachAppends(xs, rest, more);
    case _ =>
  }

  lemma {:induction false} EachAppends(xs: seq<Value>, rest: Bytes, more: Bytes)
    ensures PutEach(xs, rest) + more == PutEach(xs, rest + more)
    decreases xs
  {
    hide Put;
    if xs != [] {
      EachAppends(xs[1..], rest, more);
      Appends(xs[0], PutEach(xs[1..], rest), more);
    }
  }

  // ----- Reading undoes writing ---------------------------------------------

  lemma ReadRaw(x: SourceRef, rest: Bytes)
    requires GoodDomain(x.domain)
    ensures GetRaw(PutRef(x, rest)) == Got(x, rest)
  {
    hide PutDomain, GetDomain, Put64, Get64, PutRaw, GetDigest, GoodDomain;
    ReadDomain(x.domain, Put64(x.generation, PutRaw(x.digest, rest)));
    PrimitivesReadBack();
  }

  lemma GoodIsNormal(x: SourceRef)
    requires GoodRef(x)
    ensures Normal(x) == x && GoodDomain(x.domain)
  {
  }

  lemma NormalIsGood(x: SourceRef)
    requires GoodDomain(x.domain)
    ensures GoodRef(Normal(x))
  {
  }

  lemma RawsReadBack(xs: seq<SourceRef>, rest: Bytes)
    requires |xs| <= MAX_DECISION_SOURCES + 1 && forall i | 0 <= i < |xs| :: GoodDomain(xs[i].domain)
    ensures GetList(PutRefs(xs, rest), MAX_DECISION_SOURCES + 1, GetRaw) == Got(xs, rest)
  {
    forall i, k: Bytes | 0 <= i < |xs| ensures GetRaw(PutRef(xs[i], k)) == Got(xs[i], k) { ReadRaw(xs[i], k); }
    hide PutRef, GetRaw, GoodDomain, PutCount, GetCount;
    ReadCount(|xs|, PutAll(xs, PutRef, rest), MAX_DECISION_SOURCES + 1);
    AllReadBack(xs, xs, PutRef, GetRaw, rest);
  }

  /** However sources are written, the vector they make is read. */
  lemma RefsRead(xs: seq<SourceRef>, rest: Bytes)
    requires |xs| <= MAX_DECISION_SOURCES + 1 && forall i | 0 <= i < |xs| :: GoodRef(xs[i])
    ensures GetRefs(PutRefs(xs, rest)) == Got(VectorOf(xs), rest)
  {
    hide GoodRef, GoodDomain, Normal, PutRefs, GetRaw, VectorOf;
    forall i | 0 <= i < |xs| ensures Normal(xs[i]) == xs[i] && GoodDomain(xs[i].domain) { GoodIsNormal(xs[i]); }
    RawsReadBack(xs, rest);
    assert Normals(xs) == xs;
  }

  lemma RefsReadBack(xs: seq<SourceRef>, rest: Bytes)
    requires GoodRefs(xs)
    ensures GetRefs(PutRefs(xs, rest)) == Got(xs, rest)
  {
    hide GoodRef, PutRefs, GetRefs, Ascending, VectorOf;
    RefsRead(xs, rest);
    VectorIsItselfIff(xs);
  }

  lemma LinesReadBack(xs: seq<Text>, rest: Bytes)
    requires |xs| <= MAX_FACTORS + 1 && forall i | 0 <= i < |xs| :: |xs[i]| <= MAX_TEXT_BYTES
    ensures GetList(PutFactors(xs, rest), MAX_FACTORS + 1, GetLine) == Got(xs, rest)
  {
    forall i, k: Bytes | 0 <= i < |xs| ensures GetLine(PutText(xs[i], k)) == Got(xs[i], k) { ReadText(xs[i], k, MAX_TEXT_BYTES); }
    hide PutText, GetLine, PutCount, GetCount;
    ReadCount(|xs|, PutAll(xs, PutText, rest), MAX_FACTORS + 1);
    AllReadBack(xs, xs, PutText, GetLine, rest);
  }

  lemma FactorsReadBack(xs: seq<Text>, rest: Bytes)
    requires GoodFactors(xs)
    ensures GetFactors(PutFactors(xs, rest)) == Got(xs, rest)
  {
    hide PutFactors, GetLine;
    LinesReadBack(xs, rest);
  }

  lemma OptionalReadsBack(x: Text, rest: Bytes)
    requires x == [] || ValidIdentifier(x)
    ensures GetOptional(PutText(x, rest)) == Got(x, rest)
  {
    ReadText(x, rest, MAX_IDENTIFIER_BYTES);
    hide PutText, GetText;
  }

  lemma AtomReadsBack(k: Kind, v: Value, rest: Bytes)
    requires Atomic(k) && GoodAtom(k, v)
    ensures Get(k, Put(v, rest)) == Got(v, rest)
  {
    hide Get8, Put8, Get32, Put32, Get64, Put64, GetSigned, PutSigned, GetFlag, PutFlag, GetDigest, PutRaw, GetText,
      PutText, GetSchema, PutSchema, GetIncarnation, PutIncarnation, GetDomain, PutDomain, GetResource, PutResource,
      GetCapacity, PutCapacity, PutRef, GetRaw, PutRefs, GetRefs, PutFactors, GetFactors, GetIdentifier, GetCode,
      ValidIdentifier, GoodRef, GoodRefs, GoodFactors, GoodDomain, GoodResource, GoodCapacity, Normal, GetOptional;
    PrimitivesReadBack();
    PartsReadBack();
    match k
    case OptionalName => OptionalReadsBack(v.text, rest);
    case DomainField => ReadDomain(v.domain, rest);
    case Ref =>
      GoodIsNormal(v.ref);
      ReadRaw(v.ref, rest);
    case Refs => RefsReadBack(v.refs, rest);
    case Factors => FactorsReadBack(v.factors, rest);
    case _ =>
  }

  /** Whatever fits a layout reads back, whatever follows it. */
  lemma {:induction false} ReadsBack(k: Kind, v: Value, rest: Bytes)
    requires Good(k, v)
    ensures Get(k, Put(v, rest)) == Got(v, rest)
    decreases k, 0
  {
    hide GoodAtom, PutFlag, GetFlag, PutCount, GetCount, PutEach, GetMany, GetRow;
    match k
    case Maybe(of) =>
      ReadFlag(v.items != [], PutEach(v.items, rest));
      ManyReadsBack(of, v.items, rest);
    case Many(bound, of) =>
      ReadCount(|v.items|, PutEach(v.items, rest), bound);
      ManyReadsBack(of, v.items, rest);
    case Row(fields) => RowReadsBack(fields, v.items, rest);
    case _ => AtomReadsBack(k, v, rest);
  }

  lemma {:induction false} ManyReadsBack(k: Kind, xs: seq<Value>, rest: Bytes)
    requires forall i | 0 <= i < |xs| :: Good(k, xs[i])
    ensures GetMany(k, |xs|, PutEach(xs, rest)) == Got(xs, rest)
    decreases k, |xs| + 1
  {
    hide Get, Put, Good;
    if xs != [] {
      ReadsBack(k, xs[0], PutEach(xs[1..], rest));
      ManyReadsBack(k, xs[1..], rest);
      assert [xs[0]] + xs[1..] == xs;
    }
  }

  lemma {:induction false} RowReadsBack(ks: seq<Kind>, xs: seq<Value>, rest: Bytes)
    requires |xs| == |ks| && forall i | 0 <= i < |ks| :: Good(ks[i], xs[i])
    ensures GetRow(ks, PutEach(xs, rest)) == Got(xs, rest)
    decreases ks, 0
  {
    hide Get, Put, Good;
    if xs != [] {
      ReadsBack(ks[0], xs[0], PutEach(xs[1..], rest));
      RowReadsBack(ks[1..], xs[1..], rest);
      assert [xs[0]] + xs[1..] == xs;
    }
  }

  // ----- What is read -------------------------------------------------------

  /** A source that is absent says nothing else. */
  predicate PlainRef(x: SourceRef) { x.domain.kind == UnknownDomain ==> x == ABSENT }

  /** The bytes hold sources as they are written: strictly ascending, within the
      bound, and with nothing in the absent ones. */
  ghost predicate PlainRefs(b: Bytes) {
    var r := GetList(b, MAX_DECISION_SOURCES + 1, GetRaw);
    r.Got? ==> Ascending(r.value) && |r.value| <= MAX_DECISION_SOURCES && forall i | 0 <= i < |r.value| :: PlainRef(r.value[i])
  }

  ghost predicate PlainAtom(k: Kind, b: Bytes) {
    match k
    case Ref => GetRaw(b).Got? ==> PlainRef(GetRaw(b).value)
    case Refs => PlainRefs(b)
    case Factors => GetList(b, MAX_FACTORS + 1, GetLine).Got? ==> |GetList(b, MAX_FACTORS + 1, GetLine).value| <= MAX_FACTORS
    case _ => true
  }

  /** Nothing in the bytes is read otherwise than it is written. */
  ghost predicate Plain(k: Kind, b: Bytes)
    decreases k, 0
  {
    match k
    case Maybe(of) => GetFlag(b).Got? ==> PlainMany(of, if GetFlag(b).value then 1 else 0, GetFlag(b).rest)
    case Many(bound, of) => GetCount(b, bound).Got? ==> PlainMany(of, GetCount(b, bound).value, GetCount(b, bound).rest)
    case Row(fields) => PlainRow(fields, b)
    case _ => PlainAtom(k, b)
  }

  ghost predicate PlainMany(k: Kind, n: nat, b: Bytes)
    decreases k, n + 1
  {
    n > 0 && Get(k, b).Got? ==> Plain(k, b) && PlainMany(k, n - 1, Get(k, b).rest)
  }

  ghost predicate PlainRow(ks: seq<Kind>, b: Bytes)
    decreases ks, 0
  {
    ks != [] && Get(ks[0], b).Got? ==> Plain(ks[0], b) && PlainRow(ks[1..], Get(ks[0], b).rest)
  }

  /** What reading `b` says of it: `again` is what was read, written once more in front
      of what is left. It is no longer, and it is `b` exactly when `b` is plain. */
  ghost predicate Reading(b: Bytes, again: Bytes, rest: Bytes, plain: bool) {
    |again| <= |b| && |rest| <= |b| && rest == b[|b| - |rest|..] && (again == b <==> plain)
  }

  lemma WrittenBefore(v: Value, rest: Bytes)
    ensures Put(v, rest) == Put(v, []) + rest
  {
    Appends(v, [], rest);
    assert [] + rest == rest;
  }

  lemma ExactReading(v: Value, rest: Bytes)
    ensures Reading(Put(v, rest), Put(v, rest), rest, true)
  {
    hide Put;
    WrittenBefore(v, rest);
  }

  lemma ExactAtomIs(k: Kind, b: Bytes)
    requires Exact(k) && Get(k, b).Got?
    ensures var r := Get(k, b); GoodAtom(k, r.value) && b == Put(r.value, r.rest) && PlainAtom(k, b)
  {
    hide Get8, Put8, Get32, Put32, Get64, Put64, GetSigned, PutSigned, GetFlag, PutFlag, GetDigest, PutRaw, GetText,
      PutText, GetSchema, PutSchema, GetIncarnation, PutIncarnation, GetDomain, PutDomain, GetResource, PutResource,
      GetCapacity, PutCapacity, GetIdentifier, GetCode, ValidIdentifier, GoodDomain, GoodResource, GoodCapacity, GetOptional;
  }

  /** Two encodings of values in front of different remainders, of which one is a
      suffix of the bytes read. */
  lemma ThenReading(v: Value, b: Bytes, b1: Bytes, tail: Bytes, plain: bool, rest: Bytes, more: bool)
    requires Reading(b, Put(v, b1), b1, plain) && Reading(b1, tail, rest, more)
    ensures Reading(b, Put(v, tail), rest, plain && more)
  {
    hide Put;
    WrittenBefore(v, b1);
    WrittenBefore(v, tail);
    var p := Put(v, []);
    assert b[|b| - |b1|..][|b1| - |rest|..] == b[|b| - |rest|..];
    if p + tail == b {
      assert |tail| == |b1|;
      assert b[|b| - |b1|..] == tail;
    }
  }

  lemma CountReading(n: nat, b1: Bytes, tail: Bytes, rest: Bytes, plain: bool)
    requires Reading(b1, tail, rest, plain)
    ensures Reading(PutCount(n, b1), PutCount(n, tail), rest, plain)
  {
    var d := Put32(n % 0x1_0000_0000, []);
    assert PutCount(n, b1) == d + b1 && PutCount(n, tail) == d + tail;
    hide PutCount, Put32;
    FrontReading(d, b1, tail, rest, plain);
  }

  lemma FlagReading(x: bool, b1: Bytes, tail: Bytes, rest: Bytes, plain: bool)
    requires Reading(b1, tail, rest, plain)
    ensures Reading(PutFlag(x, b1), PutFlag(x, tail), rest, plain)
  {
    var d := PutFlag(x, []);
    assert PutFlag(x, b1) == d + b1 && PutFlag(x, tail) == d + tail;
    hide PutFlag;
    FrontReading(d, b1, tail, rest, plain);
  }

  lemma FrontReading(d: Bytes, b1: Bytes, tail: Bytes, rest: Bytes, plain: bool)
    requires Reading(b1, tail, rest, plain)
    ensures Reading(d + b1, d + tail, rest, plain)
  {
    var b := d + b1;
    assert b[|d|..] == b1 && (d + tail)[|d|..] == tail;
    assert b[|b| - |rest|..] == b1[|b1| - |rest|..];
  }

  // ----- Sources and factors as they are read ---------------------------------

  lemma RawsAre(b: Bytes)
    requires GetList(b, MAX_DECISION_SOURCES + 1, GetRaw).Got?
    ensures var r := GetList(b, MAX_DECISION_SOURCES + 1, GetRaw);
            && |r.value| <= MAX_DECISION_SOURCES + 1 && b == PutRefs(r.value, r.rest)
            && forall i | 0 <= i < |r.value| :: GoodDomain(r.value[i].domain)
  {
    hide PutRef, GetRaw, GoodDomain, PutCount, GetCount;
    var c := GetCount(b, MAX_DECISION_SOURCES + 1);
    AllCanonical(c.value, GetRaw, PutRef, (x: SourceRef) => GoodDomain(x.domain), c.rest);
  }

  lemma NormalsAreGood(xs: seq<SourceRef>)
    requires forall i | 0 <= i < |xs| :: GoodDomain(xs[i].domain)
    ensures GoodRefs(VectorOf(Normals(xs)))
  {
    hide VectorOf, Below, Ascending, GoodRef, Normal, GoodDomain;
    VectorHolds(Normals(xs));
    VectorIsNoLonger(Normals(xs));
    var v := VectorOf(Normals(xs));
    forall i | 0 <= i < |v| ensures GoodRef(v[i]) {
      assert v[i] in Normals(xs);
      var j :| 0 <= j < |xs| && Normals(xs)[j] == v[i];
      NormalIsGood(xs[j]);
    }
  }

  lemma NormalsAreThemselvesIff(xs: seq<SourceRef>)
    ensures Normals(xs) == xs <==> forall i | 0 <= i < |xs| :: PlainRef(xs[i])
  {
    forall i | 0 <= i < |xs| ensures Normal(xs[i]) == xs[i] <==> PlainRef(xs[i]) {}
    hide PlainRef, Normal;
    if Normals(xs) == xs {
      forall i | 0 <= i < |xs| ensures PlainRef(xs[i]) { assert Normals(xs)[i] == Normal(xs[i]); }
    }
  }

  /** What sources make is the sources themselves exactly when they are plain. */
  lemma VectorOfNormalsIff(xs: seq<SourceRef>)
    ensures VectorOf(Normals(xs)) == xs <==>
      Ascending(xs) && |xs| <= MAX_DECISION_SOURCES && forall i | 0 <= i < |xs| :: PlainRef(xs[i])
  {
    hide VectorOf, Ascending, PlainRef;
    NormalsAreThemselvesIff(xs);
    VectorIsItselfIff(xs);
    VectorHolds(Normals(xs));
    if VectorOf(Normals(xs)) == xs {
      VectorIsNoLonger(Normals(xs));
      forall i | 0 <= i < |xs| ensures PlainRef(xs[i]) {
        assert xs[i] in VectorOf(Normals(xs));
        MadeOfNormals(xs, xs, i);
      }
    }
  }

  lemma NormalIsPlain(x: SourceRef)
    ensures PlainRef(Normal(x))
  {
  }

  lemma MadeOfNormals(v: seq<SourceRef>, xs: seq<SourceRef>, i: nat)
    requires i < |v| && v[i] in Normals(xs)
    ensures PlainRef(v[i])
  {
    hide PlainRef, Normal, Normals;
    var j :| 0 <= j < |Normals(xs)| && Normals(xs)[j] == v[i];
    NormalIsPlain(xs[j]);
  }

  /** How many bytes the sources take. */
  function Weight(xs: seq<SourceRef>): nat {
    if xs == [] then 0 else Weight(xs[..|xs| - 1]) + 45 + |xs[|xs| - 1].domain.id|
  }

  lemma {:induction false} PlacedWeight(items: seq<SourceRef>, x: SourceRef)
    ensures Weight(Placed(items, x)) == Weight(items) + 45 + |x.domain.id|
  {
    hide Below;
    if items == [] || Below(items[|items| - 1], x) {
      assert (items + [x])[..|items|] == items;
    } else {
      var front := items[..|items| - 1];
      PlacedWeight(front, x);
      assert (Placed(front, x) + [items[|items| - 1]])[..|Placed(front, x)|] == Placed(front, x);
    }
  }

  lemma {:induction false} VectorIsNoHeavier(xs: seq<SourceRef>)
    ensures Weight(VectorOf(xs)) <= Weight(xs)
  {
    hide Placed;
    if xs != [] {
      VectorIsNoHeavier(xs[..|xs| - 1]);
      PlacedWeight(VectorOf(xs[..|xs| - 1]), xs[|xs| - 1]);
    }
  }

  lemma {:induction false} NormalsWeigh(xs: seq<SourceRef>)
    requires forall i | 0 <= i < |xs| :: GoodDomain(xs[i].domain)
    ensures Weight(Normals(xs)) == Weight(xs)
  {
    if xs != [] {
      var front := xs[..|xs| - 1];
      NormalsWeigh(front);
      assert Normals(xs)[..|xs| - 1] == Normals(front);
      var x := xs[|xs| - 1];
      assert Normals(xs)[|xs| - 1] == Normal(x) && GoodDomain(x.domain);
    }
  }

  lemma {:induction false} RefsLength(xs: seq<SourceRef>, rest: Bytes)
    ensures |PutAll(xs, PutRef, rest)| == Weight(xs) + |rest|
  {
    if xs != [] {
      var front, x := xs[..|xs| - 1], xs[|xs| - 1];
      AllSplits(front, [x], rest);
      assert xs == front + [x];
      RefsLength(front, PutRef(x, rest));
      assert PutAll([x], PutRef, rest) == PutRef(x, rest) by { assert [x][1..] == []; }
      RefLength(x, rest);
      hide PutRef;
    }
  }

  lemma RefLength(x: SourceRef, rest: Bytes)
    ensures |PutRef(x, rest)| == 45 + |x.domain.id| + |rest|
  {
  }

  lemma {:induction false} AllSplits(a: seq<SourceRef>, b: seq<SourceRef>, rest: Bytes)
    ensures PutAll(a + b, PutRef, rest) == PutAll(a, PutRef, PutAll(b, PutRef, rest))
  {
    hide PutRef;
    if a == [] {
      assert a + b == b;
    } else {
      AllSplits(a[1..], b, rest);
      assert (a + b)[1..] == a[1..] + b;
    }
  }

  /** Sources are read as the vector they make, which is what the bytes say exactly
      when they are strictly ascending, fit, and say nothing of absent ones. */
  lemma RefsReading(b: Bytes)
    requires GetRefs(b).Got?
    ensures var r := GetRefs(b); GoodRefs(r.value) && Reading(b, PutRefs(r.value, r.rest), r.rest, PlainRefs(b))
  {
    hide GetRaw, PutRefs, VectorOf, GoodRef, PlainRef, Below, Ascending, GoodDomain;
    RawsAre(b);
    var raw := GetList(b, MAX_DECISION_SOURCES + 1, GetRaw);
    var xs, rest := raw.value, raw.rest;
    var v := VectorOf(Normals(xs));
    NormalsAreGood(xs);
    VectorOfNormalsIff(xs);
    RefsShorter(xs, rest);
    RefsAppend(xs, [], rest);
    assert [] + rest == rest;
    assert b == PutRefs(xs, []) + rest;
    forall i | 0 <= i < |v| ensures GoodDomain(v[i].domain) { GoodIsNormal(v[i]); }
    RawsReadBack(v, rest);
  }

  lemma RefsShorter(xs: seq<SourceRef>, rest: Bytes)
    requires forall i | 0 <= i < |xs| :: GoodDomain(xs[i].domain)
    ensures |PutRefs(VectorOf(Normals(xs)), rest)| <= |PutRefs(xs, rest)|
  {
    hide PutRef, VectorOf, GoodDomain, Normals;
    var v := VectorOf(Normals(xs));
    VectorIsNoHeavier(Normals(xs));
    NormalsWeigh(xs);
    RefsLength(v, rest);
    RefsLength(xs, rest);
  }

  lemma {:induction false} LinesAre(b: Bytes)
    requires GetList(b, MAX_FACTORS + 1, GetLine).Got?
    ensures var r := GetList(b, MAX_FACTORS + 1, GetLine);
            && |r.value| <= MAX_FACTORS + 1 && b == PutFactors(r.value, r.rest)
            && forall i | 0 <= i < |r.value| :: |r.value[i]| <= MAX_TEXT_BYTES
  {
    hide PutText, PutCount, GetCount, GetText;
    var c := GetCount(b, MAX_FACTORS + 1);
    AllCanonical(c.value, GetLine, PutText, (x: Text) => |x| <= MAX_TEXT_BYTES, c.rest);
  }

  lemma {:induction false} FrontIsShorter(xs: seq<Text>, n: nat, rest: Bytes)
    requires n <= |xs|
    ensures |rest| <= |PutAll(xs[..n], PutText, rest)| <= |PutAll(xs, PutText, rest)|
  {
    if xs != [] {
      if n == 0 {
        FrontIsShorter(xs[1..], 0, rest);
        assert xs[1..][..0] == [] == xs[..0];
      } else {
        FrontIsShorter(xs[1..], n - 1, rest);
        assert xs[..n][1..] == xs[1..][..n - 1];
      }
    }
  }

  /** Factors are read as many as fit. */
  lemma FactorsReading(b: Bytes)
    requires GetFactors(b).Got?
    ensures var r := GetFactors(b);
            GoodFactors(r.value) && Reading(b, PutFactors(r.value, r.rest), r.rest, PlainAtom(Factors, b))
  {
    hide PutText, PutCount, GetCount, PutFactors, GetLine;
    LinesAre(b);
    var raw := GetList(b, MAX_FACTORS + 1, GetLine);
    var xs, rest := raw.value, raw.rest;
    FittingIsShorter(xs, rest);
    FactorsAppend(xs, [], rest);
    assert [] + rest == rest;
    assert b == PutFactors(xs, []) + rest;
    LinesReadBack(Fitting(xs), rest);
  }

  lemma FittingIsShorter(xs: seq<Text>, rest: Bytes)
    ensures |PutFactors(Fitting(xs), rest)| <= |PutFactors(xs, rest)|
  {
    if |xs| > MAX_FACTORS { FrontIsShorter(xs, MAX_FACTORS, rest); }
  }

  lemma RefReading(b: Bytes)
    requires GetRef(b).Got?
    ensures var r := GetRef(b); GoodRef(r.value) && Reading(b, PutRef(r.value, r.rest), r.rest, PlainAtom(Ref, b))
  {
    hide GoodDomain, PutRef, GetRaw, GoodRef;
    var raw := GetRaw(b);
    var x, rest := raw.value, raw.rest;
    NormalIsGood(x);
    RefAppends(x, [], rest);
    RefLength(x, rest);
    assert [] + rest == rest;
    assert b == PutRef(x, []) + rest;
    NormalLength(x, rest);
    GoodIsNormal(Normal(x));
    ReadRaw(x, rest);
    ReadRaw(Normal(x), rest);
  }

  lemma NormalLength(x: SourceRef, rest: Bytes)
    requires GoodDomain(x.domain)
    ensures |PutRef(Normal(x), rest)| == |PutRef(x, rest)|
  {
    hide PutRef;
    RefLength(x, rest);
    RefLength(Normal(x), rest);
  }

  // ----- Reading a layout ---------------------------------------------------

  /** What reading a field gives: it fits, and is written again as said. */
  ghost predicate ReadsAs(k: Kind, b: Bytes, v: Value, rest: Bytes) {
    Good(k, v) && Reading(b, Put(v, rest), rest, Plain(k, b))
  }

  lemma RefIsRead(b: Bytes)
    requires Get(Ref, b).Got?
    ensures ReadsAs(Ref, b, Get(Ref, b).value, Get(Ref, b).rest)
  {
    hide GoodRef, PutRef, GetRef, GetRaw, PlainRef, Reading;
    RefReading(b);
  }

  lemma RefsAreRead(b: Bytes)
    requires Get(Refs, b).Got?
    ensures ReadsAs(Refs, b, Get(Refs, b).value, Get(Refs, b).rest)
  {
    hide GoodRefs, PutRefs, GetRefs, PlainRefs, Reading;
    RefsReading(b);
  }

  lemma FactorsAreRead(b: Bytes)
    requires Get(Factors, b).Got?
    ensures ReadsAs(Factors, b, Get(Factors, b).value, Get(Factors, b).rest)
  {
    hide GoodFactors, PutFactors, GetFactors, GetList, Reading;
    FactorsReading(b);
  }

  lemma ExactIsRead(k: Kind, b: Bytes)
    requires Exact(k) && Get(k, b).Got?
    ensures ReadsAs(k, b, Get(k, b).value, Get(k, b).rest)
  {
    ExactAtomIs(k, b);
    hide Put, Get, GoodAtom, PlainAtom, Reading;
    ExactReading(Get(k, b).value, Get(k, b).rest);
  }

  lemma AtomReading(k: Kind, b: Bytes)
    requires Atomic(k) && Get(k, b).Got?
    ensures ReadsAs(k, b, Get(k, b).value, Get(k, b).rest)
  {
    hide Get, ReadsAs;
    if k == Ref { RefIsRead(b); }
    else if k == Refs { RefsAreRead(b); }
    else if k == Factors { FactorsAreRead(b); }
    else { ExactIsRead(k, b); }
  }

  /** What reading several fields gives, one after another. */
  ghost predicate ManyReadAs(k: Kind, n: nat, b: Bytes, xs: seq<Value>, rest: Bytes) {
    |xs| == n && (forall i | 0 <= i < n :: Good(k, xs[i])) && Reading(b, PutEach(xs, rest), rest, PlainMany(k, n, b))
  }

  ghost predicate RowReadsAs(ks: seq<Kind>, b: Bytes, xs: seq<Value>, rest: Bytes) {
    |xs| == |ks| && (forall i | 0 <= i < |ks| :: Good(ks[i], xs[i])) && Reading(b, PutEach(xs, rest), rest, PlainRow(ks, b))
  }

  lemma MaybeIsRead(of: Kind, b: Bytes)
    requires Get(Maybe(of), b).Got?
    requires var flag := GetFlag(b);
             var n := if flag.value then 1 else 0;
             ManyReadAs(of, n, flag.rest, GetMany(of, n, flag.rest).value, GetMany(of, n, flag.rest).rest)
    ensures ReadsAs(Maybe(of), b, Get(Maybe(of), b).value, Get(Maybe(of), b).rest)
  {
    hide Reading, PutFlag, GetFlag, PutEach, PlainMany, GoodAtom, PlainAtom, GetMany;
    var flag := GetFlag(b);
    var n := if flag.value then 1 else 0;
    var xs := GetMany(of, n, flag.rest);
    FlagReading(flag.value, flag.rest, PutEach(xs.value, xs.rest), xs.rest, PlainMany(of, n, flag.rest));
  }

  lemma ManyParts(bound: nat, of: Kind, b: Bytes)
    requires Get(Many(bound, of), b).Got?
    ensures GetCount(b, bound).Got?
    ensures var c := GetCount(b, bound);
            var xs := GetMany(of, c.value, c.rest);
            && xs.Got? && Get(Many(bound, of), b) == Got(ManyValue(xs.value), xs.rest)
            && (Plain(Many(bound, of), b) <==> PlainMany(of, c.value, c.rest))
  {
    hide GetMany, PlainMany, PutCount, GetCount, PlainAtom;
  }

  lemma GoodMany(bound: nat, of: Kind, xs: seq<Value>)
    requires |xs| <= bound && |xs| <= MAX_U32 && forall i | 0 <= i < |xs| :: Good(of, xs[i])
    ensures Good(Many(bound, of), ManyValue(xs))
  {
  }

  lemma PutMany(xs: seq<Value>, rest: Bytes)
    ensures Put(ManyValue(xs), rest) == PutCount(|xs|, PutEach(xs, rest))
  {
    hide PutCount, PutEach;
  }

  lemma ManyIsRead(bound: nat, of: Kind, b: Bytes)
    requires Get(Many(bound, of), b).Got? && GetCount(b, bound).Got?
    requires var c := GetCount(b, bound);
             ManyReadAs(of, c.value, c.rest, GetMany(of, c.value, c.rest).value, GetMany(of, c.value, c.rest).rest)
    ensures ReadsAs(Many(bound, of), b, Get(Many(bound, of), b).value, Get(Many(bound, of), b).rest)
  {
    hide Reading, PutCount, GetCount, PutEach, PlainMany, GetMany, Get, Put, Good, Plain;
    ManyParts(bound, of, b);
    CountFits(b, bound);
    var c := GetCount(b, bound);
    var xs := GetMany(of, c.value, c.rest);
    GoodMany(bound, of, xs.value);
    PutMany(xs.value, xs.rest);
    CountReading(c.value, c.rest, PutEach(xs.value, xs.rest), xs.rest, PlainMany(of, c.value, c.rest));
  }

  lemma RowIsRead(fields: seq<Kind>, b: Bytes)
    requires Get(Row(fields), b).Got? && RowReadsAs(fields, b, GetRow(fields, b).value, GetRow(fields, b).rest)
    ensures ReadsAs(Row(fields), b, Get(Row(fields), b).value, Get(Row(fields), b).rest)
  {
    hide Reading, PutEach, PlainRow, GoodAtom, PlainAtom, GetRow;
  }

  lemma PartsAreRead(k: Kind, b: Bytes)
    requires Get(k, b).Got?
    ensures k.Maybe? ==> GetFlag(b).Got? && GetMany(k.of, if GetFlag(b).value then 1 else 0, GetFlag(b).rest).Got?
    ensures k.Many? ==> GetCount(b, k.bound).Got? && GetMany(k.of, GetCount(b, k.bound).value, GetCount(b, k.bound).rest).Got?
    ensures k.Row? ==> GetRow(k.fields, b).Got?
  {
    hide GetMany, GetRow, GetFlag, GetCount;
  }

  /** Whatever is read fits the layout; written once more it takes no more bytes, and
      it is what was read exactly when that was plain. */
  lemma {:induction false} ReadingIs(k: Kind, b: Bytes)
    requires Get(k, b).Got?
    ensures ReadsAs(k, b, Get(k, b).value, Get(k, b).rest)
    decreases k, 0
  {
    PartsAreRead(k, b);
    hide Get, ReadsAs, ManyReadAs, RowReadsAs, GetFlag, GetCount, GetMany, GetRow;
    if k.Maybe? {
      ManyReading(k.of, if GetFlag(b).value then 1 else 0, GetFlag(b).rest);
      MaybeIsRead(k.of, b);
    } else if k.Many? {
      ManyReading(k.of, GetCount(b, k.bound).value, GetCount(b, k.bound).rest);
      ManyIsRead(k.bound, k.of, b);
    } else if k.Row? {
      RowReading(k.fields, b);
      RowIsRead(k.fields, b);
    } else {
      AtomReading(k, b);
    }
  }

  lemma CountFits(b: Bytes, bound: nat)
    requires GetCount(b, bound).Got?
    ensures var c := GetCount(b, bound); c.value <= bound && c.value <= MAX_U32 && b == PutCount(c.value, c.rest)
  {
    hide Get32, PutCount;
  }

  lemma {:induction false} ManyReading(k: Kind, n: nat, b: Bytes)
    requires GetMany(k, n, b).Got?
    ensures ManyReadAs(k, n, b, GetMany(k, n, b).value, GetMany(k, n, b).rest)
    decreases k, n + 1
  {
    hide Reading, Get, Put, Good, Plain, ManyReadAs;
    if n == 0 {
      NothingReadAs(k, b);
    } else {
      ReadingIs(k, b);
      ManyReading(k, n - 1, Get(k, b).rest);
      OneMoreRead(k, n, b);
    }
  }

  lemma NothingReadAs(k: Kind, b: Bytes)
    ensures ManyReadAs(k, 0, b, [], b)
  {
    NothingRead(b);
  }

  lemma OneMoreRead(k: Kind, n: nat, b: Bytes)
    requires n > 0 && GetMany(k, n, b).Got? && Get(k, b).Got? && ReadsAs(k, b, Get(k, b).value, Get(k, b).rest)
    requires var xs := GetMany(k, n - 1, Get(k, b).rest); xs.Got? && ManyReadAs(k, n - 1, Get(k, b).rest, xs.value, xs.rest)
    ensures ManyReadAs(k, n, b, GetMany(k, n, b).value, GetMany(k, n, b).rest)
  {
    hide Reading, Get, Put, Good, Plain;
    var x := Get(k, b);
    var xs := GetMany(k, n - 1, x.rest);
    ThenReading(x.value, b, x.rest, PutEach(xs.value, xs.rest), Plain(k, b), xs.rest, PlainMany(k, n - 1, x.rest));
    assert ([x.value] + xs.value)[1..] == xs.value;
  }

  lemma {:induction false} RowReading(ks: seq<Kind>, b: Bytes)
    requires GetRow(ks, b).Got?
    ensures RowReadsAs(ks, b, GetRow(ks, b).value, GetRow(ks, b).rest)
    decreases ks, 0
  {
    hide Reading, Get, Put, Good, Plain;
    if ks == [] {
      NothingRead(b);
    } else {
      var x := Get(ks[0], b);
      var xs := GetRow(ks[1..], x.rest);
      ReadingIs(ks[0], b);
      RowReading(ks[1..], x.rest);
      ThenReading(x.value, b, x.rest, PutEach(xs.value, xs.rest), Plain(ks[0], b), xs.rest, PlainRow(ks[1..], x.rest));
      assert ([x.value] + xs.value)[1..] == xs.value;
    }
  }

  lemma NothingRead(b: Bytes)
    ensures Reading(b, b, b, true)
  {
    assert b[|b| - |b|..] == b;
  }

  // ----- Snapshots ----------------------------------------------------------

  /** A snapshot as the store keeps it; the site in it is a value of the layout. */
  datatype SnapshotRecord = SnapshotRecord(
    site: Text, epoch: u64, generation: u64, incarnation: Incarnation, sequence: u64, siteDigest: Digest,
    publishedAt: i64, lifecycle: u8, status: u8, complete: bool, sources: seq<SourceRef>, factors: seq<Text>, state: Value)

  function Fields(s: SnapshotRecord): (xs: seq<Value>)
    ensures |xs| == 13 && xs[10] == RefsValue(s.sources) && IsHeader(xs) && OfFields(xs) == s
  {
    [TextValue(s.site), WideValue(s.epoch), WideValue(s.generation), BootValue(s.incarnation), WideValue(s.sequence),
     HashedValue(s.siteDigest), SignedValue(s.publishedAt), CodeValue(s.lifecycle), CodeValue(s.status),
     TruthValue(s.complete), RefsValue(s.sources), FactorsValue(s.factors), s.state]
  }

  predicate IsHeader(xs: seq<Value>) {
    && |xs| == 13 && xs[0].TextValue? && xs[1].WideValue? && xs[2].WideValue? && xs[3].BootValue? && xs[4].WideValue?
    && xs[5].HashedValue? && xs[6].SignedValue? && xs[7].CodeValue? && xs[8].CodeValue? && xs[9].TruthValue?
    && xs[10].RefsValue? && xs[11].FactorsValue?
  }

  function OfFields(xs: seq<Value>): SnapshotRecord
    requires IsHeader(xs)
  {
    SnapshotRecord(xs[0].text, xs[1].wide, xs[2].wide, xs[3].boot, xs[4].wide, xs[5].digest, xs[6].signed, xs[7].code,
                   xs[8].code, xs[9].truth, xs[10].refs, xs[11].factors, xs[12])
  }

  lemma SameFields(xs: seq<Value>)
    requires IsHeader(xs)
    ensures Fields(OfFields(xs)) == xs
  {
  }

  function PutSnapshot(s: SnapshotRecord, rest: Bytes): Bytes { Put(RowValue(Fields(s)), rest) }

  function GetSnapshot(b: Bytes): Parsed<SnapshotRecord> {
    var r := Get(SNAPSHOT, b);
    if r.Refused? then Refused(r.status)
    else
      HeaderIsRead(b);
      Got(OfFields(r.value.items), r.rest)
  }

  ghost predicate GoodSnapshot(s: SnapshotRecord) { Good(SNAPSHOT, RowValue(Fields(s))) }

  /** The bytes are read as they are written: every set of sources in them is strictly
      ascending, within its bound and says nothing of absent sources, and no factors
      are surplus. */
  ghost predicate PlainSnapshot(b: Bytes) { Plain(SNAPSHOT, b) }

  lemma RowAt(fields: seq<Kind>, v: Value, i: nat)
    requires Good(Row(fields), v) && i < |fields|
    ensures v.RowValue? && |v.items| == |fields| && Good(fields[i], v.items[i])
  {
    hide GoodAtom;
  }

  lemma FitsAs(k: Kind, v: Value)
    requires Good(k, v)
    ensures (k.Name? ==> v.TextValue?) && (k.Wide? ==> v.WideValue?) && (k.Boot? ==> v.BootValue?)
    ensures (k.Hashed? ==> v.HashedValue?) && (k.Signed? ==> v.SignedValue?) && (k.Code? ==> v.CodeValue?)
    ensures (k.Truth? ==> v.TruthValue?) && (k.Refs? ==> v.RefsValue? && GoodRefs(v.refs)) && (k.Factors? ==> v.FactorsValue?)
  {
    hide ValidIdentifier, GoodRefs, GoodFactors, GoodRef, GoodDomain, GoodResource, GoodCapacity;
  }

  lemma HeaderField(v: Value, i: nat)
    requires Good(SNAPSHOT, v) && i < 12
    ensures v.RowValue? && |v.items| == 13
    ensures var k := SNAPSHOT.fields[i];
            && (k.Name? ==> v.items[i].TextValue?) && (k.Wide? ==> v.items[i].WideValue?) && (k.Boot? ==> v.items[i].BootValue?)
            && (k.Hashed? ==> v.items[i].HashedValue?) && (k.Signed? ==> v.items[i].SignedValue?)
            && (k.Code? ==> v.items[i].CodeValue?) && (k.Truth? ==> v.items[i].TruthValue?)
            && (k.Refs? ==> v.items[i].RefsValue?) && (k.Factors? ==> v.items[i].FactorsValue?)
  {
    hide Good, GoodRefs;
    RowAt(SNAPSHOT.fields, v, i);
    FitsAs(SNAPSHOT.fields[i], v.items[i]);
  }

  lemma GoodHeader(v: Value)
    requires Good(SNAPSHOT, v)
    ensures v.RowValue? && IsHeader(v.items)
  {
    hide Good;
    HeaderField(v, 0);
    HeaderField(v, 1);
    HeaderField(v, 2);
    HeaderField(v, 3);
    HeaderField(v, 4);
    HeaderField(v, 5);
    HeaderField(v, 6);
    HeaderField(v, 7);
    HeaderField(v, 8);
    HeaderField(v, 9);
    HeaderField(v, 10);
    HeaderField(v, 11);
  }

  lemma HeaderIsRead(b: Bytes)
    requires Get(SNAPSHOT, b).Got?
    ensures Get(SNAPSHOT, b).value.RowValue? && IsHeader(Get(SNAPSHOT, b).value.items)
  {
    hide Get, Good, Reading, Plain, IsHeader;
    ReadingIs(SNAPSHOT, b);
    GoodHeader(Get(SNAPSHOT, b).value);
  }

  lemma SnapshotReadsBack(s: SnapshotRecord, rest: Bytes)
    requires GoodSnapshot(s)
    ensures GetSnapshot(PutSnapshot(s, rest)) == Got(s, rest)
  {
    hide Get, Put, Good, Fields, IsHeader, OfFields;
    ReadsBack(SNAPSHOT, RowValue(Fields(s)), rest);
  }

  /** Whatever snapshot is read can be written and read back; written once more it takes
      no more bytes, and exactly the bytes it was read from when those were plain. */
  lemma SnapshotIsRead(b: Bytes)
    requires GetSnapshot(b).Got?
    ensures var r := GetSnapshot(b);
            && GoodSnapshot(r.value) && |PutSnapshot(r.value, r.rest)| <= |b|
            && (PutSnapshot(r.value, r.rest) == b <==> PlainSnapshot(b))
  {
    hide Get, Put, Good, Plain, Fields, IsHeader, OfFields;
    HeaderIsRead(b);
    ReadingIs(SNAPSHOT, b);
    SameFields(Get(SNAPSHOT, b).value.items);
  }

  lemma SnapshotAppends(s: SnapshotRecord, rest: Bytes, more: Bytes)
    ensures PutSnapshot(s, rest) + more == PutSnapshot(s, rest + more)
  {
    hide Put, Fields;
    Appends(RowValue(Fields(s)), rest, more);
  }

  // ----- A snapshot that is read otherwise than it is written -----------------

  lemma {:induction false} RowReads(ks: seq<Kind>, xs: seq<Value>, ys: seq<Value>, rest: Bytes)
    requires |xs| == |ys| == |ks|
    requires forall i, k: Bytes | 0 <= i < |ks| :: Get(ks[i], Put(xs[i], k)) == Got(ys[i], k)
    ensures GetRow(ks, PutEach(xs, rest)) == Got(ys, rest)
    decreases |ks|
  {
    hide Get, Put;
    if ks != [] {
      forall i, k: Bytes | 0 <= i < |ks| - 1 ensures Get(ks[1..][i], Put(xs[1..][i], k)) == Got(ys[1..][i], k) {
        assert Get(ks[i + 1], Put(xs[i + 1], k)) == Got(ys[i + 1], k);
      }
      RowReads(ks[1..], xs[1..], ys[1..], rest);
      assert Get(ks[0], Put(xs[0], PutEach(xs[1..], rest))) == Got(ys[0], PutEach(xs[1..], rest));
      assert [ys[0]] + ys[1..] == ys;
    }
  }

  /** Sources in any order, repeated or not, are read as the set they are: the bytes
      are those the snapshot is written as exactly when the sources were in order. */
  lemma AnySourcesAreRead(s: SnapshotRecord, refs: seq<SourceRef>, rest: Bytes)
    requires GoodSnapshot(s) && s.sources == VectorOf(refs) && |refs| <= MAX_DECISION_SOURCES + 1
    requires forall i | 0 <= i < |refs| :: GoodRef(refs[i])
    ensures var b := PutSnapshot(s.(sources := refs), rest);
            GetSnapshot(b) == Got(s, rest) && (b == PutSnapshot(s, rest) <==> refs == s.sources)
  {
    hide *;
    FieldsAreRead(s, refs, rest);
    RowOfFields(s.(sources := refs), s, rest);
    if PutSnapshot(s.(sources := refs), rest) == PutSnapshot(s, rest) {
      KeptRefsAreGood(refs);
      SameSources(s, s.(sources := refs), rest);
    }
    Unchanged(s, refs);
  }

  lemma Unchanged(s: SnapshotRecord, refs: seq<SourceRef>)
    ensures refs == s.sources ==> s.(sources := refs) == s
    ensures s.(sources := refs).sources == refs && s.(sources := refs).(sources := refs) == s.(sources := refs)
  {
  }

  lemma FieldsAreRead(s: SnapshotRecord, refs: seq<SourceRef>, rest: Bytes)
    requires GoodSnapshot(s) && s.sources == VectorOf(refs) && |refs| <= MAX_DECISION_SOURCES + 1
    requires forall i | 0 <= i < |refs| :: GoodRef(refs[i])
    ensures GetRow(SNAPSHOT.fields, PutEach(Fields(s.(sources := refs)), rest)) == Got(Fields(s), rest)
  {
    hide Get, Put, PutEach, GetRow, IsHeader, OfFields, VectorOf, GoodRef, GoodSnapshot, Good;
    var xs, ys, ks := Fields(s.(sources := refs)), Fields(s), SNAPSHOT.fields;
    assert |ks| == 13;
    hide Fields;
    forall i, k: Bytes | 0 <= i < 13 ensures Get(ks[i], Put(xs[i], k)) == Got(ys[i], k) { FieldReads(s, refs, i, k); }
    RowReads(ks, xs, ys, rest);
  }

  lemma RowOfFields(t: SnapshotRecord, s: SnapshotRecord, rest: Bytes)
    requires GetRow(SNAPSHOT.fields, PutEach(Fields(t), rest)) == Got(Fields(s), rest)
    ensures GetSnapshot(PutSnapshot(t, rest)) == Got(s, rest)
  {
    hide Get, Put, PutEach, GetRow, Fields, IsHeader, OfFields;
    RowIs(SNAPSHOT.fields, Fields(t), rest);
  }

  lemma FieldReads(s: SnapshotRecord, refs: seq<SourceRef>, i: nat, k: Bytes)
    requires GoodSnapshot(s) && s.sources == VectorOf(refs) && |refs| <= MAX_DECISION_SOURCES + 1 && i < 13
    requires forall i | 0 <= i < |refs| :: GoodRef(refs[i])
    ensures Get(SNAPSHOT.fields[i], Put(Fields(s.(sources := refs))[i], k)) == Got(Fields(s)[i], k)
  {
    hide Get, Put, IsHeader, OfFields, VectorOf, GoodRef, Good;
    if i == 10 {
      RefsField(refs, k);
    } else {
      RowAt(SNAPSHOT.fields, RowValue(Fields(s)), i);
      ReadsBack(SNAPSHOT.fields[i], Fields(s)[i], k);
    }
  }

  lemma KeptRefsAreGood(refs: seq<SourceRef>)
    requires forall i | 0 <= i < |refs| :: GoodRef(refs[i])
    ensures var v := VectorOf(refs); |v| <= MAX_DECISION_SOURCES && forall i | 0 <= i < |v| :: GoodRef(v[i])
  {
    hide VectorOf, GoodRef;
    VectorHolds(refs);
    VectorIsNoLonger(refs);
    var v := VectorOf(refs);
    forall i | 0 <= i < |v| ensures GoodRef(v[i]) {
      assert v[i] in refs;
      var j :| 0 <= j < |refs| && refs[j] == v[i];
    }
  }

  lemma RefsField(refs: seq<SourceRef>, k: Bytes)
    requires |refs| <= MAX_DECISION_SOURCES + 1 && forall i | 0 <= i < |refs| :: GoodRef(refs[i])
    ensures Get(Refs, Put(RefsValue(refs), k)) == Got(RefsValue(VectorOf(refs)), k)
  {
    hide PutRefs, GetRefs, VectorOf, GoodRef;
    RefsRead(refs, k);
  }

  lemma RowIs(ks: seq<Kind>, xs: seq<Value>, rest: Bytes)
    ensures Put(RowValue(xs), rest) == PutEach(xs, rest)
    ensures Get(Row(ks), PutEach(xs, rest)) == Wrapped(GetRow(ks, PutEach(xs, rest)), ys => RowValue(ys))
  {
  }

  lemma {:induction false} SameFront(front: seq<Value>, a: seq<Value>, b: seq<Value>, rest: Bytes)
    requires PutEach(front + a, rest) == PutEach(front + b, rest)
    ensures PutEach(a, rest) == PutEach(b, rest)
  {
    hide Put;
    if front == [] {
      assert front + a == a && front + b == b;
    } else {
      assert (front + a)[1..] == front[1..] + a && (front + b)[1..] == front[1..] + b;
      var x, y := PutEach(front[1..] + a, rest), PutEach(front[1..] + b, rest);
      WrittenBefore(front[0], x);
      WrittenBefore(front[0], y);
      var p := Put(front[0], []);
      assert (p + x)[|p|..] == x && (p + y)[|p|..] == y;
      SameFront(front[1..], a, b, rest);
    }
  }

  lemma SameSources(s: SnapshotRecord, t: SnapshotRecord, rest: Bytes)
    requires t == s.(sources := t.sources) && PutSnapshot(t, rest) == PutSnapshot(s, rest)
    requires |s.sources| <= MAX_DECISION_SOURCES + 1 && forall i | 0 <= i < |s.sources| :: GoodRef(s.sources[i])
    requires |t.sources| <= MAX_DECISION_SOURCES + 1 && forall i | 0 <= i < |t.sources| :: GoodRef(t.sources[i])
    ensures t.sources == s.sources
  {
    hide GoodRef, PutEach, PutRefs, IsHeader, OfFields;
    var xs, ys := Fields(t), Fields(s);
    assert xs[..10] == ys[..10] && xs[11..] == ys[11..];
    assert xs == xs[..10] + ([RefsValue(t.sources)] + xs[11..]) && ys == xs[..10] + ([RefsValue(s.sources)] + xs[11..]);
    RowIs([], xs, rest);
    RowIs([], ys, rest);
    SameFront(xs[..10], [RefsValue(t.sources)] + xs[11..], [RefsValue(s.sources)] + xs[11..], rest);
    FirstIs(t.sources, xs[11..], rest);
    FirstIs(s.sources, xs[11..], rest);
    SameRefs(t.sources, s.sources, PutEach(xs[11..], rest));
  }

  lemma FirstIs(refs: seq<SourceRef>, more: seq<Value>, rest: Bytes)
    ensures PutEach([RefsValue(refs)] + more, rest) == PutRefs(refs, PutEach(more, rest))
  {
    hide PutRefs;
    assert ([RefsValue(refs)] + more)[1..] == more;
  }

  lemma SameRefs(a: seq<SourceRef>, b: seq<SourceRef>, rest: Bytes)
    requires PutRefs(a, rest) == PutRefs(b, rest)
    requires |a| <= MAX_DECISION_SOURCES + 1 && forall i | 0 <= i < |a| :: GoodRef(a[i])
    requires |b| <= MAX_DECISION_SOURCES + 1 && forall i | 0 <= i < |b| :: GoodRef(b[i])
    ensures a == b
  {
    hide PutRefs, GoodRef, GoodDomain, GetRaw;
    forall i | 0 <= i < |a| ensures GoodDomain(a[i].domain) { GoodIsNormal(a[i]); }
    forall i | 0 <= i < |b| ensures GoodDomain(b[i].domain) { GoodIsNormal(b[i]); }
    RawsReadBack(a, rest);
    RawsReadBack(b, rest);
  }
}
