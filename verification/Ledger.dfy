/** The capacity ledger: every attributed unit is counted once into the total,
    and maintenance moves it from the available part to the excluded part. */
module Ledger {
  import opened Model
  import opened Capacity

  // ----- Which channels a contribution feeds -------------------------------

  datatype ChannelMask = ChannelMask(ingress: bool, egress: bool, internal: bool) {
    predicate Has(c: Channel) {
      match c case Ingress => ingress case Egress => egress case Internal => internal
    }
    predicate FeedsNothing() { !ingress && !egress && !internal }
  }

  function MaskFor(scope: CapacityScope, external: bool): ChannelMask {
    match scope
    case SiteIngress => ChannelMask(true, false, false)
    case SiteEgress => ChannelMask(false, true, false)
    case SiteInternal => ChannelMask(false, false, true)
    case RackLocal => ChannelMask(false, false, true)
    case PodLocal => ChannelMask(false, false, true)
    case ClusterLocal => ChannelMask(false, false, true)
    case SharedLinkScope => if external then ChannelMask(true, true, false) else ChannelMask(false, false, true)
    case GatewayScope => ChannelMask(true, true, false)
    case UnknownScope => ChannelMask(false, false, false)
  }

  /** Which scopes reach which channel of the site: everything that faces outwards both
      ways, what is made for one of them that one, and everything else inwards, save what
      has no scope. */
  lemma MaskIff(scope: CapacityScope, external: bool)
    ensures var mask, outward := MaskFor(scope, external), scope == GatewayScope || (scope == SharedLinkScope && external);
            && (mask.ingress <==> outward || scope == SiteIngress)
            && (mask.egress <==> outward || scope == SiteEgress)
            && (mask.internal <==> !outward && scope != SiteIngress && scope != SiteEgress && scope != UnknownScope)
  {
  }

  datatype LedgerBuild = LedgerBuild(
    owner: ResourceKey, scope: CapacityScope, mask: ChannelMask, capacity: CapacityVector,
    attestors: set<SourceRef>, status: Status, counted: bool)

  datatype LedgerEntry = LedgerEntry(
    owner: ResourceKey, scope: CapacityScope, capacity: CapacityVector, attestors: set<SourceRef>,
    status: Status, countedInTotal: bool)

  datatype CapacityLedger = CapacityLedger(
    entries: seq<LedgerEntry>, total: CapacityVector, available: CapacityVector,
    excluded: CapacityVector, indeterminate: CapacityVector, closesExactly: bool, status: Status)

  // ----- The four sums ------------------------------------------------------

  datatype Part = TotalPart | AvailablePart | ExcludedPart | IndeterminatePart

  predicate InPart(b: LedgerBuild, part: Part, excludedKeys: set<ResourceKey>) {
    match part
    case TotalPart => b.counted
    case AvailablePart => b.counted && b.owner !in excludedKeys
    case ExcludedPart => b.counted && b.owner in excludedKeys
    case IndeterminatePart => !b.counted
  }

  /** The values one channel of one part receives, in ledger order. */
  function Feed(builds: seq<LedgerBuild>, part: Part, excludedKeys: set<ResourceKey>, c: Channel): seq<CapacityValue> {
    if builds == [] then []
    else
      var b := builds[|builds| - 1];
      var before := Feed(builds[..|builds| - 1], part, excludedKeys, c);
      if InPart(b, part, excludedKeys) && b.mask.Has(c) then before + [b.capacity.At(c)] else before
  }

  function Fed(builds: seq<LedgerBuild>, part: Part, excludedKeys: set<ResourceKey>): Received {
    Received(Feed(builds, part, excludedKeys, Ingress), Feed(builds, part, excludedKeys, Egress),
             Feed(builds, part, excludedKeys, Internal))
  }

  function CountedBuilds(builds: seq<LedgerBuild>): nat {
    if builds == [] then 0
    else CountedBuilds(builds[..|builds| - 1]) + (if builds[|builds| - 1].counted then 1 else 0)
  }

  function EntryOf(b: LedgerBuild, excludedKeys: set<ResourceKey>): LedgerEntry {
    LedgerEntry(b.owner, b.scope, b.capacity, b.attestors, b.status, InPart(b, AvailablePart, excludedKeys))
  }

  function EntriesOf(builds: seq<LedgerBuild>, excludedKeys: set<ResourceKey>): seq<LedgerEntry> {
    if builds == [] then []
    else EntriesOf(builds[..|builds| - 1], excludedKeys) + [EntryOf(builds[|builds| - 1], excludedKeys)]
  }

  /** A channel nothing was excluded from is excluded by zero when the total
      knows it. */
  function ZeroFilled(excluded: seq<CapacityValue>, total: CapacityValue): CapacityValue {
    if excluded == [] && total.Known? then Known(0) else ChannelTotal(excluded)
  }

  function ExcludedVector(total: Received, excluded: Received): CapacityVector {
    CapacityVector(
      ZeroFilled(excluded.ingress, ChannelTotal(total.ingress)),
      ZeroFilled(excluded.egress, ChannelTotal(total.egress)),
      ZeroFilled(excluded.internal, ChannelTotal(total.internal)))
  }

  function TotalStatus(total: Received, contributions: nat): Status {
    if total.Overflows() then Status.CapacityOverflow
    else if contributions != 0 && total.AllKnown() then Status.Ok
    else Status.CapacityUnknown
  }

  /** The figures that follow from the four sums: the subtraction, and the
      closing identity as the agreement of the two routes to what is available. */
  function Closing(entries: seq<LedgerEntry>, total: Received, available: Received, excluded: Received,
      indeterminate: Received, contributions: nat): CapacityLedger
  {
    var excludedVector := ExcludedVector(total, excluded);
    var subtracted := Subtract(total.Totals(), excludedVector);
    var availableVector := if subtracted.Some? then subtracted.value else ALL_UNKNOWN;
    var closes := subtracted.Some?
      && !total.Overflows() && !excluded.Overflows() && !available.Overflows() && !indeterminate.Overflows()
      && LeqChannels(excludedVector, total.Totals()) && LeqChannels(availableVector, total.Totals())
      && available.Totals() == availableVector;
    CapacityLedger(entries, total.Totals(), availableVector, excludedVector, indeterminate.Totals(), closes,
      TotalStatus(total, contributions))
  }

  function LedgerOf(builds: seq<LedgerBuild>, excludedKeys: set<ResourceKey>): CapacityLedger {
    Closing(EntriesOf(builds, excludedKeys),
      Fed(builds, TotalPart, excludedKeys), Fed(builds, AvailablePart, excludedKeys),
      Fed(builds, ExcludedPart, excludedKeys), Fed(builds, IndeterminatePart, excludedKeys),
      CountedBuilds(builds))
  }

  // ----- The fold -----------------------------------------------------------

  method AddAggregate(aggregate: CapacityAggregate, build: LedgerBuild)
    requires aggregate.Valid()
    modifies aggregate
    ensures aggregate.Valid()
    ensures aggregate.contributions == old(aggregate.contributions) + 1
    ensures aggregate.received == Received(
      old(aggregate.received.ingress) + (if build.mask.ingress then [build.capacity.ingress] else []),
      old(aggregate.received.egress) + (if build.mask.egress then [build.capacity.egress] else []),
      old(aggregate.received.internal) + (if build.mask.internal then [build.capacity.internal] else []))
  {
    hide Exact, ChannelTotal;
    aggregate.CountEntry();
    if build.mask.ingress { aggregate.AddChannel(Ingress, build.capacity.ingress); }
    if build.mask.egress { aggregate.AddChannel(Egress, build.capacity.egress); }
    if build.mask.internal { aggregate.AddChannel(Internal, build.capacity.internal); }
  }

  function FedWith(f: Received, b: LedgerBuild, takes: bool): Received {
    if !takes then f
    else Received(
      f.ingress + (if b.mask.ingress then [b.capacity.ingress] else []),
      f.egress + (if b.mask.egress then [b.capacity.egress] else []),
      f.internal + (if b.mask.internal then [b.capacity.internal] else []))
  }

  lemma FedStep(builds: seq<LedgerBuild>, i: nat, part: Part, excludedKeys: set<ResourceKey>)
    requires i < |builds|
    ensures Fed(builds[..i + 1], part, excludedKeys)
         == FedWith(Fed(builds[..i], part, excludedKeys), builds[i], InPart(builds[i], part, excludedKeys))
  {
    assert builds[..i + 1][..i] == builds[..i];
  }

  lemma EntriesStep(builds: seq<LedgerBuild>, i: nat, excludedKeys: set<ResourceKey>)
    requires i < |builds|
    ensures EntriesOf(builds[..i + 1], excludedKeys)
         == EntriesOf(builds[..i], excludedKeys) + [EntryOf(builds[i], excludedKeys)]
    ensures CountedBuilds(builds[..i + 1]) == CountedBuilds(builds[..i]) + (if builds[i].counted then 1 else 0)
  {
    assert builds[..i + 1][..i] == builds[..i];
  }

  /** Puts one build where its disposition says. */
  method Account(build: LedgerBuild, excludedKeys: set<ResourceKey>, total: CapacityAggregate,
      available: CapacityAggregate, excluded: CapacityAggregate, indeterminate: CapacityAggregate)
      returns (entry: LedgerEntry)
    requires total.Valid() && available.Valid() && excluded.Valid() && indeterminate.Valid()
    requires total != available && total != excluded && total != indeterminate
    requires available != excluded && available != indeterminate && excluded != indeterminate
    modifies total, available, excluded, indeterminate
    ensures total.Valid() && available.Valid() && excluded.Valid() && indeterminate.Valid()
    ensures entry == EntryOf(build, excludedKeys)
    ensures total.contributions == old(total.contributions) + (if build.counted then 1 else 0)
    ensures total.received == FedWith(old(total.received), build, InPart(build, TotalPart, excludedKeys))
    ensures available.received == FedWith(old(available.received), build, InPart(build, AvailablePart, excludedKeys))
    ensures excluded.received == FedWith(old(excluded.received), build, InPart(build, ExcludedPart, excludedKeys))
    ensures indeterminate.received == FedWith(old(indeterminate.received), build, InPart(build, IndeterminatePart, excludedKeys))
  {
    hide Exact;
    entry := LedgerEntry(build.owner, build.scope, build.capacity, build.attestors, build.status, false);
    if !build.counted {
      AddAggregate(indeterminate, build);
      return;
    }
    AddAggregate(total, build);
    if build.owner in excludedKeys {
      AddAggregate(excluded, build);
      return;
    }
    entry := entry.(countedInTotal := true);
    AddAggregate(available, build);
  }

  /** One pass over the builds into four aggregates, then the closing checks. */
  method FoldLedger(builds: seq<LedgerBuild>, excludedKeys: set<ResourceKey>) returns (ledger: CapacityLedger)
    ensures ledger == LedgerOf(builds, excludedKeys)
  {
    var total := new CapacityAggregate();
    var available := new CapacityAggregate();
    var excluded := new CapacityAggregate();
    var indeterminate := new CapacityAggregate();
    var entries := [];
    for i := 0 to |builds|
      invariant fresh(total) && fresh(available) && fresh(excluded) && fresh(indeterminate)
      invariant total.Valid() && available.Valid() && excluded.Valid() && indeterminate.Valid()
      invariant entries == EntriesOf(builds[..i], excludedKeys)
      invariant total.contributions == CountedBuilds(builds[..i])
      invariant total.received == Fed(builds[..i], TotalPart, excludedKeys)
      invariant available.received == Fed(builds[..i], AvailablePart, excludedKeys)
      invariant excluded.received == Fed(builds[..i], ExcludedPart, excludedKeys)
      invariant indeterminate.received == Fed(builds[..i], IndeterminatePart, excludedKeys)
    {
      FedStep(builds, i, TotalPart, excludedKeys);
      FedStep(builds, i, AvailablePart, excludedKeys);
      FedStep(builds, i, ExcludedPart, excludedKeys);
      FedStep(builds, i, IndeterminatePart, excludedKeys);
      EntriesStep(builds, i, excludedKeys);
      hide Fed, FedWith, InPart, EntriesOf, EntryOf, CountedBuilds;
      var entry := Account(builds[i], excludedKeys, total, available, excluded, indeterminate);
      entries := entries + [entry];
    }
    assert builds[..|builds|] == builds;
    ledger := CloseLedger(entries, total, available, excluded, indeterminate);
  }

  /** The subtraction, the independent sum of the available entries, and the
      closing identity. */
  method CloseLedger(entries: seq<LedgerEntry>, total: CapacityAggregate, available: CapacityAggregate,
      excluded: CapacityAggregate, indeterminate: CapacityAggregate) returns (ledger: CapacityLedger)
    requires total.Valid() && available.Valid() && excluded.Valid() && indeterminate.Valid()
    ensures ledger == Closing(entries, total.received, available.received, excluded.received,
                              indeterminate.received, total.contributions)
  {
    hide Exact, ChannelTotal;
    var totalVector := total.Total();
    var indeterminateVector := indeterminate.Total();
    var excludedVector := ExcludedFigure(total, excluded);
    var recomputed := available.Total();
    var status := total.GetStatus();
    var overflow := total.Overflowed() || excluded.Overflowed() || available.Overflowed() || indeterminate.Overflowed();
    var subtracted := Subtract(totalVector, excludedVector);
    var availableVector := if subtracted.Some? then subtracted.value else ALL_UNKNOWN;
    var closes := subtracted.Some?;
    if overflow { closes := false; }
    if !LeqChannels(excludedVector, totalVector) { closes := false; }
    if !LeqChannels(availableVector, totalVector) { closes := false; }
    var agrees := Recombines(availableVector, excludedVector, totalVector);
    if !agrees { closes := false; }
    if recomputed != availableVector { closes := false; }
    ledger := CapacityLedger(entries, totalVector, availableVector, excludedVector, indeterminateVector, closes, status);
  }

  method ExcludedFigure(total: CapacityAggregate, excluded: CapacityAggregate) returns (v: CapacityVector)
    requires total.Valid() && excluded.Valid()
    ensures v == ExcludedVector(total.received, excluded.received)
  {
    hide Exact;
    v := excluded.Total();
    if !excluded.ChannelSeen(Ingress) && total.ChannelKnown(Ingress) { v := v.(ingress := Known(0)); }
    if !excluded.ChannelSeen(Egress) && total.ChannelKnown(Egress) { v := v.(egress := Known(0)); }
    if !excluded.ChannelSeen(Internal) && total.ChannelKnown(Internal) { v := v.(internal := Known(0)); }
  }

  /** Adds the available and the excluded vector into a vector that starts with
      every channel unknown, so it can never disagree with the total. */
  method Recombines(available: CapacityVector, excluded: CapacityVector, total: CapacityVector) returns (agrees: bool)
    ensures agrees
  {
    var first, recombined := AddCapacity(ALL_UNKNOWN, available);
    assert ALL_UNKNOWN.At(Ingress) == ALL_UNKNOWN.At(Egress) == ALL_UNKNOWN.At(Internal) == UnknownValue;
    assert recombined.At(Ingress) == recombined.At(Egress) == recombined.At(Internal) == UnknownValue;
    var second, both := AddCapacity(recombined, excluded);
    assert both.At(Ingress) == both.At(Egress) == both.At(Internal) == UnknownValue;
    agrees := first.IsOk() && second.IsOk()
      && (both.ingress.UnknownValue? || total.ingress.UnknownValue? || both.ingress == total.ingress)
      && (both.egress.UnknownValue? || total.egress.UnknownValue? || both.egress == total.egress)
      && (both.internal.UnknownValue? || total.internal.UnknownValue? || both.internal == total.internal);
  }

  predicate LeqChannels(part: CapacityVector, whole: CapacityVector)
    ensures LeqChannels(part, whole) <==> Leq(part, whole)
  {
    assert Leq(part, whole) ==> forall c: Channel {:trigger part.At(c)} | part.At(c).Known? && whole.At(c).Known? ::
      part.At(c).bps <= whole.At(c).bps;
    assert part.At(Ingress) == part.ingress && part.At(Egress) == part.egress && part.At(Internal) == part.internal;
    && (part.ingress.Known? && whole.ingress.Known? ==> part.ingress.bps <= whole.ingress.bps)
    && (part.egress.Known? && whole.egress.Known? ==> part.egress.bps <= whole.egress.bps)
    && (part.internal.Known? && whole.internal.Known? ==> part.internal.bps <= whole.internal.bps)
  }

  // ----- Conservation -------------------------------------------------------

  /** The counted entries split exactly into the available and the excluded. */
  lemma {:induction false} PartsSplitTheTotal(builds: seq<LedgerBuild>, excludedKeys: set<ResourceKey>, c: Channel)
    ensures Splits(Feed(builds, TotalPart, excludedKeys, c), Feed(builds, AvailablePart, excludedKeys, c),
                   Feed(builds, ExcludedPart, excludedKeys, c))
  {
    if builds != [] {
      var front, b := builds[..|builds| - 1], builds[|builds| - 1];
      PartsSplitTheTotal(front, excludedKeys, c);
      SplitsMore(Feed(front, TotalPart, excludedKeys, c), Feed(front, AvailablePart, excludedKeys, c),
        Feed(front, ExcludedPart, excludedKeys, c), b.capacity.At(c));
      hide Splits;
    }
  }

  ghost predicate Splits(whole: seq<CapacityValue>, left: seq<CapacityValue>, right: seq<CapacityValue>) {
    && Exact(whole) == Exact(left) + Exact(right)
    && (UnknownValue in whole <==> (UnknownValue in left || UnknownValue in right))
    && (whole == [] <==> left == [] && right == [])
  }

  lemma SplitsMore(whole: seq<CapacityValue>, left: seq<CapacityValue>, right: seq<CapacityValue>, v: CapacityValue)
    requires Splits(whole, left, right)
    ensures Splits(whole + [v], left + [v], right) && Splits(whole + [v], left, right + [v])
  {
    ExactSnoc(whole, v);
    ExactSnoc(left, v);
    ExactSnoc(right, v);
  }

  lemma ExactSnoc(values: seq<CapacityValue>, v: CapacityValue)
    ensures Exact(values + [v]) == Exact(values) + (match v case Known(b) => b case UnknownValue => 0)
  {
    assert (values + [v])[..|values|] == values;
  }

  predicate IsExactly(v: CapacityValue, values: seq<CapacityValue>) { v.Known? && v.bps == Exact(values) }

  /** Where the total is known, so are the other two, each is the exact sum of
      its own entries, and available plus excluded is the total. */
  lemma ConservationAt(builds: seq<LedgerBuild>, excludedKeys: set<ResourceKey>, c: Channel)
    requires ChannelTotal(Feed(builds, TotalPart, excludedKeys, c)).Known?
    ensures var total := ChannelTotal(Feed(builds, TotalPart, excludedKeys, c));
            var excluded := ZeroFilled(Feed(builds, ExcludedPart, excludedKeys, c), total);
            && IsExactly(excluded, Feed(builds, ExcludedPart, excludedKeys, c))
            && Difference(total, excluded).Some?
            && IsExactly(Difference(total, excluded).value, Feed(builds, AvailablePart, excludedKeys, c))
            && Exact(Feed(builds, AvailablePart, excludedKeys, c)) + excluded.bps == total.bps
  {
    PartsSplitTheTotal(builds, excludedKeys, c);
  }

  lemma NoUnderflow(builds: seq<LedgerBuild>, excludedKeys: set<ResourceKey>, c: Channel)
    ensures var total := ChannelTotal(Feed(builds, TotalPart, excludedKeys, c));
            Difference(total, ZeroFilled(Feed(builds, ExcludedPart, excludedKeys, c), total)).Some?
  {
    if ChannelTotal(Feed(builds, TotalPart, excludedKeys, c)).Known? {
      ConservationAt(builds, excludedKeys, c);
    }
  }

  lemma FedAt(builds: seq<LedgerBuild>, part: Part, excludedKeys: set<ResourceKey>, c: Channel)
    ensures Fed(builds, part, excludedKeys).At(c) == Feed(builds, part, excludedKeys, c)
    ensures Fed(builds, part, excludedKeys).Totals().At(c) == ChannelTotal(Feed(builds, part, excludedKeys, c))
  {
  }

  /** The subtraction never underflows, so the available figure is always the
      channel-wise difference. */
  lemma LedgerAt(builds: seq<LedgerBuild>, excludedKeys: set<ResourceKey>, c: Channel)
    ensures var l := LedgerOf(builds, excludedKeys);
            var total := ChannelTotal(Feed(builds, TotalPart, excludedKeys, c));
            && l.total.At(c) == total
            && l.excluded.At(c) == ZeroFilled(Feed(builds, ExcludedPart, excludedKeys, c), total)
            && Difference(l.total.At(c), l.excluded.At(c)) == Some(l.available.At(c))
  {
    NoUnderflow(builds, excludedKeys, Ingress);
    NoUnderflow(builds, excludedKeys, Egress);
    NoUnderflow(builds, excludedKeys, Internal);
    FedAt(builds, TotalPart, excludedKeys, c);
  }

  /** Conservation: on every channel the total knows, the excluded and available
      figures are known, each figure is the exact sum over its own entries, and
      available plus excluded is the total; a channel the total does not know is
      not available either. */
  lemma LedgerConserves(builds: seq<LedgerBuild>, excludedKeys: set<ResourceKey>, c: Channel)
    ensures var l := LedgerOf(builds, excludedKeys);
            && (l.total.At(c).Known? ==>
                 && IsExactly(l.total.At(c), Feed(builds, TotalPart, excludedKeys, c))
                 && IsExactly(l.excluded.At(c), Feed(builds, ExcludedPart, excludedKeys, c))
                 && IsExactly(l.available.At(c), Feed(builds, AvailablePart, excludedKeys, c))
                 && l.available.At(c).bps + l.excluded.At(c).bps == l.total.At(c).bps)
            && (l.total.At(c).UnknownValue? ==> l.available.At(c).UnknownValue?)
  {
    LedgerAt(builds, excludedKeys, c);
    if ChannelTotal(Feed(builds, TotalPart, excludedKeys, c)).Known? {
      ConservationAt(builds, excludedKeys, c);
    }
  }

  /** A part overflows only when the total does. */
  lemma PartsOverflowWithTheTotal(builds: seq<LedgerBuild>, excludedKeys: set<ResourceKey>)
    ensures Fed(builds, AvailablePart, excludedKeys).Overflows() || Fed(builds, ExcludedPart, excludedKeys).Overflows()
      ==> Fed(builds, TotalPart, excludedKeys).Overflows()
  {
    PartsSplitTheTotal(builds, excludedKeys, Ingress);
    PartsSplitTheTotal(builds, excludedKeys, Egress);
    PartsSplitTheTotal(builds, excludedKeys, Internal);
  }

  lemma ChannelCloses(builds: seq<LedgerBuild>, excludedKeys: set<ResourceKey>, c: Channel)
    ensures var l := LedgerOf(builds, excludedKeys);
            && Difference(l.total.At(c), l.excluded.At(c)).Some?
            && (l.excluded.At(c).Known? && l.total.At(c).Known? ==> l.excluded.At(c).bps <= l.total.At(c).bps)
            && (l.available.At(c).Known? && l.total.At(c).Known? ==> l.available.At(c).bps <= l.total.At(c).bps)
    ensures Exact(Feed(builds, TotalPart, excludedKeys, c)) <= MAX_CAPACITY_BPS ==>
      (ChannelTotal(Feed(builds, AvailablePart, excludedKeys, c)) == LedgerOf(builds, excludedKeys).available.At(c) <==>
       KnownAlike(builds, excludedKeys, c))
  {
    LedgerConserves(builds, excludedKeys, c);
    LedgerAt(builds, excludedKeys, c);
    PartsSplitTheTotal(builds, excludedKeys, c);
  }

  /** The whole of a channel is reported just when its available part is. */
  predicate KnownAlike(builds: seq<LedgerBuild>, excludedKeys: set<ResourceKey>, c: Channel) {
    FullyKnown(Feed(builds, TotalPart, excludedKeys, c)) <==> FullyKnown(Feed(builds, AvailablePart, excludedKeys, c))
  }

  /** The ledger closes exactly when no aggregate overflowed and, on each
      channel, the total is known just when the non-excluded sum is. */
  lemma ClosesExactlyIff(builds: seq<LedgerBuild>, excludedKeys: set<ResourceKey>)
    ensures LedgerOf(builds, excludedKeys).closesExactly <==>
      (&& !Fed(builds, TotalPart, excludedKeys).Overflows()
       && !Fed(builds, IndeterminatePart, excludedKeys).Overflows()
       && forall c: Channel :: KnownAlike(builds, excludedKeys, c))
  {
    PartsOverflowWithTheTotal(builds, excludedKeys);
    ChannelCloses(builds, excludedKeys, Ingress);
    ChannelCloses(builds, excludedKeys, Egress);
    ChannelCloses(builds, excludedKeys, Internal);
    hide Exact, ChannelTotal, Feed, FullyKnown, ZeroFilled, Difference, EntriesOf, CountedBuilds;
    var each := KnownAlike(builds, excludedKeys, Ingress) && KnownAlike(builds, excludedKeys, Egress)
      && KnownAlike(builds, excludedKeys, Internal);
    forall c: Channel ensures each ==> KnownAlike(builds, excludedKeys, c) {
      match c case Ingress => case Egress => case Internal =>
    }
  }

  /** A channel whose every contributor is under maintenance keeps the ledger
      from closing although available plus excluded is the total. */
  lemma FullyExcludedChannelDoesNotClose(builds: seq<LedgerBuild>, excludedKeys: set<ResourceKey>, c: Channel)
    requires FullyKnown(Feed(builds, TotalPart, excludedKeys, c))
    requires Exact(Feed(builds, TotalPart, excludedKeys, c)) <= MAX_CAPACITY_BPS
    requires Feed(builds, AvailablePart, excludedKeys, c) == []
    ensures var l := LedgerOf(builds, excludedKeys);
            && l.available.At(c) == Known(0) && l.excluded.At(c) == l.total.At(c)
            && !l.closesExactly
  {
    LedgerConserves(builds, excludedKeys, c);
    LedgerAt(builds, excludedKeys, c);
    ClosesExactlyIff(builds, excludedKeys);
    assert !KnownAlike(builds, excludedKeys, c);
  }

  // ----- Maintenance only moves capacity -----------------------------------

  lemma {:induction false} TotalIgnoresExclusion(builds: seq<LedgerBuild>, e0: set<ResourceKey>,
      e1: set<ResourceKey>, c: Channel)
    ensures Feed(builds, TotalPart, e0, c) == Feed(builds, TotalPart, e1, c)
  {
    if builds != [] { TotalIgnoresExclusion(builds[..|builds| - 1], e0, e1, c); }
  }

  lemma {:induction false} AvailableShrinks(builds: seq<LedgerBuild>, e0: set<ResourceKey>, e1: set<ResourceKey>,
      c: Channel)
    requires e0 <= e1
    ensures Exact(Feed(builds, AvailablePart, e1, c)) <= Exact(Feed(builds, AvailablePart, e0, c))
  {
    if builds != [] {
      var front, b := builds[..|builds| - 1], builds[|builds| - 1];
      AvailableShrinks(front, e0, e1, c);
      ExactSnoc(Feed(front, AvailablePart, e0, c), b.capacity.At(c));
      ExactSnoc(Feed(front, AvailablePart, e1, c), b.capacity.At(c));
    }
  }

  /** Excluding more never changes the total and never raises what is available. */
  lemma MaintenanceOnlyMovesCapacity(builds: seq<LedgerBuild>, e0: set<ResourceKey>, e1: set<ResourceKey>, c: Channel)
    requires e0 <= e1
    ensures LedgerOf(builds, e0).total.At(c) == LedgerOf(builds, e1).total.At(c)
    ensures LedgerOf(builds, e0).available.At(c).Known? <==> LedgerOf(builds, e1).available.At(c).Known?
    ensures LedgerOf(builds, e1).available.At(c).Known? ==>
      LedgerOf(builds, e1).available.At(c).bps <= LedgerOf(builds, e0).available.At(c).bps
  {
    TotalIgnoresExclusion(builds, e0, e1, c);
    LedgerAt(builds, e0, c);
    LedgerAt(builds, e1, c);
    LedgerConserves(builds, e0, c);
    LedgerConserves(builds, e1, c);
    AvailableShrinks(builds, e0, e1, c);
  }

  // ----- What the ledger says of each build -----------------------------------

  /** A build gives to a channel of a part: the total takes what is attributed, which
      the exclusions divide into excluded and available; the rest is indeterminate. */
  predicate Gives(b: LedgerBuild, part: Part, excludedKeys: set<ResourceKey>, c: Channel) {
    && b.mask.Has(c)
    && match part
       case TotalPart => b.counted
       case AvailablePart => b.counted && b.owner !in excludedKeys
       case ExcludedPart => b.counted && b.owner in excludedKeys
       case IndeterminatePart => !b.counted
  }

  /** A channel of a part receives the capacities of exactly the builds that give to it. */
  lemma {:induction false} FeedIff(builds: seq<LedgerBuild>, part: Part, excludedKeys: set<ResourceKey>, c: Channel, v: CapacityValue)
    ensures v in Feed(builds, part, excludedKeys, c) <==>
      exists b :: b in builds && Gives(b, part, excludedKeys, c) && b.capacity.At(c) == v
  {
    if builds != [] {
      var front, b := builds[..|builds| - 1], builds[|builds| - 1];
      FeedIff(front, part, excludedKeys, c, v);
      assert builds == front + [b];
      assert Gives(b, part, excludedKeys, c) <==> InPart(b, part, excludedKeys) && b.mask.Has(c);
      hide Gives, InPart;
    }
  }

  lemma {:induction false} CountedIff(builds: seq<LedgerBuild>)
    ensures CountedBuilds(builds) != 0 <==> exists b :: b in builds && b.counted
  {
    if builds != [] {
      assert builds == builds[..|builds| - 1] + [builds[|builds| - 1]];
      CountedIff(builds[..|builds| - 1]);
    }
  }

  /** Some attributed build gives to the channel, and each that does is known. */
  ghost predicate Supplied(builds: seq<LedgerBuild>, c: Channel) {
    && (exists b :: b in builds && Gives(b, TotalPart, {}, c))
    && forall b | b in builds && Gives(b, TotalPart, {}, c) :: b.capacity.At(c).Known?
  }

  /** What is attributed to the channel is more than a channel may carry. */
  predicate Exceeds(builds: seq<LedgerBuild>, c: Channel) { Exact(Feed(builds, TotalPart, {}, c)) > MAX_CAPACITY_BPS }

  /** The ledger is over its bound exactly when the attributed capacity of some channel
      is; otherwise it is OK exactly when every channel is supplied, and unknown if not. */
  lemma LedgerStatusIff(builds: seq<LedgerBuild>, excludedKeys: set<ResourceKey>)
    ensures var l := LedgerOf(builds, excludedKeys);
            var over := exists c: Channel :: Exceeds(builds, c);
            && (l.status == Status.CapacityOverflow <==> over)
            && (l.status == Status.Ok <==> !over && forall c: Channel :: Supplied(builds, c))
            && (l.status == Status.CapacityUnknown <==> !over && exists c: Channel :: !Supplied(builds, c))
  {
    hide *;
    var total := Fed(builds, TotalPart, excludedKeys);
    StatusOfTotal(builds, excludedKeys);
    OverIff(builds, excludedKeys);
    if !total.Overflows() { KnownIff(builds, excludedKeys); }
    CountedIff(builds);
    if forall c: Channel :: Supplied(builds, c) { SuppliedIsCounted(builds, Ingress); }
  }

  lemma SuppliedIsCounted(builds: seq<LedgerBuild>, c: Channel)
    requires Supplied(builds, c)
    ensures exists b :: b in builds && b.counted
  {
    var b :| b in builds && Gives(b, TotalPart, {}, c);
  }

  lemma StatusOfTotal(builds: seq<LedgerBuild>, excludedKeys: set<ResourceKey>)
    ensures var total, s := Fed(builds, TotalPart, excludedKeys), LedgerOf(builds, excludedKeys).status;
            && (s == Status.CapacityOverflow <==> total.Overflows())
            && (s == Status.Ok <==> !total.Overflows() && CountedBuilds(builds) != 0 && total.AllKnown())
            && (s == Status.CapacityUnknown <==> !total.Overflows() && !(CountedBuilds(builds) != 0 && total.AllKnown()))
  {
    hide Fed, EntriesOf, CountedBuilds, ExcludedVector;
  }

  lemma OverIff(builds: seq<LedgerBuild>, excludedKeys: set<ResourceKey>)
    ensures Fed(builds, TotalPart, excludedKeys).Overflows() <==> exists c: Channel :: Exceeds(builds, c)
  {
    TotalIgnoresExclusion(builds, {}, excludedKeys, Ingress);
    TotalIgnoresExclusion(builds, {}, excludedKeys, Egress);
    TotalIgnoresExclusion(builds, {}, excludedKeys, Internal);
    assert Fed(builds, TotalPart, excludedKeys).Overflows() <==>
      Exceeds(builds, Ingress) || Exceeds(builds, Egress) || Exceeds(builds, Internal);
    hide Exceeds, Fed;
    if c: Channel :| Exceeds(builds, c) {
      match c case Ingress => case Egress => case Internal =>
    }
  }

  lemma KnownIff(builds: seq<LedgerBuild>, excludedKeys: set<ResourceKey>)
    requires !Fed(builds, TotalPart, excludedKeys).Overflows()
    ensures Fed(builds, TotalPart, excludedKeys).AllKnown() <==> forall c: Channel :: Supplied(builds, c)
  {
    hide Feed, Exact, Supplied;
    forall c: Channel ensures Supplied(builds, c) <==> FullyKnown(Feed(builds, TotalPart, excludedKeys, c)) {
      SuppliedIff(builds, excludedKeys, c);
    }
    if Fed(builds, TotalPart, excludedKeys).AllKnown() {
      forall c: Channel ensures Supplied(builds, c) { match c case Ingress => case Egress => case Internal => }
    }
  }

  lemma SuppliedIff(builds: seq<LedgerBuild>, excludedKeys: set<ResourceKey>, c: Channel)
    ensures Supplied(builds, c) <==> FullyKnown(Feed(builds, TotalPart, excludedKeys, c))
  {
    var feed := Feed(builds, TotalPart, excludedKeys, c);
    FeedIff(builds, TotalPart, excludedKeys, c, UnknownValue);
    forall b | b in builds && Gives(b, TotalPart, {}, c) ensures b.capacity.At(c) in feed {
      FeedIff(builds, TotalPart, excludedKeys, c, b.capacity.At(c));
    }
    if feed != [] { FeedIff(builds, TotalPart, excludedKeys, c, feed[0]); }
    hide Feed;
  }
}
