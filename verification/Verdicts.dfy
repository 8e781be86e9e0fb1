/** Connectivity and obligations: what the links and gateways add up to, and
    whether each obligation is met by what is attributed and available. */
module Verdicts {
  import opened Model
  import opened Attribution
  import opened Forest
  import opened FailureDomains
  import opened Maintenance
  import Order

  // ----- Connectivity -------------------------------------------------------

  datatype Tally = Tally(total: nat, up: nat, down: nat, degraded: nat, unknown: nat) {
    function Number(s: ConnectivityState): nat {
      match s case Up => up case Down => down case DegradedState => degraded case UnknownState => unknown
    }
  }

  const NO_LINKS := Tally(0, 0, 0, 0, 0)

  function Counted(t: Tally, s: ConnectivityState): Tally {
    match s
    case Up => t.(total := t.total + 1, up := t.up + 1)
    case Down => t.(total := t.total + 1, down := t.down + 1)
    case DegradedState => t.(total := t.total + 1, degraded := t.degraded + 1)
    case UnknownState => t.(total := t.total + 1, unknown := t.unknown + 1)
  }

  datatype ConnectivitySummary = ConnectivitySummary(
    links: Tally, gateways: Tally, externalLinks: nat, unknownState: set<ResourceKey>,
    sources: set<SourceRef>, status: Status)

  const NOTHING_CONNECTED := ConnectivitySummary(NO_LINKS, NO_LINKS, 0, {}, {}, Status.Unknown)

  function ClaimedState(kind: ResourceKind, r: ResourceRecord): (s: Option<ConnectivityState>)
    ensures s.Some? ==> kind == SharedLinkKind || kind == GatewayKind
  {
    if kind == SharedLinkKind && Pointer(r, 3).Some? then Some(Pointer(r, 3).value.state)
    else if kind == GatewayKind && Pointer(r, 4).Some? then Some(Pointer(r, 4).value.state)
    else None
  }

  /** The state a link or gateway is reported in: unknown unless attributed. */
  function ReportedState(kind: ResourceKind, r: ResourceRecord): (s: Option<ConnectivityState>)
    ensures s.Some? ==> kind == SharedLinkKind || kind == GatewayKind
  {
    var s := ClaimedState(kind, r);
    if s.None? then None else Some(if r.status == Status.Ok then s.value else UnknownState)
  }

  predicate ExternalLink(k: ResourceKey, r: ResourceRecord) {
    k.kind == SharedLinkKind && Pointer(r, 3).Some? && Pointer(r, 3).value.external
  }

  /** One more link or gateway in the summary. */
  function Including(c: ConnectivitySummary, k: ResourceKey, r: ResourceRecord): ConnectivitySummary {
    var s := ReportedState(k.kind, r);
    if s.None? then c
    else
      ConnectivitySummary(
        if k.kind == SharedLinkKind then Counted(c.links, s.value) else c.links,
        if k.kind == SharedLinkKind then c.gateways else Counted(c.gateways, s.value),
        c.externalLinks + (if ExternalLink(k, r) then 1 else 0),
        if s.value == UnknownState then c.unknownState + {k} else c.unknownState,
        c.sources + Attestors(r), c.status)
  }

  function Summarize(resources: Resources, order: seq<ResourceKey>): ConnectivitySummary
    requires forall k | k in order :: k in resources
  {
    if order == [] then NOTHING_CONNECTED
    else
      var front, k := order[..|order| - 1], order[|order| - 1];
      assert order == front + [k];
      Including(Summarize(resources, front), k, resources[k])
  }

  function ConnectivityStatus(links: Tally, gateways: Tally): Status {
    if links.total == 0 && gateways.total == 0 then Status.ConnectivityUnknown
    else if links.unknown + gateways.unknown != 0 then Status.ConnectivityUnknown
    else if links.down + gateways.down != 0 then Status.ConnectivityDown
    else if links.degraded + gateways.degraded != 0 then Status.ConnectivityDegraded
    else if links.up == 0 && gateways.up == 0 then Status.ConnectivityUnknown
    else Status.Ok
  }

  function ConnectivityOf(resources: Resources): ConnectivitySummary {
    var c := Summarize(resources, KeyOrder(resources.Keys));
    c.(status := ConnectivityStatus(c.links, c.gateways))
  }

  // ----- What the tallies mean ----------------------------------------------

  function NumberOf(c: ConnectivitySummary, s: ConnectivityState): nat { c.links.Number(s) + c.gateways.Number(s) }

  predicate IsIn(resources: Resources, k: ResourceKey, s: ConnectivityState) {
    k in resources && ReportedState(k.kind, resources[k]) == Some(s)
  }

  lemma IncludingNumber(c: ConnectivitySummary, k: ResourceKey, r: ResourceRecord, s: ConnectivityState)
    ensures NumberOf(Including(c, k, r), s)
      == NumberOf(c, s) + (if ReportedState(k.kind, r) == Some(s) then 1 else 0)
  {
    hide ReportedState;
  }

  /** The tallies count: no link or gateway is in a state exactly when the
      number for that state is zero. */
  lemma {:induction false} NumberIsZeroIff(resources: Resources, order: seq<ResourceKey>, s: ConnectivityState)
    requires forall k | k in order :: k in resources
    ensures NumberOf(Summarize(resources, order), s) == 0 <==> forall k | k in order :: !IsIn(resources, k, s)
  {
    if order != [] {
      var front, k := order[..|order| - 1], order[|order| - 1];
      assert order == front + [k];
      NumberIsZeroIff(resources, front, s);
      IncludingNumber(Summarize(resources, front), k, resources[k], s);
      hide Including, ReportedState, NumberOf;
      assert k in order;
    }
  }

  lemma {:induction false} TotalIsTheSum(resources: Resources, order: seq<ResourceKey>)
    requires forall k | k in order :: k in resources
    ensures var c := Summarize(resources, order);
            && c.links.total == c.links.up + c.links.down + c.links.degraded + c.links.unknown
            && c.gateways.total == c.gateways.up + c.gateways.down + c.gateways.degraded + c.gateways.unknown
  {
    hide ReportedState, Attestors;
    if order != [] {
      var front, k := order[..|order| - 1], order[|order| - 1];
      assert order == front + [k];
      TotalIsTheSum(resources, front);
    }
  }

  /** A link or gateway of the site. */
  predicate Connects(k: ResourceKey, r: ResourceRecord) { ReportedState(k.kind, r).Some? }

  ghost predicate NoneIn(resources: Resources,
      s: ConnectivityState) { forall k | k in resources :: !IsIn(resources, k, s) }

  lemma NoneInIff(resources: Resources, s: ConnectivityState)
    ensures NumberOf(Summarize(resources, KeyOrder(resources.Keys)), s) == 0 <==> NoneIn(resources, s)
  {
    hide Summarize, IsIn, NumberOf;
    NumberIsZeroIff(resources, KeyOrder(resources.Keys), s);
  }

  lemma StatusArithmetic(c: ConnectivitySummary)
    requires c.links.total == c.links.up + c.links.down + c.links.degraded + c.links.unknown
    requires c.gateways.total == c.gateways.up + c.gateways.down + c.gateways.degraded + c.gateways.unknown
    ensures ConnectivityStatus(c.links, c.gateways) == Status.Ok <==>
      NumberOf(c, Up) != 0 && NumberOf(c, Down) == 0 && NumberOf(c, DegradedState) == 0 && NumberOf(c, UnknownState) == 0
  {
  }

  lemma StatusFromNumbers(resources: Resources)
    ensures ConnectivityOf(resources).status == Status.Ok <==>
      (&& !NoneIn(resources, Up) && NoneIn(resources, Down) && NoneIn(resources, DegradedState)
       && NoneIn(resources, UnknownState))
    ensures NumberOf(ConnectivityOf(resources), Down) == 0 <==> NoneIn(resources, Down)
  {
    hide Summarize, NoneIn, ConnectivityStatus;
    NoneInIff(resources, Up);
    NoneInIff(resources, Down);
    NoneInIff(resources, DegradedState);
    NoneInIff(resources, UnknownState);
    TotalIsTheSum(resources, KeyOrder(resources.Keys));
    StatusArithmetic(Summarize(resources, KeyOrder(resources.Keys)));
  }

  /** Connectivity is OK exactly when the site has a link or a gateway and every
      one of them is attributed and UP. */
  lemma ConnectivityOkIff(resources: Resources)
    ensures ConnectivityOf(resources).status == Status.Ok <==>
      (&& (exists k :: k in resources && Connects(k, resources[k]))
       && forall k | k in resources && Connects(k, resources[k]) :: IsUp(k, resources[k]))
  {
    StatusFromNumbers(resources);
    hide ConnectivityOf;
    forall k | k in resources && Connects(k, resources[k])
      ensures IsUp(k, resources[k]) <==> IsIn(resources, k, Up)
      ensures IsIn(resources, k, Up) || IsIn(resources, k, Down) || IsIn(resources, k, DegradedState)
        || IsIn(resources, k, UnknownState)
    {
      match ReportedState(k.kind, resources[k]).value
      case Up => assert IsIn(resources, k, Up);
      case Down => assert IsIn(resources, k, Down);
      case DegradedState => assert IsIn(resources, k, DegradedState);
      case UnknownState => assert IsIn(resources, k, UnknownState);
    }
  }

  predicate IsUp(k: ResourceKey, r: ResourceRecord) {
    r.status == Status.Ok && ClaimedState(k.kind, r) == Some(Up)
  }

  // ----- Obligations --------------------------------------------------------

  datatype ObligationVerdict = ObligationVerdict(
    obligation: ObligationKind, required: u64, observed: nat, observedKnown: bool, status: Status,
    sources: set<SourceRef>)

  /** What was counted, and whether something could not be. */
  datatype Observation = Observation(observed: nat, unknown: bool)

  predicate InScope(k: ResourceKey, wanted: ResourceKind, scope: Option<ResourceKey>) {
    k.kind == wanted && (scope.Some? ==> scope.value == k)
  }

  /** Counting reads the claim of every attributed link or gateway in scope; one
      that is declared as a capacity pool alone has none. */
  ghost predicate Countable(resources: Resources, wanted: ResourceKind, scope: Option<ResourceKey>) {
    forall k | k in resources && InScope(k, wanted, scope) && resources[k].status == Status.Ok ::
      ClaimedState(wanted, resources[k]).Some?
  }

  ghost predicate Judgeable(resources: Resources, o: Claim)
    requires o.ObligationClaim?
  {
    && (o.obligation == MinUpSharedLinks ==> Countable(resources, SharedLinkKind, o.scopeResource))
    && (o.obligation == MinUpGateways ==> Countable(resources, GatewayKind, o.scopeResource))
  }

  /** Every claim that judging the attributed obligations reads is there. */
  ghost predicate LinksAreClaimed(resources: Resources) {
    forall o | o in resources && IsObligation(o, resources[o]) && resources[o].status == Status.Ok ::
      Judgeable(resources, Pointer(resources[o], 8).value)
  }

  /** One more resource looked at. */
  function Observed(before: Observation, k: ResourceKey, r: ResourceRecord, wanted: ResourceKind,
      scope: Option<ResourceKey>): Observation
    requires InScope(k, wanted, scope) && r.status == Status.Ok ==> ClaimedState(wanted, r).Some?
  {
    if !InScope(k, wanted, scope) then before
    else if r.status != Status.Ok then before.(unknown := true)
    else if ClaimedState(wanted, r).value == Up then before.(observed := before.observed + 1)
    else if ClaimedState(wanted, r).value == UnknownState then before.(unknown := true)
    else before
  }

  function ObserveUp(resources: Resources, order: seq<ResourceKey>, wanted: ResourceKind,
      scope: Option<ResourceKey>): Observation
    requires forall k | k in order :: k in resources
    requires Countable(resources, wanted, scope)
  {
    if order == [] then Observation(0, false)
    else
      var front, k := order[..|order| - 1], order[|order| - 1];
      assert order == front + [k];
      var before := ObserveUp(resources, front, wanted, scope);
      Observed(before, k, resources[k], wanted, scope)
  }

  /** Domains that hold at least one resource the site knows. */
  function Populated(nodes: seq<FailureDomainNode>, resources: Resources): set<Text> {
    if nodes == [] then {}
    else
      var n := nodes[|nodes| - 1];
      Populated(nodes[..|nodes| - 1], resources) + (if n.members * resources.Keys != {} then {n.id} else {})
  }

  /** Populated domains below `scope`, and `scope` itself when it counts. */
  function CountInside(nodes: seq<FailureDomainNode>, populated: set<Text>, scope: Text, itself: bool): nat {
    if nodes == [] then 0
    else
      var n := nodes[|nodes| - 1];
      var inside := if n.id == scope then itself else scope in n.ancestors;
      CountInside(nodes[..|nodes| - 1], populated, scope, itself) + (if inside && n.id in populated then 1 else 0)
  }

  predicate HasNode(nodes: seq<FailureDomainNode>, id: Text) { exists i | 0 <= i < |nodes| :: nodes[i].id == id }

  function ObserveDistinct(forest: SiteForest, populated: set<Text>, scope: Option<Text>): Observation {
    var broken := forest.cyclic != {} || forest.dangling != {};
    if scope.None? then Observation(|populated|, broken)
    else if !HasNode(forest.nodes, scope.value) then Observation(0, true)
    else Observation(CountInside(forest.nodes, populated, scope.value, true), broken)
  }

  function ObserveSurvivors(forest: SiteForest, populated: set<Text>, scope: Option<Text>): Observation {
    if scope.None? || !HasNode(forest.nodes, scope.value) then Observation(0, true)
    else Observation(CountInside(forest.nodes, populated, scope.value, false), scope.value in forest.cyclic)
  }

  function Observe(resources: Resources, forest: SiteForest, o: Claim): Observation
    requires o.ObligationClaim? && o.obligation.IsCount() && Judgeable(resources, o)
  {
    match o.obligation
    case MinUpSharedLinks => ObserveUp(resources, KeyOrder(resources.Keys), SharedLinkKind, o.scopeResource)
    case MinUpGateways => ObserveUp(resources, KeyOrder(resources.Keys), GatewayKind, o.scopeResource)
    case MinDistinctFailureDomains => ObserveDistinct(forest, Populated(forest.nodes, resources), o.scopeDomain)
    case DomainSurvivability => ObserveSurvivors(forest, Populated(forest.nodes, resources), o.scopeDomain)
  }

  function ChannelOf(k: ObligationKind): Option<Channel> {
    match k case MinIngress => Some(Ingress) case MinEgress => Some(Egress) case MinInternal => Some(Internal) case _ => None
  }

  function CountVerdict(o: Claim, seen: Observation, sources: set<SourceRef>): ObligationVerdict
    requires o.ObligationClaim?
  {
    if seen.observed >= o.required then ObligationVerdict(o.obligation, o.required, seen.observed, true, Status.Ok, sources)
    else if seen.unknown then
      ObligationVerdict(o.obligation, o.required, seen.observed, false, Status.ObligationIndeterminate, sources)
    else ObligationVerdict(o.obligation, o.required, seen.observed, true, Status.ObligationViolated, sources)
  }

  function VerdictFor(resources: Resources, forest: SiteForest, available: CapacityVector,
      key: ResourceKey): ObligationVerdict
    requires key in resources && IsObligation(key, resources[key])
    requires resources[key].status == Status.Ok ==> Judgeable(resources, Pointer(resources[key], 8).value)
  {
    var r := resources[key];
    var o := Pointer(r, 8).value;
    var unknown := ObligationVerdict(o.obligation, o.required, 0, false, Status.ObligationIndeterminate, Attestors(r));
    if r.status != Status.Ok then unknown
    else if o.obligation.IsCount() then CountVerdict(o, Observe(resources, forest, o), Attestors(r))
    else
      var c := ChannelOf(o.obligation);
      if c.None? || available.At(c.value).UnknownValue? then unknown
      else
        var bps := available.At(c.value).bps;
        ObligationVerdict(o.obligation, o.required, bps, true,
          if bps >= o.required then Status.Ok else Status.ObligationViolated, Attestors(r))
  }

  type Obligations = map<ResourceKey, ObligationVerdict>

  function ObligationsOf(resources: Resources, forest: SiteForest, available: CapacityVector): (v: Obligations)
    requires LinksAreClaimed(resources)
    ensures forall k :: k in v <==> k in resources && IsObligation(k, resources[k])
    ensures forall k | k in v :: v[k] == VerdictFor(resources, forest, available, k)
  {
    map k | k in resources && IsObligation(k, resources[k]) :: VerdictFor(resources, forest, available, k)
  }

  // ----- What the counts mean -----------------------------------------------

  predicate CountsAsUp(resources: Resources, k: ResourceKey, wanted: ResourceKind, scope: Option<ResourceKey>) {
    && k in resources && k.kind == wanted && (scope.None? || scope == Some(k))
    && resources[k].status == Status.Ok && ClaimedState(wanted, resources[k]) == Some(Up)
  }

  function UpIn(resources: Resources, order: seq<ResourceKey>, wanted: ResourceKind,
      scope: Option<ResourceKey>): set<ResourceKey> {
    set k | k in order && CountsAsUp(resources, k, wanted, scope)
  }

  lemma UpInMore(resources: Resources, front: seq<ResourceKey>, k: ResourceKey, wanted: ResourceKind,
      scope: Option<ResourceKey>)
    requires k !in front
    ensures |UpIn(resources, front + [k], wanted, scope)|
      == |UpIn(resources, front, wanted, scope)| + (if CountsAsUp(resources, k, wanted, scope) then 1 else 0)
  {
    hide CountsAsUp;
    assert UpIn(resources, front + [k], wanted, scope)
      == UpIn(resources, front, wanted, scope) + (if CountsAsUp(resources, k, wanted, scope) then {k} else {});
  }

  /** What is counted as up is the number of attributed resources in scope that
      are UP: an unattributed one is never counted. */
  lemma {:induction false} ObservedUpIsTheNumber(resources: Resources, order: seq<ResourceKey>, wanted: ResourceKind,
      scope: Option<ResourceKey>)
    requires forall k | k in order :: k in resources
    requires forall i, j | 0 <= i < j < |order| :: order[i] != order[j]
    requires Countable(resources, wanted, scope)
    ensures ObserveUp(resources, order, wanted, scope).observed == |UpIn(resources, order, wanted, scope)|
  {
    hide ClaimedState;
    if order == [] {
      assert UpIn(resources, order, wanted, scope) == {};
    } else {
      hide UpIn;
      var front, k := order[..|order| - 1], order[|order| - 1];
      assert order == front + [k];
      ObservedUpIsTheNumber(resources, front, wanted, scope);
      UpInMore(resources, front, k, wanted, scope);
    }
  }

  lemma {:induction false} PopulatedAt(nodes: seq<FailureDomainNode>, resources: Resources, id: Text)
    ensures id in Populated(nodes, resources) <==>
      exists n :: n in nodes && n.id == id && exists m :: m in n.members && m in resources
  {
    if nodes != [] {
      var front, n := nodes[..|nodes| - 1], nodes[|nodes| - 1];
      assert nodes == front + [n];
      PopulatedAt(front, resources, id);
      assert n in nodes;
      assert n.members * resources.Keys != {} <==> exists m :: m in n.members && m in resources by {
        if m :| m in n.members && m in resources { assert m in n.members * resources.Keys; }
        if n.members * resources.Keys != {} { var m :| m in n.members * resources.Keys; }
      }
    }
  }

  /** Domains counted for a scope: populated ones below it, and itself if it
      counts. */
  ghost predicate Inside(n: FailureDomainNode, populated: set<Text>, scope: Text, itself: bool) {
    n.id in populated && (if n.id == scope then itself else scope in n.ancestors)
  }

  ghost function InsideIds(nodes: seq<FailureDomainNode>, populated: set<Text>, scope: Text, itself: bool): set<Text> {
    set i | 0 <= i < |nodes| && Inside(nodes[i], populated, scope, itself) :: nodes[i].id
  }

  lemma InsideIdsMore(front: seq<FailureDomainNode>, n: FailureDomainNode, populated: set<Text>, scope: Text,
      itself: bool)
    requires forall i | 0 <= i < |front| :: front[i].id != n.id
    ensures |InsideIds(front + [n], populated, scope, itself)|
      == |InsideIds(front, populated, scope, itself)| + (if Inside(n, populated, scope, itself) then 1 else 0)
  {
    hide Inside;
    var before, now := InsideIds(front, populated, scope, itself), InsideIds(front + [n], populated, scope, itself);
    var extra := if Inside(n, populated, scope, itself) then {n.id} else {};
    forall x ensures x in now <==> x in before + extra {
      if x in before {
        var i :| 0 <= i < |front| && Inside(front[i], populated, scope, itself) && x == front[i].id;
        assert (front + [n])[i] == front[i];
      }
      if x in extra { assert (front + [n])[|front|] == n; }
    }
    assert now == before + extra;
  }

  lemma {:induction false} CountInsideIsTheNumber(nodes: seq<FailureDomainNode>, populated: set<Text>, scope: Text,
      itself: bool)
    requires DistinctIds(nodes)
    ensures CountInside(nodes, populated, scope, itself) == |InsideIds(nodes, populated, scope, itself)|
  {
    if nodes == [] {
      assert InsideIds(nodes, populated, scope, itself) == {};
    } else {
      hide InsideIds;
      var front, n := nodes[..|nodes| - 1], nodes[|nodes| - 1];
      assert nodes == front + [n];
      CountInsideIsTheNumber(front, populated, scope, itself);
      InsideIdsMore(front, n, populated, scope, itself);
    }
  }

  /** The failure domains an obligation on spread counts. */
  ghost function Spread(resources: Resources, forest: SiteForest, scope: Option<Text>, itself: bool): set<Text> {
    var populated := Populated(forest.nodes, resources);
    if scope.None? then (if itself then populated else {})
    else if !HasNode(forest.nodes, scope.value) then {}
    else InsideIds(forest.nodes, populated, scope.value, itself)
  }

  ghost function UpAmong(resources: Resources, wanted: ResourceKind, scope: Option<ResourceKey>): set<ResourceKey> {
    set k | k in resources && CountsAsUp(resources, k, wanted, scope)
  }

  /** The channel is known to carry as much. */
  predicate Carries(available: CapacityValue, required: u64) { available.Known? && available.bps >= required }

  /** There is enough of what the obligation asks for. */
  ghost predicate Backed(resources: Resources, forest: SiteForest, available: CapacityVector, o: Claim)
    requires o.ObligationClaim?
  {
    match o.obligation
    case MinUpSharedLinks => |UpAmong(resources, SharedLinkKind, o.scopeResource)| >= o.required
    case MinUpGateways => |UpAmong(resources, GatewayKind, o.scopeResource)| >= o.required
    case MinDistinctFailureDomains => |Spread(resources, forest, o.scopeDomain, true)| >= o.required
    case DomainSurvivability => |Spread(resources, forest, o.scopeDomain, false)| >= o.required
    case MinIngress => Carries(available.ingress, o.required)
    case MinEgress => Carries(available.egress, o.required)
    case MinInternal => Carries(available.internal, o.required)
    case UnknownObligation => false
  }

  /** The resource could count but is not attributed, or nobody knows its state. */
  predicate MightBeUp(resources: Resources, k: ResourceKey, wanted: ResourceKind, scope: Option<ResourceKey>) {
    && k in resources && k.kind == wanted && (scope.None? || scope == Some(k))
    && (resources[k].status != Status.Ok || ClaimedState(wanted, resources[k]) == Some(UnknownState))
  }

  /** Something the obligation asks about is not known. */
  ghost predicate Unsettled(resources: Resources, forest: SiteForest, available: CapacityVector, o: Claim)
    requires o.ObligationClaim?
  {
    match o.obligation
    case MinUpSharedLinks => exists k :: MightBeUp(resources, k, SharedLinkKind, o.scopeResource)
    case MinUpGateways => exists k :: MightBeUp(resources, k, GatewayKind, o.scopeResource)
    case MinDistinctFailureDomains =>
      || (o.scopeDomain.Some? && !HasNode(forest.nodes, o.scopeDomain.value))
      || forest.cyclic != {} || forest.dangling != {}
    case DomainSurvivability =>
      || o.scopeDomain.None? || !HasNode(forest.nodes, o.scopeDomain.value)
      || o.scopeDomain.value in forest.cyclic
    case MinIngress => available.ingress.UnknownValue?
    case MinEgress => available.egress.UnknownValue?
    case MinInternal => available.internal.UnknownValue?
    case UnknownObligation => true
  }

  lemma {:induction false} ObservedUnknownIff(resources: Resources, order: seq<ResourceKey>, wanted: ResourceKind,
      scope: Option<ResourceKey>)
    requires forall k | k in order :: k in resources
    requires Countable(resources, wanted, scope)
    ensures ObserveUp(resources, order, wanted, scope).unknown <==> exists k :: k in order && MightBeUp(resources, k, wanted, scope)
  {
    hide ClaimedState;
    if order != [] {
      var front, k := order[..|order| - 1], order[|order| - 1];
      assert order == front + [k];
      ObservedUnknownIff(resources, front, wanted, scope);
      assert k in order;
    }
  }

  lemma UpObserved(resources: Resources, wanted: ResourceKind, scope: Option<ResourceKey>)
    requires Countable(resources, wanted, scope)
    ensures var seen := ObserveUp(resources, KeyOrder(resources.Keys), wanted, scope);
            && seen.observed == |UpAmong(resources, wanted, scope)|
            && (seen.unknown <==> exists k :: MightBeUp(resources, k, wanted, scope))
  {
    hide *;
    var order := KeyOrder(resources.Keys);
    Order.SortedHasNoRepeats(order, Order.ResourceText);
    ObservedUpIsTheNumber(resources, order, wanted, scope);
    ObservedUnknownIff(resources, order, wanted, scope);
    Everywhere(resources, order, wanted, scope);
  }

  lemma Everywhere(resources: Resources, order: seq<ResourceKey>, wanted: ResourceKind, scope: Option<ResourceKey>)
    requires forall k :: k in order <==> k in resources
    ensures UpIn(resources, order, wanted, scope) == UpAmong(resources, wanted, scope)
    ensures (exists k :: k in order && MightBeUp(resources, k, wanted, scope)) <==> exists k :: MightBeUp(resources, k, wanted, scope)
  {
    hide CountsAsUp, InScope, ClaimedState;
  }

  lemma SpreadObserved(resources: Resources, forest: SiteForest, scope: Option<Text>)
    requires DistinctIds(forest.nodes)
    ensures var populated := Populated(forest.nodes, resources);
            && ObserveDistinct(forest, populated, scope).observed == |Spread(resources, forest, scope, true)|
            && ObserveSurvivors(forest, populated, scope).observed == |Spread(resources, forest, scope, false)|
  {
    hide Populated, CountInside, InsideIds, HasNode;
    if scope.Some? {
      CountInsideIsTheNumber(forest.nodes, Populated(forest.nodes, resources), scope.value, true);
      CountInsideIsTheNumber(forest.nodes, Populated(forest.nodes, resources), scope.value, false);
    }
  }

  lemma CountMeans(resources: Resources, forest: SiteForest, available: CapacityVector, o: Claim)
    requires o.ObligationClaim? && o.obligation.IsCount() && Judgeable(resources, o) && DistinctIds(forest.nodes)
    ensures Observe(resources, forest, o).observed >= o.required <==> Backed(resources, forest, available, o)
    ensures Observe(resources, forest, o).unknown <==> Unsettled(resources, forest, available, o)
  {
    hide ObserveUp, UpAmong, Spread, MightBeUp, Countable, Populated, HasNode, CountInside, DistinctIds;
    if o.obligation == MinUpSharedLinks { UpObserved(resources, SharedLinkKind, o.scopeResource); }
    else if o.obligation == MinUpGateways { UpObserved(resources, GatewayKind, o.scopeResource); }
    else { SpreadObserved(resources, forest, o.scopeDomain); }
  }

  lemma ChannelMeans(resources: Resources, forest: SiteForest, available: CapacityVector, o: Claim)
    requires o.ObligationClaim? && !o.obligation.IsCount()
    ensures var c := ChannelOf(o.obligation);
            && (Backed(resources, forest, available, o) <==> c.Some? && Carries(available.At(c.value), o.required))
            && (Unsettled(resources, forest, available, o) <==> c.None? || available.At(c.value).UnknownValue?)
  {
    hide UpAmong, Spread, MightBeUp, HasNode;
  }

  lemma JudgeableAt(resources: Resources, key: ResourceKey)
    requires LinksAreClaimed(resources) && key in resources && IsObligation(key, resources[key])
    ensures resources[key].status == Status.Ok ==> Judgeable(resources, Pointer(resources[key], 8).value)
  {
    hide Judgeable;
  }

  /** The three verdicts, exactly: an obligation is kept when its claim is attributed
      and there is enough of what it asks for; it is violated when the claim is
      attributed, there is not enough, and nothing it asks about is unknown; and
      otherwise it is indeterminate. */
  lemma ObligationVerdictIff(resources: Resources, forest: SiteForest, available: CapacityVector, key: ResourceKey)
    requires LinksAreClaimed(resources) && DistinctIds(forest.nodes)
    requires key in ObligationsOf(resources, forest, available)
    ensures var o := Pointer(resources[key], 8).value;
            var status := ObligationsOf(resources, forest, available)[key].status;
            var attributed := resources[key].status == Status.Ok;
            && (status == Status.Ok <==> attributed && Backed(resources, forest, available, o))
            && (status == Status.ObligationViolated <==>
                  attributed && !Backed(resources, forest, available, o) && !Unsettled(resources, forest, available, o))
            && (status == Status.ObligationIndeterminate <==>
                  !attributed || (!Backed(resources, forest, available, o) && Unsettled(resources, forest, available, o)))
  {
    hide Observe, Backed, Unsettled, LinksAreClaimed, DistinctIds;
    var o := Pointer(resources[key], 8).value;
    JudgeableAt(resources, key);
    if !o.obligation.IsCount() {
      ChannelMeans(resources, forest, available, o);
    } else if resources[key].status == Status.Ok {
      CountMeans(resources, forest, available, o);
    }
  }

  // ----- The loops ----------------------------------------------------------

  lemma OrderStep(order: seq<ResourceKey>, i: nat)
    requires i < |order|
    ensures order[i] in order
    ensures order[..i + 1] == order[..i] + [order[i]]
    ensures order[..i + 1][..i] == order[..i]
    ensures forall k :: k in order[..i + 1] <==> k in order[..i] || k == order[i]
  {
  }

  lemma SummarizeStep(resources: Resources, order: seq<ResourceKey>, i: nat)
    requires i < |order| && forall k | k in order :: k in resources
    ensures order[i] in resources && forall k | k in order[..i + 1] :: k in resources
    ensures Summarize(resources, order[..i + 1]) == Including(Summarize(resources, order[..i]), order[i], resources[order[i]])
  {
    hide Including;
    OrderStep(order, i);
  }

  method TallyOne(before: Tally, r: ResourceRecord, state: ConnectivityState) returns (t: Tally)
    ensures t == Counted(before, if r.status == Status.Ok then state else UnknownState)
  {
    t := before.(total := before.total + 1);
    if r.status != Status.Ok { return t.(unknown := t.unknown + 1); }
    match state
    case Up => t := t.(up := t.up + 1);
    case Down => t := t.(down := t.down + 1);
    case DegradedState => t := t.(degraded := t.degraded + 1);
    case UnknownState => t := t.(unknown := t.unknown + 1);
  }

  method IncludeOne(before: ConnectivitySummary, key: ResourceKey, r: ResourceRecord) returns (c: ConnectivitySummary)
    ensures c == Including(before, key, r)
  {
    hide Counted, Attestors;
    c := before;
    var state := ClaimedState(key.kind, r);
    if state.None? { return; }
    if key.kind == SharedLinkKind {
      if Pointer(r, 3).value.external { c := c.(externalLinks := c.externalLinks + 1); }
      var t := TallyOne(c.links, r, state.value);
      c := c.(links := t);
    } else {
      var t := TallyOne(c.gateways, r, state.value);
      c := c.(gateways := t);
    }
    if r.status != Status.Ok || state.value == UnknownState { c := c.(unknownState := c.unknownState + {key}); }
    c := c.(sources := c.sources + Attestors(r));
  }

  method BuildConnectivity(resources: Resources) returns (summary: ConnectivitySummary)
    ensures summary == ConnectivityOf(resources)
  {
    hide Summarize, Including;
    var order := KeyOrder(resources.Keys);
    summary := NOTHING_CONNECTED;
    NothingSummarized(resources);
    for i := 0 to |order|
      invariant forall k | k in order[..i] :: k in resources
      invariant summary == Summarize(resources, order[..i])
    {
      SummarizeStep(resources, order, i);
      summary := IncludeOne(summary, order[i], resources[order[i]]);
    }
    assert order[..|order|] == order;
    summary := summary.(status := ConnectivityStatus(summary.links, summary.gateways));
  }

  lemma NothingSummarized(resources: Resources)
    ensures Summarize(resources, []) == NOTHING_CONNECTED
  {
  }

  lemma ObserveStep(resources: Resources, order: seq<ResourceKey>, i: nat, wanted: ResourceKind,
      scope: Option<ResourceKey>)
    requires i < |order| && forall k | k in order :: k in resources
    requires Countable(resources, wanted, scope)
    ensures order[i] in resources && forall k | k in order[..i + 1] :: k in resources
    ensures InScope(order[i], wanted, scope) && resources[order[i]].status == Status.Ok ==>
      ClaimedState(wanted, resources[order[i]]).Some?
    ensures ObserveUp(resources, order[..i + 1], wanted, scope)
      == Observed(ObserveUp(resources, order[..i], wanted, scope), order[i], resources[order[i]], wanted, scope)
  {
    hide ClaimedState;
    OrderStep(order, i);
    assert order[i] in resources;
  }

  method ObserveOne(before: Observation, key: ResourceKey, r: ResourceRecord, wanted: ResourceKind,
      scope: Option<ResourceKey>)
      returns (seen: Observation)
    requires InScope(key, wanted, scope) && r.status == Status.Ok ==> ClaimedState(wanted, r).Some?
    ensures seen == Observed(before, key, r, wanted, scope)
  {
    hide ClaimedState;
    seen := before;
    if key.kind != wanted { return; }
    if scope.Some? && scope.value != key { return; }
    if r.status != Status.Ok { return seen.(unknown := true); }
    var state := ClaimedState(wanted, r).value;
    if state == Up { seen := seen.(observed := seen.observed + 1); }
    else if state == UnknownState { seen := seen.(unknown := true); }
  }

  method CountUp(resources: Resources, wanted: ResourceKind, scope: Option<ResourceKey>) returns (seen: Observation)
    requires Countable(resources, wanted, scope)
    ensures seen == ObserveUp(resources, KeyOrder(resources.Keys), wanted, scope)
  {
    hide *;
    var order := KeyOrder(resources.Keys);
    seen := Observation(0, false);
    NothingObserved(resources, wanted, scope);
    for i := 0 to |order|
      invariant forall k | k in order[..i] :: k in resources
      invariant seen == ObserveUp(resources, order[..i], wanted, scope)
    {
      ObserveStep(resources, order, i, wanted, scope);
      seen := ObserveOne(seen, order[i], resources[order[i]], wanted, scope);
    }
    assert order[..|order|] == order;
  }

  lemma NothingObserved(resources: Resources, wanted: ResourceKind, scope: Option<ResourceKey>)
    requires Countable(resources, wanted, scope)
    ensures ObserveUp(resources, [], wanted, scope) == Observation(0, false)
  {
  }

  method PopulatedDomains(nodes: seq<FailureDomainNode>, resources: Resources) returns (populated: set<Text>)
    ensures populated == Populated(nodes, resources)
  {
    populated := {};
    for i := 0 to |nodes|
      invariant populated == Populated(nodes[..i], resources)
    {
      assert nodes[..i + 1][..i] == nodes[..i];
      if nodes[i].members * resources.Keys != {} { populated := populated + {nodes[i].id}; }
    }
    assert nodes[..|nodes|] == nodes;
  }

  method CountBelow(nodes: seq<FailureDomainNode>, populated: set<Text>, scope: Text, itself: bool) returns (n: nat)
    ensures n == CountInside(nodes, populated, scope, itself)
  {
    n := 0;
    for i := 0 to |nodes|
      invariant n == CountInside(nodes[..i], populated, scope, itself)
    {
      assert nodes[..i + 1][..i] == nodes[..i];
      if nodes[i].id == scope && !itself { continue; }
      var inside := nodes[i].id == scope || scope in nodes[i].ancestors;
      if inside && nodes[i].id in populated { n := n + 1; }
    }
    assert nodes[..|nodes|] == nodes;
  }

  method CountObserved(resources: Resources, forest: SiteForest, populated: set<Text>,
      o: Claim) returns (seen: Observation)
    requires o.ObligationClaim? && o.obligation.IsCount() && Judgeable(resources, o)
    requires populated == Populated(forest.nodes, resources)
    ensures seen == Observe(resources, forest, o)
  {
    hide ObserveUp, Populated, CountInside, Countable;
    if o.obligation == MinUpSharedLinks || o.obligation == MinUpGateways {
      seen := CountUp(resources, if o.obligation == MinUpSharedLinks then SharedLinkKind else GatewayKind, o.scopeResource);
    } else if o.obligation == MinDistinctFailureDomains {
      seen := Observation(|populated|, false);
      if o.scopeDomain.Some? {
        seen := Observation(0, false);
        if !HasNode(forest.nodes, o.scopeDomain.value) {
          seen := seen.(unknown := true);
        } else {
          var n := CountBelow(forest.nodes, populated, o.scopeDomain.value, true);
          seen := seen.(observed := n);
        }
      }
      if forest.cyclic != {} || forest.dangling != {} { seen := seen.(unknown := true); }
    } else {
      seen := Observation(0, false);
      if o.scopeDomain.None? || !HasNode(forest.nodes, o.scopeDomain.value) {
        seen := seen.(unknown := true);
      } else {
        var n := CountBelow(forest.nodes, populated, o.scopeDomain.value, false);
        seen := seen.(observed := n);
        if o.scopeDomain.value in forest.cyclic { seen := seen.(unknown := true); }
      }
    }
  }

  method JudgeObligation(resources: Resources, forest: SiteForest, available: CapacityVector, populated: set<Text>,
      key: ResourceKey) returns (verdict: ObligationVerdict)
    requires key in resources && IsObligation(key, resources[key])
    requires resources[key].status == Status.Ok ==> Judgeable(resources, Pointer(resources[key], 8).value)
    requires populated == Populated(forest.nodes, resources)
    ensures verdict == VerdictFor(resources, forest, available, key)
  {
    hide Observe, Populated, Judgeable;
    var r := resources[key];
    var o := Pointer(r, 8).value;
    verdict := ObligationVerdict(o.obligation, o.required, 0, false, Status.ObligationIndeterminate, Attestors(r));
    if r.status != Status.Ok { return; }
    if o.obligation.IsCount() {
      var seen := CountObserved(resources, forest, populated, o);
      verdict := verdict.(observed := seen.observed);
      if seen.observed >= o.required { return verdict.(observedKnown := true, status := Status.Ok); }
      if seen.unknown { return verdict.(observedKnown := false, status := Status.ObligationIndeterminate); }
      return verdict.(observedKnown := true, status := Status.ObligationViolated);
    }
    var channel := ChannelOf(o.obligation);
    if channel.None? { return; }
    var value := available.At(channel.value);
    if value.UnknownValue? { return; }
    verdict := verdict.(observed := value.bps, observedKnown := true,
                        status := if value.bps >= o.required then Status.Ok else Status.ObligationViolated);
  }

  method BuildObligations(resources: Resources, forest: SiteForest,
      available: CapacityVector) returns (verdicts: Obligations)
    requires LinksAreClaimed(resources)
    ensures verdicts == ObligationsOf(resources, forest, available)
  {
    hide VerdictFor, Judgeable, Populated, KeyOrder, IsObligation, DistinctIds;
    var populated := PopulatedDomains(forest.nodes, resources);
    var order := KeyOrder(resources.Keys);
    verdicts := map[];
    for i := 0 to |order|
      invariant forall k :: k in verdicts <==> k in order[..i] && k in resources && IsObligation(k, resources[k])
      invariant forall k | k in verdicts :: verdicts[k] == VerdictFor(resources, forest, available, k)
    {
      var key := order[i];
      OrderStep(order, i);
      if !IsObligation(key, resources[key]) { continue; }
      JudgeableAt(resources, key);
      var verdict := JudgeObligation(resources, forest, available, populated, key);
      verdicts := verdicts[key := verdict];
    }
    assert order[..|order|] == order;
  }
}
