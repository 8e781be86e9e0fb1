/** Capacity arithmetic. A channel is known or unknown; unknown absorbs, and a
    sum above the plausibility bound is refused instead of wrapped. */
module Capacity {
  import opened Model

  // ----- What a channel adds up to -----------------------------------------

  /** The exact sum of the known values. */
  function Exact(values: seq<CapacityValue>): nat {
    if values == [] then 0
    else Exact(values[..|values| - 1]) + (match values[|values| - 1] case Known(b) => b case UnknownValue => 0)
  }

  predicate FullyKnown(values: seq<CapacityValue>) { values != [] && UnknownValue !in values }

  /** Known only when something was contributed, everything contributed was
      known, and the exact sum is plausible. */
  function ChannelTotal(values: seq<CapacityValue>): CapacityValue {
    if FullyKnown(values) && Exact(values) <= MAX_CAPACITY_BPS then Known(Exact(values)) else UnknownValue
  }

  /** The values each channel received, oldest first. */
  datatype Received = Received(ingress: seq<CapacityValue>, egress: seq<CapacityValue>, internal: seq<CapacityValue>) {
    function At(c: Channel): seq<CapacityValue> {
      match c case Ingress => ingress case Egress => egress case Internal => internal
    }

    function With(c: Channel, value: CapacityValue): Received {
      match c
      case Ingress => this.(ingress := ingress + [value])
      case Egress => this.(egress := egress + [value])
      case Internal => this.(internal := internal + [value])
    }

    function Totals(): CapacityVector {
      CapacityVector(ChannelTotal(ingress), ChannelTotal(egress), ChannelTotal(internal))
    }

    predicate Overflows() {
      Exact(ingress) > MAX_CAPACITY_BPS || Exact(egress) > MAX_CAPACITY_BPS || Exact(internal) > MAX_CAPACITY_BPS
    }

    predicate AllKnown() {
      ChannelTotal(ingress).Known? && ChannelTotal(egress).Known? && ChannelTotal(internal).Known?
    }
  }

  const NOTHING_RECEIVED := Received([], [], [])

  lemma {:induction false} ExactOfPermutation(a: seq<CapacityValue>, b: seq<CapacityValue>)
    requires multiset(a) == multiset(b)
    ensures Exact(a) == Exact(b)
    decreases |a|
  {
    if a != [] {
      var x := a[|a| - 1];
      assert x in multiset(a);
      var i :| 0 <= i < |b| && b[i] == x;
      var rest := b[..i] + b[i + 1..];
      assert a == a[..|a| - 1] + [x];
      assert b == b[..i] + [x] + b[i + 1..];
      var front := multiset(a[..|a| - 1]);
      assert front + multiset{x} == multiset(a[..|a| - 1] + [x]);
      assert multiset(rest) + multiset{x} == multiset(b[..i] + [x] + b[i + 1..]);
      assert front + multiset{x} - multiset{x} == front;
      assert multiset(rest) == multiset(a[..|a| - 1]);
      ExactOfPermutation(a[..|a| - 1], rest);
      ExactConcat(b[..i] + [x], b[i + 1..]);
      ExactConcat(b[..i], b[i + 1..]);
      assert (b[..i] + [x])[..i] == b[..i];
    } else {
      assert |multiset(b)| == |b|;
      assert |multiset(a)| == 0;
    }
  }

  lemma {:induction false} ExactConcat(a: seq<CapacityValue>, b: seq<CapacityValue>)
    ensures Exact(a + b) == Exact(a) + Exact(b)
  {
    if b == [] {
      assert a + b == a;
    } else {
      assert (a + b)[..|a + b| - 1] == a + b[..|b| - 1];
      ExactConcat(a, b[..|b| - 1]);
    }
  }

  /** The aggregate does not depend on the order of its contributions. */
  lemma ChannelTotalOfPermutation(a: seq<CapacityValue>, b: seq<CapacityValue>)
    requires multiset(a) == multiset(b)
    ensures ChannelTotal(a) == ChannelTotal(b)
    ensures Exact(a) > MAX_CAPACITY_BPS <==> Exact(b) > MAX_CAPACITY_BPS
  {
    ExactOfPermutation(a, b);
    assert |multiset(a)| == |a| && |multiset(b)| == |b|;
    assert UnknownValue in a <==> UnknownValue in multiset(a);
    assert UnknownValue in b <==> UnknownValue in multiset(b);
  }

  // ----- The accumulator ----------------------------------------------------

  /** Adds one known value, checking both operands, the machine's wrap and the
      bound. On overflow the accumulator is left alone. */
  method AddKnown(accumulator: u64, addend: u64) returns (status: Status, sum: u64)
    ensures status == (if accumulator + addend <= MAX_CAPACITY_BPS then Status.Ok else Status.CapacityOverflow)
    ensures sum == if status.Ok? then accumulator + addend else accumulator
  {
    if addend > MAX_CAPACITY_BPS || accumulator > MAX_CAPACITY_BPS {
      return Status.CapacityOverflow, accumulator;
    }
    var wrapped: u64 := Wrap64(accumulator + addend);
    if wrapped < accumulator || wrapped > MAX_CAPACITY_BPS {
      return Status.CapacityOverflow, accumulator;
    }
    return Status.Ok, wrapped;
  }

  datatype ChannelSum = ChannelSum(accumulator: u64, seen: bool, unknown: bool, overflow: bool) {
    /** What the flags and the accumulator say about the values added so far. */
    ghost predicate Sums(values: seq<CapacityValue>) {
      && seen == (values != [])
      && unknown == (UnknownValue in values)
      && overflow == (Exact(values) > MAX_CAPACITY_BPS)
      && (!overflow ==> accumulator == Exact(values))
    }
  }

  const NOTHING := ChannelSum(0, false, false, false)

  method AddValueTo(before: ChannelSum, value: CapacityValue,
      ghost values: seq<CapacityValue>) returns (sum: ChannelSum)
    requires before.Sums(values)
    ensures sum.Sums(values + [value])
  {
    assert (values + [value])[..|values|] == values;
    sum := before.(seen := true);
    match value {
      case UnknownValue =>
        sum := sum.(unknown := true);
      case Known(bps) =>
        if !sum.overflow {
          var status, added := AddKnown(sum.accumulator, bps);
          sum := if status.IsOk() then sum.(accumulator := added) else sum.(overflow := true);
        }
    }
  }

  class CapacityAggregate {
    var ingress: ChannelSum
    var egress: ChannelSum
    var internal: ChannelSum
    var contributions: nat
    /** Everything the aggregate was given. */
    ghost var received: Received

    ghost predicate Valid()
      reads this
    {
      && ingress.Sums(received.ingress) && egress.Sums(received.egress) && internal.Sums(received.internal)
    }

    constructor ()
      ensures Valid() && contributions == 0 && received == NOTHING_RECEIVED
    {
      ingress, egress, internal, contributions := NOTHING, NOTHING, NOTHING, 0;
      received := NOTHING_RECEIVED;
    }

    method CountEntry()
      modifies this`contributions
      ensures contributions == old(contributions) + 1
    {
      contributions := contributions + 1;
    }

    /** Adds one value to one channel: unknown absorbs, overflow sticks. */
    method AddChannel(c: Channel, value: CapacityValue)
      requires Valid()
      modifies this`ingress, this`egress, this`internal, this`received
      ensures Valid()
      ensures received == old(received).With(c, value)
    {
      hide Exact;
      var sum := AddValueTo(Sum(c), value, received.At(c));
      received := received.With(c, value);
      match c {
        case Ingress => ingress := sum;
        case Egress => egress := sum;
        case Internal => internal := sum;
      }
    }

    function Sum(c: Channel): ChannelSum
      reads this
    {
      match c case Ingress => ingress case Egress => egress case Internal => internal
    }

    predicate ChannelKnown(c: Channel)
      requires Valid()
      reads this
      ensures ChannelKnown(c) <==> ChannelTotal(received.At(c)).Known?
    {
      Sum(c).seen && !Sum(c).unknown && !Sum(c).overflow
    }

    predicate ChannelSeen(c: Channel)
      requires Valid()
      reads this
      ensures ChannelSeen(c) <==> received.At(c) != []
    {
      Sum(c).seen
    }

    method Total() returns (total: CapacityVector)
      requires Valid()
      ensures total == received.Totals()
    {
      total := ALL_UNKNOWN;
      if ChannelKnown(Ingress) { total := total.(ingress := Known(ingress.accumulator)); }
      if ChannelKnown(Egress) { total := total.(egress := Known(egress.accumulator)); }
      if ChannelKnown(Internal) { total := total.(internal := Known(internal.accumulator)); }
    }

    predicate Overflowed()
      requires Valid()
      reads this
      ensures Overflowed() <==> received.Overflows()
    {
      ingress.overflow || egress.overflow || internal.overflow
    }

    method GetStatus() returns (status: Status)
      requires Valid()
      ensures status.CapacityOverflow? <==> received.Overflows()
      ensures status.Ok? <==> contributions != 0 && received.AllKnown()
      ensures status.Ok? || status.CapacityOverflow? || status.CapacityUnknown?
    {
      if Overflowed() { return Status.CapacityOverflow; }
      if contributions == 0 { return Status.CapacityUnknown; }
      if !ChannelKnown(Ingress) || !ChannelKnown(Egress) || !ChannelKnown(Internal) {
        return Status.CapacityUnknown;
      }
      return Status.Ok;
    }
  }

  // ----- Vectors ------------------------------------------------------------

  /** Adds channel by channel; the accumulator is untouched on overflow. */
  method AddCapacity(accumulator: CapacityVector, addend: CapacityVector)
      returns (status: Status, sum: CapacityVector)
    ensures status.Ok? <==> forall c: Channel ::
      accumulator.At(c).Known? && addend.At(c).Known? ==> accumulator.At(c).bps + addend.At(c).bps <= MAX_CAPACITY_BPS
    ensures status.Ok? ==> (forall c: Channel :: (sum.At(c) ==
      if accumulator.At(c).Known? && addend.At(c).Known? then Known(accumulator.At(c).bps + addend.At(c).bps)
      else UnknownValue))
    ensures !status.Ok? ==> status.CapacityOverflow? && sum == accumulator
  {
    var i, e, n := UnknownValue, UnknownValue, UnknownValue;
    sum := accumulator;
    status, i := AddValue(accumulator.ingress, addend.ingress);
    if !status.IsOk() { assert accumulator.At(Ingress).Known?; return; }
    status, e := AddValue(accumulator.egress, addend.egress);
    if !status.IsOk() { assert accumulator.At(Egress).Known?; return; }
    status, n := AddValue(accumulator.internal, addend.internal);
    if !status.IsOk() { assert accumulator.At(Internal).Known?; return; }
    sum := CapacityVector(i, e, n);
  }

  method AddValue(left: CapacityValue, right: CapacityValue) returns (status: Status, value: CapacityValue)
    ensures status.Ok? <==> (left.Known? && right.Known? ==> left.bps + right.bps <= MAX_CAPACITY_BPS)
    ensures !status.Ok? ==> status.CapacityOverflow?
    ensures status.Ok? ==> value == if left.Known? && right.Known? then Known(left.bps + right.bps) else UnknownValue
  {
    if left.UnknownValue? || right.UnknownValue? { return Status.Ok, UnknownValue; }
    var sum;
    status, sum := AddKnown(left.bps, right.bps);
    value := Known(sum);
  }

  /** What subtracting one known channel from another leaves; nothing when
      either side is unknown. */
  function Difference(left: CapacityValue, right: CapacityValue): Option<CapacityValue> {
    if left.UnknownValue? || right.UnknownValue? then Some(UnknownValue)
    else if right.bps > left.bps then None
    else Some(Known(left.bps - right.bps))
  }

  function Subtract(minuend: CapacityVector, subtrahend: CapacityVector): Option<CapacityVector> {
    var i := Difference(minuend.ingress, subtrahend.ingress);
    var e := Difference(minuend.egress, subtrahend.egress);
    var n := Difference(minuend.internal, subtrahend.internal);
    if i.None? || e.None? || n.None? then None else Some(CapacityVector(i.value, e.value, n.value))
  }

  /** Every channel known on both sides is at most the whole. */
  predicate Leq(part: CapacityVector, whole: CapacityVector) {
    forall c: Channel | part.At(c).Known? && whole.At(c).Known? :: part.At(c).bps <= whole.At(c).bps
  }
}
