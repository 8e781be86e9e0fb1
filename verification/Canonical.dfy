/** The primitive encodings. `Put...(x, rest)` is the encoding of `x` followed by
    `rest`; `Get...` reads a value off the front of the bytes that are left. */
module Canonical {
  import opened Model

  datatype Parsed<+T> = Got(value: T, rest: Bytes) | Refused(status: Status) {
    predicate IsFailure() { Refused? }

    function PropagateFailure<U>(): Parsed<U>
      requires Refused?
    {
      Refused(status)
    }

    function Extract(): (T, Bytes)
      requires Got?
    {
      (value, rest)
    }
  }

  // ----- Integers -----------------------------------------------------------

  function Put8(x: u8, rest: Bytes): Bytes { [x] + rest }

  function Put32(x: u32, rest: Bytes): Bytes {
    [x % 256, x / 256 % 256, x / 0x1_0000 % 256, x / 0x100_0000] + rest
  }

  function Put64(x: u64, rest: Bytes): Bytes { Put32(x % 0x1_0000_0000, Put32(x / 0x1_0000_0000, rest)) }

  /** Two's complement. */
  function PutSigned(x: i64, rest: Bytes): Bytes {
    Put64(if x < 0 then x + 0x1_0000_0000_0000_0000 else x, rest)
  }

  function PutFlag(x: bool, rest: Bytes): Bytes { Put8(if x then 1 else 0, rest) }

  function Get8(b: Bytes): (r: Parsed<u8>)
    ensures r.Got? ==> b == Put8(r.value, r.rest)
  {
    if |b| < 1 then Refused(Status.Truncated) else
    assert b == [b[0]] + b[1..];
    Got(b[0], b[1..])
  }

  function Word32(b: Bytes): u32
    requires |b| >= 4
  {
    var b0: int, b1: int, b2: int, b3: int := b[0], b[1], b[2], b[3];
    b0 + 256 * b1 + 0x1_0000 * b2 + 0x100_0000 * b3
  }

  function Get32(b: Bytes): (r: Parsed<u32>)
    ensures r.Got? ==> b == Put32(r.value, r.rest)
  {
    if |b| < 4 then Refused(Status.Truncated) else
    assert b == [b[0], b[1], b[2], b[3]] + b[4..];
    Digits(b);
    hide Word32;
    Got(Word32(b), b[4..])
  }

  lemma Digits(b: Bytes)
    requires |b| >= 4
    ensures var x := Word32(b);
            x % 256 == b[0] && x / 256 % 256 == b[1] && x / 0x1_0000 % 256 == b[2] && x / 0x100_0000 == b[3]
  {
    var b0: int, b1: int, b2: int, b3: int := b[0], b[1], b[2], b[3];
    var x := Word32(b);
    var high := b1 + 256 * (b2 + 256 * b3);
    assert x == b0 + 256 * high;
    assert x / 256 == high;
    assert x / 0x1_0000 == high / 256 == b2 + 256 * b3;
    assert x / 0x100_0000 == (b2 + 256 * b3) / 256 == b3;
  }

  function Get64(b: Bytes): (r: Parsed<u64>)
    ensures r.Got? ==> b == Put64(r.value, r.rest)
  {
    if |b| < 8 then Refused(Status.Truncated) else
    var low, high := Get32(b), Get32(b[4..]);
    assert low.rest == b[4..];
    Join64(low.value, high.value);
    Got(low.value + 0x1_0000_0000 * high.value, high.rest)
  }

  lemma Join64(low: u32, high: u32)
    ensures 0 <= low + 0x1_0000_0000 * high <= MAX_U64
    ensures (low + 0x1_0000_0000 * high) % 0x1_0000_0000 == low
    ensures (low + 0x1_0000_0000 * high) / 0x1_0000_0000 == high
  {
  }

  function GetSigned(b: Bytes): (r: Parsed<i64>)
    ensures r.Got? ==> b == PutSigned(r.value, r.rest)
  {
    var (x, rest) :- Get64(b);
    Got(if x > 0x7FFF_FFFF_FFFF_FFFF then x - 0x1_0000_0000_0000_0000 else x, rest)
  }

  function GetFlag(b: Bytes): (r: Parsed<bool>)
    ensures r.Got? ==> b == PutFlag(r.value, r.rest)
  {
    var (x, rest) :- Get8(b);
    if x > 1 then Refused(Status.Malformed) else Got(x == 1, rest)
  }

  // ----- Texts, digests, counts --------------------------------------------

  function PutRaw(x: Bytes, rest: Bytes): Bytes { x + rest }

  /** A length and that many bytes; the length field holds 32 bits. */
  function PutText(x: Text, rest: Bytes): Bytes { Put32(|x| % 0x1_0000_0000, PutRaw(x, rest)) }

  function GetText(b: Bytes, limit: nat): (r: Parsed<Text>)
    ensures r.Got? ==> |r.value| <= limit && |r.value| <= MAX_U32 && b == PutText(r.value, r.rest)
  {
    var (length, rest) :- Get32(b);
    if length > limit then Refused(Status.LimitExceeded)
    else if |rest| < length then Refused(Status.Truncated)
    else
      assert rest == rest[..length] + rest[length..];
      Got(rest[..length], rest[length..])
  }

  function GetDigest(b: Bytes): (r: Parsed<Digest>)
    ensures r.Got? ==> b == PutRaw(r.value, r.rest)
  {
    if |b| < 32 then Refused(Status.Truncated) else
    assert b == b[..32] + b[32..];
    Got(b[..32], b[32..])
  }

  function PutCount(x: nat, rest: Bytes): Bytes { Put32(x % 0x1_0000_0000, rest) }

  function GetCount(b: Bytes, bound: nat): (r: Parsed<nat>)
    ensures r.Got? ==> r.value <= bound && b == PutCount(r.value, r.rest)
  {
    var (x, rest) :- Get32(b);
    if x > bound then Refused(Status.LimitExceeded) else Got(x, rest)
  }

  /** An identifier, refused unless it is well formed. */
  function GetIdentifier(b: Bytes): (r: Parsed<Text>)
    ensures r.Got? ==> ValidIdentifier(r.value) && b == PutText(r.value, r.rest)
  {
    var (x, rest) :- GetText(b, MAX_IDENTIFIER_BYTES);
    if ValidIdentifier(x) then Got(x, rest) else Refused(Status.Malformed)
  }

  function PutSchema(x: SchemaVersion, rest: Bytes): Bytes { Put32(x.major, Put32(x.minor, rest)) }

  function GetSchema(b: Bytes): (r: Parsed<SchemaVersion>)
    ensures r.Got? ==> b == PutSchema(r.value, r.rest)
  {
    var (major, b1) :- Get32(b);
    var (minor, b2) :- Get32(b1);
    Got(SchemaVersion(major, minor), b2)
  }

  function PutIncarnation(x: Incarnation, rest: Bytes): Bytes { Put64(x.sequence, PutText(x.boot, rest)) }

  function GetIncarnation(b: Bytes): (r: Parsed<Incarnation>)
    ensures r.Got? ==> |r.value.boot| <= MAX_IDENTIFIER_BYTES && b == PutIncarnation(r.value, r.rest)
  {
    var (sequence, b1) :- Get64(b);
    var (boot, b2) :- GetText(b1, MAX_IDENTIFIER_BYTES);
    Got(Incarnation(sequence, boot), b2)
  }

  /** A one-byte code with no meaning above `limit`. */
  function GetCode(b: Bytes, limit: u8): (r: Parsed<u8>)
    ensures r.Got? ==> r.value <= limit && b == Put8(r.value, r.rest)
  {
    var (x, rest) :- Get8(b);
    if x > limit then Refused(Status.Malformed) else Got(x, rest)
  }

  // ----- Lists --------------------------------------------------------------

  function PutAll<T>(xs: seq<T>, put: (T, Bytes) -> Bytes, rest: Bytes): Bytes {
    if xs == [] then rest else put(xs[0], PutAll(xs[1..], put, rest))
  }

  function GetAll<T>(n: nat, get: Bytes -> Parsed<T>, b: Bytes): Parsed<seq<T>> {
    if n == 0 then Got([], b)
    else
      var (x, b1) :- get(b);
      var (xs, b2) :- GetAll(n - 1, get, b1);
      Got([x] + xs, b2)
  }

  /** A counted list: the count, refused above the bound, and the elements. */
  function PutList<T>(xs: seq<T>, put: (T, Bytes) -> Bytes, rest: Bytes): Bytes {
    PutCount(|xs|, PutAll(xs, put, rest))
  }

  function GetList<T>(b: Bytes, bound: nat, get: Bytes -> Parsed<T>): Parsed<seq<T>> {
    var (n, b1) :- GetCount(b, bound);
    GetAll(n, get, b1)
  }

  // ----- Reading back what was written -------------------------------------

  lemma Read32(x: u32, rest: Bytes)
    ensures Get32(Put32(x, rest)) == Got(x, rest)
  {
    var b := Put32(x, rest);
    assert b[4..] == rest;
    assert x / 256 == x / 0x1_0000 * 256 + x / 256 % 256;
    assert x / 0x1_0000 == x / 0x100_0000 * 256 + x / 0x1_0000 % 256;
    assert Word32(b) == x;
  }

  lemma WordIsFourBytes(x: u32, rest: Bytes)
    ensures |Put32(x, rest)| == 4 + |rest|
  {
  }

  lemma LengthComesFirst(text: Text)
    requires |text| <= MAX_U32
    ensures PutText(text, []) == Put32(|text|, text) && |PutText(text, [])| == 4 + |text|
  {
    hide Put32;
    assert text + [] == text;
    WordIsFourBytes(|text|, text);
  }

  /** A text longer than the limit is refused by its length alone. */
  lemma TooLongIsRefused(text: Text, limit: nat)
    requires limit < |text| <= MAX_U32
    ensures GetText(PutText(text, []), limit) == Refused(Status.LimitExceeded)
  {
    hide Put32, Get32, PutText;
    LengthComesFirst(text);
    Read32(|text|, text);
  }

  lemma Read64(x: u64, rest: Bytes)
    ensures Get64(Put64(x, rest)) == Got(x, rest)
  {
    var high := Put32(x / 0x1_0000_0000, rest);
    var b := Put32(x % 0x1_0000_0000, high);
    Read32(x % 0x1_0000_0000, high);
    Read32(x / 0x1_0000_0000, rest);
    assert |high| >= 4 && |b| == 4 + |high|;
    assert b[4..] == high;
    assert x == x % 0x1_0000_0000 + 0x1_0000_0000 * (x / 0x1_0000_0000);
    hide Put32, Get32;
  }

  lemma Read8(x: u8, rest: Bytes)
    ensures Get8(Put8(x, rest)) == Got(x, rest)
  {
    assert ([x] + rest)[1..] == rest;
  }

  lemma ReadSigned(x: i64, rest: Bytes)
    ensures GetSigned(PutSigned(x, rest)) == Got(x, rest)
  {
    hide Put64, Get64;
    Read64(if x < 0 then x + 0x1_0000_0000_0000_0000 else x, rest);
  }

  lemma ReadFlag(x: bool, rest: Bytes)
    ensures GetFlag(PutFlag(x, rest)) == Got(x, rest)
  {
    Read8(if x then 1 else 0, rest);
    hide Put8, Get8;
  }

  lemma ReadCount(x: nat, rest: Bytes, bound: nat)
    requires x <= bound && x <= MAX_U32
    ensures GetCount(PutCount(x, rest), bound) == Got(x, rest)
  {
    hide Put32, Get32;
    Read32(x, rest);
    assert x % 0x1_0000_0000 == x;
  }

  lemma ReadText(x: Text, rest: Bytes, limit: nat)
    requires |x| <= limit && |x| <= MAX_U32
    ensures GetText(PutText(x, rest), limit) == Got(x, rest)
  {
    hide Put32, Get32;
    Read32(|x|, x + rest);
    assert (x + rest)[..|x|] == x;
    assert (x + rest)[|x|..] == rest;
  }

  lemma ReadSchema(x: SchemaVersion, rest: Bytes)
    ensures GetSchema(PutSchema(x, rest)) == Got(x, rest)
  {
    Read32(x.major, Put32(x.minor, rest));
    Read32(x.minor, rest);
    hide Put32, Get32;
  }

  lemma ReadIncarnation(x: Incarnation, rest: Bytes)
    requires |x.boot| <= MAX_IDENTIFIER_BYTES
    ensures GetIncarnation(PutIncarnation(x, rest)) == Got(x, rest)
  {
    hide Put64, Get64, GetText, PutText;
    Read64(x.sequence, PutText(x.boot, rest));
    ReadText(x.boot, rest, MAX_IDENTIFIER_BYTES);
  }

  lemma ReadRaw(x: Digest, rest: Bytes)
    ensures GetDigest(PutRaw(x, rest)) == Got(x, rest)
  {
    assert (x + rest)[..32] == x && (x + rest)[32..] == rest;
  }

  /** Every primitive reads back what was written, whatever follows it. */
  lemma PrimitivesReadBack()
    ensures forall x: u8, rest {:trigger Put8(x, rest)} :: Get8(Put8(x, rest)) == Got(x, rest)
    ensures forall x: u32, rest {:trigger Put32(x, rest)} :: Get32(Put32(x, rest)) == Got(x, rest)
    ensures forall x: u64, rest {:trigger Put64(x, rest)} :: Get64(Put64(x, rest)) == Got(x, rest)
    ensures forall x: i64, rest {:trigger PutSigned(x, rest)} :: GetSigned(PutSigned(x, rest)) == Got(x, rest)
    ensures forall x, rest {:trigger PutFlag(x, rest)} :: GetFlag(PutFlag(x, rest)) == Got(x, rest)
    ensures forall x: Digest, rest {:trigger PutRaw(x, rest)} :: GetDigest(PutRaw(x, rest)) == Got(x, rest)
    ensures forall x: nat, rest, bound {:trigger GetCount(PutCount(x, rest), bound)} ::
      x <= bound && x <= MAX_U32 ==> GetCount(PutCount(x, rest), bound) == Got(x, rest)
    ensures forall x: Text, rest, limit {:trigger GetText(PutText(x, rest), limit)} ::
      |x| <= limit && |x| <= MAX_U32 ==> GetText(PutText(x, rest), limit) == Got(x, rest)
    ensures forall x, rest {:trigger PutSchema(x, rest)} :: GetSchema(PutSchema(x, rest)) == Got(x, rest)
    ensures forall x: Incarnation, rest {:trigger PutIncarnation(x, rest)} ::
      |x.boot| <= MAX_IDENTIFIER_BYTES ==> GetIncarnation(PutIncarnation(x, rest)) == Got(x, rest)
  {
    hide *;
    forall x: u8, rest ensures Get8(Put8(x, rest)) == Got(x, rest) { Read8(x, rest); }
    forall x: u32, rest ensures Get32(Put32(x, rest)) == Got(x, rest) { Read32(x, rest); }
    forall x: u64, rest ensures Get64(Put64(x, rest)) == Got(x, rest) { Read64(x, rest); }
    forall x: i64, rest ensures GetSigned(PutSigned(x, rest)) == Got(x, rest) { ReadSigned(x, rest); }
    forall x, rest ensures GetFlag(PutFlag(x, rest)) == Got(x, rest) { ReadFlag(x, rest); }
    forall x: Digest, rest ensures GetDigest(PutRaw(x, rest)) == Got(x, rest) { ReadRaw(x, rest); }
    forall x: nat, rest, bound: nat | x <= bound && x <= MAX_U32
      ensures GetCount(PutCount(x, rest), bound) == Got(x, rest)
    {
      ReadCount(x, rest, bound);
    }
    forall x: Text, rest, limit: nat | |x| <= limit && |x| <= MAX_U32
      ensures GetText(PutText(x, rest), limit) == Got(x, rest)
    {
      ReadText(x, rest, limit);
    }
    forall x, rest ensures GetSchema(PutSchema(x, rest)) == Got(x, rest) { ReadSchema(x, rest); }
    forall x: Incarnation, rest | |x.boot| <= MAX_IDENTIFIER_BYTES
      ensures GetIncarnation(PutIncarnation(x, rest)) == Got(x, rest)
    {
      ReadIncarnation(x, rest);
    }
  }

  /** Bytes after an encoding are the bytes after what follows it. */
  lemma PrimitivesAppend()
    ensures forall x: u8, rest, more {:trigger Put8(x, rest) + more} :: Put8(x, rest) + more == Put8(x, rest + more)
    ensures forall x: u32, rest, more {:trigger Put32(x, rest) + more} :: Put32(x, rest) + more == Put32(x, rest + more)
    ensures forall x: u64, rest, more {:trigger Put64(x, rest) + more} :: Put64(x, rest) + more == Put64(x, rest + more)
    ensures forall x: i64, rest, more {:trigger PutSigned(x, rest) + more} ::
      PutSigned(x, rest) + more == PutSigned(x, rest + more)
    ensures forall x, rest, more {:trigger PutFlag(x, rest) + more} :: PutFlag(x, rest) + more == PutFlag(x, rest + more)
    ensures forall x, rest, more {:trigger PutRaw(x, rest) + more} :: PutRaw(x, rest) + more == PutRaw(x, rest + more)
    ensures forall x: nat, rest, more {:trigger PutCount(x, rest) + more} ::
      PutCount(x, rest) + more == PutCount(x, rest + more)
    ensures forall x: Text, rest, more {:trigger PutText(x, rest) + more} ::
      PutText(x, rest) + more == PutText(x, rest + more)
    ensures forall x, rest, more {:trigger PutSchema(x, rest) + more} ::
      PutSchema(x, rest) + more == PutSchema(x, rest + more)
    ensures forall x, rest, more {:trigger PutIncarnation(x, rest) + more} ::
      PutIncarnation(x, rest) + more == PutIncarnation(x, rest + more)
  {
    forall x: u8, rest: Bytes, more: Bytes ensures Put8(x, rest) + more == Put8(x, rest + more) {
      assert [x] + rest + more == [x] + (rest + more);
    }
    forall x: u32, rest: Bytes, more: Bytes ensures Put32(x, rest) + more == Put32(x, rest + more) {
      var e := [x % 256, x / 256 % 256, x / 0x1_0000 % 256, x / 0x100_0000];
      assert e + rest + more == e + (rest + more);
    }
    forall x: Bytes, rest: Bytes, more: Bytes ensures PutRaw(x, rest) + more == PutRaw(x, rest + more) {
      assert x + rest + more == x + (rest + more);
    }
    hide Put8, Put32, PutRaw;
  }

  // ----- Lists, generically -------------------------------------------------

  lemma {:induction false} AllReadBack<T(!new)>(xs: seq<T>, ys: seq<T>, put: (T, Bytes) -> Bytes,
      get: Bytes -> Parsed<T>, rest: Bytes)
    requires |xs| == |ys|
    requires forall i, k: Bytes | 0 <= i < |xs| :: get(put(xs[i], k)) == Got(ys[i], k)
    ensures GetAll(|xs|, get, PutAll(xs, put, rest)) == Got(ys, rest)
  {
    if xs != [] {
      forall i, k: Bytes | 0 <= i < |xs| - 1 ensures get(put(xs[1..][i], k)) == Got(ys[1..][i], k) {
        assert get(put(xs[i + 1], k)) == Got(ys[i + 1], k);
      }
      AllReadBack(xs[1..], ys[1..], put, get, rest);
      assert get(put(xs[0], PutAll(xs[1..], put, rest))) == Got(ys[0], PutAll(xs[1..], put, rest));
      assert ys == [ys[0]] + ys[1..];
    }
  }

  lemma {:induction false} AllAppend<T>(xs: seq<T>, put: (T, Bytes) -> Bytes, rest: Bytes, more: Bytes)
    requires forall i, k: Bytes, m: Bytes | 0 <= i < |xs| :: put(xs[i], k) + m == put(xs[i], k + m)
    ensures PutAll(xs, put, rest) + more == PutAll(xs, put, rest + more)
  {
    if xs != [] {
      forall i, k: Bytes, m: Bytes | 0 <= i < |xs| - 1 ensures put(xs[1..][i], k) + m == put(xs[1..][i], k + m) {
        assert put(xs[i + 1], k) + m == put(xs[i + 1], k + m);
      }
      AllAppend(xs[1..], put, rest, more);
      assert put(xs[0], PutAll(xs[1..], put, rest)) + more == put(xs[0], PutAll(xs[1..], put, rest) + more);
    }
  }

  /** A list that was read is the list whose elements were written there. */
  lemma {:induction false} AllCanonical<T(!new)>(n: nat, get: Bytes -> Parsed<T>, put: (T, Bytes) -> Bytes,
      good: T -> bool, b: Bytes)
    requires forall c: Bytes | get(c).Got? :: good(get(c).value) && c == put(get(c).value, get(c).rest)
    ensures var r := GetAll(n, get, b);
            r.Got? ==> |r.value| == n && (forall i | 0 <= i < n :: good(r.value[i])) && b == PutAll(r.value, put, r.rest)
  {
    if n > 0 && get(b).Got? {
      AllCanonical(n - 1, get, put, good, get(b).rest);
      var tail := GetAll(n - 1, get, get(b).rest);
      if tail.Got? {
        var r := GetAll(n, get, b);
        assert r.value[0] == get(b).value && r.value[1..] == tail.value;
      }
    }
  }
}
