/** SHA-256 as FIPS 180-4 defines it: padding (section 5.1.1), the initial hash
    value (section 5.3.3) and the block computation (section 6.2.2). */
module Sha256Standard {

  type Word = bv32
  type Octets = seq<bv8>

  /** Eight to a row. */
  const ROUND_CONSTANTS: seq<seq<Word>> := [
    [0x428a2f98, 0x71374491, 0xb5c0fbcf, 0xe9b5dba5, 0x3956c25b, 0x59f111f1, 0x923f82a4, 0xab1c5ed5],
    [0xd807aa98, 0x12835b01, 0x243185be, 0x550c7dc3, 0x72be5d74, 0x80deb1fe, 0x9bdc06a7, 0xc19bf174],
    [0xe49b69c1, 0xefbe4786, 0x0fc19dc6, 0x240ca1cc, 0x2de92c6f, 0x4a7484aa, 0x5cb0a9dc, 0x76f988da],
    [0x983e5152, 0xa831c66d, 0xb00327c8, 0xbf597fc7, 0xc6e00bf3, 0xd5a79147, 0x06ca6351, 0x14292967],
    [0x27b70a85, 0x2e1b2138, 0x4d2c6dfc, 0x53380d13, 0x650a7354, 0x766a0abb, 0x81c2c92e, 0x92722c85],
    [0xa2bfe8a1, 0xa81a664b, 0xc24b8b70, 0xc76c51a3, 0xd192e819, 0xd6990624, 0xf40e3585, 0x106aa070],
    [0x19a4c116, 0x1e376c08, 0x2748774c, 0x34b0bcb5, 0x391c0cb3, 0x4ed8aa4a, 0x5b9cca4f, 0x682e6ff3],
    [0x748f82ee, 0x78a5636f, 0x84c87814, 0x8cc70208, 0x90befffa, 0xa4506ceb, 0xbef9a3f7, 0xc67178f2]]

  const INITIAL: seq<Word> := [
    0x6a09e667, 0xbb67ae85, 0x3c6ef372, 0xa54ff53a, 0x510e527f, 0x9b05688c, 0x1f83d9ab, 0x5be0cd19]

  function K(t: nat): Word
    requires t < 64
  {
    ROUND_CONSTANTS[t / 8][t % 8]
  }

  // ----- Section 4.1.2: the functions --------------------------------------

  function RotR(x: Word, n: bv6): Word
    requires 0 < n < 32
  {
    (x >> n) | (x << (32 - n))
  }

  /** Addition modulo 2^32. */
  function Add(x: Word, y: Word): Word { x + y }

  function Ch(x: Word, y: Word, z: Word): Word { (x & y) ^ (!x & z) }
  function Maj(x: Word, y: Word, z: Word): Word { (x & y) ^ (x & z) ^ (y & z) }
  function BigSigma0(x: Word): Word { RotR(x, 2) ^ RotR(x, 13) ^ RotR(x, 22) }
  function BigSigma1(x: Word): Word { RotR(x, 6) ^ RotR(x, 11) ^ RotR(x, 25) }
  function SmallSigma0(x: Word): Word { RotR(x, 7) ^ RotR(x, 18) ^ (x >> 3) }
  function SmallSigma1(x: Word): Word { RotR(x, 17) ^ RotR(x, 19) ^ (x >> 10) }

  // ----- Section 6.2.2: one block ------------------------------------------

  /** Word `t` of a block parsed as sixteen big-endian words. */
  function BlockWord(block: Octets, t: nat): Word
    requires |block| == 64 && t < 16
  {
    ((block[t * 4] as Word) << 24) | ((block[t * 4 + 1] as Word) << 16)
    | ((block[t * 4 + 2] as Word) << 8) | (block[t * 4 + 3] as Word)
  }

  /** The sum of step 1; the order of its terms does not matter modulo 2^32. */
  function ScheduleWord(w2: Word, w7: Word, w15: Word, w16: Word): Word {
    Add(Add(Add(w16, SmallSigma0(w15)), w7), SmallSigma1(w2))
  }

  /** Step 1: the message schedule. */
  function W(block: Octets, t: nat): Word
    requires |block| == 64 && t < 64
  {
    hide ScheduleWord, BlockWord;
    if t < 16 then BlockWord(block, t)
    else ScheduleWord(W(block, t - 2), W(block, t - 7), W(block, t - 15), W(block, t - 16))
  }

  datatype Vars = Vars(a: Word, b: Word, c: Word, d: Word, e: Word, f: Word, g: Word, h: Word)

  /** Step 3, once. */
  function Round(v: Vars, k: Word, w: Word): Vars {
    var t1 := Add(Add(Add(Add(v.h, BigSigma1(v.e)), Ch(v.e, v.f, v.g)), k), w);
    var t2 := Add(BigSigma0(v.a), Maj(v.a, v.b, v.c));
    Vars(Add(t1, t2), v.a, v.b, v.c, Add(v.d, t1), v.e, v.f, v.g)
  }

  /** Steps 2 and 3: the working variables before round `t`. */
  function Rounds(block: Octets, start: Vars, t: nat): Vars
    requires |block| == 64 && t <= 64
  {
    hide Round, W, K;
    if t == 0 then start
    else Round(Rounds(block, start, t - 1), K(t - 1), W(block, t - 1))
  }

  function FromState(s: seq<Word>): Vars
    requires |s| == 8
  {
    Vars(s[0], s[1], s[2], s[3], s[4], s[5], s[6], s[7])
  }

  /** Step 4: the intermediate hash value after a block. */
  function CompressBlock(state: seq<Word>, block: Octets): (r: seq<Word>)
    requires |state| == 8 && |block| == 64
    ensures |r| == 8
  {
    hide Add, Rounds;
    var v := Rounds(block, FromState(state), 64);
    [Add(state[0], v.a), Add(state[1], v.b), Add(state[2], v.c), Add(state[3], v.d),
     Add(state[4], v.e), Add(state[5], v.f), Add(state[6], v.g), Add(state[7], v.h)]
  }

  /** All the blocks of a padded message, first to last. */
  function CompressAll(state: seq<Word>, padded: Octets): (r: seq<Word>)
    requires |state| == 8 && |padded| % 64 == 0
    ensures |r| == 8
    decreases |padded|
  {
    hide CompressBlock;
    if padded == [] then state
    else CompressAll(CompressBlock(state, padded[..64]), padded[64..])
  }

  // ----- Section 5.1.1: padding --------------------------------------------

  /** `n` as `k` big-endian octets. */
  function BigEndian(n: nat, k: nat): (r: Octets)
    ensures |r| == k
  {
    if k == 0 then [] else BigEndian(n / 256, k - 1) + [(n % 256) as bv8]
  }

  /** The number of zero octets after the single 1 bit: it brings the length to
      56 modulo 64. */
  function ZeroOctets(length: nat): (k: nat)
    ensures (length + 1 + k) % 64 == 56
  {
    (119 - length % 64) % 64
  }

  /** No smaller number of zero octets would do. */
  lemma ZeroOctetsIsSmallest(length: nat, j: nat)
    requires (length + 1 + j) % 64 == 56
    ensures ZeroOctets(length) <= j
  {
  }

  function PaddedWith(message: Octets, lengthField: Octets): (r: Octets)
    requires |lengthField| == 8
    ensures |r| % 64 == 0
  {
    message + [0x80] + seq(ZeroOctets(|message|), _ => 0) + lengthField
  }

  function Padded(message: Octets): (r: Octets)
    ensures |r| % 64 == 0
  {
    PaddedWith(message, BigEndian(8 * |message|, 8))
  }

  function Octet(w: Word): bv8 { (w & 0xFF) as bv8 }

  function WordOctets(w: Word): Octets { [Octet(w >> 24), Octet(w >> 16), Octet(w >> 8), Octet(w)] }

  function StateOctets(state: seq<Word>): Octets {
    if state == [] then [] else WordOctets(state[0]) + StateOctets(state[1..])
  }

  /** The message digest. The standard defines it for messages shorter than
      2^64 bits. */
  function Hash(message: Octets): Octets {
    StateOctets(CompressAll(INITIAL, Padded(message)))
  }

  // ----- Facts about the fold ----------------------------------------------

  lemma {:induction false} CompressAllSplits(state: seq<Word>, a: Octets, b: Octets)
    requires |state| == 8 && |a| % 64 == 0 && |b| % 64 == 0
    ensures (|a| + |b|) % 64 == 0
    ensures CompressAll(state, a + b) == CompressAll(CompressAll(state, a), b)
    decreases |a|
  {
    hide CompressBlock;
    if a == [] {
      assert a + b == b;
    } else {
      assert (a + b)[..64] == a[..64] && (a + b)[64..] == a[64..] + b;
      CompressAllSplits(CompressBlock(state, a[..64]), a[64..], b);
    }
  }

  lemma CompressAllAppendsBlock(state: seq<Word>, a: Octets, block: Octets)
    requires |state| == 8 && |a| % 64 == 0 && |block| == 64
    ensures CompressAll(state, a + block) == CompressBlock(CompressAll(state, a), block)
  {
    hide CompressBlock;
    CompressAllSplits(state, a, block);
    assert block[..64] == block && block[64..] == [];
    assert CompressAll(CompressAll(state, a), block)
        == CompressAll(CompressBlock(CompressAll(state, a), block), []);
  }
}

/** The streaming hash: a 64-byte buffer, a running state and a byte count. */
module Sha256 {
  import opened Sha256Standard

  function ReverseOctets(w: Word): Word {
    ((w & 0x0000_00FF) << 24) | ((w & 0x0000_FF00) << 8)
    | ((w & 0x00FF_0000) >> 8) | ((w & 0xFF00_0000) >> 24)
  }

  /** The four octets of a word as a little-endian machine stores it. */
  function StoredOctets(w: Word): Octets { [Octet(w), Octet(w >> 8), Octet(w >> 16), Octet(w >> 24)] }

  lemma ReversedOctets(w: Word)
    ensures ReverseOctets(w) & 0xFF == (w >> 24) & 0xFF
    ensures (ReverseOctets(w) >> 8) & 0xFF == (w >> 16) & 0xFF
    ensures (ReverseOctets(w) >> 16) & 0xFF == (w >> 8) & 0xFF
    ensures (ReverseOctets(w) >> 24) & 0xFF == w & 0xFF
  {
  }

  /** Byte-swapping and then storing gives the big-endian octets. */
  lemma SwappedStoreIsBigEndian(w: Word)
    ensures StoredOctets(ReverseOctets(w)) == WordOctets(w)
  {
    ReversedOctets(w);
    hide ReverseOctets;
  }

  function Modulo64(n: nat): nat { n % 0x1_0000_0000_0000_0000 }

  /** Digests always carry the length modulo 2^61 bytes; below that bound this
      is the standard's padding. */
  function PaddedModulo(message: Octets): (r: Octets)
    ensures |r| % 64 == 0
  {
    PaddedWith(message, BigEndian(Modulo64(8 * |message|), 8))
  }

  function HashModulo(message: Octets): Octets {
    StateOctets(CompressAll(INITIAL, PaddedModulo(message)))
  }

  lemma HashModuloIsHash(message: Octets)
    requires |message| < 0x2000_0000_0000_0000
    ensures HashModulo(message) == Hash(message)
  {
    assert Modulo64(8 * |message|) == 8 * |message|;
  }

  lemma {:induction false} StateOctetsSnoc(front: seq<Word>, w: Word)
    ensures StateOctets(front + [w]) == StateOctets(front) + WordOctets(w)
  {
    if front == [] {
      assert front + [w] == [w] && StateOctets([w][1..]) == [];
      assert WordOctets(w) + [] == WordOctets(w);
    } else {
      assert (front + [w])[1..] == front[1..] + [w];
      StateOctetsSnoc(front[1..], w);
      assert WordOctets(front[0]) + (StateOctets(front[1..]) + WordOctets(w))
          == (WordOctets(front[0]) + StateOctets(front[1..])) + WordOctets(w);
    }
  }

  function Power256(k: nat): nat { if k == 0 then 1 else 256 * Power256(k - 1) }

  lemma {:induction false} PowersArePositive(k: nat)
    ensures Power256(k) > 0
  {
    if k > 0 { PowersArePositive(k - 1); }
  }

  /** Octet `i` of a `k`-octet big-endian number is the number shifted right by
      the octets below it. */
  lemma {:induction false} BigEndianAt(n: nat, k: nat, i: nat)
    requires i < k
    ensures Power256(k - 1 - i) > 0
    ensures BigEndian(n, k)[i] == (n / Power256(k - 1 - i) % 256) as bv8
  {
    PowersArePositive(k - 1 - i);
    if i < k - 1 {
      BigEndianAt(n / 256, k - 1, i);
      var p := Power256(k - 2 - i);
      assert Power256(k - 1 - i) == 256 * p;
      DivideTwice(n, p);
    }
  }

  lemma DivideTwice(n: nat, p: nat)
    requires p > 0
    ensures n / 256 / p == n / (256 * p)
  {
    var m := n / 256;
    var q, r := m / p, m % p;
    Regroup(p, q, r);
    assert n == 256 * p * q + (256 * r + n % 256);
    assert 256 * r + n % 256 < 256 * p;
    QuotientIsUnique(n, 256 * p, q, 256 * r + n % 256);
  }

  lemma Regroup(p: nat, q: nat, r: nat)
    ensures 256 * (p * q + r) == 256 * p * q + 256 * r
  {
  }

  lemma QuotientIsUnique(n: int, d: int, q: int, r: int)
    requires 0 <= r < d && n == d * q + r
    ensures n / d == q && n % d == r
  {
    var e := n / d - q;
    assert n == d * (n / d) + n % d;
    assert d * e == r - n % d by { Distribute(d, n / d, q); }
    ZeroFactor(d, e);
  }

  lemma Distribute(d: int, a: int, b: int)
    ensures d * (a - b) == d * a - d * b
  {
  }

  lemma ZeroFactor(d: int, e: int)
    requires -d < d * e < d
    ensures e == 0
  {
    assert e >= 1 ==> d * e >= d;
    assert e <= -1 ==> d * e <= -d;
  }

  class Hasher {
    var state: array<Word>
    var buffer: array<bv8>
    var buffered: nat
    var total: nat
    var finished: bool
    /** The whole blocks compressed so far. */
    ghost var absorbed: Octets

    ghost predicate Valid()
      reads this, state, buffer
    {
      && state.Length == 8 && buffer.Length == 64 && state as object != buffer as object
      && buffered < 64
      && |absorbed| % 64 == 0
      && state[..] == CompressAll(INITIAL, absorbed)
      && total == Modulo64(|absorbed| + buffered)
    }

    /** Everything absorbed since construction. */
    ghost function Message(): Octets
      reads this, buffer
      requires buffered <= buffer.Length
    {
      absorbed + buffer[..buffered]
    }

    ghost function Repr(): set<object>
      reads this
    {
      {this, state, buffer}
    }

    constructor ()
      ensures Valid() && fresh(Repr()) && Message() == [] && !finished
    {
      state := new Word[8](i requires 0 <= i < 8 => INITIAL[i]);
      buffer := new bv8[64](_ => 0);
      buffered, total, finished := 0, 0, false;
      absorbed := [];
      new;
      assert state[..] == INITIAL;
    }

    /** Section 6.2.2 over one 64-byte block, in place. */
    method Compress(block: Octets)
      requires state.Length == 8 && |block| == 64
      modifies state
      ensures state[..] == CompressBlock(old(state[..]), block)
    {
      hide W, K, Round, Add;
      var schedule := Schedule(block);
      var v := FromState(state[..]);
      ghost var start := v;
      for index := 0 to 64
        invariant state[..] == old(state[..])
        invariant v == Rounds(block, start, index)
      {
        RoundsStep(block, start, index);
        v := OneRound(v, K(index), schedule[index]);
      }
      hide Rounds;
      state[0], state[1], state[2], state[3] :=
        Add(state[0], v.a), Add(state[1], v.b), Add(state[2], v.c), Add(state[3], v.d);
      state[4], state[5], state[6], state[7] :=
        Add(state[4], v.e), Add(state[5], v.f), Add(state[6], v.g), Add(state[7], v.h);
      assert state[..] == [state[0], state[1], state[2], state[3], state[4], state[5], state[6], state[7]];
    }

    /** Compresses one block that follows the whole blocks absorbed so far. */
    method Absorb(block: Octets)
      requires state.Length == 8 && |block| == 64 && |absorbed| % 64 == 0
      requires state[..] == CompressAll(INITIAL, absorbed)
      modifies state, this`absorbed
      ensures absorbed == old(absorbed) + block
      ensures state[..] == CompressAll(INITIAL, absorbed)
    {
      hide CompressBlock, CompressAll;
      Compress(block);
      CompressAllAppendsBlock(INITIAL, absorbed, block);
      absorbed := absorbed + block;
    }

    method Update(data: Octets)
      requires Valid()
      modifies this`buffered, this`total, this`absorbed, state, buffer
      ensures Valid()
      ensures Message() == if finished then old(Message()) else old(Message()) + data
    {
      hide CompressAll;
      if finished { return; }
      total := (total + |data|) % 0x1_0000_0000_0000_0000;
      TotalAdvances(|absorbed| + buffered, |data|);
      hide Modulo64;
      ghost var m := Message();
      var offset := AbsorbBlocks(data);
      if offset < |data| {
        Fill(0, data[offset..]);
        assert m + data == m + data[..offset] + data[offset..];
      } else {
        assert data[..offset] == data;
      }
    }

    /** Everything but a tail too short for a block. */
    method AbsorbBlocks(data: Octets) returns (offset: nat)
      requires state.Length == 8 && buffer.Length == 64 && state as object != buffer as object
      requires buffered < 64
      requires |absorbed| % 64 == 0 && state[..] == CompressAll(INITIAL, absorbed)
      modifies this`buffered, this`absorbed, state, buffer
      ensures offset <= |data| < offset + 64 && buffered < 64 && (buffered != 0 ==> offset == |data|)
      ensures |absorbed| % 64 == 0 && state[..] == CompressAll(INITIAL, absorbed)
      ensures Message() == old(Message()) + data[..offset]
    {
      hide CompressAll;
      var first := 0;
      if buffered != 0 {
        first := TopUp(data);
      }
      ghost var m := Message();
      assert m == old(Message()) + data[..first];
      offset := AbsorbWhole(data, first);
      if buffered != 0 {
        assert data[first..offset] == [];
        assert Message() == m;
      } else {
        assert Message() == m + data[first..offset];
        assert data[..offset] == data[..first] + data[first..offset];
      }
    }

    /** Compresses the whole blocks of the data straight from the caller's
        memory. */
    method AbsorbWhole(data: Octets, start: nat) returns (offset: nat)
      requires state.Length == 8 && buffer.Length == 64 && state as object != buffer as object
      requires start <= |data| && buffered < 64 && (buffered != 0 ==> start == |data|)
      requires |absorbed| % 64 == 0 && state[..] == CompressAll(INITIAL, absorbed)
      modifies this`absorbed, state
      ensures start <= offset <= |data| < offset + 64 && (buffered != 0 ==> offset == |data|)
      ensures |absorbed| % 64 == 0 && state[..] == CompressAll(INITIAL, absorbed)
      ensures absorbed == old(absorbed) + data[start..offset]
    {
      hide CompressAll;
      offset := start;
      while offset + 64 <= |data|
        invariant start <= offset <= |data| && (buffered != 0 ==> offset == |data|)
        invariant |absorbed| % 64 == 0 && state[..] == CompressAll(INITIAL, absorbed)
        invariant absorbed == old(absorbed) + data[start..offset]
      {
        Absorb(data[offset..offset + 64]);
        assert data[start..offset + 64] == data[start..offset] + data[offset..offset + 64];
        offset := offset + 64;
      }
    }

    /** Fills the buffer from the front of the data and compresses it once it
        holds a whole block. */
    method TopUp(data: Octets) returns (offset: nat)
      requires state.Length == 8 && buffer.Length == 64 && state as object != buffer as object
      requires 0 < buffered < 64
      requires |absorbed| % 64 == 0 && state[..] == CompressAll(INITIAL, absorbed)
      modifies this`buffered, this`absorbed, state, buffer
      ensures offset <= |data| && buffered < 64 && (buffered != 0 ==> offset == |data|)
      ensures |absorbed| % 64 == 0 && state[..] == CompressAll(INITIAL, absorbed)
      ensures Message() == old(Message()) + data[..offset]
    {
      hide CompressAll;
      var want := 64 - buffered;
      offset := if |data| < want then |data| else want;
      Fill(buffered, data[..offset]);
      if buffered == 64 {
        assert buffer[..64] == buffer[..];
        Absorb(buffer[..]);
        buffered := 0;
      }
    }

    /** Copies `part` into the buffer from position `at`. */
    method Fill(at: nat, part: Octets)
      requires buffer.Length == 64 && at + |part| <= 64
      modifies this`buffered, buffer
      ensures buffered == at + |part|
      ensures buffer[..buffered] == old(buffer[..at]) + part
    {
      forall i | 0 <= i < |part| { buffer[at + i] := part[i]; }
      buffered := at + |part|;
    }

    /** Pads, absorbs the length and reads the state out. A second call yields
        the all-zero digest. */
    method Finish() returns (digest: Octets)
      requires Valid()
      modifies this, state, buffer
      ensures Valid() && finished
      ensures digest == if old(finished) then seq(32, _ => 0) else HashModulo(old(Message()))
      ensures !old(finished) && |old(Message())| < 0x2000_0000_0000_0000 ==> digest == Hash(old(Message()))
    {
      hide CompressAll, ZeroOctets, BigEndian, StateOctets;
      if finished { return seq(32, _ => 0); }
      ghost var original := Message();
      var bitLength := total * 8 % 0x1_0000_0000_0000_0000;
      BitLength(|original|);
      PadTo56();
      var lengthBytes := LengthBytes(bitLength);
      Update(lengthBytes);
      finished := true;
      hide Modulo64;
      ghost var padded := PaddedModulo(original);
      assert Message() == padded;
      WholeBlocks(|absorbed|, buffered);
      assert absorbed == padded;
      hide PaddedModulo;
      digest := ReadOut();
      if |original| < 0x2000_0000_0000_0000 { HashModuloIsHash(original); }
    }

    /** The 0x80 byte and then zero bytes until only the length slot is left. */
    method PadTo56()
      requires Valid() && !finished
      modifies this`buffered, this`total, this`absorbed, state, buffer
      ensures Valid() && buffered == 56
      ensures Message() == old(Message()) + [0x80] + seq(ZeroOctets(|old(Message())|), _ => 0)
    {
      hide CompressAll;
      ghost var original := Message();
      ghost var zeros := ZeroOctets(|original|);
      ghost var k := 0;
      Update([0x80]);
      while buffered != 56
        invariant Valid()
        invariant 0 <= k <= zeros
        invariant Message() == original + [0x80] + seq(k, _ => 0)
        decreases zeros - k
      {
        NotYet56(|absorbed|, buffered, |original|, k);
        Update([0]);
        assert seq(k, _ => 0 as bv8) + [0] == seq(k + 1, _ => 0 as bv8);
        k := k + 1;
      }
      SmallestReached(|absorbed|, |original|, k);
    }

    /** The state as big-endian octets. */
    method ReadOut() returns (digest: Octets)
      requires state.Length == 8
      ensures digest == StateOctets(state[..])
    {
      digest := [];
      for index := 0 to 8
        invariant digest == StateOctets(state[..index])
      {
        SwappedStoreIsBigEndian(state[index]);
        StateOctetsSnoc(state[..index], state[index]);
        assert state[..index + 1] == state[..index] + [state[index]];
        hide StoredOctets, WordOctets, ReverseOctets;
        digest := digest + StoredOctets(ReverseOctets(state[index]));
      }
      assert state[..8] == state[..];
    }
  }

  lemma RoundsStep(block: Octets, start: Vars, t: nat)
    requires |block| == 64 && t < 64
    ensures Rounds(block, start, t + 1) == Round(Rounds(block, start, t), K(t), W(block, t))
  {
    hide Round, W, K;
  }

  /** The eight assignments of one round. */
  method OneRound(v: Vars, k: Word, w: Word) returns (r: Vars)
    ensures r == Round(v, k, w)
  {
    hide Add, Ch, Maj, BigSigma0, BigSigma1;
    var a, b, c, d, e, f, g, h := v.a, v.b, v.c, v.d, v.e, v.f, v.g, v.h;
    var temp1 := Add(Add(Add(Add(h, BigSigma1(e)), Ch(e, f, g)), k), w);
    var temp2 := Add(BigSigma0(a), Maj(a, b, c));
    h, g, f := g, f, e;
    e := Add(d, temp1);
    d, c, b := c, b, a;
    a := Add(temp1, temp2);
    r := Vars(a, b, c, d, e, f, g, h);
  }

  /** The message schedule of one block. */
  method Schedule(block: Octets) returns (schedule: seq<Word>)
    requires |block| == 64
    ensures |schedule| == 64
    ensures forall k | 0 <= k < 64 :: schedule[k] == W(block, k)
  {
    hide ScheduleWord, BlockWord, Add, SmallSigma0, SmallSigma1;
    var words := new Word[64](_ => 0);
    for index := 0 to 16
      invariant forall k | 0 <= k < index :: words[k] == W(block, k)
    {
      words[index] := BlockWord(block, index);
    }
    for index := 16 to 64
      invariant forall k | 0 <= k < index :: words[k] == W(block, k)
    {
      var s0 := SmallSigma0(words[index - 15]);
      var s1 := SmallSigma1(words[index - 2]);
      words[index] := NextWord(words[index - 16], s0, words[index - 7], s1);
      ScheduleStep(block, index);
    }
    schedule := words[..];
  }

  function NextWord(w16: Word, s0: Word, w7: Word, s1: Word): Word { Add(Add(Add(w16, s0), w7), s1) }

  lemma ScheduleStep(block: Octets, t: nat)
    requires |block| == 64 && 16 <= t < 64
    ensures W(block, t)
         == NextWord(W(block, t - 16), SmallSigma0(W(block, t - 15)), W(block, t - 7), SmallSigma1(W(block, t - 2)))
  {
    hide Add, SmallSigma0, SmallSigma1;
  }

  /** Eight octets, most significant first, by shifting the length down. */
  method LengthBytes(bitLength: nat) returns (lengthBytes: Octets)
    ensures lengthBytes == BigEndian(bitLength, 8)
  {
    hide BigEndian, Power256;
    lengthBytes := [];
    var divisor := 0x0100_0000_0000_0000;
    SeventhPower();
    for index := 0 to 8
      invariant |lengthBytes| == index
      invariant divisor == if index < 8 then Power256(7 - index) else 0
      invariant forall k | 0 <= k < index :: lengthBytes[k] == BigEndian(bitLength, 8)[k]
    {
      BigEndianAt(bitLength, 8, index);
      PowerDown(7 - index);
      lengthBytes := lengthBytes + [(bitLength / divisor % 256) as bv8];
      divisor := divisor / 256;
    }
  }

  lemma PowerDown(k: nat)
    ensures Power256(k) / 256 == if k == 0 then 0 else Power256(k - 1)
  {
  }

  lemma SeventhPower()
    ensures Power256(7) == 0x0100_0000_0000_0000
  {
    assert Power256(2) == 0x1_0000;
    assert Power256(4) == 0x1_0000_0000;
  }

  lemma TotalAdvances(before: nat, added: nat)
    ensures Modulo64(Modulo64(before) + added) == Modulo64(before + added)
  {
    var m := 0x1_0000_0000_0000_0000;
    var sum := before % m + added;
    QuotientIsUnique(before + added, m, before / m + sum / m, sum % m);
  }

  lemma BitLength(length: nat)
    ensures Modulo64(Modulo64(length) * 8) == Modulo64(8 * length)
  {
    var m := 0x1_0000_0000_0000_0000;
    var bits := length % m * 8;
    assert length == m * (length / m) + length % m;
    QuotientIsUnique(8 * length, m, 8 * (length / m) + bits / m, bits % m);
  }

  lemma WholeBlocks(absorbed: nat, buffered: nat)
    requires absorbed % 64 == 0 && buffered < 64 && (absorbed + buffered) % 64 == 0
    ensures buffered == 0
  {
  }

  lemma NotYet56(absorbed: nat, buffered: nat, length: nat, k: nat)
    requires absorbed % 64 == 0 && buffered < 64 && buffered != 56
    requires absorbed + buffered == length + 1 + k
    ensures k != ZeroOctets(length)
  {
  }

  lemma SmallestReached(absorbed: nat, length: nat, k: nat)
    requires absorbed % 64 == 0 && absorbed + 56 == length + 1 + k && k <= ZeroOctets(length)
    ensures k == ZeroOctets(length)
  {
    ZeroOctetsIsSmallest(length, k);
  }

  function Flatten(chunks: seq<Octets>): Octets {
    if chunks == [] then [] else Flatten(chunks[..|chunks| - 1]) + chunks[|chunks| - 1]
  }

  /** However a message is cut into updates, the digest is the standard's digest
      of the whole message. */
  method DigestOfChunks(chunks: seq<Octets>) returns (digest: Octets)
    ensures digest == HashModulo(Flatten(chunks))
    ensures |Flatten(chunks)| < 0x2000_0000_0000_0000 ==> digest == Hash(Flatten(chunks))
  {
    hide CompressAll, HashModulo, Hash;
    var hasher := new Hasher();
    for i := 0 to |chunks|
      invariant fresh(hasher.Repr()) && hasher.Valid() && !hasher.finished
      invariant hasher.Message() == Flatten(chunks[..i])
    {
      hasher.Update(chunks[i]);
      assert chunks[..i + 1][..i] == chunks[..i];
    }
    assert chunks[..|chunks|] == chunks;
    digest := hasher.Finish();
  }
}
