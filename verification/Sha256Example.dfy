/** The example of FIPS 180-4 for SHA-256, a message of one block: every constant,
    shift and step of the standard's functions takes part in it. */
module Sha256Example {
  import opened Sha256Standard

  const MESSAGE: Octets := [0x61, 0x62, 0x63]

  const BLOCK: Octets := MESSAGE + [0x80] + seq(52, _ => 0) + [0, 0, 0, 0, 0, 0, 0, 24]

  lemma LengthField()
    ensures BigEndian(24, 8) == [0, 0, 0, 0, 0, 0, 0, 24]
  {
    assert BigEndian(24 / 256, 7) == [0, 0, 0, 0, 0, 0, 0] by { Zeros(7); }
  }

  lemma {:induction false} Zeros(k: nat)
    ensures BigEndian(0, k) == seq(k, _ => 0)
  {
    if k > 0 { Zeros(k - 1); }
  }

  lemma OneBlock()
    ensures |BLOCK| == 64 && Padded(MESSAGE) == BLOCK
  {
    LengthField();
    hide BigEndian;
  }

  // ----- The message schedule -------------------------------------------------

  lemma Next(t: nat)
    requires 16 <= t < 64 && |BLOCK| == 64
    ensures W(BLOCK, t) == ScheduleWord(W(BLOCK, t - 2), W(BLOCK, t - 7), W(BLOCK, t - 15), W(BLOCK, t - 16))
  {
    hide ScheduleWord, BlockWord;
  }

  lemma Parsed()
    requires |BLOCK| == 64
    ensures
      W(BLOCK, 0) == 0x61626380 && W(BLOCK, 15) == 24 &&
      W(BLOCK, 1) == 0 && W(BLOCK, 2) == 0 && W(BLOCK, 3) == 0 && W(BLOCK, 4) == 0 && W(BLOCK, 5) == 0 &&
      W(BLOCK, 6) == 0 && W(BLOCK, 7) == 0 && W(BLOCK, 8) == 0 && W(BLOCK, 9) == 0 && W(BLOCK, 10) == 0 &&
      W(BLOCK, 11) == 0 && W(BLOCK, 12) == 0 && W(BLOCK, 13) == 0 && W(BLOCK, 14) == 0
  {
  }

  lemma Schedule16()
    requires |BLOCK| == 64
    ensures
      W(BLOCK, 16) == 0x61626380 && W(BLOCK, 17) == 0x000f0000 && W(BLOCK, 18) == 0x7da86405 && W(BLOCK, 19) == 0x600003c6 &&
      W(BLOCK, 20) == 0x3e9d7b78 && W(BLOCK, 21) == 0x0183fc00 && W(BLOCK, 22) == 0x12dcbfdb && W(BLOCK, 23) == 0xe2e2c38e &&
      W(BLOCK, 24) == 0xc8215c1a && W(BLOCK, 25) == 0xb73679a2 && W(BLOCK, 26) == 0xe5bc3909 && W(BLOCK, 27) == 0x32663c5b &&
      W(BLOCK, 28) == 0x9d209d67 && W(BLOCK, 29) == 0xec8726cb && W(BLOCK, 30) == 0x702138a4 && W(BLOCK, 31) == 0xd3b7973b
  {
    Parsed();
    hide W;
    Next(16); Next(17); Next(18); Next(19);
    Next(20); Next(21); Next(22); Next(23);
    Next(24); Next(25); Next(26); Next(27);
    Next(28); Next(29); Next(30); Next(31);
  }

  lemma Schedule32()
    requires |BLOCK| == 64
    ensures
      W(BLOCK, 32) == 0x93f5997f && W(BLOCK, 33) == 0x3b68ba73 && W(BLOCK, 34) == 0xaff4ffc1 && W(BLOCK, 35) == 0xf10a5c62 &&
      W(BLOCK, 36) == 0x0a8b3996 && W(BLOCK, 37) == 0x72af830a && W(BLOCK, 38) == 0x9409e33e && W(BLOCK, 39) == 0x24641522 &&
      W(BLOCK, 40) == 0x9f47bf94 && W(BLOCK, 41) == 0xf0a64f5a && W(BLOCK, 42) == 0x3e246a79 && W(BLOCK, 43) == 0x27333ba3 &&
      W(BLOCK, 44) == 0x0c4763f2 && W(BLOCK, 45) == 0x840abf27 && W(BLOCK, 46) == 0x7a290d5d && W(BLOCK, 47) == 0x065c43da
  {
    Schedule16();
    hide W;
    Next(32); Next(33); Next(34); Next(35);
    Next(36); Next(37); Next(38); Next(39);
    Next(40); Next(41); Next(42); Next(43);
    Next(44); Next(45); Next(46); Next(47);
  }

  lemma Schedule48()
    requires |BLOCK| == 64
    ensures
      W(BLOCK, 48) == 0xfb3e89cb && W(BLOCK, 49) == 0xcc7617db && W(BLOCK, 50) == 0xb9e66c34 && W(BLOCK, 51) == 0xa9993667 &&
      W(BLOCK, 52) == 0x84badedd && W(BLOCK, 53) == 0xc21462bc && W(BLOCK, 54) == 0x1487472c && W(BLOCK, 55) == 0xb20f7a99 &&
      W(BLOCK, 56) == 0xef57b9cd && W(BLOCK, 57) == 0xebe6b238 && W(BLOCK, 58) == 0x9fe3095e && W(BLOCK, 59) == 0x78bc8d4b &&
      W(BLOCK, 60) == 0xa43fcf15 && W(BLOCK, 61) == 0x668b2ff8 && W(BLOCK, 62) == 0xeeaba2cc && W(BLOCK, 63) == 0x12b1edeb
  {
    Schedule32();
    hide W;
    Next(48); Next(49); Next(50); Next(51);
    Next(52); Next(53); Next(54); Next(55);
    Next(56); Next(57); Next(58); Next(59);
    Next(60); Next(61); Next(62); Next(63);
  }

  // ----- The rounds -----------------------------------------------------------

  const START := Vars(0x6a09e667, 0xbb67ae85, 0x3c6ef372, 0xa54ff53a, 0x510e527f, 0x9b05688c, 0x1f83d9ab, 0x5be0cd19)

  lemma Advance(t: nat)
    requires t < 64 && |BLOCK| == 64
    ensures Rounds(BLOCK, START, t + 1) == Round(Rounds(BLOCK, START, t), K(t), W(BLOCK, t))
  {
    hide Round, K, W;
  }

  lemma Constants8()
    ensures K(0) == 0x428a2f98 && K(1) == 0x71374491 && K(2) == 0xb5c0fbcf && K(3) == 0xe9b5dba5 &&
            K(4) == 0x3956c25b && K(5) == 0x59f111f1 && K(6) == 0x923f82a4 && K(7) == 0xab1c5ed5
  {
  }

  lemma Rounds8()
    requires |BLOCK| == 64
    ensures Rounds(BLOCK, START, 8) ==
      Vars(0x85a07b5f, 0xe5030380, 0x2b4209f5, 0x04409a6a, 0x0c657a79, 0x9b27a401, 0x714260ad, 0x43ada245)
  {
    Constants8();
    Parsed();
    assert Rounds(BLOCK, START, 0) == START;
    hide K, W, Rounds;
    Advance(0); Advance(1); Advance(2); Advance(3);
    Advance(4); Advance(5); Advance(6); Advance(7);
  }

  lemma Constants16()
    ensures K(8) == 0xd807aa98 && K(9) == 0x12835b01 && K(10) == 0x243185be && K(11) == 0x550c7dc3 &&
            K(12) == 0x72be5d74 && K(13) == 0x80deb1fe && K(14) == 0x9bdc06a7 && K(15) == 0xc19bf174
  {
  }

  lemma Rounds16()
    requires |BLOCK| == 64
    ensures Rounds(BLOCK, START, 16) ==
      Vars(0xb0fa238e, 0xc0645fde, 0xd932eb16, 0x87912990, 0x07590dcd, 0x0b92f20c, 0x745a48de, 0x1e578218)
  {
    Rounds8();
    Constants16();
    Parsed();
    hide K, W, Rounds;
    Advance(8); Advance(9); Advance(10); Advance(11);
    Advance(12); Advance(13); Advance(14); Advance(15);
  }

  lemma Constants24()
    ensures K(16) == 0xe49b69c1 && K(17) == 0xefbe4786 && K(18) == 0x0fc19dc6 && K(19) == 0x240ca1cc &&
            K(20) == 0x2de92c6f && K(21) == 0x4a7484aa && K(22) == 0x5cb0a9dc && K(23) == 0x76f988da
  {
  }

  lemma Rounds24()
    requires |BLOCK| == 64
    ensures Rounds(BLOCK, START, 24) ==
      Vars(0xc5d53d8d, 0xa7a3623f, 0xc2606d6d, 0x9dc68b63, 0xaa47c347, 0x49f5114a, 0xe1257970, 0x8ada8930)
  {
    Rounds16();
    Constants24();
    Schedule16();
    hide K, W, Rounds;
    Advance(16); Advance(17); Advance(18); Advance(19);
    Advance(20); Advance(21); Advance(22); Advance(23);
  }

  lemma Constants32()
    ensures K(24) == 0x983e5152 && K(25) == 0xa831c66d && K(26) == 0xb00327c8 && K(27) == 0xbf597fc7 &&
            K(28) == 0xc6e00bf3 && K(29) == 0xd5a79147 && K(30) == 0x06ca6351 && K(31) == 0x14292967
  {
  }

  lemma Rounds32()
    requires |BLOCK| == 64
    ensures Rounds(BLOCK, START, 32) ==
      Vars(0x73b33bf5, 0xea992a22, 0xa0060b30, 0x363482c9, 0xba591112, 0x0109ab3a, 0xade79437, 0x6112a3b7)
  {
    Rounds24();
    Constants32();
    Schedule16();
    hide K, W, Rounds;
    Advance(24); Advance(25); Advance(26); Advance(27);
    Advance(28); Advance(29); Advance(30); Advance(31);
  }

  lemma Constants40()
    ensures K(32) == 0x27b70a85 && K(33) == 0x2e1b2138 && K(34) == 0x4d2c6dfc && K(35) == 0x53380d13 &&
            K(36) == 0x650a7354 && K(37) == 0x766a0abb && K(38) == 0x81c2c92e && K(39) == 0x92722c85
  {
  }

  lemma Rounds40()
    requires |BLOCK| == 64
    ensures Rounds(BLOCK, START, 40) ==
      Vars(0x79ea687a, 0x6dc57a8a, 0x34df1604, 0x41a65cb1, 0x1efbc0a0, 0xf0781bc8, 0xa507a53d, 0x0772a26b)
  {
    Rounds32();
    Constants40();
    Schedule32();
    hide K, W, Rounds;
    Advance(32); Advance(33); Advance(34); Advance(35);
    Advance(36); Advance(37); Advance(38); Advance(39);
  }

  lemma Constants48()
    ensures K(40) == 0xa2bfe8a1 && K(41) == 0xa81a664b && K(42) == 0xc24b8b70 && K(43) == 0xc76c51a3 &&
            K(44) == 0xd192e819 && K(45) == 0xd6990624 && K(46) == 0xf40e3585 && K(47) == 0x106aa070
  {
  }

  lemma Rounds48()
    requires |BLOCK| == 64
    ensures Rounds(BLOCK, START, 48) ==
      Vars(0x4172328d, 0xa14c14b0, 0x72ab4b91, 0x26628815, 0xfecf0bc6, 0xd57b94a9, 0xb7755da1, 0xa80f11f0)
  {
    Rounds40();
    Constants48();
    Schedule32();
    hide K, W, Rounds;
    Advance(40); Advance(41); Advance(42); Advance(43);
    Advance(44); Advance(45); Advance(46); Advance(47);
  }

  lemma Constants56()
    ensures K(48) == 0x19a4c116 && K(49) == 0x1e376c08 && K(50) == 0x2748774c && K(51) == 0x34b0bcb5 &&
            K(52) == 0x391c0cb3 && K(53) == 0x4ed8aa4a && K(54) == 0x5b9cca4f && K(55) == 0x682e6ff3
  {
  }

  lemma Rounds56()
    requires |BLOCK| == 64
    ensures Rounds(BLOCK, START, 56) ==
      Vars(0x38cc9913, 0x3ec45cdb, 0xf5702fdb, 0x101fd28f, 0x54cb266b, 0xe50e1b4f, 0x9f4787c3, 0x529e7d00)
  {
    Rounds48();
    Constants56();
    Schedule48();
    hide K, W, Rounds;
    Advance(48); Advance(49); Advance(50); Advance(51);
    Advance(52); Advance(53); Advance(54); Advance(55);
  }

  lemma Constants64()
    ensures K(56) == 0x748f82ee && K(57) == 0x78a5636f && K(58) == 0x84c87814 && K(59) == 0x8cc70208 &&
            K(60) == 0x90befffa && K(61) == 0xa4506ceb && K(62) == 0xbef9a3f7 && K(63) == 0xc67178f2
  {
  }

  lemma Rounds64()
    requires |BLOCK| == 64
    ensures Rounds(BLOCK, START, 64) ==
      Vars(0x506e3058, 0xd39a2165, 0x04d24d6c, 0xb85e2ce9, 0x5ef50f24, 0xfb121210, 0x948d25b6, 0x961f4894)
  {
    Rounds56();
    Constants64();
    Schedule48();
    hide K, W, Rounds;
    Advance(56); Advance(57); Advance(58); Advance(59);
    Advance(60); Advance(61); Advance(62); Advance(63);
  }

  // ----- The digest -----------------------------------------------------------

  const RESULT: seq<Word> := [0xba7816bf, 0x8f01cfea, 0x414140de, 0x5dae2223, 0xb00361a3, 0x96177a9c, 0xb410ff61, 0xf20015ad]

  lemma Compressed()
    requires |BLOCK| == 64
    ensures CompressBlock(INITIAL, BLOCK) == RESULT
  {
    Rounds64();
    hide Rounds;
    assert FromState(INITIAL) == START;
  }

  lemma Spelled()
    ensures StateOctets(RESULT) == [0xba, 0x78, 0x16, 0xbf, 0x8f, 0x01, 0xcf, 0xea, 0x41, 0x41, 0x40, 0xde, 0x5d, 0xae, 0x22, 0x23,
      0xb0, 0x03, 0x61, 0xa3, 0x96, 0x17, 0x7a, 0x9c, 0xb4, 0x10, 0xff, 0x61, 0xf2, 0x00, 0x15, 0xad]
  {
  }

  lemma AllCompressed()
    requires |BLOCK| == 64
    ensures CompressAll(INITIAL, BLOCK) == RESULT
  {
    Compressed();
    hide CompressBlock;
    assert BLOCK[..64] == BLOCK && BLOCK[64..] == [];
  }

  /** The digest of "abc". */
  lemma DigestOfAbc()
    ensures Hash(MESSAGE) == [
      0xba, 0x78, 0x16, 0xbf, 0x8f, 0x01, 0xcf, 0xea, 0x41, 0x41, 0x40, 0xde, 0x5d, 0xae, 0x22, 0x23,
      0xb0, 0x03, 0x61, 0xa3, 0x96, 0x17, 0x7a, 0x9c, 0xb4, 0x10, 0xff, 0x61, 0xf2, 0x00, 0x15, 0xad]
  {
    hide *;
    OneBlock();
    AllCompressed();
    Spelled();
    HashIs(MESSAGE);
  }

  lemma HashIs(message: Octets)
    ensures Hash(message) == StateOctets(CompressAll(INITIAL, Padded(message)))
  {
    hide StateOctets, CompressAll, Padded;
  }
}
