/**
 The example of FIPS 180-4 worked through: the hash of the one-block message "abc", word by word and turn by turn.
 It fixes every rotation, constant and order of arguments that the program and its specification share.
 */
module Sha256Vector {
  import opened Basics
  import opened Sha256

  /** The padded message. */
  function AbcBlock(): (b: Bytes)
    ensures |b| == 64
  {
    [97, 98, 99, 0x80] + Zeros(59) + [24]
  }

  // ----- The schedule -----

  /** From t on the schedule has these words. */
  predicate Scheduled(t: nat, words: seq<Word>) {
    t + |words| <= 64 && forall i :: 0 <= i < |words| ==> Schedule(AbcBlock(), t + i) == words[i]
  }

  lemma ScheduledOne(t: nat, w: Word)
    ensures Scheduled(t, [w]) <==> t < 64 && Schedule(AbcBlock(), t) == w
  {
    hide AbcBlock;
    assert Scheduled(t, [w]) ==> Schedule(AbcBlock(), t + 0) == [w][0];
  }

  /** A word of the schedule from the four it is made of. */
  lemma Extend(t: nat, w0: Word, w1: Word, w9: Word, w14: Word, w16: Word)
    requires 16 <= t < 64 && Scheduled(t - 16, [w0]) && Scheduled(t - 15, [w1]) && Scheduled(t - 7, [w9])
    requires Scheduled(t - 2, [w14]) && w16 == Sum(Sum(Sum(w0, SmallSigma0(w1)), w9), SmallSigma1(w14))
    ensures Scheduled(t, [w16])
  {
    hide Sum, SmallSigma0, SmallSigma1, AbcBlock, Scheduled;
    ScheduledOne(t - 16, w0);
    ScheduledOne(t - 15, w1);
    ScheduledOne(t - 7, w9);
    ScheduledOne(t - 2, w14);
    ScheduledOne(t, w16);
  }

  lemma Word0(t: nat)
    requires t < 16
    ensures Scheduled(t, [if t == 0 then 0x61626380 else if t == 15 then 0x18 else 0])
  {
    hide BigEndianWord, Scheduled;
    ScheduledOne(t, if t == 0 then 0x61626380 else if t == 15 then 0x18 else 0);
    var b := AbcBlock();
    ReadWords();
    assert b[4 * t] == (if t == 0 then 97 else 0) && b[4 * t + 1] == (if t == 0 then 98 else 0);
    assert b[4 * t + 2] == (if t == 0 then 99 else 0);
    assert b[4 * t + 3] == (if t == 0 then 0x80 else if t == 15 then 24 else 0);
  }

  lemma ReadWords()
    ensures BigEndianWord(97, 98, 99, 0x80) == 0x61626380 && BigEndianWord(0, 0, 0, 0) == 0
    ensures BigEndianWord(0, 0, 0, 24) == 0x18
  {
  }

  lemma Words0()
    ensures Scheduled(0, [0x61626380]) && Scheduled(1, [0x00000000]) && Scheduled(2, [0x00000000])
            && Scheduled(3, [0x00000000])
    ensures Scheduled(4, [0x00000000]) && Scheduled(5, [0x00000000]) && Scheduled(6, [0x00000000])
            && Scheduled(7, [0x00000000])
    ensures Scheduled(8, [0x00000000]) && Scheduled(9, [0x00000000]) && Scheduled(10, [0x00000000])
            && Scheduled(11, [0x00000000])
    ensures Scheduled(12, [0x00000000]) && Scheduled(13, [0x00000000]) && Scheduled(14, [0x00000000])
            && Scheduled(15, [0x00000018])
  {
    hide Scheduled;
    Word0(0); Word0(1); Word0(2); Word0(3); Word0(4); Word0(5); Word0(6); Word0(7);
    Word0(8); Word0(9); Word0(10); Word0(11); Word0(12); Word0(13); Word0(14); Word0(15);
  }

  lemma Words16()
    ensures Scheduled(16, [0x61626380]) && Scheduled(17, [0x000f0000]) && Scheduled(18, [0x7da86405])
            && Scheduled(19, [0x600003c6])
    ensures Scheduled(20, [0x3e9d7b78]) && Scheduled(21, [0x0183fc00]) && Scheduled(22, [0x12dcbfdb])
            && Scheduled(23, [0xe2e2c38e])
  {
    hide Scheduled;
    Words0();
    Extend(16, 0x61626380, 0x00000000, 0x00000000, 0x00000000, 0x61626380);
    Extend(17, 0x00000000, 0x00000000, 0x00000000, 0x00000018, 0x000f0000);
    Extend(18, 0x00000000, 0x00000000, 0x00000000, 0x61626380, 0x7da86405);
    Extend(19, 0x00000000, 0x00000000, 0x00000000, 0x000f0000, 0x600003c6);
    Extend(20, 0x00000000, 0x00000000, 0x00000000, 0x7da86405, 0x3e9d7b78);
    Extend(21, 0x00000000, 0x00000000, 0x00000000, 0x600003c6, 0x0183fc00);
    Extend(22, 0x00000000, 0x00000000, 0x00000018, 0x3e9d7b78, 0x12dcbfdb);
    Extend(23, 0x00000000, 0x00000000, 0x61626380, 0x0183fc00, 0xe2e2c38e);
  }

  lemma Words24()
    ensures Scheduled(24, [0xc8215c1a]) && Scheduled(25, [0xb73679a2]) && Scheduled(26, [0xe5bc3909])
            && Scheduled(27, [0x32663c5b])
    ensures Scheduled(28, [0x9d209d67]) && Scheduled(29, [0xec8726cb]) && Scheduled(30, [0x702138a4])
            && Scheduled(31, [0xd3b7973b])
  {
    hide Scheduled;
    Words0();
    Words16();
    Extend(24, 0x00000000, 0x00000000, 0x000f0000, 0x12dcbfdb, 0xc8215c1a);
    Extend(25, 0x00000000, 0x00000000, 0x7da86405, 0xe2e2c38e, 0xb73679a2);
    Extend(26, 0x00000000, 0x00000000, 0x600003c6, 0xc8215c1a, 0xe5bc3909);
    Extend(27, 0x00000000, 0x00000000, 0x3e9d7b78, 0xb73679a2, 0x32663c5b);
    Extend(28, 0x00000000, 0x00000000, 0x0183fc00, 0xe5bc3909, 0x9d209d67);
    Extend(29, 0x00000000, 0x00000000, 0x12dcbfdb, 0x32663c5b, 0xec8726cb);
    Extend(30, 0x00000000, 0x00000018, 0xe2e2c38e, 0x9d209d67, 0x702138a4);
    Extend(31, 0x00000018, 0x61626380, 0xc8215c1a, 0xec8726cb, 0xd3b7973b);
  }

  lemma Words32()
    ensures Scheduled(32, [0x93f5997f]) && Scheduled(33, [0x3b68ba73]) && Scheduled(34, [0xaff4ffc1])
            && Scheduled(35, [0xf10a5c62])
    ensures Scheduled(36, [0x0a8b3996]) && Scheduled(37, [0x72af830a]) && Scheduled(38, [0x9409e33e])
            && Scheduled(39, [0x24641522])
  {
    hide Scheduled;
    Words16();
    Words24();
    Extend(32, 0x61626380, 0x000f0000, 0xb73679a2, 0x702138a4, 0x93f5997f);
    Extend(33, 0x000f0000, 0x7da86405, 0xe5bc3909, 0xd3b7973b, 0x3b68ba73);
    Extend(34, 0x7da86405, 0x600003c6, 0x32663c5b, 0x93f5997f, 0xaff4ffc1);
    Extend(35, 0x600003c6, 0x3e9d7b78, 0x9d209d67, 0x3b68ba73, 0xf10a5c62);
    Extend(36, 0x3e9d7b78, 0x0183fc00, 0xec8726cb, 0xaff4ffc1, 0x0a8b3996);
    Extend(37, 0x0183fc00, 0x12dcbfdb, 0x702138a4, 0xf10a5c62, 0x72af830a);
    Extend(38, 0x12dcbfdb, 0xe2e2c38e, 0xd3b7973b, 0x0a8b3996, 0x9409e33e);
    Extend(39, 0xe2e2c38e, 0xc8215c1a, 0x93f5997f, 0x72af830a, 0x24641522);
  }

  lemma Words40()
    ensures Scheduled(40, [0x9f47bf94]) && Scheduled(41, [0xf0a64f5a]) && Scheduled(42, [0x3e246a79])
            && Scheduled(43, [0x27333ba3])
    ensures Scheduled(44, [0x0c4763f2]) && Scheduled(45, [0x840abf27]) && Scheduled(46, [0x7a290d5d])
            && Scheduled(47, [0x065c43da])
  {
    hide Scheduled;
    Words24();
    Words32();
    Extend(40, 0xc8215c1a, 0xb73679a2, 0x3b68ba73, 0x9409e33e, 0x9f47bf94);
    Extend(41, 0xb73679a2, 0xe5bc3909, 0xaff4ffc1, 0x24641522, 0xf0a64f5a);
    Extend(42, 0xe5bc3909, 0x32663c5b, 0xf10a5c62, 0x9f47bf94, 0x3e246a79);
    Extend(43, 0x32663c5b, 0x9d209d67, 0x0a8b3996, 0xf0a64f5a, 0x27333ba3);
    Extend(44, 0x9d209d67, 0xec8726cb, 0x72af830a, 0x3e246a79, 0x0c4763f2);
    Extend(45, 0xec8726cb, 0x702138a4, 0x9409e33e, 0x27333ba3, 0x840abf27);
    Extend(46, 0x702138a4, 0xd3b7973b, 0x24641522, 0x0c4763f2, 0x7a290d5d);
    Extend(47, 0xd3b7973b, 0x93f5997f, 0x9f47bf94, 0x840abf27, 0x065c43da);
  }

  lemma Words48()
    ensures Scheduled(48, [0xfb3e89cb]) && Scheduled(49, [0xcc7617db]) && Scheduled(50, [0xb9e66c34])
            && Scheduled(51, [0xa9993667])
    ensures Scheduled(52, [0x84badedd]) && Scheduled(53, [0xc21462bc]) && Scheduled(54, [0x1487472c])
            && Scheduled(55, [0xb20f7a99])
  {
    hide Scheduled;
    Words32();
    Words40();
    Extend(48, 0x93f5997f, 0x3b68ba73, 0xf0a64f5a, 0x7a290d5d, 0xfb3e89cb);
    Extend(49, 0x3b68ba73, 0xaff4ffc1, 0x3e246a79, 0x065c43da, 0xcc7617db);
    Extend(50, 0xaff4ffc1, 0xf10a5c62, 0x27333ba3, 0xfb3e89cb, 0xb9e66c34);
    Extend(51, 0xf10a5c62, 0x0a8b3996, 0x0c4763f2, 0xcc7617db, 0xa9993667);
    Extend(52, 0x0a8b3996, 0x72af830a, 0x840abf27, 0xb9e66c34, 0x84badedd);
    Extend(53, 0x72af830a, 0x9409e33e, 0x7a290d5d, 0xa9993667, 0xc21462bc);
    Extend(54, 0x9409e33e, 0x24641522, 0x065c43da, 0x84badedd, 0x1487472c);
    Extend(55, 0x24641522, 0x9f47bf94, 0xfb3e89cb, 0xc21462bc, 0xb20f7a99);
  }

  lemma Words56()
    ensures Scheduled(56, [0xef57b9cd]) && Scheduled(57, [0xebe6b238]) && Scheduled(58, [0x9fe3095e])
            && Scheduled(59, [0x78bc8d4b])
    ensures Scheduled(60, [0xa43fcf15]) && Scheduled(61, [0x668b2ff8]) && Scheduled(62, [0xeeaba2cc])
            && Scheduled(63, [0x12b1edeb])
  {
    hide Scheduled;
    Words40();
    Words48();
    Extend(56, 0x9f47bf94, 0xf0a64f5a, 0xcc7617db, 0x1487472c, 0xef57b9cd);
    Extend(57, 0xf0a64f5a, 0x3e246a79, 0xb9e66c34, 0xb20f7a99, 0xebe6b238);
    Extend(58, 0x3e246a79, 0x27333ba3, 0xa9993667, 0xef57b9cd, 0x9fe3095e);
    Extend(59, 0x27333ba3, 0x0c4763f2, 0x84badedd, 0xebe6b238, 0x78bc8d4b);
    Extend(60, 0x0c4763f2, 0x840abf27, 0xc21462bc, 0x9fe3095e, 0xa43fcf15);
    Extend(61, 0x840abf27, 0x7a290d5d, 0x1487472c, 0x78bc8d4b, 0x668b2ff8);
    Extend(62, 0x7a290d5d, 0x065c43da, 0xb20f7a99, 0xa43fcf15, 0xeeaba2cc);
    Extend(63, 0x065c43da, 0xfb3e89cb, 0xef57b9cd, 0x668b2ff8, 0x12b1edeb);
  }

  // ----- The turns -----

  predicate Turned(t: nat, v: Words) { t <= 64 && Rounds(INITIAL, AbcBlock(), t) == v }

  /** A turn: working variables, constant, word, new a and new e. */
  predicate Step(a: Word, b: Word, c: Word, d: Word, e: Word, f: Word, g: Word, h: Word, k: Word, w: Word,
                 a1: Word, e1: Word)
  {
    Round(Words(a, b, c, d, e, f, g, h), k, w) == Words(a1, a, b, c, e1, e, f, g)
  }

  /** One more turn. */
  lemma Turn(t: nat, a: Word, b: Word, c: Word, d: Word, e: Word, f: Word, g: Word, h: Word, k: Word, w: Word,
             a1: Word, e1: Word)
    requires t < 64 && Turned(t, Words(a, b, c, d, e, f, g, h)) && Constant(t, k) && Scheduled(t, [w])
    requires Step(a, b, c, d, e, f, g, h, k, w, a1, e1)
    ensures Turned(t + 1, Words(a1, a, b, c, e1, e, f, g))
  {
    hide Round, AbcBlock, Scheduled;
    ScheduledOne(t, w);
  }

  predicate Constant(t: nat, k: Word) { t < 64 && K[t] == k }

  lemma Turns0()
    ensures Turned(0, INITIAL)
  {
    hide AbcBlock;
  }

  lemma Constants0()
    ensures Constant(0, 0x428a2f98) && Constant(1, 0x71374491) && Constant(2, 0xb5c0fbcf) && Constant(3, 0xe9b5dba5)
    ensures Constant(4, 0x3956c25b) && Constant(5, 0x59f111f1) && Constant(6, 0x923f82a4) && Constant(7, 0xab1c5ed5)
  {
  }

  lemma Constants8()
    ensures Constant(8, 0xd807aa98) && Constant(9, 0x12835b01) && Constant(10, 0x243185be) && Constant(11, 0x550c7dc3)
    ensures Constant(12, 0x72be5d74) && Constant(13, 0x80deb1fe) && Constant(14, 0x9bdc06a7) && Constant(15, 0xc19bf174)
  {
  }

  lemma Constants16()
    ensures Constant(16, 0xe49b69c1) && Constant(17, 0xefbe4786) && Constant(18, 0x0fc19dc6) && Constant(19, 0x240ca1cc)
    ensures Constant(20, 0x2de92c6f) && Constant(21, 0x4a7484aa) && Constant(22, 0x5cb0a9dc) && Constant(23, 0x76f988da)
  {
  }

  lemma Constants24()
    ensures Constant(24, 0x983e5152) && Constant(25, 0xa831c66d) && Constant(26, 0xb00327c8) && Constant(27, 0xbf597fc7)
    ensures Constant(28, 0xc6e00bf3) && Constant(29, 0xd5a79147) && Constant(30, 0x06ca6351) && Constant(31, 0x14292967)
  {
  }

  lemma Constants32()
    ensures Constant(32, 0x27b70a85) && Constant(33, 0x2e1b2138) && Constant(34, 0x4d2c6dfc) && Constant(35, 0x53380d13)
    ensures Constant(36, 0x650a7354) && Constant(37, 0x766a0abb) && Constant(38, 0x81c2c92e) && Constant(39, 0x92722c85)
  {
  }

  lemma Constants40()
    ensures Constant(40, 0xa2bfe8a1) && Constant(41, 0xa81a664b) && Constant(42, 0xc24b8b70) && Constant(43, 0xc76c51a3)
    ensures Constant(44, 0xd192e819) && Constant(45, 0xd6990624) && Constant(46, 0xf40e3585) && Constant(47, 0x106aa070)
  {
  }

  lemma Constants48()
    ensures Constant(48, 0x19a4c116) && Constant(49, 0x1e376c08) && Constant(50, 0x2748774c) && Constant(51, 0x34b0bcb5)
    ensures Constant(52, 0x391c0cb3) && Constant(53, 0x4ed8aa4a) && Constant(54, 0x5b9cca4f) && Constant(55, 0x682e6ff3)
  {
  }

  lemma Constants56()
    ensures Constant(56, 0x748f82ee) && Constant(57, 0x78a5636f) && Constant(58, 0x84c87814) && Constant(59, 0x8cc70208)
    ensures Constant(60, 0x90befffa) && Constant(61, 0xa4506ceb) && Constant(62, 0xbef9a3f7) && Constant(63, 0xc67178f2)
  {
  }

  lemma Turns8()
    ensures Turned(8, Words(0x85a07b5f, 0xe5030380, 0x2b4209f5, 0x04409a6a, 0x0c657a79, 0x9b27a401, 0x714260ad,
            0x43ada245))
  {
    hide Turned, Scheduled, Constant;
    Turns0();
    Constants0();
    Words0();
    Turn(0, 0x6a09e667, 0xbb67ae85, 0x3c6ef372, 0xa54ff53a, 0x510e527f, 0x9b05688c, 0x1f83d9ab, 0x5be0cd19,
            0x428a2f98, 0x61626380, 0x5d6aebcd, 0xfa2a4622);
    Turn(1, 0x5d6aebcd, 0x6a09e667, 0xbb67ae85, 0x3c6ef372, 0xfa2a4622, 0x510e527f, 0x9b05688c, 0x1f83d9ab,
            0x71374491, 0x00000000, 0x5a6ad9ad, 0x78ce7989);
    Turn(2, 0x5a6ad9ad, 0x5d6aebcd, 0x6a09e667, 0xbb67ae85, 0x78ce7989, 0xfa2a4622, 0x510e527f, 0x9b05688c,
            0xb5c0fbcf, 0x00000000, 0xc8c347a7, 0xf92939eb);
    Turn(3, 0xc8c347a7, 0x5a6ad9ad, 0x5d6aebcd, 0x6a09e667, 0xf92939eb, 0x78ce7989, 0xfa2a4622, 0x510e527f,
            0xe9b5dba5, 0x00000000, 0xd550f666, 0x24e00850);
    Turn(4, 0xd550f666, 0xc8c347a7, 0x5a6ad9ad, 0x5d6aebcd, 0x24e00850, 0xf92939eb, 0x78ce7989, 0xfa2a4622,
            0x3956c25b, 0x00000000, 0x04409a6a, 0x43ada245);
    Turn(5, 0x04409a6a, 0xd550f666, 0xc8c347a7, 0x5a6ad9ad, 0x43ada245, 0x24e00850, 0xf92939eb, 0x78ce7989,
            0x59f111f1, 0x00000000, 0x2b4209f5, 0x714260ad);
    Turn(6, 0x2b4209f5, 0x04409a6a, 0xd550f666, 0xc8c347a7, 0x714260ad, 0x43ada245, 0x24e00850, 0xf92939eb,
            0x923f82a4, 0x00000000, 0xe5030380, 0x9b27a401);
    Turn(7, 0xe5030380, 0x2b4209f5, 0x04409a6a, 0xd550f666, 0x9b27a401, 0x714260ad, 0x43ada245, 0x24e00850,
            0xab1c5ed5, 0x00000000, 0x85a07b5f, 0x0c657a79);
  }

  lemma Turns16()
    ensures Turned(16, Words(0xb0fa238e, 0xc0645fde, 0xd932eb16, 0x87912990, 0x07590dcd, 0x0b92f20c, 0x745a48de,
            0x1e578218))
  {
    hide Turned, Scheduled, Constant;
    Turns8();
    Constants8();
    Words0();
    Turn(8, 0x85a07b5f, 0xe5030380, 0x2b4209f5, 0x04409a6a, 0x0c657a79, 0x9b27a401, 0x714260ad, 0x43ada245,
            0xd807aa98, 0x00000000, 0x8e04ecb9, 0x32ca2d8c);
    Turn(9, 0x8e04ecb9, 0x85a07b5f, 0xe5030380, 0x2b4209f5, 0x32ca2d8c, 0x0c657a79, 0x9b27a401, 0x714260ad,
            0x12835b01, 0x00000000, 0x8c87346b, 0x1cc92596);
    Turn(10, 0x8c87346b, 0x8e04ecb9, 0x85a07b5f, 0xe5030380, 0x1cc92596, 0x32ca2d8c, 0x0c657a79, 0x9b27a401,
             0x243185be, 0x00000000, 0x4798a3f4, 0x436b23e8);
    Turn(11, 0x4798a3f4, 0x8c87346b, 0x8e04ecb9, 0x85a07b5f, 0x436b23e8, 0x1cc92596, 0x32ca2d8c, 0x0c657a79,
             0x550c7dc3, 0x00000000, 0xf71fc5a9, 0x816fd6e9);
    Turn(12, 0xf71fc5a9, 0x4798a3f4, 0x8c87346b, 0x8e04ecb9, 0x816fd6e9, 0x436b23e8, 0x1cc92596, 0x32ca2d8c,
             0x72be5d74, 0x00000000, 0x87912990, 0x1e578218);
    Turn(13, 0x87912990, 0xf71fc5a9, 0x4798a3f4, 0x8c87346b, 0x1e578218, 0x816fd6e9, 0x436b23e8, 0x1cc92596,
             0x80deb1fe, 0x00000000, 0xd932eb16, 0x745a48de);
    Turn(14, 0xd932eb16, 0x87912990, 0xf71fc5a9, 0x4798a3f4, 0x745a48de, 0x1e578218, 0x816fd6e9, 0x436b23e8,
             0x9bdc06a7, 0x00000000, 0xc0645fde, 0x0b92f20c);
    Turn(15, 0xc0645fde, 0xd932eb16, 0x87912990, 0xf71fc5a9, 0x0b92f20c, 0x745a48de, 0x1e578218, 0x816fd6e9,
             0xc19bf174, 0x00000018, 0xb0fa238e, 0x07590dcd);
  }

  lemma Turns24()
    ensures Turned(24, Words(0xc5d53d8d, 0xa7a3623f, 0xc2606d6d, 0x9dc68b63, 0xaa47c347, 0x49f5114a, 0xe1257970,
            0x8ada8930))
  {
    hide Turned, Scheduled, Constant;
    Turns16();
    Constants16();
    Words16();
    Turn(16, 0xb0fa238e, 0xc0645fde, 0xd932eb16, 0x87912990, 0x07590dcd, 0x0b92f20c, 0x745a48de, 0x1e578218,
             0xe49b69c1, 0x61626380, 0x21da9a9b, 0x8034229c);
    Turn(17, 0x21da9a9b, 0xb0fa238e, 0xc0645fde, 0xd932eb16, 0x8034229c, 0x07590dcd, 0x0b92f20c, 0x745a48de,
             0xefbe4786, 0x000f0000, 0xc2fbd9d1, 0x846ee454);
    Turn(18, 0xc2fbd9d1, 0x21da9a9b, 0xb0fa238e, 0xc0645fde, 0x846ee454, 0x8034229c, 0x07590dcd, 0x0b92f20c,
             0x0fc19dc6, 0x7da86405, 0xfe777bbf, 0xcc899961);
    Turn(19, 0xfe777bbf, 0xc2fbd9d1, 0x21da9a9b, 0xb0fa238e, 0xcc899961, 0x846ee454, 0x8034229c, 0x07590dcd,
             0x240ca1cc, 0x600003c6, 0xe1f20c33, 0xb0638179);
    Turn(20, 0xe1f20c33, 0xfe777bbf, 0xc2fbd9d1, 0x21da9a9b, 0xb0638179, 0xcc899961, 0x846ee454, 0x8034229c,
             0x2de92c6f, 0x3e9d7b78, 0x9dc68b63, 0x8ada8930);
    Turn(21, 0x9dc68b63, 0xe1f20c33, 0xfe777bbf, 0xc2fbd9d1, 0x8ada8930, 0xb0638179, 0xcc899961, 0x846ee454,
             0x4a7484aa, 0x0183fc00, 0xc2606d6d, 0xe1257970);
    Turn(22, 0xc2606d6d, 0x9dc68b63, 0xe1f20c33, 0xfe777bbf, 0xe1257970, 0x8ada8930, 0xb0638179, 0xcc899961,
             0x5cb0a9dc, 0x12dcbfdb, 0xa7a3623f, 0x49f5114a);
    Turn(23, 0xa7a3623f, 0xc2606d6d, 0x9dc68b63, 0xe1f20c33, 0x49f5114a, 0xe1257970, 0x8ada8930, 0xb0638179,
             0x76f988da, 0xe2e2c38e, 0xc5d53d8d, 0xaa47c347);
  }

  lemma Turns32()
    ensures Turned(32, Words(0x73b33bf5, 0xea992a22, 0xa0060b30, 0x363482c9, 0xba591112, 0x0109ab3a, 0xade79437,
            0x6112a3b7))
  {
    hide Turned, Scheduled, Constant;
    Turns24();
    Constants24();
    Words24();
    Turn(24, 0xc5d53d8d, 0xa7a3623f, 0xc2606d6d, 0x9dc68b63, 0xaa47c347, 0x49f5114a, 0xe1257970, 0x8ada8930,
             0x983e5152, 0xc8215c1a, 0x1c2c2838, 0x2823ef91);
    Turn(25, 0x1c2c2838, 0xc5d53d8d, 0xa7a3623f, 0xc2606d6d, 0x2823ef91, 0xaa47c347, 0x49f5114a, 0xe1257970,
             0xa831c66d, 0xb73679a2, 0xcde8037d, 0x14383d8e);
    Turn(26, 0xcde8037d, 0x1c2c2838, 0xc5d53d8d, 0xa7a3623f, 0x14383d8e, 0x2823ef91, 0xaa47c347, 0x49f5114a,
             0xb00327c8, 0xe5bc3909, 0xb62ec4bc, 0xc74c6516);
    Turn(27, 0xb62ec4bc, 0xcde8037d, 0x1c2c2838, 0xc5d53d8d, 0xc74c6516, 0x14383d8e, 0x2823ef91, 0xaa47c347,
             0xbf597fc7, 0x32663c5b, 0x77d37528, 0xedffbff8);
    Turn(28, 0x77d37528, 0xb62ec4bc, 0xcde8037d, 0x1c2c2838, 0xedffbff8, 0xc74c6516, 0x14383d8e, 0x2823ef91,
             0xc6e00bf3, 0x9d209d67, 0x363482c9, 0x6112a3b7);
    Turn(29, 0x363482c9, 0x77d37528, 0xb62ec4bc, 0xcde8037d, 0x6112a3b7, 0xedffbff8, 0xc74c6516, 0x14383d8e,
             0xd5a79147, 0xec8726cb, 0xa0060b30, 0xade79437);
    Turn(30, 0xa0060b30, 0x363482c9, 0x77d37528, 0xb62ec4bc, 0xade79437, 0x6112a3b7, 0xedffbff8, 0xc74c6516,
             0x06ca6351, 0x702138a4, 0xea992a22, 0x0109ab3a);
    Turn(31, 0xea992a22, 0xa0060b30, 0x363482c9, 0x77d37528, 0x0109ab3a, 0xade79437, 0x6112a3b7, 0xedffbff8,
             0x14292967, 0xd3b7973b, 0x73b33bf5, 0xba591112);
  }

  lemma Turns40()
    ensures Turned(40, Words(0x79ea687a, 0x6dc57a8a, 0x34df1604, 0x41a65cb1, 0x1efbc0a0, 0xf0781bc8, 0xa507a53d,
            0x0772a26b))
  {
    hide Turned, Scheduled, Constant;
    Turns32();
    Constants32();
    Words32();
    Turn(32, 0x73b33bf5, 0xea992a22, 0xa0060b30, 0x363482c9, 0xba591112, 0x0109ab3a, 0xade79437, 0x6112a3b7,
             0x27b70a85, 0x93f5997f, 0x98e12507, 0x9cd9f5f6);
    Turn(33, 0x98e12507, 0x73b33bf5, 0xea992a22, 0xa0060b30, 0x9cd9f5f6, 0xba591112, 0x0109ab3a, 0xade79437,
             0x2e1b2138, 0x3b68ba73, 0xfe604df5, 0x59249dd3);
    Turn(34, 0xfe604df5, 0x98e12507, 0x73b33bf5, 0xea992a22, 0x59249dd3, 0x9cd9f5f6, 0xba591112, 0x0109ab3a,
             0x4d2c6dfc, 0xaff4ffc1, 0xa9a7738c, 0x085f3833);
    Turn(35, 0xa9a7738c, 0xfe604df5, 0x98e12507, 0x73b33bf5, 0x085f3833, 0x59249dd3, 0x9cd9f5f6, 0xba591112,
             0x53380d13, 0xf10a5c62, 0x65a0cfe4, 0xf4b002d6);
    Turn(36, 0x65a0cfe4, 0xa9a7738c, 0xfe604df5, 0x98e12507, 0xf4b002d6, 0x085f3833, 0x59249dd3, 0x9cd9f5f6,
             0x650a7354, 0x0a8b3996, 0x41a65cb1, 0x0772a26b);
    Turn(37, 0x41a65cb1, 0x65a0cfe4, 0xa9a7738c, 0xfe604df5, 0x0772a26b, 0xf4b002d6, 0x085f3833, 0x59249dd3,
             0x766a0abb, 0x72af830a, 0x34df1604, 0xa507a53d);
    Turn(38, 0x34df1604, 0x41a65cb1, 0x65a0cfe4, 0xa9a7738c, 0xa507a53d, 0x0772a26b, 0xf4b002d6, 0x085f3833,
             0x81c2c92e, 0x9409e33e, 0x6dc57a8a, 0xf0781bc8);
    Turn(39, 0x6dc57a8a, 0x34df1604, 0x41a65cb1, 0x65a0cfe4, 0xf0781bc8, 0xa507a53d, 0x0772a26b, 0xf4b002d6,
             0x92722c85, 0x24641522, 0x79ea687a, 0x1efbc0a0);
  }

  lemma Turns48()
    ensures Turned(48, Words(0x4172328d, 0xa14c14b0, 0x72ab4b91, 0x26628815, 0xfecf0bc6, 0xd57b94a9, 0xb7755da1,
            0xa80f11f0))
  {
    hide Turned, Scheduled, Constant;
    Turns40();
    Constants40();
    Words40();
    Turn(40, 0x79ea687a, 0x6dc57a8a, 0x34df1604, 0x41a65cb1, 0x1efbc0a0, 0xf0781bc8, 0xa507a53d, 0x0772a26b,
             0xa2bfe8a1, 0x9f47bf94, 0xd6670766, 0x26352d63);
    Turn(41, 0xd6670766, 0x79ea687a, 0x6dc57a8a, 0x34df1604, 0x26352d63, 0x1efbc0a0, 0xf0781bc8, 0xa507a53d,
             0xa81a664b, 0xf0a64f5a, 0xdf46652f, 0x838b2711);
    Turn(42, 0xdf46652f, 0xd6670766, 0x79ea687a, 0x6dc57a8a, 0x838b2711, 0x26352d63, 0x1efbc0a0, 0xf0781bc8,
             0xc24b8b70, 0x3e246a79, 0x17aa0dfe, 0xdecd4715);
    Turn(43, 0x17aa0dfe, 0xdf46652f, 0xd6670766, 0x79ea687a, 0xdecd4715, 0x838b2711, 0x26352d63, 0x1efbc0a0,
             0xc76c51a3, 0x27333ba3, 0x9d4baf93, 0xfda24c2e);
    Turn(44, 0x9d4baf93, 0x17aa0dfe, 0xdf46652f, 0xd6670766, 0xfda24c2e, 0xdecd4715, 0x838b2711, 0x26352d63,
             0xd192e819, 0x0c4763f2, 0x26628815, 0xa80f11f0);
    Turn(45, 0x26628815, 0x9d4baf93, 0x17aa0dfe, 0xdf46652f, 0xa80f11f0, 0xfda24c2e, 0xdecd4715, 0x838b2711,
             0xd6990624, 0x840abf27, 0x72ab4b91, 0xb7755da1);
    Turn(46, 0x72ab4b91, 0x26628815, 0x9d4baf93, 0x17aa0dfe, 0xb7755da1, 0xa80f11f0, 0xfda24c2e, 0xdecd4715,
             0xf40e3585, 0x7a290d5d, 0xa14c14b0, 0xd57b94a9);
    Turn(47, 0xa14c14b0, 0x72ab4b91, 0x26628815, 0x9d4baf93, 0xd57b94a9, 0xb7755da1, 0xa80f11f0, 0xfda24c2e,
             0x106aa070, 0x065c43da, 0x4172328d, 0xfecf0bc6);
  }

  lemma Turns56()
    ensures Turned(56, Words(0x38cc9913, 0x3ec45cdb, 0xf5702fdb, 0x101fd28f, 0x54cb266b, 0xe50e1b4f, 0x9f4787c3,
            0x529e7d00))
  {
    hide Turned, Scheduled, Constant;
    Turns48();
    Constants48();
    Words48();
    Turn(48, 0x4172328d, 0xa14c14b0, 0x72ab4b91, 0x26628815, 0xfecf0bc6, 0xd57b94a9, 0xb7755da1, 0xa80f11f0,
             0x19a4c116, 0xfb3e89cb, 0x05757ceb, 0xbd714038);
    Turn(49, 0x05757ceb, 0x4172328d, 0xa14c14b0, 0x72ab4b91, 0xbd714038, 0xfecf0bc6, 0xd57b94a9, 0xb7755da1,
             0x1e376c08, 0xcc7617db, 0xf11bfaa8, 0x6e5c390c);
    Turn(50, 0xf11bfaa8, 0x05757ceb, 0x4172328d, 0xa14c14b0, 0x6e5c390c, 0xbd714038, 0xfecf0bc6, 0xd57b94a9,
             0x2748774c, 0xb9e66c34, 0x7a0508a1, 0x52f1ccf7);
    Turn(51, 0x7a0508a1, 0xf11bfaa8, 0x05757ceb, 0x4172328d, 0x52f1ccf7, 0x6e5c390c, 0xbd714038, 0xfecf0bc6,
             0x34b0bcb5, 0xa9993667, 0x886e7a22, 0x49231c1e);
    Turn(52, 0x886e7a22, 0x7a0508a1, 0xf11bfaa8, 0x05757ceb, 0x49231c1e, 0x52f1ccf7, 0x6e5c390c, 0xbd714038,
             0x391c0cb3, 0x84badedd, 0x101fd28f, 0x529e7d00);
    Turn(53, 0x101fd28f, 0x886e7a22, 0x7a0508a1, 0xf11bfaa8, 0x529e7d00, 0x49231c1e, 0x52f1ccf7, 0x6e5c390c,
             0x4ed8aa4a, 0xc21462bc, 0xf5702fdb, 0x9f4787c3);
    Turn(54, 0xf5702fdb, 0x101fd28f, 0x886e7a22, 0x7a0508a1, 0x9f4787c3, 0x529e7d00, 0x49231c1e, 0x52f1ccf7,
             0x5b9cca4f, 0x1487472c, 0x3ec45cdb, 0xe50e1b4f);
    Turn(55, 0x3ec45cdb, 0xf5702fdb, 0x101fd28f, 0x886e7a22, 0xe50e1b4f, 0x9f4787c3, 0x529e7d00, 0x49231c1e,
             0x682e6ff3, 0xb20f7a99, 0x38cc9913, 0x54cb266b);
  }

  lemma Turns64()
    ensures Turned(64, Words(0x506e3058, 0xd39a2165, 0x04d24d6c, 0xb85e2ce9, 0x5ef50f24, 0xfb121210, 0x948d25b6,
            0x961f4894))
  {
    hide Turned, Scheduled, Constant;
    Turns56();
    Constants56();
    Words56();
    Turn(56, 0x38cc9913, 0x3ec45cdb, 0xf5702fdb, 0x101fd28f, 0x54cb266b, 0xe50e1b4f, 0x9f4787c3, 0x529e7d00,
             0x748f82ee, 0xef57b9cd, 0xfcd1887b, 0x9b5e906c);
    Turn(57, 0xfcd1887b, 0x38cc9913, 0x3ec45cdb, 0xf5702fdb, 0x9b5e906c, 0x54cb266b, 0xe50e1b4f, 0x9f4787c3,
             0x78a5636f, 0xebe6b238, 0xc062d46f, 0x7e44008e);
    Turn(58, 0xc062d46f, 0xfcd1887b, 0x38cc9913, 0x3ec45cdb, 0x7e44008e, 0x9b5e906c, 0x54cb266b, 0xe50e1b4f,
             0x84c87814, 0x9fe3095e, 0xffb70472, 0x6d83bfc6);
    Turn(59, 0xffb70472, 0xc062d46f, 0xfcd1887b, 0x38cc9913, 0x6d83bfc6, 0x7e44008e, 0x9b5e906c, 0x54cb266b,
             0x8cc70208, 0x78bc8d4b, 0xb6ae8fff, 0xb21bad3d);
    Turn(60, 0xb6ae8fff, 0xffb70472, 0xc062d46f, 0xfcd1887b, 0xb21bad3d, 0x6d83bfc6, 0x7e44008e, 0x9b5e906c,
             0x90befffa, 0xa43fcf15, 0xb85e2ce9, 0x961f4894);
    Turn(61, 0xb85e2ce9, 0xb6ae8fff, 0xffb70472, 0xc062d46f, 0x961f4894, 0xb21bad3d, 0x6d83bfc6, 0x7e44008e,
             0xa4506ceb, 0x668b2ff8, 0x04d24d6c, 0x948d25b6);
    Turn(62, 0x04d24d6c, 0xb85e2ce9, 0xb6ae8fff, 0xffb70472, 0x948d25b6, 0x961f4894, 0xb21bad3d, 0x6d83bfc6,
             0xbef9a3f7, 0xeeaba2cc, 0xd39a2165, 0xfb121210);
    Turn(63, 0xd39a2165, 0x04d24d6c, 0xb85e2ce9, 0xb6ae8fff, 0xfb121210, 0x948d25b6, 0x961f4894, 0xb21bad3d,
             0xc67178f2, 0x12b1edeb, 0x506e3058, 0x5ef50f24);
  }

  /** SHA-256 of "abc". */
  lemma AbcHash()
    ensures Hash(Ascii("abc")) == [
      0xba, 0x78, 0x16, 0xbf, 0x8f, 0x01, 0xcf, 0xea,
      0x41, 0x41, 0x40, 0xde, 0x5d, 0xae, 0x22, 0x23,
      0xb0, 0x03, 0x61, 0xa3, 0x96, 0x17, 0x7a, 0x9c,
      0xb4, 0x10, 0xff, 0x61, 0xf2, 0x00, 0x15, 0xad]
  {
    hide Rounds, Schedule, Octets, SumWords;
    PaddedAbc();
    Turns64();
    FoldAppend([], AbcBlock());
    assert [] + AbcBlock() == AbcBlock();
    AbcSum();
    AbcOctets();
  }

  lemma PaddedAbc()
    ensures Pad(Ascii("abc")) == AbcBlock()
  {
    assert BigEndian(24, 8) == Zeros(7) + [24] by {
      assert BigEndian(0, 4) == Zeros(4);
      assert BigEndian(0, 7) == Zeros(7);
    }
    assert PadZeros(3) == 52;
    assert Ascii("abc") == [97, 98, 99];
  }

  lemma AbcSum()
    ensures SumWords(INITIAL, Words(0x506e3058, 0xd39a2165, 0x04d24d6c, 0xb85e2ce9, 0x5ef50f24, 0xfb121210, 0x948d25b6,
            0x961f4894))
            == Words(0xba7816bf, 0x8f01cfea, 0x414140de, 0x5dae2223, 0xb00361a3, 0x96177a9c, 0xb410ff61, 0xf20015ad)
  {
  }

  lemma AbcOctets()
    ensures Octets(Words(0xba7816bf, 0x8f01cfea, 0x414140de, 0x5dae2223, 0xb00361a3, 0x96177a9c, 0xb410ff61,
            0xf20015ad))
            == [
      0xba, 0x78, 0x16, 0xbf, 0x8f, 0x01, 0xcf, 0xea,
      0x41, 0x41, 0x40, 0xde, 0x5d, 0xae, 0x22, 0x23,
      0xb0, 0x03, 0x61, 0xa3, 0x96, 0x17, 0x7a, 0x9c,
      0xb4, 0x10, 0xff, 0x61, 0xf2, 0x00, 0x15, 0xad]
  {
  }
}
