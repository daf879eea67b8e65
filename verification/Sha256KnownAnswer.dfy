/**
 The digest of the message "abc" is the one that the examples of FIPS 180-4 give.
 The schedule and the registers are followed eight steps at a time.
 */
module Sha256KnownAnswer {
  import opened Sha256

  const ABC: seq<Byte> := [0x61, 0x62, 0x63]

  function AbcBlock(): (block: seq<Byte>)
    ensures |block| == 64
  {
    [0x61, 0x62, 0x63, 0x80] + Zeros(59) + [0x18]
  }

  lemma {:induction false} BigEndianZero(width: nat)
    ensures BigEndian(0, width) == Zeros(width)
  {
    if width > 0 { BigEndianZero(width - 1); }
  }

  lemma AbcIsPadded()
    ensures Padded(ABC) == AbcBlock() && Block(Padded(ABC), 0) == AbcBlock()
  {
    assert BigEndian(24, 8) == BigEndian(0, 7) + [24];
    BigEndianZero(7);
    hide BigEndian;
    assert ZeroBytes(3) == 52 && Zeros(52) + Zeros(7) == Zeros(59);
    assert Padded(ABC) == AbcBlock();
  }

  lemma OfWord(w: Word, x: int)
    requires w as int == x
    ensures 0 <= x < 0x1_0000_0000 && x as Word == w
  {
  }

  lemma BlockBytes(i: nat)
    requires i < 64
    ensures AbcBlock()[i] == if i == 0 then 0x61 else if i == 1 then 0x62 else if i == 2 then 0x63 else if i == 3 then 0x80 else if i == 63 then 0x18 else 0
  {
  }

  lemma FirstWord()
    ensures Schedule(AbcBlock(), 0) == 0x61626380
  {
    hide AbcBlock;
    BlockBytes(0);
    BlockBytes(1);
    BlockBytes(2);
    BlockBytes(3);
    OfWord(0x61626380, BigEndianValue(0x61, 0x62, 0x63, 0x80));
  }

  lemma LastWord()
    ensures Schedule(AbcBlock(), 15) == 0x18
  {
    hide AbcBlock;
    BlockBytes(60);
    BlockBytes(61);
    BlockBytes(62);
    BlockBytes(63);
    OfWord(0x18, BigEndianValue(0, 0, 0, 0x18));
  }

  lemma WordOfValue(bytes: seq<Byte>, i: nat, x: nat)
    requires i + 4 <= |bytes| && BigEndianValue(bytes[i], bytes[i + 1], bytes[i + 2], bytes[i + 3]) == x < 0x1_0000_0000
    ensures WordAt(bytes, i) == x as Word
  {
    hide BigEndianValue;
  }

  lemma ZeroWordAt(bytes: seq<Byte>, i: nat)
    requires i + 4 <= |bytes| && bytes[i] == 0 && bytes[i + 1] == 0 && bytes[i + 2] == 0 && bytes[i + 3] == 0
    ensures WordAt(bytes, i) == 0
  {
    hide WordAt;
    WordOfValue(bytes, i, 0);
  }

  lemma EarlyWord(t: nat)
    requires 0 < t < 15
    ensures Schedule(AbcBlock(), t) == 0
  {
    hide AbcBlock, WordAt;
    BlockBytes(4 * t);
    BlockBytes(4 * t + 1);
    BlockBytes(4 * t + 2);
    BlockBytes(4 * t + 3);
    ZeroWordAt(AbcBlock(), 4 * t);
  }

  lemma FirstWords()
    ensures Schedule(AbcBlock(), 0) == 0x61626380 && Schedule(AbcBlock(), 15) == 0x18
    ensures forall t :: 0 < t < 15 ==> Schedule(AbcBlock(), t) == 0
  {
    hide Schedule, AbcBlock;
    FirstWord();
    LastWord();
    forall t | 0 < t < 15 ensures Schedule(AbcBlock(), t) == 0 { EarlyWord(t); }
  }

  lemma LaterWord(block: seq<Byte>, t: nat)
    requires |block| == 64 && 16 <= t < 64
    ensures Schedule(block, t) == NextWord(Schedule(block, t - 2), Schedule(block, t - 7), Schedule(block, t - 15), Schedule(block, t - 16))
  {
  }

  lemma NextRound(start: Registers, block: seq<Byte>, t: nat)
    requires |block| == 64 && t < 64
    ensures Rounds(start, block, t + 1) == Round(Rounds(start, block, t), RoundConstant(t), Schedule(block, t))
  {
  }

  lemma Words0()
    ensures Schedule(AbcBlock(), 0) == 0x61626380 && Schedule(AbcBlock(), 1) == 0x00000000 && Schedule(AbcBlock(), 2) == 0x00000000 && Schedule(AbcBlock(), 3) == 0x00000000
    ensures Schedule(AbcBlock(), 4) == 0x00000000 && Schedule(AbcBlock(), 5) == 0x00000000 && Schedule(AbcBlock(), 6) == 0x00000000 && Schedule(AbcBlock(), 7) == 0x00000000
  {
    FirstWords();
    hide Schedule;
  }

  lemma Words1()
    ensures Schedule(AbcBlock(), 8) == 0x00000000 && Schedule(AbcBlock(), 9) == 0x00000000 && Schedule(AbcBlock(), 10) == 0x00000000 && Schedule(AbcBlock(), 11) == 0x00000000
    ensures Schedule(AbcBlock(), 12) == 0x00000000 && Schedule(AbcBlock(), 13) == 0x00000000 && Schedule(AbcBlock(), 14) == 0x00000000 && Schedule(AbcBlock(), 15) == 0x00000018
  {
    FirstWords();
    hide Schedule;
  }

  lemma Words2()
    ensures Schedule(AbcBlock(), 16) == 0x61626380 && Schedule(AbcBlock(), 17) == 0x000f0000 && Schedule(AbcBlock(), 18) == 0x7da86405 && Schedule(AbcBlock(), 19) == 0x600003c6
    ensures Schedule(AbcBlock(), 20) == 0x3e9d7b78 && Schedule(AbcBlock(), 21) == 0x0183fc00 && Schedule(AbcBlock(), 22) == 0x12dcbfdb && Schedule(AbcBlock(), 23) == 0xe2e2c38e
  {
    hide Schedule, AbcBlock;
    Words0();
    Words1();
    LaterWord(AbcBlock(), 16);
    LaterWord(AbcBlock(), 17);
    LaterWord(AbcBlock(), 18);
    LaterWord(AbcBlock(), 19);
    LaterWord(AbcBlock(), 20);
    LaterWord(AbcBlock(), 21);
    LaterWord(AbcBlock(), 22);
    LaterWord(AbcBlock(), 23);
  }

  lemma Words3()
    ensures Schedule(AbcBlock(), 24) == 0xc8215c1a && Schedule(AbcBlock(), 25) == 0xb73679a2 && Schedule(AbcBlock(), 26) == 0xe5bc3909 && Schedule(AbcBlock(), 27) == 0x32663c5b
    ensures Schedule(AbcBlock(), 28) == 0x9d209d67 && Schedule(AbcBlock(), 29) == 0xec8726cb && Schedule(AbcBlock(), 30) == 0x702138a4 && Schedule(AbcBlock(), 31) == 0xd3b7973b
  {
    hide Schedule, AbcBlock;
    Words1();
    Words2();
    LaterWord(AbcBlock(), 24);
    LaterWord(AbcBlock(), 25);
    LaterWord(AbcBlock(), 26);
    LaterWord(AbcBlock(), 27);
    LaterWord(AbcBlock(), 28);
    LaterWord(AbcBlock(), 29);
    LaterWord(AbcBlock(), 30);
    LaterWord(AbcBlock(), 31);
  }

  lemma Words4()
    ensures Schedule(AbcBlock(), 32) == 0x93f5997f && Schedule(AbcBlock(), 33) == 0x3b68ba73 && Schedule(AbcBlock(), 34) == 0xaff4ffc1 && Schedule(AbcBlock(), 35) == 0xf10a5c62
    ensures Schedule(AbcBlock(), 36) == 0x0a8b3996 && Schedule(AbcBlock(), 37) == 0x72af830a && Schedule(AbcBlock(), 38) == 0x9409e33e && Schedule(AbcBlock(), 39) == 0x24641522
  {
    hide Schedule, AbcBlock;
    Words2();
    Words3();
    LaterWord(AbcBlock(), 32);
    LaterWord(AbcBlock(), 33);
    LaterWord(AbcBlock(), 34);
    LaterWord(AbcBlock(), 35);
    LaterWord(AbcBlock(), 36);
    LaterWord(AbcBlock(), 37);
    LaterWord(AbcBlock(), 38);
    LaterWord(AbcBlock(), 39);
  }

  lemma Words5()
    ensures Schedule(AbcBlock(), 40) == 0x9f47bf94 && Schedule(AbcBlock(), 41) == 0xf0a64f5a && Schedule(AbcBlock(), 42) == 0x3e246a79 && Schedule(AbcBlock(), 43) == 0x27333ba3
    ensures Schedule(AbcBlock(), 44) == 0x0c4763f2 && Schedule(AbcBlock(), 45) == 0x840abf27 && Schedule(AbcBlock(), 46) == 0x7a290d5d && Schedule(AbcBlock(), 47) == 0x065c43da
  {
    hide Schedule, AbcBlock;
    Words3();
    Words4();
    LaterWord(AbcBlock(), 40);
    LaterWord(AbcBlock(), 41);
    LaterWord(AbcBlock(), 42);
    LaterWord(AbcBlock(), 43);
    LaterWord(AbcBlock(), 44);
    LaterWord(AbcBlock(), 45);
    LaterWord(AbcBlock(), 46);
    LaterWord(AbcBlock(), 47);
  }

  lemma Words6()
    ensures Schedule(AbcBlock(), 48) == 0xfb3e89cb && Schedule(AbcBlock(), 49) == 0xcc7617db && Schedule(AbcBlock(), 50) == 0xb9e66c34 && Schedule(AbcBlock(), 51) == 0xa9993667
    ensures Schedule(AbcBlock(), 52) == 0x84badedd && Schedule(AbcBlock(), 53) == 0xc21462bc && Schedule(AbcBlock(), 54) == 0x1487472c && Schedule(AbcBlock(), 55) == 0xb20f7a99
  {
    hide Schedule, AbcBlock;
    Words4();
    Words5();
    LaterWord(AbcBlock(), 48);
    LaterWord(AbcBlock(), 49);
    LaterWord(AbcBlock(), 50);
    LaterWord(AbcBlock(), 51);
    LaterWord(AbcBlock(), 52);
    LaterWord(AbcBlock(), 53);
    LaterWord(AbcBlock(), 54);
    LaterWord(AbcBlock(), 55);
  }

  lemma Words7()
    ensures Schedule(AbcBlock(), 56) == 0xef57b9cd && Schedule(AbcBlock(), 57) == 0xebe6b238 && Schedule(AbcBlock(), 58) == 0x9fe3095e && Schedule(AbcBlock(), 59) == 0x78bc8d4b
    ensures Schedule(AbcBlock(), 60) == 0xa43fcf15 && Schedule(AbcBlock(), 61) == 0x668b2ff8 && Schedule(AbcBlock(), 62) == 0xeeaba2cc && Schedule(AbcBlock(), 63) == 0x12b1edeb
  {
    hide Schedule, AbcBlock;
    Words5();
    Words6();
    LaterWord(AbcBlock(), 56);
    LaterWord(AbcBlock(), 57);
    LaterWord(AbcBlock(), 58);
    LaterWord(AbcBlock(), 59);
    LaterWord(AbcBlock(), 60);
    LaterWord(AbcBlock(), 61);
    LaterWord(AbcBlock(), 62);
    LaterWord(AbcBlock(), 63);
  }

  function AfterRounds(t: nat): Registers
    requires t <= 64
  {
    Rounds(InitialHash(), AbcBlock(), t)
  }

  lemma Rounds0()
    ensures AfterRounds(0) == InitialHash() == Registers(0x6a09e667, 0xbb67ae85, 0x3c6ef372, 0xa54ff53a, 0x510e527f, 0x9b05688c, 0x1f83d9ab, 0x5be0cd19)
  {
    OfWord(0x6a09e667, INITIAL[0]);
    OfWord(0xbb67ae85, INITIAL[1]);
    OfWord(0x3c6ef372, INITIAL[2]);
    OfWord(0xa54ff53a, INITIAL[3]);
    OfWord(0x510e527f, INITIAL[4]);
    OfWord(0x9b05688c, INITIAL[5]);
    OfWord(0x1f83d9ab, INITIAL[6]);
    OfWord(0x5be0cd19, INITIAL[7]);
  }

  lemma Constants0()
    ensures RoundConstant(0) == 0x428a2f98 && RoundConstant(1) == 0x71374491 && RoundConstant(2) == 0xb5c0fbcf && RoundConstant(3) == 0xe9b5dba5
    ensures RoundConstant(4) == 0x3956c25b && RoundConstant(5) == 0x59f111f1 && RoundConstant(6) == 0x923f82a4 && RoundConstant(7) == 0xab1c5ed5
  {
    OfWord(0x428a2f98, K[0][0]);
    OfWord(0x71374491, K[0][1]);
    OfWord(0xb5c0fbcf, K[0][2]);
    OfWord(0xe9b5dba5, K[0][3]);
    OfWord(0x3956c25b, K[0][4]);
    OfWord(0x59f111f1, K[0][5]);
    OfWord(0x923f82a4, K[0][6]);
    OfWord(0xab1c5ed5, K[0][7]);
  }

  lemma Rounds1()
    ensures AfterRounds(8) == Registers(0x85a07b5f, 0xe5030380, 0x2b4209f5, 0x04409a6a, 0x0c657a79, 0x9b27a401, 0x714260ad, 0x43ada245)
  {
    hide Schedule, AbcBlock, Rounds, RoundConstant;
    Rounds0();
    Words0();
    Constants0();
    NextRound(InitialHash(), AbcBlock(), 0);
    NextRound(InitialHash(), AbcBlock(), 1);
    NextRound(InitialHash(), AbcBlock(), 2);
    NextRound(InitialHash(), AbcBlock(), 3);
    NextRound(InitialHash(), AbcBlock(), 4);
    NextRound(InitialHash(), AbcBlock(), 5);
    NextRound(InitialHash(), AbcBlock(), 6);
    NextRound(InitialHash(), AbcBlock(), 7);
  }

  lemma Constants1()
    ensures RoundConstant(8) == 0xd807aa98 && RoundConstant(9) == 0x12835b01 && RoundConstant(10) == 0x243185be && RoundConstant(11) == 0x550c7dc3
    ensures RoundConstant(12) == 0x72be5d74 && RoundConstant(13) == 0x80deb1fe && RoundConstant(14) == 0x9bdc06a7 && RoundConstant(15) == 0xc19bf174
  {
    OfWord(0xd807aa98, K[1][0]);
    OfWord(0x12835b01, K[1][1]);
    OfWord(0x243185be, K[1][2]);
    OfWord(0x550c7dc3, K[1][3]);
    OfWord(0x72be5d74, K[1][4]);
    OfWord(0x80deb1fe, K[1][5]);
    OfWord(0x9bdc06a7, K[1][6]);
    OfWord(0xc19bf174, K[1][7]);
  }

  lemma Rounds2()
    ensures AfterRounds(16) == Registers(0xb0fa238e, 0xc0645fde, 0xd932eb16, 0x87912990, 0x07590dcd, 0x0b92f20c, 0x745a48de, 0x1e578218)
  {
    hide Schedule, AbcBlock, Rounds, RoundConstant;
    Rounds1();
    Words1();
    Constants1();
    NextRound(InitialHash(), AbcBlock(), 8);
    NextRound(InitialHash(), AbcBlock(), 9);
    NextRound(InitialHash(), AbcBlock(), 10);
    NextRound(InitialHash(), AbcBlock(), 11);
    NextRound(InitialHash(), AbcBlock(), 12);
    NextRound(InitialHash(), AbcBlock(), 13);
    NextRound(InitialHash(), AbcBlock(), 14);
    NextRound(InitialHash(), AbcBlock(), 15);
  }

  lemma Constants2()
    ensures RoundConstant(16) == 0xe49b69c1 && RoundConstant(17) == 0xefbe4786 && RoundConstant(18) == 0x0fc19dc6 && RoundConstant(19) == 0x240ca1cc
    ensures RoundConstant(20) == 0x2de92c6f && RoundConstant(21) == 0x4a7484aa && RoundConstant(22) == 0x5cb0a9dc && RoundConstant(23) == 0x76f988da
  {
    OfWord(0xe49b69c1, K[2][0]);
    OfWord(0xefbe4786, K[2][1]);
    OfWord(0x0fc19dc6, K[2][2]);
    OfWord(0x240ca1cc, K[2][3]);
    OfWord(0x2de92c6f, K[2][4]);
    OfWord(0x4a7484aa, K[2][5]);
    OfWord(0x5cb0a9dc, K[2][6]);
    OfWord(0x76f988da, K[2][7]);
  }

  lemma Rounds3()
    ensures AfterRounds(24) == Registers(0xc5d53d8d, 0xa7a3623f, 0xc2606d6d, 0x9dc68b63, 0xaa47c347, 0x49f5114a, 0xe1257970, 0x8ada8930)
  {
    hide Schedule, AbcBlock, Rounds, RoundConstant;
    Rounds2();
    Words2();
    Constants2();
    NextRound(InitialHash(), AbcBlock(), 16);
    NextRound(InitialHash(), AbcBlock(), 17);
    NextRound(InitialHash(), AbcBlock(), 18);
    NextRound(InitialHash(), AbcBlock(), 19);
    NextRound(InitialHash(), AbcBlock(), 20);
    NextRound(InitialHash(), AbcBlock(), 21);
    NextRound(InitialHash(), AbcBlock(), 22);
    NextRound(InitialHash(), AbcBlock(), 23);
  }

  lemma Constants3()
    ensures RoundConstant(24) == 0x983e5152 && RoundConstant(25) == 0xa831c66d && RoundConstant(26) == 0xb00327c8 && RoundConstant(27) == 0xbf597fc7
    ensures RoundConstant(28) == 0xc6e00bf3 && RoundConstant(29) == 0xd5a79147 && RoundConstant(30) == 0x06ca6351 && RoundConstant(31) == 0x14292967
  {
    OfWord(0x983e5152, K[3][0]);
    OfWord(0xa831c66d, K[3][1]);
    OfWord(0xb00327c8, K[3][2]);
    OfWord(0xbf597fc7, K[3][3]);
    OfWord(0xc6e00bf3, K[3][4]);
    OfWord(0xd5a79147, K[3][5]);
    OfWord(0x06ca6351, K[3][6]);
    OfWord(0x14292967, K[3][7]);
  }

  lemma Rounds4()
    ensures AfterRounds(32) == Registers(0x73b33bf5, 0xea992a22, 0xa0060b30, 0x363482c9, 0xba591112, 0x0109ab3a, 0xade79437, 0x6112a3b7)
  {
    hide Schedule, AbcBlock, Rounds, RoundConstant;
    Rounds3();
    Words3();
    Constants3();
    NextRound(InitialHash(), AbcBlock(), 24);
    NextRound(InitialHash(), AbcBlock(), 25);
    NextRound(InitialHash(), AbcBlock(), 26);
    NextRound(InitialHash(), AbcBlock(), 27);
    NextRound(InitialHash(), AbcBlock(), 28);
    NextRound(InitialHash(), AbcBlock(), 29);
    NextRound(InitialHash(), AbcBlock(), 30);
    NextRound(InitialHash(), AbcBlock(), 31);
  }

  lemma Constants4()
    ensures RoundConstant(32) == 0x27b70a85 && RoundConstant(33) == 0x2e1b2138 && RoundConstant(34) == 0x4d2c6dfc && RoundConstant(35) == 0x53380d13
    ensures RoundConstant(36) == 0x650a7354 && RoundConstant(37) == 0x766a0abb && RoundConstant(38) == 0x81c2c92e && RoundConstant(39) == 0x92722c85
  {
    OfWord(0x27b70a85, K[4][0]);
    OfWord(0x2e1b2138, K[4][1]);
    OfWord(0x4d2c6dfc, K[4][2]);
    OfWord(0x53380d13, K[4][3]);
    OfWord(0x650a7354, K[4][4]);
    OfWord(0x766a0abb, K[4][5]);
    OfWord(0x81c2c92e, K[4][6]);
    OfWord(0x92722c85, K[4][7]);
  }

  lemma Rounds5()
    ensures AfterRounds(40) == Registers(0x79ea687a, 0x6dc57a8a, 0x34df1604, 0x41a65cb1, 0x1efbc0a0, 0xf0781bc8, 0xa507a53d, 0x0772a26b)
  {
    hide Schedule, AbcBlock, Rounds, RoundConstant;
    Rounds4();
    Words4();
    Constants4();
    NextRound(InitialHash(), AbcBlock(), 32);
    NextRound(InitialHash(), AbcBlock(), 33);
    NextRound(InitialHash(), AbcBlock(), 34);
    NextRound(InitialHash(), AbcBlock(), 35);
    NextRound(InitialHash(), AbcBlock(), 36);
    NextRound(InitialHash(), AbcBlock(), 37);
    NextRound(InitialHash(), AbcBlock(), 38);
    NextRound(InitialHash(), AbcBlock(), 39);
  }

  lemma Constants5()
    ensures RoundConstant(40) == 0xa2bfe8a1 && RoundConstant(41) == 0xa81a664b && RoundConstant(42) == 0xc24b8b70 && RoundConstant(43) == 0xc76c51a3
    ensures RoundConstant(44) == 0xd192e819 && RoundConstant(45) == 0xd6990624 && RoundConstant(46) == 0xf40e3585 && RoundConstant(47) == 0x106aa070
  {
    OfWord(0xa2bfe8a1, K[5][0]);
    OfWord(0xa81a664b, K[5][1]);
    OfWord(0xc24b8b70, K[5][2]);
    OfWord(0xc76c51a3, K[5][3]);
    OfWord(0xd192e819, K[5][4]);
    OfWord(0xd6990624, K[5][5]);
    OfWord(0xf40e3585, K[5][6]);
    OfWord(0x106aa070, K[5][7]);
  }

  lemma Rounds6()
    ensures AfterRounds(48) == Registers(0x4172328d, 0xa14c14b0, 0x72ab4b91, 0x26628815, 0xfecf0bc6, 0xd57b94a9, 0xb7755da1, 0xa80f11f0)
  {
    hide Schedule, AbcBlock, Rounds, RoundConstant;
    Rounds5();
    Words5();
    Constants5();
    NextRound(InitialHash(), AbcBlock(), 40);
    NextRound(InitialHash(), AbcBlock(), 41);
    NextRound(InitialHash(), AbcBlock(), 42);
    NextRound(InitialHash(), AbcBlock(), 43);
    NextRound(InitialHash(), AbcBlock(), 44);
    NextRound(InitialHash(), AbcBlock(), 45);
    NextRound(InitialHash(), AbcBlock(), 46);
    NextRound(InitialHash(), AbcBlock(), 47);
  }

  lemma Constants6()
    ensures RoundConstant(48) == 0x19a4c116 && RoundConstant(49) == 0x1e376c08 && RoundConstant(50) == 0x2748774c && RoundConstant(51) == 0x34b0bcb5
    ensures RoundConstant(52) == 0x391c0cb3 && RoundConstant(53) == 0x4ed8aa4a && RoundConstant(54) == 0x5b9cca4f && RoundConstant(55) == 0x682e6ff3
  {
    OfWord(0x19a4c116, K[6][0]);
    OfWord(0x1e376c08, K[6][1]);
    OfWord(0x2748774c, K[6][2]);
    OfWord(0x34b0bcb5, K[6][3]);
    OfWord(0x391c0cb3, K[6][4]);
    OfWord(0x4ed8aa4a, K[6][5]);
    OfWord(0x5b9cca4f, K[6][6]);
    OfWord(0x682e6ff3, K[6][7]);
  }

  lemma Rounds7()
    ensures AfterRounds(56) == Registers(0x38cc9913, 0x3ec45cdb, 0xf5702fdb, 0x101fd28f, 0x54cb266b, 0xe50e1b4f, 0x9f4787c3, 0x529e7d00)
  {
    hide Schedule, AbcBlock, Rounds, RoundConstant;
    Rounds6();
    Words6();
    Constants6();
    NextRound(InitialHash(), AbcBlock(), 48);
    NextRound(InitialHash(), AbcBlock(), 49);
    NextRound(InitialHash(), AbcBlock(), 50);
    NextRound(InitialHash(), AbcBlock(), 51);
    NextRound(InitialHash(), AbcBlock(), 52);
    NextRound(InitialHash(), AbcBlock(), 53);
    NextRound(InitialHash(), AbcBlock(), 54);
    NextRound(InitialHash(), AbcBlock(), 55);
  }

  lemma Constants7()
    ensures RoundConstant(56) == 0x748f82ee && RoundConstant(57) == 0x78a5636f && RoundConstant(58) == 0x84c87814 && RoundConstant(59) == 0x8cc70208
    ensures RoundConstant(60) == 0x90befffa && RoundConstant(61) == 0xa4506ceb && RoundConstant(62) == 0xbef9a3f7 && RoundConstant(63) == 0xc67178f2
  {
    OfWord(0x748f82ee, K[7][0]);
    OfWord(0x78a5636f, K[7][1]);
    OfWord(0x84c87814, K[7][2]);
    OfWord(0x8cc70208, K[7][3]);
    OfWord(0x90befffa, K[7][4]);
    OfWord(0xa4506ceb, K[7][5]);
    OfWord(0xbef9a3f7, K[7][6]);
    OfWord(0xc67178f2, K[7][7]);
  }

  lemma Rounds8()
    ensures AfterRounds(64) == Registers(0x506e3058, 0xd39a2165, 0x04d24d6c, 0xb85e2ce9, 0x5ef50f24, 0xfb121210, 0x948d25b6, 0x961f4894)
  {
    hide Schedule, AbcBlock, Rounds, RoundConstant;
    Rounds7();
    Words7();
    Constants7();
    NextRound(InitialHash(), AbcBlock(), 56);
    NextRound(InitialHash(), AbcBlock(), 57);
    NextRound(InitialHash(), AbcBlock(), 58);
    NextRound(InitialHash(), AbcBlock(), 59);
    NextRound(InitialHash(), AbcBlock(), 60);
    NextRound(InitialHash(), AbcBlock(), 61);
    NextRound(InitialHash(), AbcBlock(), 62);
    NextRound(InitialHash(), AbcBlock(), 63);
  }

  lemma HashOfAbc()
    ensures Hash(ABC) == Registers(0xba7816bf, 0x8f01cfea, 0x414140de, 0x5dae2223, 0xb00361a3, 0x96177a9c, 0xb410ff61, 0xf20015ad)
  {
    hide Rounds, AbcBlock, Padded, Block;
    AbcIsPadded();
    Rounds0();
    Rounds8();
    assert HashBlocks(Padded(ABC), 0) == InitialHash();
    assert |Padded(ABC)| == 64;
    assert HashBlocks(Padded(ABC), 1) == Compress(InitialHash(), AbcBlock());
    assert Compress(InitialHash(), AbcBlock()) == Sum(AfterRounds(64), InitialHash());
  }

  lemma Digits0()
    ensures HexWord(0xba7816bf) == "ba7816bf"
  {
    var w: Word := 0xba7816bf;
    assert Nibble(w, 28) == 11;
    assert Nibble(w, 24) == 10;
    assert Nibble(w, 20) == 7;
    assert Nibble(w, 16) == 8;
    assert Nibble(w, 12) == 1;
    assert Nibble(w, 8) == 6;
    assert Nibble(w, 4) == 11;
    assert Nibble(w, 0) == 15;
  }

  lemma Digits1()
    ensures HexWord(0x8f01cfea) == "8f01cfea"
  {
    var w: Word := 0x8f01cfea;
    assert Nibble(w, 28) == 8;
    assert Nibble(w, 24) == 15;
    assert Nibble(w, 20) == 0;
    assert Nibble(w, 16) == 1;
    assert Nibble(w, 12) == 12;
    assert Nibble(w, 8) == 15;
    assert Nibble(w, 4) == 14;
    assert Nibble(w, 0) == 10;
  }

  lemma Digits2()
    ensures HexWord(0x414140de) == "414140de"
  {
    var w: Word := 0x414140de;
    assert Nibble(w, 28) == 4;
    assert Nibble(w, 24) == 1;
    assert Nibble(w, 20) == 4;
    assert Nibble(w, 16) == 1;
    assert Nibble(w, 12) == 4;
    assert Nibble(w, 8) == 0;
    assert Nibble(w, 4) == 13;
    assert Nibble(w, 0) == 14;
  }

  lemma Digits3()
    ensures HexWord(0x5dae2223) == "5dae2223"
  {
    var w: Word := 0x5dae2223;
    assert Nibble(w, 28) == 5;
    assert Nibble(w, 24) == 13;
    assert Nibble(w, 20) == 10;
    assert Nibble(w, 16) == 14;
    assert Nibble(w, 12) == 2;
    assert Nibble(w, 8) == 2;
    assert Nibble(w, 4) == 2;
    assert Nibble(w, 0) == 3;
  }

  lemma Digits4()
    ensures HexWord(0xb00361a3) == "b00361a3"
  {
    var w: Word := 0xb00361a3;
    assert Nibble(w, 28) == 11;
    assert Nibble(w, 24) == 0;
    assert Nibble(w, 20) == 0;
    assert Nibble(w, 16) == 3;
    assert Nibble(w, 12) == 6;
    assert Nibble(w, 8) == 1;
    assert Nibble(w, 4) == 10;
    assert Nibble(w, 0) == 3;
  }

  lemma Digits5()
    ensures HexWord(0x96177a9c) == "96177a9c"
  {
    var w: Word := 0x96177a9c;
    assert Nibble(w, 28) == 9;
    assert Nibble(w, 24) == 6;
    assert Nibble(w, 20) == 1;
    assert Nibble(w, 16) == 7;
    assert Nibble(w, 12) == 7;
    assert Nibble(w, 8) == 10;
    assert Nibble(w, 4) == 9;
    assert Nibble(w, 0) == 12;
  }

  lemma Digits6()
    ensures HexWord(0xb410ff61) == "b410ff61"
  {
    var w: Word := 0xb410ff61;
    assert Nibble(w, 28) == 11;
    assert Nibble(w, 24) == 4;
    assert Nibble(w, 20) == 1;
    assert Nibble(w, 16) == 0;
    assert Nibble(w, 12) == 15;
    assert Nibble(w, 8) == 15;
    assert Nibble(w, 4) == 6;
    assert Nibble(w, 0) == 1;
  }

  lemma Digits7()
    ensures HexWord(0xf20015ad) == "f20015ad"
  {
    var w: Word := 0xf20015ad;
    assert Nibble(w, 28) == 15;
    assert Nibble(w, 24) == 2;
    assert Nibble(w, 20) == 0;
    assert Nibble(w, 16) == 0;
    assert Nibble(w, 12) == 1;
    assert Nibble(w, 8) == 5;
    assert Nibble(w, 4) == 10;
    assert Nibble(w, 0) == 13;
  }

  lemma HexStep(ws: seq<Word>, i: nat)
    requires i < |ws|
    ensures HexOf(ws[i..]) == HexWord(ws[i]) + HexOf(ws[i + 1..])
  {
    hide HexWord;
    assert ws[i..][1..] == ws[i + 1..];
  }

  lemma LaterDigits(ws: seq<Word>)
    requires |ws| == 8 && ws[4] == 0xb00361a3 && ws[5] == 0x96177a9c && ws[6] == 0xb410ff61 && ws[7] == 0xf20015ad
    ensures HexOf(ws[4..]) == "b00361a3" + ("96177a9c" + ("b410ff61" + ("f20015ad" + "")))
  {
    hide HexWord, HexOf;
    NoDigits(ws);
    HexStep(ws, 4);
    Digits4();
    HexStep(ws, 5);
    Digits5();
    HexStep(ws, 6);
    Digits6();
    HexStep(ws, 7);
    Digits7();
  }

  /** The one-block example of the standard, a word at a time. */
  lemma DigestOfAbc()
    ensures Digest(ABC) == "ba7816bf" + ("8f01cfea" + ("414140de" + ("5dae2223" + ("b00361a3" + ("96177a9c" + ("b410ff61" + ("f20015ad" + "")))))))
  {
    hide Hash, HexWord, HexOf;
    HashOfAbc();
    var ws := Words(Hash(ABC));
    LaterDigits(ws);
    assert ws[0..] == ws;
    HexStep(ws, 0);
    Digits0();
    HexStep(ws, 1);
    Digits1();
    HexStep(ws, 2);
    Digits2();
    HexStep(ws, 3);
    Digits3();
  }

  lemma NoDigits(ws: seq<Word>)
    requires |ws| == 8
    ensures HexOf(ws[8..]) == ""
  {
  }
}
