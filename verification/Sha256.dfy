/**
 sha256_hex of the native custodian against FIPS 180-4: the padding of section 5.1.1,
 the schedule and the compression of section 6.2.2, and the hexadecimal digest.
 */
module Sha256 {

  type Byte = b: int | 0 <= b < 0x100
  type Word = bv32
  type U32 = n: int | 0 <= n < 0x1_0000_0000

  type Row = r: seq<U32> | |r| == 8 witness [0, 0, 0, 0, 0, 0, 0, 0]

  /** The constants of section 4.2.2, eight to a row, and the first 64 primes in the same layout. */
  const K: seq<Row> := [
    [0x428a2f98, 0x71374491, 0xb5c0fbcf, 0xe9b5dba5, 0x3956c25b, 0x59f111f1, 0x923f82a4, 0xab1c5ed5],
    [0xd807aa98, 0x12835b01, 0x243185be, 0x550c7dc3, 0x72be5d74, 0x80deb1fe, 0x9bdc06a7, 0xc19bf174],
    [0xe49b69c1, 0xefbe4786, 0x0fc19dc6, 0x240ca1cc, 0x2de92c6f, 0x4a7484aa, 0x5cb0a9dc, 0x76f988da],
    [0x983e5152, 0xa831c66d, 0xb00327c8, 0xbf597fc7, 0xc6e00bf3, 0xd5a79147, 0x06ca6351, 0x14292967],
    [0x27b70a85, 0x2e1b2138, 0x4d2c6dfc, 0x53380d13, 0x650a7354, 0x766a0abb, 0x81c2c92e, 0x92722c85],
    [0xa2bfe8a1, 0xa81a664b, 0xc24b8b70, 0xc76c51a3, 0xd192e819, 0xd6990624, 0xf40e3585, 0x106aa070],
    [0x19a4c116, 0x1e376c08, 0x2748774c, 0x34b0bcb5, 0x391c0cb3, 0x4ed8aa4a, 0x5b9cca4f, 0x682e6ff3],
    [0x748f82ee, 0x78a5636f, 0x84c87814, 0x8cc70208, 0x90befffa, 0xa4506ceb, 0xbef9a3f7, 0xc67178f2]]

  const PRIMES: seq<Row> := [
    [2, 3, 5, 7, 11, 13, 17, 19],
    [23, 29, 31, 37, 41, 43, 47, 53],
    [59, 61, 67, 71, 73, 79, 83, 89],
    [97, 101, 103, 107, 109, 113, 127, 131],
    [137, 139, 149, 151, 157, 163, 167, 173],
    [179, 181, 191, 193, 197, 199, 211, 223],
    [227, 229, 233, 239, 241, 251, 257, 263],
    [269, 271, 277, 281, 283, 293, 307, 311]]

  const INITIAL: Row := [
    0x6a09e667, 0xbb67ae85, 0x3c6ef372, 0xa54ff53a, 0x510e527f, 0x9b05688c, 0x1f83d9ab, 0x5be0cd19]

  function RoundConstant(t: nat): Word
    requires t < 64
  {
    K[t / 8][t % 8] as Word
  }

  // ---------------------------------------------------------------------------
  // The functions of sections 3.2 and 4.1.2
  // ---------------------------------------------------------------------------

  function Ch(x: Word, y: Word, z: Word): Word {
    (x & y) ^ (!x & z)
  }

  function Maj(x: Word, y: Word, z: Word): Word {
    (x & y) ^ (x & z) ^ (y & z)
  }

  /** ROTR n is written out by its definition: the two shifts by n and by 32 - n, joined. */
  function BigSigma0(x: Word): Word { ((x >> 2) | (x << 30)) ^ ((x >> 13) | (x << 19)) ^ ((x >> 22) | (x << 10)) }

  function BigSigma1(x: Word): Word { ((x >> 6) | (x << 26)) ^ ((x >> 11) | (x << 21)) ^ ((x >> 25) | (x << 7)) }

  function SmallSigma0(x: Word): Word { ((x >> 7) | (x << 25)) ^ ((x >> 18) | (x << 14)) ^ (x >> 3) }

  function SmallSigma1(x: Word): Word { ((x >> 17) | (x << 15)) ^ ((x >> 19) | (x << 13)) ^ (x >> 10) }

  /** Addition modulo 2^32, of two, four and five words. */
  function Add(x: Word, y: Word): Word { x + y }

  function Add4(v: Word, w: Word, x: Word, y: Word): Word { v + w + x + y }

  function Add5(v: Word, w: Word, x: Word, y: Word, z: Word): Word { v + w + x + y + z }

  // ---------------------------------------------------------------------------
  // Padding
  // ---------------------------------------------------------------------------

  /** The bit 1 after the message, with seven zero bits. */
  const MARK: seq<Byte> := [0x80]

  /** `n` modulo 2^(8 * width), most significant byte first. */
  function BigEndian(n: nat, width: nat): (r: seq<Byte>)
    ensures |r| == width
  {
    if width == 0 then [] else BigEndian(n / 0x100, width - 1) + [n % 0x100]
  }

  function Zeros(n: nat): (r: seq<Byte>)
    ensures |r| == n
  {
    seq(n, _ => 0)
  }

  /** The zero bytes between the 0x80 byte and the length field. */
  function ZeroBytes(length: nat): nat {
    (119 - length % 64) % 64
  }

  function Padded(message: seq<Byte>): (r: seq<Byte>)
    ensures |r| == |message| + 1 + ZeroBytes(|message|) + 8
  {
    message + MARK + Zeros(ZeroBytes(|message|)) + BigEndian(|message| * 8, 8)
  }

  // ---------------------------------------------------------------------------
  // Hash computation
  // ---------------------------------------------------------------------------

  function BigEndianValue(b0: nat, b1: nat, b2: nat, b3: nat): nat {
    0x100_0000 * b0 + 0x1_0000 * b1 + 0x100 * b2 + b3
  }

  function WordAt(bytes: seq<Byte>, i: nat): Word
    requires i + 4 <= |bytes|
  {
    BigEndianValue(bytes[i], bytes[i + 1], bytes[i + 2], bytes[i + 3]) as Word
  }

  datatype Registers = Registers(a: Word, b: Word, c: Word, d: Word, e: Word, f: Word, g: Word, h: Word)

  function NextWord(w2: Word, w7: Word, w15: Word, w16: Word): Word {
    Add4(SmallSigma1(w2), w7, SmallSigma0(w15), w16)
  }

  /** W of section 6.2.2, step 1. */
  function Schedule(block: seq<Byte>, t: nat): Word
    requires |block| == 64
  {
    if t < 16 then WordAt(block, 4 * t)
    else NextWord(Schedule(block, t - 2), Schedule(block, t - 7), Schedule(block, t - 15), Schedule(block, t - 16))
  }

  /** Step 3: one round. */
  function Round(r: Registers, k: Word, w: Word): Registers {
    var t1 := Add5(r.h, BigSigma1(r.e), Ch(r.e, r.f, r.g), k, w);
    var t2 := Add(BigSigma0(r.a), Maj(r.a, r.b, r.c));
    Registers(Add(t1, t2), r.a, r.b, r.c, Add(r.d, t1), r.e, r.f, r.g)
  }

  function Rounds(start: Registers, block: seq<Byte>, t: nat): Registers
    requires |block| == 64 && t <= 64
  {
    if t == 0 then start
    else Round(Rounds(start, block, t - 1), RoundConstant(t - 1), Schedule(block, t - 1))
  }

  /** Step 4. */
  function Sum(x: Registers, y: Registers): Registers {
    Registers(Add(y.a, x.a), Add(y.b, x.b), Add(y.c, x.c), Add(y.d, x.d),
              Add(y.e, x.e), Add(y.f, x.f), Add(y.g, x.g), Add(y.h, x.h))
  }

  function Compress(start: Registers, block: seq<Byte>): Registers
    requires |block| == 64
  {
    Sum(Rounds(start, block, 64), start)
  }

  function InitialWord(i: nat): Word
    requires i < 8
  {
    INITIAL[i] as Word
  }

  function InitialHash(): Registers {
    Registers(InitialWord(0), InitialWord(1), InitialWord(2), InitialWord(3),
              InitialWord(4), InitialWord(5), InitialWord(6), InitialWord(7))
  }

  function Block(bytes: seq<Byte>, i: nat): (block: seq<Byte>)
    requires 64 * i + 64 <= |bytes|
    ensures |block| == 64
  {
    bytes[64 * i..64 * i + 64]
  }

  /** The hash value after the first `n` blocks. */
  function HashBlocks(bytes: seq<Byte>, n: nat): Registers
    requires 64 * n <= |bytes|
  {
    if n == 0 then InitialHash()
    else Compress(HashBlocks(bytes, n - 1), Block(bytes, n - 1))
  }

  function Hash(message: seq<Byte>): Registers {
    HashBlocks(Padded(message), |Padded(message)| / 64)
  }

  function HexDigit(n: Word): char
    requires n < 16
  {
    if n == 0 then '0' else if n == 1 then '1' else if n == 2 then '2' else if n == 3 then '3'
    else if n == 4 then '4' else if n == 5 then '5' else if n == 6 then '6' else if n == 7 then '7'
    else if n == 8 then '8' else if n == 9 then '9' else if n == 10 then 'a' else if n == 11 then 'b'
    else if n == 12 then 'c' else if n == 13 then 'd' else if n == 14 then 'e' else 'f'
  }

  function Nibble(w: Word, shift: bv6): (n: Word)
    requires shift < 32
    ensures n < 16
  {
    (w >> shift) & 15
  }

  /** Eight lower-case digits, the most significant first. */
  function HexWord(w: Word): (r: string)
    ensures |r| == 8
  {
    [HexDigit(Nibble(w, 28)), HexDigit(Nibble(w, 24)), HexDigit(Nibble(w, 20)), HexDigit(Nibble(w, 16)),
     HexDigit(Nibble(w, 12)), HexDigit(Nibble(w, 8)), HexDigit(Nibble(w, 4)), HexDigit(Nibble(w, 0))]
  }

  function Words(r: Registers): (ws: seq<Word>)
    ensures |ws| == 8
  {
    [r.a, r.b, r.c, r.d, r.e, r.f, r.g, r.h]
  }

  function FromWords(ws: seq<Word>): (r: Registers)
    requires |ws| == 8
    ensures Words(r) == ws
  {
    Registers(ws[0], ws[1], ws[2], ws[3], ws[4], ws[5], ws[6], ws[7])
  }

  function HexOf(ws: seq<Word>): string {
    if ws == [] then "" else HexWord(ws[0]) + HexOf(ws[1..])
  }

  function Digest(message: seq<Byte>): string {
    HexOf(Words(Hash(message)))
  }

  // ---------------------------------------------------------------------------
  // The custodian's loops
  // ---------------------------------------------------------------------------

  lemma ReverseSum(a: Word, b: Word, c: Word, d: Word)
    ensures Add4(a, b, c, d) == Add4(d, c, b, a)
  {
  }

  method ScheduleSums(w2: Word, w15: Word) returns (s0: Word, s1: Word)
    ensures s0 == SmallSigma0(w15) && s1 == SmallSigma1(w2)
  {
    s0 := w15.RotateRight(7) ^ w15.RotateRight(18) ^ (w15 >> 3);
    s1 := w2.RotateRight(17) ^ w2.RotateRight(19) ^ (w2 >> 10);
  }

  method RoundSums(a: Word, e: Word) returns (sum0: Word, sum1: Word)
    ensures sum0 == BigSigma0(a) && sum1 == BigSigma1(e)
  {
    sum1 := e.RotateRight(6) ^ e.RotateRight(11) ^ e.RotateRight(25);
    sum0 := a.RotateRight(2) ^ a.RotateRight(13) ^ a.RotateRight(22);
  }

  method PadMessage(input: seq<Byte>) returns (message: seq<Byte>)
    ensures message == Padded(input)
  {
    message := input;
    var bitLength := |message| * 8 % 0x1_0000_0000_0000_0000;
    message := message + MARK;
    ghost var zeros := 0;
    while |message| % 64 != 56
      invariant zeros <= ZeroBytes(|input|)
      invariant message == input + MARK + Zeros(zeros)
      decreases ZeroBytes(|input|) - zeros
    {
      ZerosLeft(|input|, zeros);
      assert Zeros(zeros) + [0] == Zeros(zeros + 1);
      message := message + [0];
      zeros := zeros + 1;
    }
    ZerosLeft(|input|, zeros);
    TruncatedBigEndian(|input| * 8, 8);
    message := message + BigEndian(bitLength, 8);
  }

  method FillSchedule(block: seq<Byte>, schedule: array<Word>)
    requires |block| == 64 && schedule.Length == 64
    modifies schedule
    ensures forall t :: 0 <= t < 64 ==> schedule[t] == Schedule(block, t)
  {
    hide WordAt, SmallSigma0, SmallSigma1, Add4;
    for index := 0 to 16
      invariant forall t :: 0 <= t < index ==> schedule[t] == Schedule(block, t)
    {
      schedule[index] := WordAt(block, index * 4);
    }
    for index := 16 to 64
      invariant forall t :: 0 <= t < index ==> schedule[t] == Schedule(block, t)
    {
      var s0, s1 := ScheduleSums(schedule[index - 2], schedule[index - 15]);
      ReverseSum(schedule[index - 16], s0, schedule[index - 7], s1);
      schedule[index] := Add4(schedule[index - 16], s0, schedule[index - 7], s1);
    }
  }

  method CompressChunk(block: seq<Byte>, state: array<Word>)
    requires |block| == 64 && state.Length == 8
    modifies state
    ensures FromWords(state[..]) == Compress(FromWords(old(state[..])), block)
  {
    hide Schedule, BigSigma0, BigSigma1, Ch, Maj, Add, Add5, RoundConstant;
    var schedule := new Word[64];
    FillSchedule(block, schedule);
    var a, b, c, d := state[0], state[1], state[2], state[3];
    var e, f, g, h := state[4], state[5], state[6], state[7];
    ghost var start := FromWords(state[..]);
    for index := 0 to 64
      invariant state[..] == old(state[..])
      invariant forall t :: 0 <= t < 64 ==> schedule[t] == Schedule(block, t)
      invariant Registers(a, b, c, d, e, f, g, h) == Rounds(start, block, index)
    {
      var sum0, sum1 := RoundSums(a, e);
      var choose := Ch(e, f, g);
      var temp1 := Add5(h, sum1, choose, RoundConstant(index), schedule[index]);
      var majority := Maj(a, b, c);
      var temp2 := Add(sum0, majority);
      h := g;
      g := f;
      f := e;
      e := Add(d, temp1);
      d := c;
      c := b;
      b := a;
      a := Add(temp1, temp2);
    }
    AddAll(state, a, b, c, d, e, f, g, h);
  }

  method AddAll(state: array<Word>, a: Word, b: Word, c: Word, d: Word, e: Word, f: Word, g: Word, h: Word)
    requires state.Length == 8
    modifies state
    ensures FromWords(state[..]) == Sum(Registers(a, b, c, d, e, f, g, h), FromWords(old(state[..])))
  {
    hide Add;
    state[0] := Add(state[0], a);
    state[1] := Add(state[1], b);
    state[2] := Add(state[2], c);
    state[3] := Add(state[3], d);
    state[4] := Add(state[4], e);
    state[5] := Add(state[5], f);
    state[6] := Add(state[6], g);
    state[7] := Add(state[7], h);
  }

  method InitialState() returns (state: array<Word>)
    ensures fresh(state) && state.Length == 8 && FromWords(state[..]) == InitialHash()
  {
    hide InitialWord;
    state := new Word[] [
      InitialWord(0), InitialWord(1), InitialWord(2), InitialWord(3),
      InitialWord(4), InitialWord(5), InitialWord(6), InitialWord(7)];
  }

  method HexState(state: array<Word>) returns (hex: string)
    ensures hex == HexOf(state[..])
  {
    hide HexWord;
    hex := "";
    assert state[0..] == state[..];
    for i := 0 to state.Length
      invariant HexOf(state[..]) == hex + HexOf(state[i..])
    {
      assert state[i..][1..] == state[i + 1..];
      hex := hex + HexWord(state[i]);
    }
  }

  method Sha256Hex(input: seq<Byte>) returns (hex: string)
    ensures hex == Digest(input)
  {
    hide Compress, InitialHash, HexOf, Padded, Block, Words;
    var message := PadMessage(input);
    PaddedLength(|input|);
    var state := InitialState();
    for i := 0 to |message| / 64
      invariant FromWords(state[..]) == HashBlocks(message, i)
    {
      CompressChunk(Block(message, i), state);
    }
    hex := HexState(state);
  }

  // ---------------------------------------------------------------------------
  // Padding is the least that fits, and loses nothing
  // ---------------------------------------------------------------------------

  lemma ZerosLeft(length: nat, z: nat)
    requires z <= ZeroBytes(length)
    ensures (length + 1 + z) % 64 == 56 <==> z == ZeroBytes(length)
  {
  }

  /** Section 5.1.1 counts in bits: k is the least solution of l + 1 + k = 448 modulo 512. */
  lemma ZeroBitsAreLeast(length: nat, k: nat)
    requires (8 * length + 1 + k) % 512 == 448
    ensures k >= 7 + 8 * ZeroBytes(length)
    ensures (8 * length + 1 + (7 + 8 * ZeroBytes(length))) % 512 == 448
  {
  }

  /** The padded length is the least multiple of 64 that leaves room for the mark and the length. */
  lemma PaddedLength(length: nat)
    ensures
      var padded := length + 1 + ZeroBytes(length) + 8;
      padded % 64 == 0 && length + 9 <= padded < length + 9 + 64
  {
  }

  function Power256(n: nat): (p: nat)
    ensures p > 0
  {
    if n == 0 then 1 else 0x100 * Power256(n - 1)
  }

  lemma {:induction false} SplitModulus(n: nat, q: nat)
    requires q > 0
    ensures n % (0x100 * q) == 0x100 * (n / 0x100 % q) + n % 0x100
  {
    var m := n / 0x100;
    assert n == (0x100 * q) * (m / q) + 0x100 * (m % q) + n % 0x100;
    UniqueRemainder(n, 0x100 * q, m / q, 0x100 * (m % q) + n % 0x100);
  }

  lemma UniqueRemainder(n: nat, d: nat, q: nat, r: nat)
    requires d > 0 && n == d * q + r && r < d
    ensures n % d == r
  {
    var e := n / d - q;
    assert d * e == r - n % d;
    Multiples(d, e);
  }

  lemma Multiples(d: nat, e: int)
    ensures e >= 1 ==> d * e >= d
    ensures e <= -1 ==> d * e + d <= 0
  {
  }

  lemma {:induction false} BigEndianModulo(n: nat, m: nat, width: nat)
    ensures BigEndian(n, width) == BigEndian(m, width) <==> n % Power256(width) == m % Power256(width)
  {
    if width > 0 {
      BigEndianModulo(n / 0x100, m / 0x100, width - 1);
      SplitModulus(n, Power256(width - 1));
      SplitModulus(m, Power256(width - 1));
      var bn, bm := BigEndian(n, width), BigEndian(m, width);
      assert bn[..width - 1] == BigEndian(n / 0x100, width - 1) && bm[..width - 1] == BigEndian(m / 0x100, width - 1);
      assert bn[width - 1] == n % 0x100 && bm[width - 1] == m % 0x100;
      assert bn == bn[..width - 1] + [bn[width - 1]] && bm == bm[..width - 1] + [bm[width - 1]];
    }
  }

  lemma EightBytes()
    ensures Power256(8) == 0x1_0000_0000_0000_0000
  {
    assert Power256(1) == 0x100;
    assert Power256(2) == 0x1_0000;
    assert Power256(4) == 0x1_0000_0000;
    assert Power256(6) == 0x1_0000_0000_0000;
  }

  /** The wrapped product the code stores has the same eight bytes as the bit length itself. */
  lemma TruncatedBigEndian(n: nat, width: nat)
    requires width == 8
    ensures BigEndian(n % 0x1_0000_0000_0000_0000, width) == BigEndian(n, width)
  {
    EightBytes();
    BigEndianModulo(n % 0x1_0000_0000_0000_0000, n, 8);
  }

  /** The number eight big-endian bytes stand for. */
  function Number(bytes: seq<Byte>): nat {
    if bytes == [] then 0 else 0x100 * Number(bytes[..|bytes| - 1]) + bytes[|bytes| - 1]
  }

  lemma {:induction false} NumberOfBigEndian(n: nat, width: nat)
    ensures Number(BigEndian(n, width)) == n % Power256(width)
  {
    if width > 0 {
      NumberOfBigEndian(n / 0x100, width - 1);
      SplitModulus(n, Power256(width - 1));
      assert BigEndian(n, width)[..width - 1] == BigEndian(n / 0x100, width - 1);
    }
  }

  /** The length field holds the message length in bits exactly for messages under 2^61 bytes. */
  lemma LengthFieldIsExact(message: seq<Byte>)
    ensures
      var padded := Padded(message);
      Number(padded[|padded| - 8..]) == 8 * |message| <==> |message| < 0x2000_0000_0000_0000
  {
    hide Number, BigEndian, Power256, ZeroBytes;
    var padded := Padded(message);
    assert padded[|padded| - 8..] == BigEndian(|message| * 8, 8);
    NumberOfBigEndian(|message| * 8, 8);
    EightBytes();
  }

  lemma LengthsAgree(x: nat, y: nat)
    requires x + ZeroBytes(x) == y + ZeroBytes(y) && BigEndian(x * 8, 8) == BigEndian(y * 8, 8)
    ensures x == y
  {
    BigEndianModulo(x * 8, y * 8, 8);
    EightBytes();
    CloseResidues(x, y);
  }

  lemma CloseResidues(x: nat, y: nat)
    requires x * 8 % 0x1_0000_0000_0000_0000 == y * 8 % 0x1_0000_0000_0000_0000
    requires x < y + 64 && y < x + 64
    ensures x == y
  {
  }

  /** Two different messages never pad to the same bytes, whatever their lengths. */
  lemma PaddingIsInjective(x: seq<Byte>, y: seq<Byte>)
    requires Padded(x) == Padded(y)
    ensures x == y
  {
    var p := Padded(x);
    PaddedLength(|x|);
    PaddedLength(|y|);
    assert p[|p| - 8..] == BigEndian(|x| * 8, 8);
    assert p[|p| - 8..] == BigEndian(|y| * 8, 8);
    LengthsAgree(|x|, |y|);
    assert p[..|x|] == x && p[..|x|] == y;
  }

  // ---------------------------------------------------------------------------
  // The digest determines the hash value
  // ---------------------------------------------------------------------------

  lemma HexDigitIsInjective(m: Word, n: Word)
    requires m < 16 && n < 16 && HexDigit(m) == HexDigit(n)
    ensures m == n
  {
  }

  lemma NibblesDetermineWord(v: Word, w: Word)
    requires Nibble(v, 28) == Nibble(w, 28) && Nibble(v, 24) == Nibble(w, 24)
    requires Nibble(v, 20) == Nibble(w, 20) && Nibble(v, 16) == Nibble(w, 16)
    requires Nibble(v, 12) == Nibble(w, 12) && Nibble(v, 8) == Nibble(w, 8)
    requires Nibble(v, 4) == Nibble(w, 4) && Nibble(v, 0) == Nibble(w, 0)
    ensures v == w
  {
  }

  lemma HexWordIsInjective(v: Word, w: Word)
    requires HexWord(v) == HexWord(w)
    ensures v == w
  {
    hide HexDigit, Nibble;
    assert HexWord(v)[0] == HexWord(w)[0] && HexWord(v)[1] == HexWord(w)[1] && HexWord(v)[2] == HexWord(w)[2];
    assert HexWord(v)[3] == HexWord(w)[3] && HexWord(v)[4] == HexWord(w)[4] && HexWord(v)[5] == HexWord(w)[5];
    assert HexWord(v)[6] == HexWord(w)[6] && HexWord(v)[7] == HexWord(w)[7];
    HexDigitIsInjective(Nibble(v, 28), Nibble(w, 28));
    HexDigitIsInjective(Nibble(v, 24), Nibble(w, 24));
    HexDigitIsInjective(Nibble(v, 20), Nibble(w, 20));
    HexDigitIsInjective(Nibble(v, 16), Nibble(w, 16));
    HexDigitIsInjective(Nibble(v, 12), Nibble(w, 12));
    HexDigitIsInjective(Nibble(v, 8), Nibble(w, 8));
    HexDigitIsInjective(Nibble(v, 4), Nibble(w, 4));
    HexDigitIsInjective(Nibble(v, 0), Nibble(w, 0));
    NibblesDetermineWord(v, w);
  }

  lemma {:induction false} HexOfIsInjective(vs: seq<Word>, ws: seq<Word>)
    requires |vs| == |ws| && HexOf(vs) == HexOf(ws)
    ensures vs == ws
  {
    if vs != [] {
      assert HexOf(vs)[..8] == HexWord(vs[0]) && HexOf(ws)[..8] == HexWord(ws[0]);
      assert HexOf(vs)[8..] == HexOf(vs[1..]) && HexOf(ws)[8..] == HexOf(ws[1..]);
      HexWordIsInjective(vs[0], ws[0]);
      HexOfIsInjective(vs[1..], ws[1..]);
      assert vs == [vs[0]] + vs[1..] && ws == [ws[0]] + ws[1..];
    }
  }

  /** Equal hexadecimal digests come from equal hash values. */
  lemma DigestDeterminesHash(x: seq<Byte>, y: seq<Byte>)
    requires Digest(x) == Digest(y)
    ensures Hash(x) == Hash(y)
  {
    HexOfIsInjective(Words(Hash(x)), Words(Hash(y)));
  }

  // ---------------------------------------------------------------------------
  // The tables are the ones the standard derives
  // ---------------------------------------------------------------------------

  function IntegerCubeRoot(p: nat): nat {
    if p < 8 then 1 else if p < 27 then 2 else if p < 64 then 3 else if p < 125 then 4 else if p < 216 then 5 else 6
  }

  function IntegerSquareRoot(p: nat): nat {
    if p < 4 then 1 else if p < 9 then 2 else if p < 16 then 3 else 4
  }

  /** k holds the first 32 bits of the fractional part of the cube root of p. */
  predicate CubeRootBits(k: nat, p: nat) {
    var r := 0x1_0000_0000 * IntegerCubeRoot(p) + k;
    r * r * r <= p * 0x1_0000_0000_0000_0000_0000_0000 < (r + 1) * (r + 1) * (r + 1)
  }

  predicate SquareRootBits(k: nat, p: nat) {
    var r := 0x1_0000_0000 * IntegerSquareRoot(p) + k;
    r * r <= p * 0x1_0000_0000_0000_0000 < (r + 1) * (r + 1)
  }

  predicate CubeRootsLeft(i: nat)
    requires i < 8
  {
    && CubeRootBits(K[i][0], PRIMES[i][0]) && CubeRootBits(K[i][1], PRIMES[i][1])
    && CubeRootBits(K[i][2], PRIMES[i][2]) && CubeRootBits(K[i][3], PRIMES[i][3])
  }

  predicate CubeRootsRight(i: nat)
    requires i < 8
  {
    && CubeRootBits(K[i][4], PRIMES[i][4]) && CubeRootBits(K[i][5], PRIMES[i][5])
    && CubeRootBits(K[i][6], PRIMES[i][6]) && CubeRootBits(K[i][7], PRIMES[i][7])
  }

  lemma CubeRootsLeft0() ensures CubeRootsLeft(0) {}

  lemma CubeRootsRight0() ensures CubeRootsRight(0) {}

  lemma CubeRootsLeft1() ensures CubeRootsLeft(1) {}

  lemma CubeRootsRight1() ensures CubeRootsRight(1) {}

  lemma CubeRootsLeft2() ensures CubeRootsLeft(2) {}

  lemma CubeRootsRight2() ensures CubeRootsRight(2) {}

  lemma CubeRootsLeft3() ensures CubeRootsLeft(3) {}

  lemma CubeRootsRight3() ensures CubeRootsRight(3) {}

  lemma CubeRootsLeft4() ensures CubeRootsLeft(4) {}

  lemma CubeRootsRight4() ensures CubeRootsRight(4) {}

  lemma CubeRootsLeft5() ensures CubeRootsLeft(5) {}

  lemma CubeRootsRight5() ensures CubeRootsRight(5) {}

  lemma CubeRootsLeft6() ensures CubeRootsLeft(6) {}

  lemma CubeRootsRight6() ensures CubeRootsRight(6) {}

  lemma CubeRootsLeft7() ensures CubeRootsLeft(7) {}

  lemma CubeRootsRight7() ensures CubeRootsRight(7) {}

  /** Section 4.2.2: the round constants come from the cube roots of the first 64 primes. */
  lemma RoundConstantsAreCubeRoots(t: nat)
    requires t < 64
    ensures CubeRootBits(K[t / 8][t % 8], PRIMES[t / 8][t % 8])
  {
    hide CubeRootBits;
    CubeRootsLeft0();
    CubeRootsRight0();
    CubeRootsLeft1();
    CubeRootsRight1();
    CubeRootsLeft2();
    CubeRootsRight2();
    CubeRootsLeft3();
    CubeRootsRight3();
    CubeRootsLeft4();
    CubeRootsRight4();
    CubeRootsLeft5();
    CubeRootsRight5();
    CubeRootsLeft6();
    CubeRootsRight6();
    CubeRootsLeft7();
    CubeRootsRight7();
    assert CubeRootsLeft(t / 8) && CubeRootsRight(t / 8);
  }

  /** Section 5.3.3: the initial hash value comes from the square roots of the first eight primes. */
  lemma InitialHashIsSquareRoots(i: nat)
    requires i < 8
    ensures SquareRootBits(INITIAL[i], PRIMES[0][i])
  {
    assert SquareRootBits(INITIAL[0], 2) && SquareRootBits(INITIAL[1], 3);
    assert SquareRootBits(INITIAL[2], 5) && SquareRootBits(INITIAL[3], 7);
    assert SquareRootBits(INITIAL[4], 11) && SquareRootBits(INITIAL[5], 13);
    assert SquareRootBits(INITIAL[6], 17) && SquareRootBits(INITIAL[7], 19);
  }
}
