/**
 * The secure hash standard as FIPS 180-2 writes it, with SHA-224 from its Change Notice 1.
 * Nothing in this module follows the C code; it is what the C code is compared with.
 */
module Fips180 {
  import opened Words

  // Section 3.2: addition modulo 2^32.
  function Add(x: Word, y: Word): Word { x + y }

  /** Zero is neutral, and the next word gives the next sum, around from 2^32 - 1 to 0: this is all that addition is. */
  lemma AdditionIs(x: Word, y: Word)
    ensures Add(x, 0) == x && Add(x, y + 1) == Add(x, y) + 1
    ensures Add(0xFFFF_FFFF, 1) == 0
  {
  }

  // Section 4.1.2

  function Ch(x: Word, y: Word, z: Word): Word { (x & y) ^ (!x & z) }

  function Maj(x: Word, y: Word, z: Word): Word { (x & y) ^ (x & z) ^ (y & z) }

  function BigSigma0(x: Word): Word { x.RotateRight(2) ^ x.RotateRight(13) ^ x.RotateRight(22) }

  function BigSigma1(x: Word): Word { x.RotateRight(6) ^ x.RotateRight(11) ^ x.RotateRight(25) }

  function SmallSigma0(x: Word): Word { x.RotateRight(7) ^ x.RotateRight(18) ^ (x >> 3) }

  function SmallSigma1(x: Word): Word { x.RotateRight(17) ^ x.RotateRight(19) ^ (x >> 10) }

  // Section 6.2.2, step 1: the message schedule of one 64-byte block.
  function Schedule(block: seq<Byte>, t: nat): Word
    requires |block| == 64 && t < 64
  {
    if t < 16 then
      GetBE(block, 4 * t)
    else
      Add(Add(Add(SmallSigma1(Schedule(block, t - 2)), Schedule(block, t - 7)),
              SmallSigma0(Schedule(block, t - 15))), Schedule(block, t - 16))
  }

  // Section 6.2.2, steps 2 and 3: eight working variables, shifted by one place a round.
  datatype Vars = Vars(a: Word, b: Word, c: Word, d: Word, e: Word, f: Word, g: Word, h: Word)

  function Round(v: Vars, k: Word, w: Word): Vars
  {
    var t1 := Add(Add(Add(Add(v.h, BigSigma1(v.e)), Ch(v.e, v.f, v.g)), k), w);
    var t2 := Add(BigSigma0(v.a), Maj(v.a, v.b, v.c));
    Vars(Add(t1, t2), v.a, v.b, v.c, Add(v.d, t1), v.e, v.f, v.g)
  }

  // Section 4.2.2, eight constants a row.
  function KRow(row: nat): (r: seq<Word>)
    requires row < 8
    ensures |r| == 8
  {
    match row
    case 0 => [0x428A2F98, 0x71374491, 0xB5C0FBCF, 0xE9B5DBA5, 0x3956C25B, 0x59F111F1, 0x923F82A4, 0xAB1C5ED5]
    case 1 => [0xD807AA98, 0x12835B01, 0x243185BE, 0x550C7DC3, 0x72BE5D74, 0x80DEB1FE, 0x9BDC06A7, 0xC19BF174]
    case 2 => [0xE49B69C1, 0xEFBE4786, 0x0FC19DC6, 0x240CA1CC, 0x2DE92C6F, 0x4A7484AA, 0x5CB0A9DC, 0x76F988DA]
    case 3 => [0x983E5152, 0xA831C66D, 0xB00327C8, 0xBF597FC7, 0xC6E00BF3, 0xD5A79147, 0x06CA6351, 0x14292967]
    case 4 => [0x27B70A85, 0x2E1B2138, 0x4D2C6DFC, 0x53380D13, 0x650A7354, 0x766A0ABB, 0x81C2C92E, 0x92722C85]
    case 5 => [0xA2BFE8A1, 0xA81A664B, 0xC24B8B70, 0xC76C51A3, 0xD192E819, 0xD6990624, 0xF40E3585, 0x106AA070]
    case 6 => [0x19A4C116, 0x1E376C08, 0x2748774C, 0x34B0BCB5, 0x391C0CB3, 0x4ED8AA4A, 0x5B9CCA4F, 0x682E6FF3]
    case _ => [0x748F82EE, 0x78A5636F, 0x84C87814, 0x8CC70208, 0x90BEFFFA, 0xA4506CEB, 0xBEF9A3F7, 0xC67178F2]
  }

  function K(t: nat): Word
    requires t < 64
  {
    KRow(t / 8)[t % 8]
  }

  function Rounds(v: Vars, block: seq<Byte>, t: nat): Vars
    requires |block| == 64 && t <= 64
  {
    if t == 0 then v else Round(Rounds(v, block, t - 1), K(t - 1), Schedule(block, t - 1))
  }

  // Section 6.2.2, step 4.
  function Compress(s: seq<Word>, block: seq<Byte>): (r: seq<Word>)
    requires |s| == 8 && |block| == 64
    ensures |r| == 8
  {
    var v := Rounds(Vars(s[0], s[1], s[2], s[3], s[4], s[5], s[6], s[7]), block, 64);
    [Add(s[0], v.a), Add(s[1], v.b), Add(s[2], v.c), Add(s[3], v.d),
     Add(s[4], v.e), Add(s[5], v.f), Add(s[6], v.g), Add(s[7], v.h)]
  }

  /** 512 bits. */
  type Block = b: seq<Byte> | |b| == 64 witness seq(64, _ => 0)

  // Section 5.2.1: the whole blocks of a byte string, first to last.
  function Blocks(m: seq<Byte>): (bs: seq<Block>)
  {
    if |m| < 64 then [] else [m[..64]] + Blocks(m[64..])
  }

  // Section 6.2.2: the blocks are folded into the state one after the other.
  function Fold(s: seq<Word>, bs: seq<Block>): (r: seq<Word>)
    requires |s| == 8
    ensures |r| == 8
  {
    if bs == [] then s else Compress(Fold(s, bs[..|bs| - 1]), bs[|bs| - 1])
  }

  // Section 5.1.1: a one bit, k zero bits, and the length in bits as a 64-bit number. Here in bytes.

  function Zeros(n: nat): (z: seq<Byte>)
    ensures |z| == n
  {
    seq(n, _ => 0)
  }

  /** Zero bytes after the 0x80 byte: the least k with n + 1 + k = 56 modulo 64. */
  function ZeroCount(n: nat): nat { (119 - n % 64) % 64 }

  /** The n low-order bytes of a number, most significant first. */
  function BigEndian(v: nat, n: nat): (b: seq<Byte>)
    ensures |b| == n
  {
    if n == 0 then [] else BigEndian(v / 256, n - 1) + [(v % 256) as Byte]
  }

  /** The bytes added to a message of n bytes when its length field holds 8 * count. */
  function Padding(n: nat, count: nat): (p: seq<Byte>)
  {
    [0x80] + Zeros(ZeroCount(n)) + BigEndian(8 * count, 8)
  }

  // Sections 5.3.2 (SHA-256) and Change Notice 1 (SHA-224).
  function InitialState(is224: bool): (s: seq<Word>)
    ensures |s| == 8
  {
    if is224 then
      [0xC1059ED8, 0x367CD507, 0x3070DD17, 0xF70E5939, 0xFFC00B31, 0x68581511, 0x64F98FA7, 0xBEFA4FA4]
    else
      [0x6A09E667, 0xBB67AE85, 0x3C6EF372, 0xA54FF53A, 0x510E527F, 0x9B05688C, 0x1F83D9AB, 0x5BE0CD19]
  }

  /** The digest of m when the length field is filled from count, which need not be |m|. */
  function DigestCounting(is224: bool, m: seq<Byte>, count: nat): (d: seq<Byte>)
    ensures |d| == if is224 then 28 else 32
  {
    var s := Fold(InitialState(is224), Blocks(m + Padding(|m|, count)));
    PutAll(if is224 then s[..7] else s)
  }

  /** SHA-256, or SHA-224. The standard defines it for messages under 2^64 bits, that is under 2^61 bytes. */
  function Sha(is224: bool, m: seq<Byte>): (d: seq<Byte>)
    ensures |d| == if is224 then 28 else 32
  {
    DigestCounting(is224, m, |m|)
  }
}
