/** The two-word byte counter of a context: 32-bit words, a hand-written carry, and the shifts of sha2_finish. */
module Counter {
  import opened Words
  import opened Fips180
  import opened PaddingLaws

  type U32 = x: int | 0 <= x < 0x1_0000_0000

  /** total[1] * 2^32 + total[0]. */
  function Total(t0: U32, t1: U32): (n: nat)
    ensures n < TWO64
  {
    t1 * TWO32 + t0
  }

  /** (uint32_t) ilen. */
  function Cast32(ilen: nat): U32 { ilen % TWO32 }

  /** The counter after an update: total[0] wraps at 2^32 and carries into total[1], which wraps too. */
  function Advance(count: nat, ilen: nat): (n: nat)
    ensures n < TWO64
  {
    (count + ilen % TWO32) % TWO64
  }

  /** Adding to total[0], and carrying when the sum has become smaller than what was added, adds to the total. */
  lemma CarryIsRight(t0: U32, t1: U32, n: U32)
    ensures var t0' := (t0 + n) % TWO32;
            Total(t0', if t0' < n then (t1 + 1) % TWO32 else t1) == (Total(t0, t1) + n) % TWO64
  {
    if t0 + n < TWO32 {
      assert (t0 + n) % TWO32 == t0 + n;
    } else {
      assert (t0 + n) % TWO32 == t0 + n - TWO32;
      if t1 + 1 < TWO32 { assert (t1 + 1) % TWO32 == t1 + 1; } else { assert (t1 + 1) % TWO32 == 0; }
    }
  }

  lemma AdvanceByNothing(count: nat)
    requires count < TWO64
    ensures Advance(count, 0) == count
  {
  }

  lemma CastOfShort(ilen: nat)
    requires ilen < TWO32
    ensures ilen % TWO32 == ilen
  {
  }

  lemma AdvancesCompose(count: nat, a: nat, b: nat)
    requires a + b < TWO32
    ensures Advance(Advance(count, a), b) == Advance(count, a + b)
  {
    CastOfShort(a); CastOfShort(b); CastOfShort(a + b);
    var q, r := (count + a) / TWO64, (count + a) % TWO64;
    var q', r' := (r + b) / TWO64, (r + b) % TWO64;
    assert count + a + b == TWO64 * (q + q') + r';
    DivisionIsUnique(count + a + b, TWO64, q + q', r');
  }

  /** Dropping multiples of 2^32 does not move the position in the buffer. */
  lemma AdvanceKeepsPosition(count: nat, n: nat, ilen: nat)
    requires Left(count) == Left(n)
    ensures Left(Advance(count, ilen)) == Left(n + ilen)
  {
    var k, r := ilen / TWO32, ilen % TWO32;
    var q, a := (count + r) / TWO64, (count + r) % TWO64;
    assert ilen == k * TWO32 + r && count + r == q * TWO64 + a;
    var c := q * 0x400_0000_0000_0000 + k * 0x400_0000 + n / 64 - count / 64;
    assert n + ilen == a + 64 * c;
    DropMultiple(a, c);
  }

  lemma DropMultiple(n: int, k: int)
    ensures (n + 64 * k) % 64 == n % 64
  {
    assert n + 64 * k == 64 * (n / 64 + k) + n % 64;
  }

  /** One update keeps an exact counter exact precisely when the cast loses nothing (size_t has 64 bits). */
  lemma AdvanceIsExact(n: nat, ilen: nat)
    requires ilen < TWO64
    ensures Advance(n % TWO64, ilen) == (n + ilen) % TWO64 <==> ilen < TWO32
  {
    var high := ilen / TWO32;
    assert ilen == high * TWO32 + ilen % TWO32 && 0 <= high < TWO32;
    var q := (n + ilen % TWO32) / TWO64;
    var low := (n + ilen % TWO32) % TWO64;
    assert Advance(n % TWO64, ilen) == low;
    assert n + ilen == q * TWO64 + low + high * TWO32;
    assert 0 <= high * TWO32 <= TWO64 - TWO32;
  }

  /** x | y for operands with no bit in common: x has only the three low bits, y none of them. */
  function OrDisjoint(x: U32, y: U32): U32
    requires x < 8 && y % 8 == 0
  {
    x + y
  }

  /** ( total[0] >> 29 ) | ( total[1] << 3 ). */
  function High(t0: U32, t1: U32): U32
  {
    OrDisjoint(t0 / 0x2000_0000, t1 * 8 % TWO32)
  }

  /** total[0] << 3. */
  function Low(t0: U32): U32 { t0 * 8 % TWO32 }

  /** PUT_UINT32_BE of a counter word. */
  function PutCount(n: U32): (b: seq<Byte>)
    ensures |b| == 4
  {
    [(n / 0x100_0000 % 256) as Byte, (n / 0x1_0000 % 256) as Byte, (n / 0x100 % 256) as Byte, (n % 256) as Byte]
  }

  lemma Quarters(n: U32)
    ensures n / 0x100 / 256 == n / 0x1_0000 && n / 0x1_0000 / 256 == n / 0x100_0000
  {
  }

  lemma NoBytes(n: nat)
    ensures BigEndian(n, 0) == []
  {
  }

  lemma OneByte(n: nat, k: nat)
    ensures BigEndian(n, k + 1) == BigEndian(n / 256, k) + [(n % 256) as Byte]
  {
  }

  lemma PutCountIsBigEndian(n: U32)
    ensures PutCount(n) == BigEndian(n, 4)
  {
    hide BigEndian;
    Quarters(n);
    OneByte(n / 0x100_0000, 0);
    OneByte(n / 0x1_0000, 1);
    OneByte(n / 0x100, 2);
    OneByte(n, 3);
    NoBytes(n / 0x100_0000 / 256);
  }

  lemma ByteSplit(hi: nat, lo: nat, p: nat)
    ensures var v := hi * (256 * p) + lo; v / 256 == hi * p + lo / 256 && v % 256 == lo % 256
  {
    assert hi * (256 * p) == 256 * (hi * p);
  }

  /** The low n bytes come from the low digits, the k bytes above them from the rest. */
  lemma {:induction false} BigEndianConcat(hi: nat, lo: nat, k: nat, n: nat)
    requires lo < Pow256(n)
    ensures BigEndian(hi * Pow256(n) + lo, k + n) == BigEndian(hi, k) + BigEndian(lo, n)
  {
    if n > 0 {
      ByteSplit(hi, lo, Pow256(n - 1));
      BigEndianConcat(hi, lo / 256, k, n - 1);
    }
  }

  /** Eight times a number, divided by eight times a divisor. */
  lemma TimesEight(n: nat, d: nat)
    requires d > 0
    ensures 8 * n / (8 * d) == n / d && 8 * n % (8 * d) == 8 * (n % d)
  {
    assert 8 * n == (8 * d) * (n / d) + 8 * (n % d) by {
      assert n == d * (n / d) + n % d;
      assert (8 * d) * (n / d) == 8 * (d * (n / d));
    }
    DivisionIsUnique(8 * n, 8 * d, n / d, 8 * (n % d));
  }

  lemma ShiftedWords(t0: U32, t1: U32)
    ensures 8 * Total(t0, t1) == t1 / 0x2000_0000 * TWO64 + (High(t0, t1) * TWO32 + Low(t0))
  {
    TimesEight(t1, 0x2000_0000);
    TimesEight(t0, 0x2000_0000);
    assert High(t0, t1) == t0 / 0x2000_0000 + 8 * (t1 % 0x2000_0000);
    assert Low(t0) == 8 * (t0 % 0x2000_0000);
    assert t0 == t0 / 0x2000_0000 * 0x2000_0000 + t0 % 0x2000_0000;
    assert t1 == t1 / 0x2000_0000 * 0x2000_0000 + t1 % 0x2000_0000;
  }

  /** The eight bytes sha2_finish writes from the two words are the length field for Total bytes. */
  lemma LengthBytes(t0: U32, t1: U32)
    ensures PutCount(High(t0, t1)) + PutCount(Low(t0)) == BigEndian(8 * Total(t0, t1), 8)
  {
    hide BigEndian, PutCount, High, Low, Total;
    var hi, lo := High(t0, t1), Low(t0);
    PutCountIsBigEndian(hi); PutCountIsBigEndian(lo);
    ShiftedWords(t0, t1);
    JoinWords(hi, lo);
    LengthFieldLow(t1 / 0x2000_0000, hi * TWO32 + lo);
  }

  lemma JoinWords(hi: U32, lo: U32)
    ensures BigEndian(hi * TWO32 + lo, 8) == BigEndian(hi, 4) + BigEndian(lo, 4)
  {
    hide BigEndian;
    assert Pow256(4) == TWO32;
    BigEndianConcat(hi, lo, 4, 4);
  }

  /** The length field only sees the number modulo 2^64. */
  lemma LengthFieldLow(high: nat, low: nat)
    requires low < TWO64
    ensures BigEndian(high * TWO64 + low, 8) == BigEndian(low, 8)
  {
    hide Pow256, BigEndian;
    Pow256Of8();
    BigEndianConcat(high, low, 0, 8);
    assert |BigEndian(high, 0)| == 0;
  }

  /** The length field of a byte count only sees the count modulo 2^61. */
  lemma LengthFieldWraps(a: nat, b: nat)
    requires a % 0x2000_0000_0000_0000 == b % 0x2000_0000_0000_0000
    ensures BigEndian(8 * a, 8) == BigEndian(8 * b, 8)
  {
    hide BigEndian;
    LengthFieldOfCount(a);
    LengthFieldOfCount(b);
  }

  lemma LengthFieldOfCount(a: nat)
    ensures BigEndian(8 * a, 8) == BigEndian(8 * (a % 0x2000_0000_0000_0000), 8)
  {
    hide BigEndian;
    var q, r := a / 0x2000_0000_0000_0000, a % 0x2000_0000_0000_0000;
    assert 8 * a == q * TWO64 + 8 * r;
    LengthFieldLow(q, 8 * r);
  }
}
