/** Laws of the padding of section 5.1.1 of FIPS 180-2, and of cutting a message into blocks. */
module PaddingLaws {
  import opened Words
  import opened Fips180

  // Blocks

  /** How many bytes are left over after the whole blocks of n bytes. */
  function Left(n: nat): (r: nat)
    ensures r < 64 && r <= n
  {
    n % 64
  }

  lemma LeftAfterBlock(n: nat)
    requires n >= 64
    ensures Left(n) == Left(n - 64)
  {
  }

  lemma LeftOfShort(n: nat)
    requires n < 64
    ensures Left(n) == n
  {
  }

  /** The bytes of the whole blocks. */
  function Whole(m: seq<Byte>): (w: seq<Byte>)
    ensures |w| == |m| - Left(|m|)
  {
    m[..|m| - Left(|m|)]
  }

  /** The bytes after the last whole block. */
  function Tail(m: seq<Byte>): (t: seq<Byte>)
    ensures |t| == Left(|m|)
  {
    m[|m| - Left(|m|)..]
  }

  lemma WholeIsAligned(m: seq<Byte>)
    ensures m == Whole(m) + Tail(m) && Left(|Whole(m)|) == 0
  {
    assert (|m| - |m| % 64) % 64 == 0;
  }

  /** There are as many blocks as fit. */
  lemma {:induction false} BlockCount(m: seq<Byte>)
    ensures |Blocks(m)| == |m| / 64
  {
    if |m| >= 64 { BlockCount(m[64..]); }
  }

  lemma BlocksOfShort(m: seq<Byte>)
    requires |m| < 64
    ensures Blocks(m) == []
  {
  }

  lemma BlockThenRest(b: Block, rest: seq<Byte>)
    ensures Blocks(b + rest) == [b] + Blocks(rest)
  {
    assert (b + rest)[..64] == b && (b + rest)[64..] == rest;
  }

  lemma TailAfterBlock(b: Block, rest: seq<Byte>)
    ensures Tail(b + rest) == Tail(rest)
  {
    hide Left;
    LeftAfterBlock(64 + |rest|);
  }

  lemma TailOfShort(m: seq<Byte>)
    requires |m| < 64
    ensures Tail(m) == m
  {
    hide Left;
    LeftOfShort(|m|);
  }

  /** Cutting goes through at every multiple of 64 bytes. */
  lemma {:induction false} CutAligned(a: seq<Byte>, b: seq<Byte>)
    requires Left(|a|) == 0
    ensures Blocks(a + b) == Blocks(a) + Blocks(b) && Tail(a + b) == Tail(b)
    decreases |a|
  {
    hide Left, Blocks, Tail;
    if |a| < 64 {
      LeftOfShort(|a|);
      BlocksOfShort(a);
      assert a + b == b;
    } else {
      var first: Block, more := a[..64], a[64..];
      LeftAfterBlock(|a|);
      CutAligned(more, b);
      assert a + b == first + (more + b) && a == first + more;
      BlockThenRest(first, more);
      BlockThenRest(first, more + b);
      TailAfterBlock(first, more + b);
    }
  }

  function Flatten(bs: seq<seq<Byte>>): (m: seq<Byte>)
  {
    if bs == [] then [] else bs[0] + Flatten(bs[1..])
  }

  /** The blocks, put end to end, are the message without its incomplete tail: nothing lost, repeated or moved. */
  lemma {:induction false} FlattenBlocks(m: seq<Byte>)
    ensures Flatten(Blocks(m)) == Whole(m)
  {
    hide Left;
    if |m| >= 64 {
      FlattenBlocks(m[64..]);
      LeftAfterBlock(|m|);
      assert Blocks(m)[1..] == Blocks(m[64..]);
    } else {
      LeftOfShort(|m|);
    }
  }

  lemma FoldSnoc(s: seq<Word>, bs: seq<Block>, b: Block)
    requires |s| == 8
    ensures Fold(s, bs + [b]) == Compress(Fold(s, bs), b)
  {
    assert (bs + [b])[..|bs|] == bs;
  }

  /** Folding compresses block after block: these three facts leave no choice. */
  lemma {:induction false} FoldOver(s: seq<Word>, a: seq<Block>, b: seq<Block>)
    requires |s| == 8
    ensures Fold(s, []) == s && (|b| == 1 ==> Fold(s, b) == Compress(s, b[0]))
    ensures Fold(s, a + b) == Fold(Fold(s, a), b)
  {
    hide Compress;
    if b == [] {
      assert a + b == a;
    } else {
      var last := |b| - 1;
      FoldOver(s, a, b[..last]);
      assert (a + b)[..|a + b| - 1] == a + b[..last];
      if last == 0 { assert b[..0] == []; }
    }
  }

  /** The digest is the first seven or all eight words of the folded state, one after the other. */
  lemma WordsOfDigest(is224: bool, m: seq<Byte>, i: nat)
    requires i < if is224 then 7 else 8
    ensures Sha(is224, m)[4 * i..4 * i + 4] == PutBE(Fold(InitialState(is224), Blocks(Padded(m)))[i])
  {
    hide Fold, Blocks, Padding, PutBE, PutAll;
    var s := Fold(InitialState(is224), Blocks(Padded(m)));
    PutAllAt(if is224 then s[..7] else s, i);
  }

  /** More bytes, and still no whole block. */
  lemma AppendShort(m: seq<Byte>, more: seq<Byte>)
    requires Left(|m|) + |more| < 64
    ensures Blocks(m + more) == Blocks(m) && Tail(m + more) == Tail(m) + more
  {
    hide Left, Blocks, Tail, Whole;
    var w, t := Whole(m), Tail(m);
    WholeIsAligned(m);
    assert m + more == w + (t + more);
    CutAligned(w, t + more);
    CutAligned(w, t);
    TailOfShort(t + more);
    BlocksOfShort(t + more);
    BlocksOfShort(t);
  }

  /** The first bytes complete the tail to a block; the rest is cut on its own. */
  lemma AppendFilling(m: seq<Byte>, more: seq<Byte>, fill: nat)
    requires Left(|m|) + fill == 64 && fill <= |more|
    ensures Blocks(m + more) == Blocks(m) + [Tail(m) + more[..fill]] + Blocks(more[fill..])
    ensures Tail(m + more) == Tail(more[fill..])
  {
    hide Left, Blocks, Tail, Whole;
    var w, t, rest := Whole(m), Tail(m), more[fill..];
    var b := t + more[..fill];
    WholeIsAligned(m);
    assert m + more == w + (b + rest);
    CutAligned(w, b + rest);
    CutAligned(w, t);
    BlocksOfShort(t);
    BlockThenRest(b, rest);
    TailAfterBlock(b, rest);
  }

  // Length field

  /** The number a byte string spells, most significant byte first. */
  function Value(b: seq<Byte>): (v: nat)
  {
    if b == [] then 0 else Value(b[..|b| - 1]) * 256 + b[|b| - 1] as nat
  }

  lemma NextByte(b: Byte)
    requires b < 255
    ensures (b + 1) as nat == b as nat + 1
  {
  }

  lemma ByteBelow255(b: Byte)
    ensures b < 255 <==> b as nat < 255
  {
  }

  /** Every number below 256 is the value of a byte. */
  lemma {:induction false} ByteFor(n: nat) returns (b: Byte)
    requires n < 256
    ensures b as nat == n
  {
    if n == 0 {
      b := 0;
    } else {
      var c := ByteFor(n - 1);
      ByteBelow255(c);
      NextByte(c);
      b := c + 1;
    }
  }

  lemma ByteOfValue(b: Byte)
    ensures (b as nat) as Byte == b
  {
  }

  lemma ByteRoundTrip(n: nat)
    requires n < 256
    ensures (n as Byte) as nat == n
  {
    var b := ByteFor(n);
    ByteOfValue(b);
  }

  function Pow256(n: nat): (p: nat)
    ensures p > 0
  {
    if n == 0 then 1 else 256 * Pow256(n - 1)
  }

  lemma {:induction false} ValueOfBigEndian(v: nat, n: nat)
    ensures Value(BigEndian(v, n)) == v % Pow256(n)
  {
    if n > 0 {
      var b := BigEndian(v, n);
      assert b[..n - 1] == BigEndian(v / 256, n - 1);
      ByteRoundTrip(v % 256);
      ValueOfBigEndian(v / 256, n - 1);
      ModByProduct(v, Pow256(n - 1));
    }
  }

  lemma ModByProduct(v: nat, p: nat)
    requires p > 0
    ensures v % (256 * p) == v / 256 % p * 256 + v % 256
  {
    var q, r := v / 256 / p, v / 256 % p;
    var low := r * 256 + v % 256;
    assert v == (256 * p) * q + low by {
      assert v == 256 * (v / 256) + v % 256;
      assert v / 256 == p * q + r;
      assert 256 * (p * q + r) == (256 * p) * q + r * 256;
    }
    assert 0 <= low < 256 * p;
    DivisionIsUnique(v, 256 * p, q, low);
  }

  lemma MultipleLeavesRange(d: int, k: int)
    requires d > 0
    ensures k >= 1 ==> d * k >= d
    ensures k <= -1 ==> d * k <= -d
  {
    if k >= 1 {
      assert d * k == d * (k - 1) + d;
    } else if k <= -1 {
      assert d * k == d * (k + 1) - d;
    }
  }

  lemma DivisionIsUnique(v: int, d: int, q: int, r: int)
    requires d > 0 && 0 <= r < d && v == d * q + r
    ensures v / d == q && v % d == r
  {
    var q', r' := v / d, v % d;
    assert v == d * q' + r' && 0 <= r' < d;
    assert d * (q - q') == r' - r;
    MultipleLeavesRange(d, q - q');
  }

  // Padding

  /** k of section 5.1.1: it solves the congruence, and no smaller k does. */
  lemma ZeroCountIsLeast(n: nat, k: nat)
    ensures (n + 1 + ZeroCount(n)) % 64 == 56
    ensures (n + 1 + k) % 64 == 56 ==> ZeroCount(n) <= k
  {
  }

  /** A padded message is whole blocks: as many as n + 8 bytes fill, and one more. */
  lemma PaddedLength(n: nat, count: nat)
    ensures 9 <= |Padding(n, count)| <= 72
    ensures Left(n + |Padding(n, count)|) == 0
    ensures (n + |Padding(n, count)|) / 64 == (n + 8) / 64 + 1
  {
    assert |Padding(n, count)| == 9 + ZeroCount(n);
  }

  function Padded(m: seq<Byte>): seq<Byte> { m + Padding(|m|, |m|) }

  /** The last eight bytes of a padded message are its length field. */
  lemma LengthField(m: seq<Byte>, count: nat)
    ensures var p := m + Padding(|m|, count);
      |p| >= |m| + 8 && Value(p[|p| - 8..]) == 8 * count % 0x1_0000_0000_0000_0000
  {
    var p := m + Padding(|m|, count);
    assert p == (m + [0x80] + Zeros(ZeroCount(|m|))) + BigEndian(8 * count, 8);
    assert p[|p| - 8..] == BigEndian(8 * count, 8);
    ValueOfBigEndian(8 * count, 8);
    Pow256Of8();
  }

  lemma CloseAndCongruent(a: nat, b: nat)
    requires a <= b < a + 72
    requires 8 * a % 0x1_0000_0000_0000_0000 == 8 * b % 0x1_0000_0000_0000_0000
    ensures a == b
  {
  }

  /** Padding loses nothing, whatever the length of the message. */
  lemma PaddingIsInjective(m: seq<Byte>, m': seq<Byte>)
    requires Padded(m) == Padded(m')
    ensures m == m'
  {
    var p := Padded(m);
    assert |Padding(|m|, |m|)| <= 72 && |Padding(|m'|, |m'|)| <= 72 by {
      PaddedLength(|m|, |m|); PaddedLength(|m'|, |m'|);
    }
    LengthField(m, |m|); LengthField(m', |m'|);
    if |m| <= |m'| { CloseAndCongruent(|m|, |m'|); } else { CloseAndCongruent(|m'|, |m|); }
    assert m == p[..|m|] == m';
  }

  lemma Pow256Of8() ensures Pow256(8) == 0x1_0000_0000_0000_0000 {
    assert Pow256(4) == 0x1_0000_0000;
  }

  /** Below 2^61 bytes the length field is the length in bits itself, as section 5.1.1 asks. */
  lemma LengthFieldIsExact(m: seq<Byte>)
    requires |m| < 0x2000_0000_0000_0000
    ensures var p := Padded(m); |p| >= 8 && Value(p[|p| - 8..]) == 8 * |m|
  {
    hide Value, Padding;
    LengthField(m, |m|);
  }

  /** The number of blocks compressed for a message depends on its length only. */
  lemma PaddedBlockCount(m: seq<Byte>, count: nat)
    ensures |Blocks(m + Padding(|m|, count))| == (|m| + 8) / 64 + 1
    ensures |m| / 64 + 1 <= |Blocks(m + Padding(|m|, count))| <= |m| / 64 + 2
  {
    PaddedLength(|m|, count);
    BlockCount(m + Padding(|m|, count));
  }
}
