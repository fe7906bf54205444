/** The context of sha2.c: in-place state, a side buffer for the tail, and a two-word counter. */
module Sha2 {
  import opened Words
  import opened Fips180
  import opened PaddingLaws
  import opened Streaming
  import opened Counter
  import opened Rfc2104
  import Rounds = Process

  /** memcpy. */
  method Copy(dst: array<Byte>, at: nat, src: seq<Byte>)
    requires at + |src| <= dst.Length
    modifies dst
    ensures dst[..] == old(dst[..at]) + src + old(dst[at + |src|..])
  {
    forall i | 0 <= i < |src| {
      dst[at + i] := src[i];
    }
  }

  function DigestLength(is224: bool): nat { if is224 then 28 else 32 }

  /** What a run has made of a context, apart from the stale bytes in its buffer: the bytes taken and the counter. */
  datatype Live = Live(fed: seq<Byte>, count: nat)

  const EMPTY := Live([], 0)

  function Feed(s: Live, input: seq<Byte>): Live
  {
    Live(s.fed + input, Advance(s.count, |input|))
  }

  function Close(s: Live): Live
  {
    Live(s.fed + Padding(|s.fed|, s.count), Advance(Advance(s.count, 1 + ZeroCount(|s.fed|)), 8))
  }

  function DigestOf(is224: bool, s: Live): (d: seq<Byte>)
    ensures |d| == DigestLength(is224)
  {
    DigestCounting(is224, s.fed, s.count)
  }

  /** sha2_padding. */
  const PADDING: seq<Byte> := [0x80] + Zeros(63)

  lemma LastIsPosition(t0: U32, t1: U32)
    ensures t0 % 64 == Left(Total(t0, t1))
  {
  }

  /** What the two updates of sha2_finish feed is the padding of section 5.1.1; padn is never 0 and at most 64. */
  lemma PaddingPieces(n: nat, count: nat, padn: nat)
    requires padn == if Left(n) < 56 then 56 - Left(n) else 120 - Left(n)
    ensures 1 <= padn <= 64 && padn == 1 + ZeroCount(n)
    ensures PADDING[..padn] + BigEndian(8 * count, 8) == Padding(n, count)
  {
    assert PADDING[..padn] == [0x80] + Zeros(ZeroCount(n));
  }

  /** The two pieces of sha2_finish, computed from the counter words, close the message. */
  lemma FinishPieces(s: Live, t0: U32, t1: U32, padn: nat)
    requires s.count == Total(t0, t1) && Left(s.count) == Left(|s.fed|)
    requires padn == if t0 % 64 < 56 then 56 - t0 % 64 else 120 - t0 % 64
    ensures 1 <= padn <= 64
    ensures Feed(Feed(s, PADDING[..padn]), PutCount(High(t0, t1)) + PutCount(Low(t0))) == Close(s)
  {
    hide Feed, Close, High, Low, PutCount, Total, ZeroCount, Padding, Left;
    LastIsPosition(t0, t1);
    LengthBytes(t0, t1);
    PaddingPieces(|s.fed|, s.count, padn);
    TwoFeeds(s, PADDING[..padn], PutCount(High(t0, t1)) + PutCount(Low(t0)));
  }

  lemma TwoFeeds(s: Live, a: seq<Byte>, b: seq<Byte>)
    requires a + b == Padding(|s.fed|, s.count) && |a| == 1 + ZeroCount(|s.fed|) && |b| == 8
    ensures Feed(Feed(s, a), b) == Close(s)
  {
    hide Advance, ZeroCount, Padding;
    assert (s.fed + a) + b == s.fed + (a + b);
  }

  /** The digest with a counter that ended at count is the standard's when the count is right modulo 2^61. */
  lemma RightCountGivesSha(is224: bool, m: seq<Byte>, count: nat)
    requires count % 0x2000_0000_0000_0000 == |m| % 0x2000_0000_0000_0000
    ensures DigestCounting(is224, m, count) == Sha(is224, m)
  {
    hide Fold, Blocks, PutAll, BigEndian;
    LengthFieldWraps(count, |m|);
  }

  /** What sha2 computes, for every length: past 2^32 bytes the cast of ilen spoils the length field. */
  function OneShotDigest(is224: bool, m: seq<Byte>): (d: seq<Byte>)
    ensures |d| == DigestLength(is224)
  {
    DigestCounting(is224, m, |m| % TWO32)
  }

  lemma OneShotIsSha(is224: bool, m: seq<Byte>)
    requires |m| < TWO32
    ensures OneShotDigest(is224, m) == Sha(is224, m)
  {
    hide DigestCounting;
  }

  /**
   * Where the standard defines a digest, one call of sha2 hashes the standard's padded message exactly when the length
   * survives the cast to 32 bits.
   */
  lemma OneShotPadsRightExactlyWhen(m: seq<Byte>)
    requires |m| < 0x2000_0000_0000_0000
    ensures m + Padding(|m|, |m| % TWO32) == Padded(m) <==> |m| < TWO32
  {
    hide Padding, Value;
    if |m| < TWO32 {
      CastOfShort(|m|);
    } else {
      LengthField(m, |m| % TWO32);
      LengthField(m, |m|);
    }
  }

  /** The key block of sha2_hmac_starts. */
  function CodeKey(is224: bool, key: seq<Byte>): (k: seq<Byte>)
    ensures |k| == 64
  {
    var short := if |key| > 64 then OneShotDigest(is224, key) else key;
    short + Zeros(64 - |short|)
  }

  lemma CodeKeyIsBlockKey(is224: bool, key: seq<Byte>)
    requires |key| < TWO32
    ensures CodeKey(is224, key) == BlockKey(is224, key)
  {
    hide OneShotDigest, Sha;
    OneShotIsSha(is224, key);
  }

  /** A fresh context counts the length that the cast leaves. */
  lemma FeedFresh(input: seq<Byte>)
    ensures Feed(EMPTY, input) == Live(input, |input| % TWO32)
  {
    assert [] + input == input;
  }

  lemma DigestOfExact(is224: bool, m: seq<Byte>)
    ensures DigestOf(is224, Live(m, |m|)) == Sha(is224, m)
  {
  }

  lemma FeedMore(m: seq<Byte>, input: seq<Byte>)
    requires |input| < TWO32 && |m| + |input| < TWO64
    ensures Feed(Live(m, |m|), input) == Live(m + input, |m + input|)
  {
  }

  lemma InnerDigest(is224: bool, pad: seq<Byte>, input: seq<Byte>)
    requires |pad| == 64 && |input| < TWO32
    ensures DigestOf(is224, Feed(Feed(EMPTY, pad), input)) == Sha(is224, pad + input)
  {
    hide Feed, DigestOf;
    FeedFresh(pad);
    FeedMore(pad, input);
    DigestOfExact(is224, pad + input);
  }

  class Sha2Context {
    const total: array<U32>
    const state: array<Word>
    const buffer: array<Byte>
    const ipad: array<Byte>
    const opad: array<Byte>
    var is224: int
    /** Every byte taken since sha2_starts. */
    ghost var fed: seq<Byte>
    /** The argument of every sha2_process call since sha2_starts, in order. */
    ghost var compressed: seq<Block>

    ghost predicate Shaped()
    {
      && total.Length == 2 && state.Length == 8
      && buffer.Length == 64 && ipad.Length == 64 && opad.Length == 64
      && buffer != ipad && buffer != opad && ipad != opad
    }

    ghost function Count(): nat
      reads total
      requires total.Length == 2
    {
      Total(total[0], total[1])
    }

    ghost function Init(): (s: seq<Word>)
      reads `is224
      ensures |s| == 8
    {
      InitialState(is224 != 0)
    }

    ghost predicate Streamed()
      reads this, state, buffer
    {
      Shaped() && Holds(Init(), state[..], buffer[..], compressed, fed)
    }

    ghost predicate Valid()
      reads this, total, state, buffer
    {
      Streamed() && Left(Count()) == Left(|fed|)
    }

    ghost function Now(): Live
      reads this, total
      requires total.Length == 2
    {
      Live(fed, Count())
    }

    /** A context on the stack: fields allocated, contents arbitrary. */
    constructor ()
      ensures Shaped()
      ensures fresh(this) && fresh(total) && fresh(state) && fresh(buffer) && fresh(ipad) && fresh(opad)
    {
      total := new U32[2];
      state := new Word[8];
      buffer := new Byte[64];
      ipad := new Byte[64];
      opad := new Byte[64];
    }

    /** sha2_starts. */
    method Starts(is224: int)
      requires Shaped()
      modifies this, total, state
      ensures Valid() && Now() == EMPTY && this.is224 == is224
    {
      hide Holds;
      total[0] := 0;
      total[1] := 0;
      if is224 == 0 {
        state[0], state[1], state[2], state[3] := 0x6A09E667, 0xBB67AE85, 0x3C6EF372, 0xA54FF53A;
        state[4], state[5], state[6], state[7] := 0x510E527F, 0x9B05688C, 0x1F83D9AB, 0x5BE0CD19;
      } else {
        state[0], state[1], state[2], state[3] := 0xC1059ED8, 0x367CD507, 0x3070DD17, 0xF70E5939;
        state[4], state[5], state[6], state[7] := 0xFFC00B31, 0x68581511, 0x64F98FA7, 0xBEFA4FA4;
      }
      this.is224 := is224;
      fed, compressed := [], [];
      assert state[..] == Init();
      NothingFed(Init(), buffer[..]);
    }

    /** sha2_process, logging its argument. */
    method Process(data: seq<Byte>)
      requires state.Length == 8 && |data| == 64
      modifies state, `compressed
      ensures state[..] == Compress(old(state[..]), data)
      ensures compressed == old(compressed) + [data]
    {
      Rounds.Process(state, data);
      compressed := compressed + [data];
    }

    /** The counter of sha2_update: a sum cut to 32 bits that is below what was added has wrapped, and carries. */
    method AddToTotal(ilen: nat)
      requires total.Length == 2
      modifies total
      ensures Count() == Advance(old(Count()), ilen)
    {
      CarryIsRight(total[0], total[1], Cast32(ilen));
      hide Total;
      total[0] := (total[0] + Cast32(ilen)) % TWO32;
      if total[0] < Cast32(ilen) {
        total[1] := (total[1] + 1) % TWO32;
      }
    }

    /** The first branch of sha2_update: complete the buffered block, if the input reaches that far. */
    method FillBuffer(left0: nat, input: seq<Byte>) returns (left: nat, rest: seq<Byte>)
      requires Streamed() && left0 == Left(|fed|)
      modifies state, buffer, `compressed
      ensures left < 64 && |rest| <= |input|
      ensures Midway(Init(), state[..], buffer[..], compressed, fed + input, left, rest)
    {
      hide Midway, Compress, Left;
      left, rest := left0, input;
      var fill := 64 - left;
      if left != 0 && |input| >= fill {
        ghost var block := buffer[..left] + input[..fill];
        FilledBuffer(Init(), state[..], buffer[..], compressed, fed, input, fill, block);
        Copy(buffer, left, input[..fill]);
        assert buffer[..] == block;
        Process(buffer[..]);
        rest := input[fill..];
        left := 0;
      } else {
        UntouchedBuffer(Init(), state[..], buffer[..], compressed, fed, input);
      }
    }

    /** The loop of sha2_update: whole blocks are compressed straight from the input. */
    method ProcessWhole(ghost all: seq<Byte>, left: nat, input: seq<Byte>) returns (rest: seq<Byte>)
      requires Shaped() && Midway(Init(), state[..], buffer[..], compressed, all, left, input)
      modifies state, `compressed
      ensures Midway(Init(), state[..], buffer[..], compressed, all, left, rest) && |rest| < 64
    {
      hide Midway, Compress, Left;
      rest := input;
      while |rest| >= 64
        invariant Midway(Init(), state[..], buffer[..], compressed, all, left, rest)
      {
        DirectBlock(Init(), state[..], buffer[..], compressed, all, left, rest);
        Process(rest[..64]);
        rest := rest[64..];
      }
    }

    /** sha2_update. */
    method Update(input: seq<Byte>)
      requires Valid()
      modifies `fed, `compressed, total, state, buffer
      ensures Valid() && Now() == Feed(old(Now()), input)
    {
      hide Holds, Advance, Total, Left;
      LastIsPosition(total[0], total[1]);
      if |input| == 0 {
        assert fed + input == fed;
        AdvanceByNothing(Count());
        return;
      }
      var left := total[0] % 64;
      AdvanceKeepsPosition(Count(), |fed|, |input|);
      AddToTotal(|input|);
      Absorb(left, input);
    }

    /** sha2_update after the counter: the buffer, the whole blocks, and the new tail. */
    method Absorb(left0: nat, input: seq<Byte>)
      requires Streamed() && left0 == Left(|fed|)
      modifies `fed, `compressed, state, buffer
      ensures Streamed() && fed == old(fed) + input
    {
      hide Holds, Compress;
      var left, rest := FillBuffer(left0, input);
      rest := ProcessWhole(fed + input, left, rest);
      ghost var before := buffer[..];
      if |rest| > 0 {
        Copy(buffer, left, rest);
      }
      NewTail(Init(), state[..], before, buffer[..], compressed, fed + input, left, rest);
      fed := fed + input;
    }

    /** The state words as output bytes; the eighth word only if the digest is SHA-256. */
    method PutState(output: array<Byte>)
      requires state.Length == 8 && output.Length >= DigestLength(is224 != 0)
      modifies output
      ensures output[..DigestLength(is224 != 0)] == PutAll(if is224 != 0 then state[..7] else state[..])
      ensures output[DigestLength(is224 != 0)..] == old(output[DigestLength(is224 != 0)..])
    {
      for i := 0 to 7
        invariant output[..4 * i] == PutAll(state[..i])
        invariant output[28..] == old(output[28..])
      {
        assert state[..i + 1][..i] == state[..i];
        Copy(output, 4 * i, PutBE(state[i]));
      }
      if is224 == 0 {
        assert state[..][..7] == state[..7];
        Copy(output, 28, PutBE(state[7]));
      }
    }

    /** The two updates of sha2_finish. */
    method Pad()
      requires Valid()
      modifies `fed, `compressed, total, state, buffer
      ensures Valid() && Now() == Close(old(Now()))
    {
      hide Holds, Feed, Close, High, Low, PutCount, Left, Total;
      var high, low := High(total[0], total[1]), Low(total[0]);
      var msglen := PutCount(high) + PutCount(low);
      var last := total[0] % 64;
      var padn := if last < 56 then 56 - last else 120 - last;
      FinishPieces(Now(), total[0], total[1], padn);
      Update(PADDING[..padn]);
      Update(msglen);
    }

    /** sha2_finish: with SHA-224 only 28 bytes of output change. */
    method Finish(output: array<Byte>)
      requires Valid() && output.Length >= DigestLength(is224 != 0)
      requires output != buffer && output != ipad && output != opad
      modifies output, `fed, `compressed, total, state, buffer
      ensures Valid() && Now() == Close(old(Now()))
      ensures output[..DigestLength(is224 != 0)] == DigestOf(is224 != 0, old(Now()))
      ensures output[DigestLength(is224 != 0)..] == old(output[DigestLength(is224 != 0)..])
      ensures compressed == Blocks(fed) && |compressed| == (|old(fed)| + 8) / 64 + 1
    {
      hide Holds, Advance, ZeroCount, Padding, Blocks, Fold, PutAll;
      PaddedBlockCount(fed, Count());
      Pad();
      WhatHolds(Init(), state[..], buffer[..], compressed, fed);
      PutState(output);
    }

    /** sha2_hmac_starts. */
    method HmacStarts(key: seq<Byte>, is224: int)
      requires Shaped()
      modifies this, total, state, buffer, ipad, opad
      ensures Valid() && this.is224 == is224
      ensures ipad[..] == XorEach(CodeKey(is224 != 0, key), 0x36)
      ensures opad[..] == XorEach(CodeKey(is224 != 0, key), 0x5C)
      ensures Now() == Feed(EMPTY, ipad[..])
    {
      hide Holds, DigestCounting;
      var k := key;
      if |key| > 64 {
        var sum := new Byte[32];
        OneShot(key, sum, is224);
        k := sum[..if is224 != 0 then 28 else 32];
      }
      SetPads(k);
      Restart(is224, ipad[..]);
    }

    /** sha2_starts, then one update with a pad. */
    method Restart(is224: int, pad: seq<Byte>)
      requires Shaped()
      modifies this, total, state, buffer
      ensures Valid() && Now() == Feed(EMPTY, pad) && this.is224 == is224
    {
      Starts(is224);
      Update(pad);
    }

    /** Both pads: 64 constant bytes, with the key xored over the first of them. */
    method SetPads(k: seq<Byte>)
      requires Shaped() && |k| <= 64
      modifies ipad, opad
      ensures ipad[..] == XorEach(k + Zeros(64 - |k|), 0x36)
      ensures opad[..] == XorEach(k + Zeros(64 - |k|), 0x5C)
    {
      forall i | 0 <= i < 64 { ipad[i] := 0x36; }
      forall i | 0 <= i < 64 { opad[i] := 0x5C; }
      for i := 0 to |k|
        invariant forall j | 0 <= j < 64 :: ipad[j] == if j < i then 0x36 ^ k[j] else 0x36
        invariant forall j | 0 <= j < 64 :: opad[j] == if j < i then 0x5C ^ k[j] else 0x5C
      {
        ipad[i] := ipad[i] ^ k[i];
        opad[i] := opad[i] ^ k[i];
      }
    }

    /** sha2_hmac_update. */
    method HmacUpdate(input: seq<Byte>)
      requires Valid()
      modifies `fed, `compressed, total, state, buffer
      ensures Valid() && Now() == Feed(old(Now()), input)
    {
      Update(input);
    }

    /** The outer hash of sha2_hmac_finish, over this same context. */
    method OuterHash(inner: seq<Byte>, output: array<Byte>)
      requires Shaped() && |inner| < 64 && output.Length >= DigestLength(is224 != 0)
      requires output != buffer && output != ipad && output != opad
      modifies output, this, total, state, buffer
      ensures Valid() && is224 == old(is224) && Now() == Close(Feed(Feed(EMPTY, opad[..]), inner))
      ensures output[..DigestLength(is224 != 0)] == Sha(is224 != 0, opad[..] + inner)
      ensures output[DigestLength(is224 != 0)..] == old(output[DigestLength(is224 != 0)..])
    {
      hide Holds, Feed, Close, DigestOf, Sha;
      ghost var pad := opad[..];
      FeedFresh(pad);
      FeedMore(pad, inner);
      DigestOfExact(is224 != 0, pad + inner);
      Restart(is224, opad[..]);
      Update(inner);
      Finish(output);
      assert opad[..] == pad;
    }

    /** sha2_hmac_finish: of tmpbuf only the digest is read. */
    method HmacFinish(output: array<Byte>)
      requires Valid() && output.Length >= DigestLength(is224 != 0)
      requires output != buffer && output != ipad && output != opad
      modifies output, this, total, state, buffer
      ensures Valid() && is224 == old(is224)
      ensures Now() == Close(Feed(Feed(EMPTY, opad[..]), DigestOf(is224 != 0, old(Now()))))
      ensures output[..DigestLength(is224 != 0)] == Sha(is224 != 0, opad[..] + DigestOf(is224 != 0, old(Now())))
      ensures output[DigestLength(is224 != 0)..] == old(output[DigestLength(is224 != 0)..])
    {
      hide Holds, Feed, Close, DigestOf, Sha;
      var hlen := DigestLength(is224 != 0);
      var tmpbuf := new Byte[32];
      Finish(tmpbuf);
      OuterHash(tmpbuf[..hlen], output);
    }

    /** sha2_hmac_reset. */
    method HmacReset()
      requires Shaped()
      modifies this, total, state, buffer
      ensures Valid() && is224 == old(is224) && Now() == Feed(EMPTY, ipad[..])
    {
      Restart(is224, ipad[..]);
    }
  }

  /** Cutting an update in two makes no difference, as long as the whole is countable. */
  lemma UpdatesCompose(s: Live, a: seq<Byte>, b: seq<Byte>)
    requires |a| + |b| < TWO32
    ensures Feed(Feed(s, a), b) == Feed(s, a + b)
    ensures s.count < TWO64 ==> Feed(s, []) == s
  {
    hide Advance;
    AdvancesCompose(s.count, |a|, |b|);
    assert s.fed + a + b == s.fed + (a + b);
    assert s.fed + [] == s.fed;
    if s.count < TWO64 { AdvanceByNothing(s.count); }
  }

  /** A context is its abstract value: state words, counter words and live buffer bytes all follow from it. */
  lemma SameLiveSameContext(c: Sha2Context, d: Sha2Context)
    requires c.Valid() && d.Valid() && c.Now() == d.Now() && (c.is224 != 0) == (d.is224 != 0)
    ensures c.state[..] == d.state[..] && c.total[..] == d.total[..]
    ensures c.buffer[..Left(|c.fed|)] == d.buffer[..Left(|c.fed|)]
  {
    hide Fold, Blocks, Left;
    assert c.total[1] == d.total[1] && c.total[0] == d.total[0];
  }

  /** sha2. */
  method OneShot(input: seq<Byte>, output: array<Byte>, is224: int)
    requires output.Length >= DigestLength(is224 != 0)
    modifies output
    ensures output[..DigestLength(is224 != 0)] == OneShotDigest(is224 != 0, input)
    ensures output[DigestLength(is224 != 0)..] == old(output[DigestLength(is224 != 0)..])
  {
    hide Feed, Close, DigestCounting, Holds;
    FeedFresh(input);
    var ctx := new Sha2Context();
    ctx.Starts(is224);
    ctx.Update(input);
    ctx.Finish(output);
  }

  /** sha2_hmac. */
  method HmacOneShot(key: seq<Byte>, input: seq<Byte>, output: array<Byte>, is224: int)
    requires output.Length >= DigestLength(is224 != 0)
    modifies output
    ensures |key| < TWO32 && |input| < TWO32 ==>
              output[..DigestLength(is224 != 0)] == Hmac(is224 != 0, key, input)
    ensures output[DigestLength(is224 != 0)..] == old(output[DigestLength(is224 != 0)..])
  {
    hide Feed, Close, CodeKey, BlockKey, Sha, DigestCounting, XorEach, Holds;
    ghost var k := CodeKey(is224 != 0, key);
    if |key| < TWO32 && |input| < TWO32 {
      CodeKeyIsBlockKey(is224 != 0, key);
      InnerDigest(is224 != 0, XorEach(k, 0x36), input);
    }
    var ctx := new Sha2Context();
    ctx.HmacStarts(key, is224);
    ctx.HmacUpdate(input);
    ctx.HmacFinish(output);
  }
}
