/** Whole runs of a context: a message in any number of pieces, and an HMAC context used over and over. */
module Sha2Runs {
  import opened Words
  import opened Fips180
  import opened PaddingLaws
  import opened Counter
  import opened Rfc2104
  import opened Sha2
  import opened Streaming

  // Pieces of one message

  function FeedAll(s: Live, pieces: seq<seq<Byte>>): Live
    decreases |pieces|
  {
    if pieces == [] then s else FeedAll(Feed(s, pieces[0]), pieces[1..])
  }

  /** Every piece is short enough for the 32-bit cast of its length. */
  ghost predicate Countable(pieces: seq<seq<Byte>>)
  {
    forall i | 0 <= i < |pieces| :: |pieces[i]| < TWO32
  }

  lemma CountableIs(pieces: seq<seq<Byte>>)
    ensures Countable(pieces) <==> forall i | 0 <= i < |pieces| :: |pieces[i]| < 0x1_0000_0000
  {
  }

  lemma FeedExact(m: seq<Byte>, input: seq<Byte>)
    requires |input| < TWO32
    ensures Feed(Live(m, |m| % TWO64), input) == Live(m + input, |m + input| % TWO64)
  {
    AdvanceIsExact(|m|, |input|);
  }

  /** However the message is cut, the context ends up having taken all of it, and having counted it. */
  lemma {:induction false} PiecesAreOneMessage(m: seq<Byte>, pieces: seq<seq<Byte>>)
    requires Countable(pieces)
    ensures FeedAll(Live(m, |m| % TWO64), pieces) == Live(m + Flatten(pieces), |m + Flatten(pieces)| % TWO64)
    decreases |pieces|
  {
    hide Feed;
    if pieces == [] {
      assert m + Flatten(pieces) == m;
    } else {
      FeedExact(m, pieces[0]);
      PiecesAreOneMessage(m + pieces[0], pieces[1..]);
      assert (m + pieces[0]) + Flatten(pieces[1..]) == m + Flatten(pieces);
    }
  }

  lemma DigestOfWrapped(is224: bool, m: seq<Byte>)
    ensures DigestOf(is224, Live(m, |m| % TWO64)) == Sha(is224, m)
  {
    hide DigestCounting, Sha;
    RightCountGivesSha(is224, m, |m| % TWO64);
  }

  lemma DigestOfPieces(is224: bool, pieces: seq<seq<Byte>>)
    requires Countable(pieces)
    ensures DigestOf(is224, FeedAll(EMPTY, pieces)) == Sha(is224, Flatten(pieces))
  {
    hide Sha, Feed, DigestCounting;
    PiecesAreOneMessage([], pieces);
    var m := Flatten(pieces);
    assert [] + m == m;
    DigestOfWrapped(is224, m);
  }

  lemma {:induction false} FedByPieces(s: Live, pieces: seq<seq<Byte>>)
    ensures FeedAll(s, pieces).fed == s.fed + Flatten(pieces)
    decreases |pieces|
  {
    if pieces != [] { FedByPieces(Feed(s, pieces[0]), pieces[1..]); }
  }

  /** The blocks of a padded message: how many, and that they start with the message itself. */
  lemma BlocksOfPadded(m: seq<Byte>, count: nat)
    ensures var calls := Blocks(m + Padding(|m|, count));
            |calls| == (|m| + 8) / 64 + 1 && Flatten(calls) == m + Padding(|m|, count)
  {
    hide Blocks, Padding;
    PaddedBlockCount(m, count);
    PaddedLength(|m|, count);
    var p := m + Padding(|m|, count);
    FlattenBlocks(p);
    WholeIsAligned(p);
  }

  /** Everything the caller of starts, update* and finish may rely on, from the abstract context alone. */
  lemma AfterPieces(is224: bool, pieces: seq<seq<Byte>>, calls: seq<Block>)
    requires calls == Blocks(Close(FeedAll(EMPTY, pieces)).fed)
    ensures Countable(pieces) ==> DigestOf(is224, FeedAll(EMPTY, pieces)) == Sha(is224, Flatten(pieces))
    ensures |calls| == (|Flatten(pieces)| + 8) / 64 + 1
    ensures Flatten(pieces) <= Flatten(calls)
  {
    hide Feed, DigestOf, Sha, Countable, Flatten, Padding, Blocks;
    FedByPieces(EMPTY, pieces);
    var s := FeedAll(EMPTY, pieces);
    assert s.fed == Flatten(pieces);
    BlocksOfPadded(s.fed, s.count);
    if Countable(pieces) { DigestOfPieces(is224, pieces); }
  }

  method FeedPieces(ctx: Sha2Context, pieces: seq<seq<Byte>>)
    requires ctx.Valid()
    modifies ctx`fed, ctx`compressed, ctx.total, ctx.state, ctx.buffer
    ensures ctx.Valid() && ctx.Now() == FeedAll(old(ctx.Now()), pieces)
  {
    hide Feed, Holds;
    for i := 0 to |pieces|
      invariant ctx.Valid()
      invariant FeedAll(ctx.Now(), pieces[i..]) == FeedAll(old(ctx.Now()), pieces)
    {
      ctx.Update(pieces[i]);
      assert pieces[i..][1..] == pieces[i + 1..];
    }
  }

  /**
   * The loop of sha2_file, on pieces already read; calls are the arguments of sha2_process, in order.
   * Whatever the pieces, every byte of the message is compressed once and in order, and the number of calls
   * depends on the length alone.
   */
  method HashPieces(pieces: seq<seq<Byte>>, output: array<Byte>, is224: int) returns (ghost calls: seq<Block>)
    requires output.Length >= DigestLength(is224 != 0)
    modifies output
    ensures (forall i | 0 <= i < |pieces| :: |pieces[i]| < 0x1_0000_0000) ==>
              output[..DigestLength(is224 != 0)] == Sha(is224 != 0, Flatten(pieces))
    ensures output[DigestLength(is224 != 0)..] == old(output[DigestLength(is224 != 0)..])
    ensures |calls| == (|Flatten(pieces)| + 8) / 64 + 1
    ensures Flatten(pieces) <= Flatten(calls)
  {
    hide Feed, Holds, DigestOf, Sha, Countable, Flatten, Close;
    var ctx := new Sha2Context();
    ctx.Starts(is224);
    FeedPieces(ctx, pieces);
    ctx.Finish(output);
    calls := ctx.compressed;
    CountableIs(pieces);
    AfterPieces(is224 != 0, pieces, calls);
  }

  // One HMAC context, used any number of times

  datatype HmacCall = Take(data: seq<Byte>) | Finish | Reset

  function Step(is224: bool, ipad: seq<Byte>, opad: seq<Byte>, s: Live, call: HmacCall): Live
  {
    match call
    case Take(data) => Feed(s, data)
    case Finish => Close(Feed(Feed(EMPTY, opad), DigestOf(is224, s)))
    case Reset => Feed(EMPTY, ipad)
  }

  function Run(is224: bool, ipad: seq<Byte>, opad: seq<Byte>, s: Live, calls: seq<HmacCall>): Live
    decreases |calls|
  {
    if calls == [] then s else Run(is224, ipad, opad, Step(is224, ipad, opad, s, calls[0]), calls[1..])
  }

  /** The MACs that the finishes of a run write, in order. */
  function Macs(is224: bool, ipad: seq<Byte>, opad: seq<Byte>, s: Live, calls: seq<HmacCall>): seq<seq<Byte>>
    decreases |calls|
  {
    if calls == [] then []
    else
      MacOf(is224, opad, s, calls[0])
      + Macs(is224, ipad, opad, Step(is224, ipad, opad, s, calls[0]), calls[1..])
  }

  function MacOf(is224: bool, opad: seq<Byte>, s: Live, call: HmacCall): seq<seq<Byte>>
  {
    if call.Finish? then [Sha(is224, opad + DigestOf(is224, s))] else []
  }

  lemma MacsUnfold(is224: bool, ipad: seq<Byte>, opad: seq<Byte>, s: Live, calls: seq<HmacCall>, i: nat)
    requires i < |calls|
    ensures Macs(is224, ipad, opad, s, calls[i..])
         == MacOf(is224, opad, s, calls[i])
            + Macs(is224, ipad, opad, Step(is224, ipad, opad, s, calls[i]), calls[i + 1..])
  {
    assert calls[i..][1..] == calls[i + 1..];
  }

  /** sha2_hmac_starts, then any mix of the other three calls on the same context. */
  method HmacSession(key: seq<Byte>, calls: seq<HmacCall>, is224: int) returns (macs: seq<seq<Byte>>)
    ensures var k := CodeKey(is224 != 0, key);
            macs == Macs(is224 != 0, XorEach(k, 0x36), XorEach(k, 0x5C), Feed(EMPTY, XorEach(k, 0x36)), calls)
  {
    hide Feed, Holds, Close, XorEach, CodeKey, Step, Macs, MacOf;
    var ctx := new Sha2Context();
    ctx.HmacStarts(key, is224);
    macs := [];
    ghost var ipad, opad := ctx.ipad[..], ctx.opad[..];
    for i := 0 to |calls|
      invariant fresh(ctx) && fresh(ctx.total) && fresh(ctx.state) && fresh(ctx.buffer)
      invariant ctx.Valid() && ctx.is224 == is224 && ctx.ipad[..] == ipad && ctx.opad[..] == opad
      invariant macs + Macs(is224 != 0, ipad, opad, ctx.Now(), calls[i..])
             == Macs(is224 != 0, ipad, opad, Feed(EMPTY, ipad), calls)
    {
      MacsUnfold(is224 != 0, ipad, opad, ctx.Now(), calls, i);
      var mac := Perform(ctx, calls[i]);
      macs := macs + mac;
    }
    MacsOfNothing(is224 != 0, ipad, opad, ctx.Now(), calls);
  }

  lemma MacsOfNothing(is224: bool, ipad: seq<Byte>, opad: seq<Byte>, s: Live, calls: seq<HmacCall>)
    ensures Macs(is224, ipad, opad, s, calls[|calls|..]) == []
  {
  }

  method Perform(ctx: Sha2Context, call: HmacCall) returns (mac: seq<seq<Byte>>)
    requires ctx.Valid()
    modifies ctx, ctx.total, ctx.state, ctx.buffer
    ensures ctx.Valid() && ctx.is224 == old(ctx.is224)
    ensures ctx.Now() == Step(ctx.is224 != 0, ctx.ipad[..], ctx.opad[..], old(ctx.Now()), call)
    ensures mac == MacOf(ctx.is224 != 0, ctx.opad[..], old(ctx.Now()), call)
  {
    hide Feed, Holds, DigestOf, Sha, Close;
    mac := [];
    match call
    case Take(data) => ctx.HmacUpdate(data);
    case Finish =>
      var output := new Byte[32];
      ctx.HmacFinish(output);
      mac := [output[..DigestLength(ctx.is224 != 0)]];
    case Reset => ctx.HmacReset();
  }

  lemma {:induction false} RunsCompose(is224: bool, ipad: seq<Byte>, opad: seq<Byte>, s: Live,
                                       a: seq<HmacCall>, b: seq<HmacCall>)
    ensures Run(is224, ipad, opad, s, a + b) == Run(is224, ipad, opad, Run(is224, ipad, opad, s, a), b)
    ensures Macs(is224, ipad, opad, s, a + b)
         == Macs(is224, ipad, opad, s, a) + Macs(is224, ipad, opad, Run(is224, ipad, opad, s, a), b)
    decreases |a|
  {
    hide Step, Sha, DigestOf;
    if a == [] {
      assert a + b == b;
    } else {
      assert (a + b)[0] == a[0] && (a + b)[1..] == a[1..] + b;
      RunsCompose(is224, ipad, opad, Step(is224, ipad, opad, s, a[0]), a[1..], b);
    }
  }

  function Takes(pieces: seq<seq<Byte>>): (calls: seq<HmacCall>)
    ensures |calls| == |pieces|
  {
    if pieces == [] then [] else [Take(pieces[0])] + Takes(pieces[1..])
  }

  lemma {:induction false} TakesFeed(is224: bool, ipad: seq<Byte>, opad: seq<Byte>, s: Live, pieces: seq<seq<Byte>>)
    ensures Run(is224, ipad, opad, s, Takes(pieces)) == FeedAll(s, pieces)
    ensures Macs(is224, ipad, opad, s, Takes(pieces)) == []
    decreases |pieces|
  {
    hide Feed, Sha, DigestOf;
    if pieces != [] {
      TakesFeed(is224, ipad, opad, Feed(s, pieces[0]), pieces[1..]);
      assert Takes(pieces)[1..] == Takes(pieces[1..]);
    }
  }

  /** From the state that sha2_hmac_starts leaves: the pieces of a message, then its MAC. */
  lemma MacOfFirst(is224: bool, key: seq<Byte>, pieces: seq<seq<Byte>>)
    requires |key| < TWO32 && Countable(pieces)
    ensures var k := BlockKey(is224, key);
            var ipad, opad := XorEach(k, 0x36), XorEach(k, 0x5C);
            Macs(is224, ipad, opad, Feed(EMPTY, ipad), Takes(pieces) + [Finish]) == [Hmac(is224, key, Flatten(pieces))]
  {
    hide BlockKey, XorEach, Feed, FeedAll, DigestOf, Sha, Countable, Takes;
    var k := BlockKey(is224, key);
    var ipad, opad := XorEach(k, 0x36), XorEach(k, 0x5C);
    FeedFresh(ipad);
    var s := Live(ipad, |ipad| % TWO64);
    RunsCompose(is224, ipad, opad, s, Takes(pieces), [Finish]);
    TakesFeed(is224, ipad, opad, s, pieces);
    PiecesAreOneMessage(ipad, pieces);
    var m := ipad + Flatten(pieces);
    DigestOfWrapped(is224, m);
    assert Macs(is224, ipad, opad, FeedAll(s, pieces), [Finish])
        == [Sha(is224, opad + DigestOf(is224, FeedAll(s, pieces)))];
  }

  /**
   * The same context again: whatever was called on it before, a reset brings back the state sha2_hmac_starts left,
   * and the next message gets the MAC a fresh context would give it.
   */
  lemma MacAfterReset(is224: bool, key: seq<Byte>, s: Live, before: seq<HmacCall>, pieces: seq<seq<Byte>>)
    requires |key| < TWO32 && Countable(pieces)
    ensures var k := BlockKey(is224, key);
            var ipad, opad := XorEach(k, 0x36), XorEach(k, 0x5C);
            (&& Run(is224, ipad, opad, s, before + [Reset]) == Feed(EMPTY, ipad)
             && Macs(is224, ipad, opad, s, before + ([Reset] + (Takes(pieces) + [Finish])))
             == Macs(is224, ipad, opad, s, before) + [Hmac(is224, key, Flatten(pieces))])
  {
    hide BlockKey, XorEach, Feed, Hmac, Sha, DigestOf, Countable, Takes, Flatten;
    var k := BlockKey(is224, key);
    var ipad, opad := XorEach(k, 0x36), XorEach(k, 0x5C);
    var more := Takes(pieces) + [Finish];
    var t := Run(is224, ipad, opad, s, before);
    RunsCompose(is224, ipad, opad, s, before, [Reset]);
    RunsCompose(is224, ipad, opad, s, before, [Reset] + more);
    MacOfFirst(is224, key, pieces);
    assert ([Reset] + more)[1..] == more;
    assert Macs(is224, ipad, opad, t, [Reset] + more) == Macs(is224, ipad, opad, Feed(EMPTY, ipad), more);
  }
}
