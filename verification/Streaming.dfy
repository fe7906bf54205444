/** What sha2_update keeps: predicates on the words, the buffer and the blocks compressed, and its steps. */
module Streaming {
  import opened Words
  import opened Fips180
  import opened PaddingLaws

  /** The bytes fed are split between the state (whole blocks) and the start of the buffer (the rest). */
  ghost predicate Holds(init: seq<Word>, state: seq<Word>, buffer: seq<Byte>, done: seq<Block>, fed: seq<Byte>)
    requires |init| == 8
  {
    && |state| == 8 && |buffer| == 64
    && done == Blocks(fed)
    && state == Fold(init, done)
    && buffer[..Left(|fed|)] == Tail(fed)
  }

  /** In the middle of an update that will end at all: rest is still to be taken, left bytes wait in the buffer. */
  ghost predicate Midway(init: seq<Word>, state: seq<Word>, buffer: seq<Byte>, done: seq<Block>,
                         all: seq<Byte>, left: nat, rest: seq<Byte>)
    requires |init| == 8
  {
    && |state| == 8 && |buffer| == 64
    && state == Fold(init, done)
    && done + Blocks(rest) == Blocks(all)
    && (left == 0 || left + |rest| < 64)
    && buffer[..left] + Tail(rest) == Tail(all)
  }

  lemma NothingFed(init: seq<Word>, buffer: seq<Byte>)
    requires |init| == 8 && |buffer| == 64
    ensures Holds(init, init, buffer, [], [])
  {
  }

  lemma WhatHolds(init: seq<Word>, state: seq<Word>, buffer: seq<Byte>, done: seq<Block>, fed: seq<Byte>)
    requires |init| == 8 && Holds(init, state, buffer, done, fed)
    ensures state == Fold(init, Blocks(fed)) && done == Blocks(fed)
  {
  }

  /** The buffer is filled up and compressed. */
  lemma FilledBuffer(init: seq<Word>, state: seq<Word>, buffer: seq<Byte>, done: seq<Block>, fed: seq<Byte>,
                     input: seq<Byte>, fill: nat, block: Block)
    requires |init| == 8 && Holds(init, state, buffer, done, fed)
    requires Left(|fed|) + fill == 64 && fill <= |input|
    requires block == buffer[..Left(|fed|)] + input[..fill]
    ensures Midway(init, Compress(state, block), block, done + [block], fed + input, 0, input[fill..])
  {
    hide Left, Blocks, Tail;
    AppendFilling(fed, input, fill);
    FoldSnoc(init, done, block);
  }

  /** The buffer is empty, or the input does not fill it. */
  lemma UntouchedBuffer(init: seq<Word>, state: seq<Word>, buffer: seq<Byte>, done: seq<Block>, fed: seq<Byte>,
                        input: seq<Byte>)
    requires |init| == 8 && Holds(init, state, buffer, done, fed)
    requires Left(|fed|) == 0 || Left(|fed|) + |input| < 64
    ensures Midway(init, state, buffer, done, fed + input, Left(|fed|), input)
  {
    hide Fold, Left, Blocks, Tail;
    if Left(|fed|) == 0 {
      CutAligned(fed, input);
      assert buffer[..0] + Tail(input) == Tail(input);
    } else {
      AppendShort(fed, input);
      TailOfShort(input);
      BlocksOfShort(input);
    }
  }

  /** One turn of the loop: a block straight from the input. */
  lemma DirectBlock(init: seq<Word>, state: seq<Word>, buffer: seq<Byte>, done: seq<Block>,
                    all: seq<Byte>, left: nat, rest: seq<Byte>)
    requires |init| == 8 && Midway(init, state, buffer, done, all, left, rest)
    requires |rest| >= 64
    ensures Midway(init, Compress(state, rest[..64]), buffer, done + [rest[..64]], all, left, rest[64..])
  {
    hide Fold, Compress, Blocks, Tail, Left;
    var b: Block, more := rest[..64], rest[64..];
    assert rest == b + more;
    FoldSnoc(init, done, b);
    BlockThenRest(b, more);
    TailAfterBlock(b, more);
    assert done + ([b] + Blocks(more)) == (done + [b]) + Blocks(more);
  }

  /** The last bytes go to the buffer, and the update is complete. */
  lemma NewTail(init: seq<Word>, state: seq<Word>, buffer: seq<Byte>, buffer': seq<Byte>, done: seq<Block>,
                all: seq<Byte>, left: nat, rest: seq<Byte>)
    requires |init| == 8 && Midway(init, state, buffer, done, all, left, rest)
    requires |rest| < 64
    requires |buffer'| == 64 && buffer'[..left + |rest|] == buffer[..left] + rest
    ensures Holds(init, state, buffer', done, all)
  {
    hide Fold, Left, Tail, Blocks;
    TailOfShort(rest);
    BlocksOfShort(rest);
    assert |Tail(all)| == left + |rest|;
  }
}
