/** sha2_process: the message schedule and the 64 rounds, in place and with register names that move. */
module Process {
  import opened Words
  import opened Fips180
  import opened Macros

  /** The macro R(t): fills in W[t] and yields it. */
  method R(W: array<Word>, t: nat, ghost block: seq<Byte>) returns (w: Word)
    requires W.Length == 64 && 16 <= t < 64 && |block| == 64
    requires forall j | 0 <= j < t :: W[j] == Schedule(block, j)
    modifies W
    ensures w == W[t] == Schedule(block, t)
    ensures forall j | 0 <= j < t :: W[j] == old(W[j])
  {
    hide Add, Plus, SmallSigma0, SmallSigma1, S0, S1;
    W[t] := Plus(Plus(Plus(S1(W[t - 2]), W[t - 7]), S0(W[t - 15])), W[t - 16]);
    w := W[t];
  }

  /** The macro P: one round, updating d and h and leaving the other six registers where they are. */
  method P(a: Word, b: Word, c: Word, d: Word, e: Word, f: Word, g: Word, h: Word, x: Word, k: Word)
    returns (d': Word, h': Word)
    ensures Vars(h', a, b, c, d', e, f, g) == Round(Vars(a, b, c, d, e, f, g, h), k, x)
  {
    hide Add, Plus, BigSigma0, BigSigma1, S2, S3, F0, F1;
    var temp1 := Plus(Plus(Plus(Plus(h, S3(e)), F1(e, f, g)), k), x);
    var temp2 := Plus(S2(a), F0(a, b, c));
    d' := Plus(d, temp1);
    h' := Plus(temp1, temp2);
  }

  /** The x argument of round t: W[t] as loaded from the block, or R(t) from round 16 on. */
  method MessageWord(W: array<Word>, t: nat, ghost block: seq<Byte>) returns (x: Word)
    requires W.Length == 64 && t < 64 && |block| == 64
    requires Ready(W, block, t)
    modifies W
    ensures Ready(W, block, t + 1)
    ensures x == Schedule(block, t)
  {
    if t < 16 {
      x := W[t];
    } else {
      x := R(W, t, block);
    }
  }

  /** W[..n] holds the first n words of the message schedule. */
  ghost predicate Filled(W: array<Word>, block: seq<Byte>, n: nat)
    requires W.Length == 64 && n <= 64 && |block| == 64
    reads W
  {
    forall j | 0 <= j < n :: W[j] == Schedule(block, j)
  }

  /** What round t needs of W: the sixteen words of the block and every word of an earlier round. */
  ghost predicate Ready(W: array<Word>, block: seq<Byte>, t: nat)
    requires W.Length == 64 && t <= 64 && |block| == 64
    reads W
  {
    Filled(W, block, if t < 16 then 16 else t)
  }

  /** W[0] to W[15] are the block, read as big-endian words. */
  method LoadBlock(data: seq<Byte>) returns (W: array<Word>)
    requires |data| == 64
    ensures fresh(W) && W.Length == 64 && Ready(W, data, 0)
  {
    W := new Word[64];
    for t := 0 to 16
      invariant forall j | 0 <= j < t :: W[j] == GetBE(data, 4 * j)
    {
      W[t] := GetBE(data, 4 * t);
    }
  }

  /** Round t: P(a, b, c, d, e, f, g, h, W[t] or R(t), K_t). */
  method DoRound(W: array<Word>, t: nat, ghost data: seq<Byte>, ghost v0: Vars,
                 a: Word, b: Word, c: Word, d: Word, e: Word, f: Word, g: Word, h: Word)
    returns (d': Word, h': Word)
    requires W.Length == 64 && t < 64 && |data| == 64
    requires Ready(W, data, t)
    requires Vars(a, b, c, d, e, f, g, h) == Rounds(v0, data, t)
    modifies W
    ensures Ready(W, data, t + 1)
    ensures Vars(h', a, b, c, d', e, f, g) == Rounds(v0, data, t + 1)
  {
    hide Round, Schedule, Filled, K;
    var x := MessageWord(W, t, data);
    d', h' := P(a, b, c, d, e, f, g, h, x, K(t));
  }

  /** Rounds 8i to 8i+7: the register names move one place a round and are back in order at the end. */
  method EightRounds(W: array<Word>, i: nat, ghost data: seq<Byte>, ghost v0: Vars,
                     a: Word, b: Word, c: Word, d: Word, e: Word, f: Word, g: Word, h: Word)
    returns (A: Word, B: Word, C: Word, D: Word, E: Word, F: Word, G: Word, H: Word)
    requires W.Length == 64 && i < 8 && |data| == 64
    requires Ready(W, data, 8 * i)
    requires Vars(a, b, c, d, e, f, g, h) == Rounds(v0, data, 8 * i)
    modifies W
    ensures Ready(W, data, 8 * i + 8)
    ensures Vars(A, B, C, D, E, F, G, H) == Rounds(v0, data, 8 * i + 8)
  {
    hide Rounds, Ready;
    var t := 8 * i;
    A, B, C, D, E, F, G, H := a, b, c, d, e, f, g, h;
    D, H := DoRound(W, t, data, v0, A, B, C, D, E, F, G, H);
    C, G := DoRound(W, t + 1, data, v0, H, A, B, C, D, E, F, G);
    B, F := DoRound(W, t + 2, data, v0, G, H, A, B, C, D, E, F);
    A, E := DoRound(W, t + 3, data, v0, F, G, H, A, B, C, D, E);
    H, D := DoRound(W, t + 4, data, v0, E, F, G, H, A, B, C, D);
    G, C := DoRound(W, t + 5, data, v0, D, E, F, G, H, A, B, C);
    F, B := DoRound(W, t + 6, data, v0, C, D, E, F, G, H, A, B);
    E, A := DoRound(W, t + 7, data, v0, B, C, D, E, F, G, H, A);
  }

  method AllRounds(data: seq<Byte>, a: Word, b: Word, c: Word, d: Word, e: Word, f: Word, g: Word, h: Word)
    returns (A: Word, B: Word, C: Word, D: Word, E: Word, F: Word, G: Word, H: Word)
    requires |data| == 64
    ensures Vars(A, B, C, D, E, F, G, H) == Rounds(Vars(a, b, c, d, e, f, g, h), data, 64)
  {
    hide Round, Schedule, Ready;
    var W := LoadBlock(data);
    A, B, C, D, E, F, G, H := a, b, c, d, e, f, g, h;
    ghost var v0 := Vars(a, b, c, d, e, f, g, h);
    for i := 0 to 8
      invariant Ready(W, data, 8 * i)
      invariant Vars(A, B, C, D, E, F, G, H) == Rounds(v0, data, 8 * i)
    {
      A, B, C, D, E, F, G, H := EightRounds(W, i, data, v0, A, B, C, D, E, F, G, H);
    }
  }

  /** sha2_process, on the state words of a context. */
  method Process(state: array<Word>, data: seq<Byte>)
    requires state.Length == 8 && |data| == 64
    modifies state
    ensures state[..] == Compress(old(state[..]), data)
  {
    hide Rounds, Add, Plus;
    var A, B, C, D, E, F, G, H := AllRounds(data, state[0], state[1], state[2], state[3],
                                            state[4], state[5], state[6], state[7]);
    state[0] := Plus(state[0], A);
    state[1] := Plus(state[1], B);
    state[2] := Plus(state[2], C);
    state[3] := Plus(state[3], D);
    state[4] := Plus(state[4], E);
    state[5] := Plus(state[5], F);
    state[6] := Plus(state[6], G);
    state[7] := Plus(state[7], H);
  }
}
