/**
 * One digest worked out: the message "abc", the example of appendix B.1 of FIPS 180-2, with the values of its schedule
 * and of its rounds. Every function of the standard has a part in it, from the padding to the bytes of the digest.
 */
module KnownAnswer {
  import opened Words
  import opened Fips180
  import Sha2

  const ABC: seq<Byte> := [0x61, 0x62, 0x63]

  /** The padded message: one block. */
  const BLOCK: seq<Byte> := ABC + [0x80] + Zeros(59) + [0x18]

  // The message schedule

  /** The words W0 to W63 of the example, eight a row. */
  function WRow(row: nat): (r: seq<Word>)
    requires row < 8
    ensures |r| == 8
  {
    match row
    case 0 => [0x61626380, 0x00000000, 0x00000000, 0x00000000, 0x00000000, 0x00000000, 0x00000000, 0x00000000]
    case 1 => [0x00000000, 0x00000000, 0x00000000, 0x00000000, 0x00000000, 0x00000000, 0x00000000, 0x00000018]
    case 2 => [0x61626380, 0x000F0000, 0x7DA86405, 0x600003C6, 0x3E9D7B78, 0x0183FC00, 0x12DCBFDB, 0xE2E2C38E]
    case 3 => [0xC8215C1A, 0xB73679A2, 0xE5BC3909, 0x32663C5B, 0x9D209D67, 0xEC8726CB, 0x702138A4, 0xD3B7973B]
    case 4 => [0x93F5997F, 0x3B68BA73, 0xAFF4FFC1, 0xF10A5C62, 0x0A8B3996, 0x72AF830A, 0x9409E33E, 0x24641522]
    case 5 => [0x9F47BF94, 0xF0A64F5A, 0x3E246A79, 0x27333BA3, 0x0C4763F2, 0x840ABF27, 0x7A290D5D, 0x065C43DA]
    case 6 => [0xFB3E89CB, 0xCC7617DB, 0xB9E66C34, 0xA9993667, 0x84BADEDD, 0xC21462BC, 0x1487472C, 0xB20F7A99]
    case _ => [0xEF57B9CD, 0xEBE6B238, 0x9FE3095E, 0x78BC8D4B, 0xA43FCF15, 0x668B2FF8, 0xEEABA2CC, 0x12B1EDEB]
  }

  /** The next eight words of a schedule, from the sixteen before. */
  predicate NextWords(q: seq<Word>, p: seq<Word>, w: seq<Word>)
    requires |q| == |p| == |w| == 8
  {
    && w[0] == NextWord(p[6], p[1], q[1], q[0])
    && w[1] == NextWord(p[7], p[2], q[2], q[1])
    && w[2] == NextWord(w[0], p[3], q[3], q[2])
    && w[3] == NextWord(w[1], p[4], q[4], q[3])
    && w[4] == NextWord(w[2], p[5], q[5], q[4])
    && w[5] == NextWord(w[3], p[6], q[6], q[5])
    && w[6] == NextWord(w[4], p[7], q[7], q[6])
    && w[7] == NextWord(w[5], w[0], p[0], q[7])
  }

  function NextWord(w2: Word, w7: Word, w15: Word, w16: Word): Word
  {
    Add(Add(Add(SmallSigma1(w2), w7), SmallSigma0(w15)), w16)
  }

  lemma WordsOfRow2()
    ensures NextWords(WRow(0), WRow(1), WRow(2))
  {
  }

  lemma WordsOfRow3()
    ensures NextWords(WRow(1), WRow(2), WRow(3))
  {
  }

  lemma WordsOfRow4()
    ensures NextWords(WRow(2), WRow(3), WRow(4))
  {
  }

  lemma WordsOfRow5()
    ensures NextWords(WRow(3), WRow(4), WRow(5))
  {
  }

  lemma WordsOfRow6()
    ensures NextWords(WRow(4), WRow(5), WRow(6))
  {
  }

  lemma WordsOfRow7()
    ensures NextWords(WRow(5), WRow(6), WRow(7))
  {
  }

  lemma EveryRowOfWords(row: nat)
    requires 2 <= row < 8
    ensures NextWords(WRow(row - 2), WRow(row - 1), WRow(row))
  {
    hide NextWords, WRow;
    WordsOfRow2();
    WordsOfRow3();
    WordsOfRow4();
    WordsOfRow5();
    WordsOfRow6();
    WordsOfRow7();
  }

  lemma BlockOfAbc()
    ensures |BLOCK| == 64 && Blocks(ABC + Padding(3, 3)) == [BLOCK]
  {
    hide Zeros, BigEndian, Blocks;
    LengthOfAbc();
    ZerosJoin(52, 7);
    assert ZeroCount(3) == 52;
    assert ABC + Padding(3, 3) == BLOCK;
    OneBlock(BLOCK);
  }

  lemma OneBlock(b: Block)
    ensures Blocks(b) == [b]
  {
    assert b[..64] == b && b[64..] == [];
  }

  lemma ZerosJoin(m: nat, n: nat)
    ensures Zeros(m) + Zeros(n) == Zeros(m + n)
  {
  }

  lemma LengthOfAbc()
    ensures BigEndian(24, 8) == Zeros(7) + [0x18]
  {
    assert BigEndian(24, 1) == [0x18];
  }

  /** Eight words of the schedule, from word t on. */
  predicate HasWords(block: seq<Byte>, t: nat, w: seq<Word>)
    requires |block| == 64 && t + 8 <= 64 && |w| == 8
  {
    && Schedule(block, t) == w[0] && Schedule(block, t + 1) == w[1]
    && Schedule(block, t + 2) == w[2] && Schedule(block, t + 3) == w[3]
    && Schedule(block, t + 4) == w[4] && Schedule(block, t + 5) == w[5]
    && Schedule(block, t + 6) == w[6] && Schedule(block, t + 7) == w[7]
  }

  lemma FirstWords()
    ensures |BLOCK| == 64 && HasWords(BLOCK, 0, WRow(0)) && HasWords(BLOCK, 8, WRow(1))
  {
  }

  lemma LaterWord(block: seq<Byte>, t: nat)
    requires |block| == 64 && 16 <= t < 64
    ensures Schedule(block, t) == NextWord(Schedule(block, t - 2), Schedule(block, t - 7),
                                           Schedule(block, t - 15), Schedule(block, t - 16))
  {
  }

  lemma LaterWords(block: seq<Byte>, t: nat, q: seq<Word>, p: seq<Word>, w: seq<Word>)
    requires |block| == 64 && 16 <= t <= 56 && |q| == |p| == |w| == 8
    requires HasWords(block, t - 16, q) && HasWords(block, t - 8, p) && NextWords(q, p, w)
    ensures HasWords(block, t, w)
  {
    hide Schedule, NextWord;
    LaterWord(block, t);
    LaterWord(block, t + 1);
    LaterWord(block, t + 2);
    LaterWord(block, t + 3);
    LaterWord(block, t + 4);
    LaterWord(block, t + 5);
    LaterWord(block, t + 6);
    LaterWord(block, t + 7);
  }

  lemma {:induction false} ScheduleOfAbc(row: nat)
    requires row < 8
    ensures |BLOCK| == 64 && HasWords(BLOCK, 8 * row, WRow(row))
  {
    hide WRow, HasWords, NextWords;
    if row < 2 {
      FirstWords();
    } else {
      ScheduleOfAbc(row - 1);
      ScheduleOfAbc(row - 2);
      EveryRowOfWords(row);
      LaterWords(BLOCK, 8 * row, WRow(row - 2), WRow(row - 1), WRow(row));
    }
  }

  // The rounds

  /** Eight rounds. */
  function Eight(v: Vars, k: seq<Word>, w: seq<Word>): Vars
    requires |k| == |w| == 8
  {
    var u := Round(Round(Round(Round(v, k[0], w[0]), k[1], w[1]), k[2], w[2]), k[3], w[3]);
    Round(Round(Round(Round(u, k[4], w[4]), k[5], w[5]), k[6], w[6]), k[7], w[7])
  }

  /** The variables after a round, of which two are new. */
  function Moved(v: Vars, a: Word, e: Word): Vars { Vars(a, v.a, v.b, v.c, e, v.e, v.f, v.g) }

  /** The variables before round 0, 8, ..., 64. */
  const BEFORE0 := Vars(0x6A09E667, 0xBB67AE85, 0x3C6EF372, 0xA54FF53A, 0x510E527F, 0x9B05688C, 0x1F83D9AB, 0x5BE0CD19)
  const BEFORE1 := Vars(0x85A07B5F, 0xE5030380, 0x2B4209F5, 0x04409A6A, 0x0C657A79, 0x9B27A401, 0x714260AD, 0x43ADA245)
  const BEFORE2 := Vars(0xB0FA238E, 0xC0645FDE, 0xD932EB16, 0x87912990, 0x07590DCD, 0x0B92F20C, 0x745A48DE, 0x1E578218)
  const BEFORE3 := Vars(0xC5D53D8D, 0xA7A3623F, 0xC2606D6D, 0x9DC68B63, 0xAA47C347, 0x49F5114A, 0xE1257970, 0x8ADA8930)
  const BEFORE4 := Vars(0x73B33BF5, 0xEA992A22, 0xA0060B30, 0x363482C9, 0xBA591112, 0x0109AB3A, 0xADE79437, 0x6112A3B7)
  const BEFORE5 := Vars(0x79EA687A, 0x6DC57A8A, 0x34DF1604, 0x41A65CB1, 0x1EFBC0A0, 0xF0781BC8, 0xA507A53D, 0x0772A26B)
  const BEFORE6 := Vars(0x4172328D, 0xA14C14B0, 0x72AB4B91, 0x26628815, 0xFECF0BC6, 0xD57B94A9, 0xB7755DA1, 0xA80F11F0)
  const BEFORE7 := Vars(0x38CC9913, 0x3EC45CDB, 0xF5702FDB, 0x101FD28F, 0x54CB266B, 0xE50E1B4F, 0x9F4787C3, 0x529E7D00)
  const BEFORE8 := Vars(0x506E3058, 0xD39A2165, 0x04D24D6C, 0xB85E2CE9, 0x5EF50F24, 0xFB121210, 0x948D25B6, 0x961F4894)

  /** A round on known words. */
  lemma Known(v: Vars, k: Word, w: Word, a: Word, e: Word) returns (after: Vars)
    requires Round(v, k, w) == Moved(v, a, e)
    ensures after == Round(v, k, w) == Moved(v, a, e)
  {
    after := Moved(v, a, e);
  }

  lemma RoundsOfRow0()
    ensures Eight(BEFORE0, KRow(0), WRow(0)) == BEFORE1
  {
    var v := BEFORE0;
    v := Known(v, 0x428A2F98, 0x61626380, 0x5D6AEBCD, 0xFA2A4622);
    v := Known(v, 0x71374491, 0x00000000, 0x5A6AD9AD, 0x78CE7989);
    v := Known(v, 0xB5C0FBCF, 0x00000000, 0xC8C347A7, 0xF92939EB);
    v := Known(v, 0xE9B5DBA5, 0x00000000, 0xD550F666, 0x24E00850);
    v := Known(v, 0x3956C25B, 0x00000000, 0x04409A6A, 0x43ADA245);
    v := Known(v, 0x59F111F1, 0x00000000, 0x2B4209F5, 0x714260AD);
    v := Known(v, 0x923F82A4, 0x00000000, 0xE5030380, 0x9B27A401);
    v := Known(v, 0xAB1C5ED5, 0x00000000, 0x85A07B5F, 0x0C657A79);
  }

  lemma RoundsOfRow1()
    ensures Eight(BEFORE1, KRow(1), WRow(1)) == BEFORE2
  {
    var v := BEFORE1;
    v := Known(v, 0xD807AA98, 0x00000000, 0x8E04ECB9, 0x32CA2D8C);
    v := Known(v, 0x12835B01, 0x00000000, 0x8C87346B, 0x1CC92596);
    v := Known(v, 0x243185BE, 0x00000000, 0x4798A3F4, 0x436B23E8);
    v := Known(v, 0x550C7DC3, 0x00000000, 0xF71FC5A9, 0x816FD6E9);
    v := Known(v, 0x72BE5D74, 0x00000000, 0x87912990, 0x1E578218);
    v := Known(v, 0x80DEB1FE, 0x00000000, 0xD932EB16, 0x745A48DE);
    v := Known(v, 0x9BDC06A7, 0x00000000, 0xC0645FDE, 0x0B92F20C);
    v := Known(v, 0xC19BF174, 0x00000018, 0xB0FA238E, 0x07590DCD);
  }

  lemma RoundsOfRow2()
    ensures Eight(BEFORE2, KRow(2), WRow(2)) == BEFORE3
  {
    var v := BEFORE2;
    v := Known(v, 0xE49B69C1, 0x61626380, 0x21DA9A9B, 0x8034229C);
    v := Known(v, 0xEFBE4786, 0x000F0000, 0xC2FBD9D1, 0x846EE454);
    v := Known(v, 0x0FC19DC6, 0x7DA86405, 0xFE777BBF, 0xCC899961);
    v := Known(v, 0x240CA1CC, 0x600003C6, 0xE1F20C33, 0xB0638179);
    v := Known(v, 0x2DE92C6F, 0x3E9D7B78, 0x9DC68B63, 0x8ADA8930);
    v := Known(v, 0x4A7484AA, 0x0183FC00, 0xC2606D6D, 0xE1257970);
    v := Known(v, 0x5CB0A9DC, 0x12DCBFDB, 0xA7A3623F, 0x49F5114A);
    v := Known(v, 0x76F988DA, 0xE2E2C38E, 0xC5D53D8D, 0xAA47C347);
  }

  lemma RoundsOfRow3()
    ensures Eight(BEFORE3, KRow(3), WRow(3)) == BEFORE4
  {
    var v := BEFORE3;
    v := Known(v, 0x983E5152, 0xC8215C1A, 0x1C2C2838, 0x2823EF91);
    v := Known(v, 0xA831C66D, 0xB73679A2, 0xCDE8037D, 0x14383D8E);
    v := Known(v, 0xB00327C8, 0xE5BC3909, 0xB62EC4BC, 0xC74C6516);
    v := Known(v, 0xBF597FC7, 0x32663C5B, 0x77D37528, 0xEDFFBFF8);
    v := Known(v, 0xC6E00BF3, 0x9D209D67, 0x363482C9, 0x6112A3B7);
    v := Known(v, 0xD5A79147, 0xEC8726CB, 0xA0060B30, 0xADE79437);
    v := Known(v, 0x06CA6351, 0x702138A4, 0xEA992A22, 0x0109AB3A);
    v := Known(v, 0x14292967, 0xD3B7973B, 0x73B33BF5, 0xBA591112);
  }

  lemma RoundsOfRow4()
    ensures Eight(BEFORE4, KRow(4), WRow(4)) == BEFORE5
  {
    var v := BEFORE4;
    v := Known(v, 0x27B70A85, 0x93F5997F, 0x98E12507, 0x9CD9F5F6);
    v := Known(v, 0x2E1B2138, 0x3B68BA73, 0xFE604DF5, 0x59249DD3);
    v := Known(v, 0x4D2C6DFC, 0xAFF4FFC1, 0xA9A7738C, 0x085F3833);
    v := Known(v, 0x53380D13, 0xF10A5C62, 0x65A0CFE4, 0xF4B002D6);
    v := Known(v, 0x650A7354, 0x0A8B3996, 0x41A65CB1, 0x0772A26B);
    v := Known(v, 0x766A0ABB, 0x72AF830A, 0x34DF1604, 0xA507A53D);
    v := Known(v, 0x81C2C92E, 0x9409E33E, 0x6DC57A8A, 0xF0781BC8);
    v := Known(v, 0x92722C85, 0x24641522, 0x79EA687A, 0x1EFBC0A0);
  }

  lemma RoundsOfRow5()
    ensures Eight(BEFORE5, KRow(5), WRow(5)) == BEFORE6
  {
    var v := BEFORE5;
    v := Known(v, 0xA2BFE8A1, 0x9F47BF94, 0xD6670766, 0x26352D63);
    v := Known(v, 0xA81A664B, 0xF0A64F5A, 0xDF46652F, 0x838B2711);
    v := Known(v, 0xC24B8B70, 0x3E246A79, 0x17AA0DFE, 0xDECD4715);
    v := Known(v, 0xC76C51A3, 0x27333BA3, 0x9D4BAF93, 0xFDA24C2E);
    v := Known(v, 0xD192E819, 0x0C4763F2, 0x26628815, 0xA80F11F0);
    v := Known(v, 0xD6990624, 0x840ABF27, 0x72AB4B91, 0xB7755DA1);
    v := Known(v, 0xF40E3585, 0x7A290D5D, 0xA14C14B0, 0xD57B94A9);
    v := Known(v, 0x106AA070, 0x065C43DA, 0x4172328D, 0xFECF0BC6);
  }

  lemma RoundsOfRow6()
    ensures Eight(BEFORE6, KRow(6), WRow(6)) == BEFORE7
  {
    var v := BEFORE6;
    v := Known(v, 0x19A4C116, 0xFB3E89CB, 0x05757CEB, 0xBD714038);
    v := Known(v, 0x1E376C08, 0xCC7617DB, 0xF11BFAA8, 0x6E5C390C);
    v := Known(v, 0x2748774C, 0xB9E66C34, 0x7A0508A1, 0x52F1CCF7);
    v := Known(v, 0x34B0BCB5, 0xA9993667, 0x886E7A22, 0x49231C1E);
    v := Known(v, 0x391C0CB3, 0x84BADEDD, 0x101FD28F, 0x529E7D00);
    v := Known(v, 0x4ED8AA4A, 0xC21462BC, 0xF5702FDB, 0x9F4787C3);
    v := Known(v, 0x5B9CCA4F, 0x1487472C, 0x3EC45CDB, 0xE50E1B4F);
    v := Known(v, 0x682E6FF3, 0xB20F7A99, 0x38CC9913, 0x54CB266B);
  }

  lemma RoundsOfRow7()
    ensures Eight(BEFORE7, KRow(7), WRow(7)) == BEFORE8
  {
    var v := BEFORE7;
    v := Known(v, 0x748F82EE, 0xEF57B9CD, 0xFCD1887B, 0x9B5E906C);
    v := Known(v, 0x78A5636F, 0xEBE6B238, 0xC062D46F, 0x7E44008E);
    v := Known(v, 0x84C87814, 0x9FE3095E, 0xFFB70472, 0x6D83BFC6);
    v := Known(v, 0x8CC70208, 0x78BC8D4B, 0xB6AE8FFF, 0xB21BAD3D);
    v := Known(v, 0x90BEFFFA, 0xA43FCF15, 0xB85E2CE9, 0x961F4894);
    v := Known(v, 0xA4506CEB, 0x668B2FF8, 0x04D24D6C, 0x948D25B6);
    v := Known(v, 0xBEF9A3F7, 0xEEABA2CC, 0xD39A2165, 0xFB121210);
    v := Known(v, 0xC67178F2, 0x12B1EDEB, 0x506E3058, 0x5EF50F24);
  }

  /** The variables before each eight rounds. */
  function Before(row: nat): Vars
    requires row <= 8
  {
    match row
    case 0 => BEFORE0
    case 1 => BEFORE1
    case 2 => BEFORE2
    case 3 => BEFORE3
    case 4 => BEFORE4
    case 5 => BEFORE5
    case 6 => BEFORE6
    case 7 => BEFORE7
    case _ => BEFORE8
  }

  lemma EveryRowOfRounds(row: nat)
    requires row < 8
    ensures Eight(Before(row), KRow(row), WRow(row)) == Before(row + 1)
  {
    hide Eight, KRow, WRow;
    RoundsOfRow0();
    RoundsOfRow1();
    RoundsOfRow2();
    RoundsOfRow3();
    RoundsOfRow4();
    RoundsOfRow5();
    RoundsOfRow6();
    RoundsOfRow7();
  }

  lemma OneMore(v: Vars, block: seq<Byte>, row: nat, w: seq<Word>, j: nat)
    requires |block| == 64 && row < 8 && j < 8 && |w| == 8 && HasWords(block, 8 * row, w)
    ensures var t := 8 * row + j; Rounds(v, block, t + 1) == Round(Rounds(v, block, t), KRow(row)[j], w[j])
  {
    hide Round, KRow, Schedule;
    assert (8 * row + j) / 8 == row && (8 * row + j) % 8 == j;
  }

  lemma EightMore(v: Vars, block: seq<Byte>, row: nat, w: seq<Word>)
    requires |block| == 64 && row < 8 && |w| == 8 && HasWords(block, 8 * row, w)
    ensures Rounds(v, block, 8 * row + 8) == Eight(Rounds(v, block, 8 * row), KRow(row), w)
  {
    hide Round, Rounds, KRow, HasWords;
    OneMore(v, block, row, w, 0);
    OneMore(v, block, row, w, 1);
    OneMore(v, block, row, w, 2);
    OneMore(v, block, row, w, 3);
    OneMore(v, block, row, w, 4);
    OneMore(v, block, row, w, 5);
    OneMore(v, block, row, w, 6);
    OneMore(v, block, row, w, 7);
  }

  lemma {:induction false} RoundsOfAbc(row: nat)
    requires row <= 8
    ensures |BLOCK| == 64 && Rounds(BEFORE0, BLOCK, 8 * row) == Before(row)
  {
    hide WRow, KRow, Eight, HasWords, Rounds;
    if row == 0 {
      NoRounds(BEFORE0);
    } else {
      RoundsOfAbc(row - 1);
      ScheduleOfAbc(row - 1);
      EightMore(BEFORE0, BLOCK, row - 1, WRow(row - 1));
      EveryRowOfRounds(row - 1);
    }
  }

  lemma NoRounds(v: Vars)
    ensures |BLOCK| == 64 && Rounds(v, BLOCK, 0) == v
  {
  }

  // The digest

  const DIGEST: seq<Byte> :=
    [0xBA, 0x78, 0x16, 0xBF] + [0x8F, 0x01, 0xCF, 0xEA] + [0x41, 0x41, 0x40, 0xDE] + [0x5D, 0xAE, 0x22, 0x23]
    + [0xB0, 0x03, 0x61, 0xA3] + [0x96, 0x17, 0x7A, 0x9C] + [0xB4, 0x10, 0xFF, 0x61] + [0xF2, 0x00, 0x15, 0xAD]

  const FINAL: seq<Word> :=
    [0xBA7816BF, 0x8F01CFEA, 0x414140DE, 0x5DAE2223, 0xB00361A3, 0x96177A9C, 0xB410FF61, 0xF20015AD]

  lemma CompressionOfAbc()
    ensures |BLOCK| == 64 && Compress(InitialState(false), BLOCK) == FINAL
  {
    hide Rounds;
    RoundsOfAbc(8);
  }

  lemma WordsOfFinal()
    ensures PutAll(FINAL) == DIGEST
  {
    hide PutAll;
    var d := PutAll(FINAL);
    EightQuads(d);
    PutAllAt(FINAL, 0);
    assert d[0..4] == [0xBA, 0x78, 0x16, 0xBF];
    PutAllAt(FINAL, 1);
    assert d[4..8] == [0x8F, 0x01, 0xCF, 0xEA];
    PutAllAt(FINAL, 2);
    assert d[8..12] == [0x41, 0x41, 0x40, 0xDE];
    PutAllAt(FINAL, 3);
    assert d[12..16] == [0x5D, 0xAE, 0x22, 0x23];
    PutAllAt(FINAL, 4);
    assert d[16..20] == [0xB0, 0x03, 0x61, 0xA3];
    PutAllAt(FINAL, 5);
    assert d[20..24] == [0x96, 0x17, 0x7A, 0x9C];
    PutAllAt(FINAL, 6);
    assert d[24..28] == [0xB4, 0x10, 0xFF, 0x61];
    PutAllAt(FINAL, 7);
    assert d[28..32] == [0xF2, 0x00, 0x15, 0xAD];
  }

  lemma EightQuads(d: seq<Byte>)
    requires |d| == 32
    ensures d == d[0..4] + d[4..8] + d[8..12] + d[12..16] + d[16..20] + d[20..24] + d[24..28] + d[28..32]
  {
  }

  lemma FoldOne(s: seq<Word>, b: Block)
    requires |s| == 8
    ensures Fold(s, [b]) == Compress(s, b)
  {
    hide Compress;
    assert [b][..0] == [];
  }

  /** SHA-256 of "abc", byte by byte. */
  lemma DigestOfAbc()
    ensures Sha(false, ABC) == DIGEST
  {
    hide Compress, InitialState, Fold, Blocks, Padding;
    assert |ABC| == 3;
    BlockOfAbc();
    CompressionOfAbc();
    FoldOne(InitialState(false), BLOCK);
    WordsOfFinal();
  }

  /** The first vector of sha2_self_test for SHA-256, in one update. */
  method HashAbc(output: array<Byte>)
    requires output.Length >= 32
    modifies output
    ensures output[..32] == DIGEST
  {
    hide Sha, Sha2.OneShotDigest;
    DigestOfAbc();
    assert |ABC| == 3;
    Sha2.OneShotIsSha(false, ABC);
    Sha2.OneShot(ABC, output, 0);
  }
}
