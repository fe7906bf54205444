/** 32-bit words, bytes and the big-endian moves between them. */
module Words {

  const TWO32: nat := 0x1_0000_0000
  const TWO64: nat := 0x1_0000_0000_0000_0000

  type Byte = bv8
  type Word = bv32

  /** GET_UINT32_BE: four bytes of b from offset i, most significant first. */
  function GetBE(b: seq<Byte>, i: nat): (n: Word)
    requires i + 4 <= |b|
  {
    ((b[i] as Word) << 24) | ((b[i + 1] as Word) << 16) | ((b[i + 2] as Word) << 8) | (b[i + 3] as Word)
  }

  /** PUT_UINT32_BE: the four bytes that the macro stores. */
  function PutBE(n: Word): (b: seq<Byte>)
    ensures |b| == 4
  {
    [((n >> 24) & 0xFF) as Byte, ((n >> 16) & 0xFF) as Byte, ((n >> 8) & 0xFF) as Byte, (n & 0xFF) as Byte]
  }

  /** The number that four bytes spell in base 256. */
  lemma GetIsBase256(b: seq<Byte>, i: nat)
    requires i + 4 <= |b|
    ensures GetBE(b, i) == (((b[i] as Word) * 256 + b[i + 1] as Word) * 256 + b[i + 2] as Word) * 256 + b[i + 3] as Word
  {
  }

  /** The four digits of a number in base 256. */
  lemma PutIsBase256(n: Word)
    ensures PutBE(n)
         == [(n / 0x100_0000) as Byte, (n / 0x1_0000 % 256) as Byte, (n / 256 % 256) as Byte, (n % 256) as Byte]
  {
  }

  lemma SplitJoins(n: Word)
    ensures (((((n >> 24) & 0xFF) as Byte) as Word) << 24) | (((((n >> 16) & 0xFF) as Byte) as Word) << 16)
            | (((((n >> 8) & 0xFF) as Byte) as Word) << 8) | (((n & 0xFF) as Byte) as Word) == n
  {
  }

  lemma JoinSplits(a: Byte, b: Byte, c: Byte, d: Byte)
    ensures var n := ((a as Word) << 24) | ((b as Word) << 16) | ((c as Word) << 8) | (d as Word);
            && ((n >> 24) & 0xFF) as Byte == a && ((n >> 16) & 0xFF) as Byte == b
            && ((n >> 8) & 0xFF) as Byte == c && (n & 0xFF) as Byte == d
  {
  }

  lemma GetPutInverse(n: Word)
    ensures GetBE(PutBE(n), 0) == n
  {
    SplitJoins(n);
  }

  lemma PutGetInverse(b: seq<Byte>)
    requires |b| == 4
    ensures PutBE(GetBE(b, 0)) == b
  {
    JoinSplits(b[0], b[1], b[2], b[3]);
  }

  /** The words of a digest state, each written big-endian, in order. */
  function PutAll(ws: seq<Word>): (b: seq<Byte>)
    ensures |b| == 4 * |ws|
  {
    if ws == [] then [] else PutAll(ws[..|ws| - 1]) + PutBE(ws[|ws| - 1])
  }

  /** Bytes 4i to 4i + 3 are word i. */
  lemma {:induction false} PutAllAt(ws: seq<Word>, i: nat)
    requires i < |ws|
    ensures PutAll(ws)[4 * i..4 * i + 4] == PutBE(ws[i])
  {
    hide PutBE;
    var last := |ws| - 1;
    if i < last {
      PutAllAt(ws[..last], i);
      assert PutAll(ws)[4 * i..4 * i + 4] == PutAll(ws[..last])[4 * i..4 * i + 4];
    }
  }
}
