/** HMAC as section 2 of RFC 2104 defines it, over SHA-256 or SHA-224 (B = 64). */
module Rfc2104 {
  import opened Words
  import opened Fips180

  /** The key, hashed first when longer than a block, then filled up with zeros to a block. */
  function BlockKey(is224: bool, key: seq<Byte>): (k: seq<Byte>)
    ensures |k| == 64
  {
    var short := if |key| > 64 then Sha(is224, key) else key;
    short + Zeros(64 - |short|)
  }

  function XorEach(k: seq<Byte>, pad: Byte): (r: seq<Byte>)
    ensures |r| == |k|
  {
    seq(|k|, i requires 0 <= i < |k| => k[i] ^ pad)
  }

  /** Byte by byte: the key, then zeros, each xored with the pad byte. */
  lemma PadBytes(is224: bool, key: seq<Byte>, pad: Byte, i: nat)
    requires i < 64
    ensures var short := if |key| > 64 then Sha(is224, key) else key;
      XorEach(BlockKey(is224, key), pad)[i] == if i < |short| then short[i] ^ pad else pad
  {
  }

  /** H(K xor opad, H(K xor ipad, text)). */
  function Hmac(is224: bool, key: seq<Byte>, text: seq<Byte>): (mac: seq<Byte>)
    ensures |mac| == if is224 then 28 else 32
  {
    var k := BlockKey(is224, key);
    Sha(is224, XorEach(k, 0x5C) + Sha(is224, XorEach(k, 0x36) + text))
  }
}
