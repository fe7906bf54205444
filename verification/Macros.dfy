/** The macros of sha2_process, each equal to the function of the standard that it stands for. */
module Macros {
  import opened Words
  import opened Fips180

  /** + on uint32_t. */
  function Plus(x: Word, y: Word): (r: Word)
    ensures r == Add(x, y)
  {
    x + y
  }

  // SHR and ROTR are substituted into S0 to S3, as the preprocessor does.

  function S0(x: Word): (r: Word)
    ensures r == SmallSigma0(x)
  {
    (((x & 0xFFFFFFFF) >> 7) | (x << 25))
    ^ (((x & 0xFFFFFFFF) >> 18) | (x << 14))
    ^ ((x & 0xFFFFFFFF) >> 3)
  }

  function S1(x: Word): (r: Word)
    ensures r == SmallSigma1(x)
  {
    (((x & 0xFFFFFFFF) >> 17) | (x << 15))
    ^ (((x & 0xFFFFFFFF) >> 19) | (x << 13))
    ^ ((x & 0xFFFFFFFF) >> 10)
  }

  function S2(x: Word): (r: Word)
    ensures r == BigSigma0(x)
  {
    (((x & 0xFFFFFFFF) >> 2) | (x << 30))
    ^ (((x & 0xFFFFFFFF) >> 13) | (x << 19))
    ^ (((x & 0xFFFFFFFF) >> 22) | (x << 10))
  }

  function S3(x: Word): (r: Word)
    ensures r == BigSigma1(x)
  {
    (((x & 0xFFFFFFFF) >> 6) | (x << 26))
    ^ (((x & 0xFFFFFFFF) >> 11) | (x << 21))
    ^ (((x & 0xFFFFFFFF) >> 25) | (x << 7))
  }

  function F0(x: Word, y: Word, z: Word): (r: Word)
    ensures r == (x & y) ^ (x & z) ^ (y & z)
  { (x & y) | (z & (x | y)) }

  function F1(x: Word, y: Word, z: Word): (r: Word)
    ensures r == (x & y) ^ (!x & z)
  { z ^ (x & (y ^ z)) }
}
