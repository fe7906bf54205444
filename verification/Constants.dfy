/** The constants of the code are the ones the standard defines by roots of primes. */
module Constants {
  import opened Words
  import opened Fips180

  /** The first 64 primes, eight a row. */
  function PrimeRow(row: nat): (r: seq<nat>)
    requires row < 8
    ensures |r| == 8
  {
    match row
    case 0 => [2, 3, 5, 7, 11, 13, 17, 19]
    case 1 => [23, 29, 31, 37, 41, 43, 47, 53]
    case 2 => [59, 61, 67, 71, 73, 79, 83, 89]
    case 3 => [97, 101, 103, 107, 109, 113, 127, 131]
    case 4 => [137, 139, 149, 151, 157, 163, 167, 173]
    case 5 => [179, 181, 191, 193, 197, 199, 211, 223]
    case 6 => [227, 229, 233, 239, 241, 251, 257, 263]
    case _ => [269, 271, 277, 281, 283, 293, 307, 311]
  }

  function Prime(t: nat): nat
    requires t < 64
  {
    PrimeRow(t / 8)[t % 8]
  }

  function Cube(x: int): int { x * x * x }

  /** k is the first 32 bits of the fractional part of the cube root of p. */
  predicate IsCubeRootFraction(p: nat, k: Word)
  {
    var x := (if p < 8 then 1 else if p < 27 then 2 else if p < 64 then 3 else if p < 125 then 4
              else if p < 216 then 5 else 6) * TWO32 + k as int;
    Cube(x) <= p * Cube(TWO32) < Cube(x + 1)
  }

  lemma Row0(c: nat) requires c < 8 ensures IsCubeRootFraction(PrimeRow(0)[c], KRow(0)[c]) {}
  lemma Row1(c: nat) requires c < 8 ensures IsCubeRootFraction(PrimeRow(1)[c], KRow(1)[c]) {}
  lemma Row2(c: nat) requires c < 8 ensures IsCubeRootFraction(PrimeRow(2)[c], KRow(2)[c]) {}
  lemma Row3(c: nat) requires c < 8 ensures IsCubeRootFraction(PrimeRow(3)[c], KRow(3)[c]) {}
  lemma Row4(c: nat) requires c < 8 ensures IsCubeRootFraction(PrimeRow(4)[c], KRow(4)[c]) {}
  lemma Row5(c: nat) requires c < 8 ensures IsCubeRootFraction(PrimeRow(5)[c], KRow(5)[c]) {}
  lemma Row6(c: nat) requires c < 8 ensures IsCubeRootFraction(PrimeRow(6)[c], KRow(6)[c]) {}
  lemma Row7(c: nat) requires c < 8 ensures IsCubeRootFraction(PrimeRow(7)[c], KRow(7)[c]) {}

  /** Section 4.2.2: K_t is the first 32 bits of the fractional part of the cube root of the t-th prime. */
  lemma RoundConstants(t: nat)
    requires t < 64
    ensures IsCubeRootFraction(Prime(t), K(t))
  {
    hide IsCubeRootFraction, PrimeRow, KRow;
    match t / 8
    case 0 => Row0(t % 8);
    case 1 => Row1(t % 8);
    case 2 => Row2(t % 8);
    case 3 => Row3(t % 8);
    case 4 => Row4(t % 8);
    case 5 => Row5(t % 8);
    case 6 => Row6(t % 8);
    case _ => Row7(t % 8);
  }

  // Initial hash values

  function Square(x: int): int { x * x }

  /** h is the first 32 bits of the fractional part of the square root of p. */
  predicate IsSquareRootFraction(p: nat, h: Word)
  {
    var x := (if p < 4 then 1 else if p < 9 then 2 else if p < 16 then 3 else 4) * TWO32 + h as int;
    Square(x) <= p * Square(TWO32) < Square(x + 1)
  }

  /** h is the second 32 bits of the fractional part of the square root of p, and first the first. */
  predicate IsSecondSquareRootFraction(p: nat, first: nat, h: Word)
  {
    var whole := if p < 25 then 4 else if p < 36 then 5 else if p < 49 then 6 else 7;
    var x := (whole * TWO32 + first) * TWO32 + h as int;
    first < TWO32 && Square(x) <= p * Square(TWO32 * TWO32) < Square(x + 1)
  }

  /** Section 5.3.2 of FIPS 180-2: square roots of the first eight primes. */
  lemma InitialValues256(c: nat)
    requires c < 8
    ensures IsSquareRootFraction(Prime(c), InitialState(false)[c])
  {
    assert Prime(c) == PrimeRow(0)[c];
  }

  /** Section 5.3.2 of FIPS 180-4: square roots of the ninth to the sixteenth prime. */
  lemma InitialValues224(c: nat) returns (first: nat)
    requires c < 8
    ensures IsSecondSquareRootFraction(Prime(8 + c), first, InitialState(true)[c])
  {
    first := [0xcbbb9d5d, 0x629a292a, 0x9159015a, 0x152fecd8, 0x67332667, 0x8eb44a87, 0xdb0c2e0d, 0x47b5481d][c];
    assert Prime(8 + c) == PrimeRow(1)[c];
  }
}
