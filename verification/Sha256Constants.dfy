/** Where the constants of SHA-256 come from: sections 4.2.2 and 5.3.3 of FIPS 180-4. */
module Sha256Constants {
  import opened Sha256

  /** The first sixty-four primes, sixteen to a row. */
  function PrimeRow(q: nat): (r: seq<nat>)
    ensures |r| == 16
  {
    if q == 0 then [2, 3, 5, 7, 11, 13, 17, 19, 23, 29, 31, 37, 41, 43, 47, 53]
    else if q == 1 then [59, 61, 67, 71, 73, 79, 83, 89, 97, 101, 103, 107, 109, 113, 127, 131]
    else if q == 2 then [137, 139, 149, 151, 157, 163, 167, 173, 179, 181, 191, 193, 197, 199, 211, 223]
    else [227, 229, 233, 239, 241, 251, 257, 263, 269, 271, 277, 281, 283, 293, 307, 311]
  }

  /** The first 32 bits of the fractional part of the cube root of p, for p below 343. */
  predicate CubeRootBits(p: nat, n: nat) {
    var whole := if p < 8 then 1 else if p < 27 then 2 else if p < 64 then 3 else if p < 125 then 4 else if p < 216 then 5 else 6;
    var r := whole * 0x1_0000_0000 + n;
    r * r * r <= p * 0x1_00000000_00000000_00000000 < (r + 1) * (r + 1) * (r + 1)
  }

  /** The same of the square root, for p below 25. */
  predicate SquareRootBits(p: nat, n: nat) {
    var r := (if p < 4 then 1 else if p < 9 then 2 else if p < 16 then 3 else 4) * 0x1_0000_0000 + n;
    r * r <= p * 0x1_00000000_00000000 < (r + 1) * (r + 1)
  }

  /** The word added in round t is that of the t-th prime's cube root. */
  lemma RoundConstant(t: nat)
    requires t < 64
    ensures CubeRootBits(PrimeRow(t / 16)[t % 16], KRow(t / 16)[t % 16])
  {
    hide CubeRootBits, KRow, PrimeRow;
    var q, i := t / 16, t % 16;
    if q == 0 {
      Row0(i);
    } else if q == 1 {
      Row1(i);
    } else if q == 2 {
      Row2(i);
    } else {
      Row3(i);
    }
  }

  /** And the hash starts from the square roots of the first eight. */
  lemma InitialValue(i: nat)
    requires i < 8
    ensures SquareRootBits(PrimeRow(0)[i], IV[i] as nat)
  {
    match i {
      case 0 =>
      case 1 =>
      case 2 =>
      case 3 =>
      case 4 =>
      case 5 =>
      case 6 =>
      case _ =>
    }
  }

  lemma Row0(i: nat)
    requires i < 16
    ensures CubeRootBits(PrimeRow(0)[i], KRow(0)[i])
  {
    match i {
      case 0 =>
      case 1 =>
      case 2 =>
      case 3 =>
      case 4 =>
      case 5 =>
      case 6 =>
      case 7 =>
      case 8 =>
      case 9 =>
      case 10 =>
      case 11 =>
      case 12 =>
      case 13 =>
      case 14 =>
      case _ =>
    }
  }

  lemma Row1(i: nat)
    requires i < 16
    ensures CubeRootBits(PrimeRow(1)[i], KRow(1)[i])
  {
    match i {
      case 0 =>
      case 1 =>
      case 2 =>
      case 3 =>
      case 4 =>
      case 5 =>
      case 6 =>
      case 7 =>
      case 8 =>
      case 9 =>
      case 10 =>
      case 11 =>
      case 12 =>
      case 13 =>
      case 14 =>
      case _ =>
    }
  }

  lemma Row2(i: nat)
    requires i < 16
    ensures CubeRootBits(PrimeRow(2)[i], KRow(2)[i])
  {
    match i {
      case 0 =>
      case 1 =>
      case 2 =>
      case 3 =>
      case 4 =>
      case 5 =>
      case 6 =>
      case 7 =>
      case 8 =>
      case 9 =>
      case 10 =>
      case 11 =>
      case 12 =>
      case 13 =>
      case 14 =>
      case _ =>
    }
  }

  lemma Row3(i: nat)
    requires i < 16
    ensures CubeRootBits(PrimeRow(3)[i], KRow(3)[i])
  {
    match i {
      case 0 =>
      case 1 =>
      case 2 =>
      case 3 =>
      case 4 =>
      case 5 =>
      case 6 =>
      case 7 =>
      case 8 =>
      case 9 =>
      case 10 =>
      case 11 =>
      case 12 =>
      case 13 =>
      case 14 =>
      case _ =>
    }
  }
}
