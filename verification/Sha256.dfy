/** SHA-256 as FIPS 180-4 defines it. */
module Sha256 {
  import Words

  const BLOCK := 64

  /** The constants, section 4.2.2 of FIPS 180-4, sixteen to a row. */
  function KRow(q: nat): (r: seq<Words.uint32>)
    ensures |r| == 16
  {
    if q == 0 then [
      0x428a2f98, 0x71374491, 0xb5c0fbcf, 0xe9b5dba5, 0x3956c25b, 0x59f111f1, 0x923f82a4, 0xab1c5ed5,
      0xd807aa98, 0x12835b01, 0x243185be, 0x550c7dc3, 0x72be5d74, 0x80deb1fe, 0x9bdc06a7, 0xc19bf174
    ] else if q == 1 then [
      0xe49b69c1, 0xefbe4786, 0x0fc19dc6, 0x240ca1cc, 0x2de92c6f, 0x4a7484aa, 0x5cb0a9dc, 0x76f988da,
      0x983e5152, 0xa831c66d, 0xb00327c8, 0xbf597fc7, 0xc6e00bf3, 0xd5a79147, 0x06ca6351, 0x14292967
    ] else if q == 2 then [
      0x27b70a85, 0x2e1b2138, 0x4d2c6dfc, 0x53380d13, 0x650a7354, 0x766a0abb, 0x81c2c92e, 0x92722c85,
      0xa2bfe8a1, 0xa81a664b, 0xc24b8b70, 0xc76c51a3, 0xd192e819, 0xd6990624, 0xf40e3585, 0x106aa070
    ] else [
      0x19a4c116, 0x1e376c08, 0x2748774c, 0x34b0bcb5, 0x391c0cb3, 0x4ed8aa4a, 0x5b9cca4f, 0x682e6ff3,
      0x748f82ee, 0x78a5636f, 0x84c87814, 0x8cc70208, 0x90befffa, 0xa4506ceb, 0xbef9a3f7, 0xc67178f2
    ]
  }

  function K(t: nat): bv32
    requires t < 64
  {
    KRow(t / 16)[t % 16] as bv32
  }

  /** The initial hash value, section 5.3.3 of FIPS 180-4. */
  const IV: seq<bv32> := [
    0x6a09e667, 0xbb67ae85, 0x3c6ef372, 0xa54ff53a,
    0x510e527f, 0x9b05688c, 0x1f83d9ab, 0x5be0cd19
  ]

  // ---------------------------------------------------------------- functions, section 4.1.2

  function Rotr(x: bv32, n: bv32): bv32
    requires 0 < n < 32
  {
    (x >> n) | (x << (32 - n))
  }

  /** Addition modulo 2^32. */
  function Add(x: bv32, y: bv32): bv32 { x + y }

  lemma AddCommutes(x: bv32, y: bv32)
    ensures Add(x, y) == Add(y, x)
  {}

  function Add4(a: bv32, b: bv32, c: bv32, d: bv32): bv32 { a + b + c + d }

  lemma Add4Reverses(a: bv32, b: bv32, c: bv32, d: bv32)
    ensures Add4(a, b, c, d) == Add4(d, c, b, a)
  {}

  function Ch(x: bv32, y: bv32, z: bv32): bv32 { (x & y) ^ (!x & z) }
  function Maj(x: bv32, y: bv32, z: bv32): bv32 { (x & y) ^ (x & z) ^ (y & z) }
  function BigSigma0(x: bv32): bv32 { Rotr(x, 2) ^ Rotr(x, 13) ^ Rotr(x, 22) }
  function BigSigma1(x: bv32): bv32 { Rotr(x, 6) ^ Rotr(x, 11) ^ Rotr(x, 25) }
  function SmallSigma0(x: bv32): bv32 { Rotr(x, 7) ^ Rotr(x, 18) ^ (x >> 3) }
  function SmallSigma1(x: bv32): bv32 { Rotr(x, 17) ^ Rotr(x, 19) ^ (x >> 10) }

  // ---------------------------------------------------------------- words and bytes

  function Load(b0: bv8, b1: bv8, b2: bv8, b3: bv8): bv32 {
    ((b0 as bv32) << 24) | ((b1 as bv32) << 16) | ((b2 as bv32) << 8) | (b3 as bv32)
  }

  function Byte3(x: bv32): bv8 { ((x >> 24) & 0xFF) as bv8 }
  function Byte2(x: bv32): bv8 { ((x >> 16) & 0xFF) as bv8 }
  function Byte1(x: bv32): bv8 { ((x >> 8) & 0xFF) as bv8 }
  function Byte0(x: bv32): bv8 { (x & 0xFF) as bv8 }

  /** Storing a word big-endian loses nothing. */
  lemma StoreLoads(x: bv32)
    ensures Load(Byte3(x), Byte2(x), Byte1(x), Byte0(x)) == x
  {}

  // ---------------------------------------------------------------- one block, section 6.2.2

  /** The message schedule. */
  function W(block: seq<bv8>, t: nat): bv32
    requires |block| == BLOCK && t < 64
  {
    if t < 16 then Load(block[4 * t], block[4 * t + 1], block[4 * t + 2], block[4 * t + 3])
    else Add4(SmallSigma1(W(block, t - 2)), W(block, t - 7), SmallSigma0(W(block, t - 15)), W(block, t - 16))
  }

  datatype Vars = Vars(a: bv32, b: bv32, c: bv32, d: bv32, e: bv32, f: bv32, g: bv32, h: bv32)

  function Round(v: Vars, k: bv32, w: bv32): Vars {
    var t1 := Add(Add(Add(Add(v.h, BigSigma1(v.e)), Ch(v.e, v.f, v.g)), k), w);
    var t2 := Add(BigSigma0(v.a), Maj(v.a, v.b, v.c));
    Vars(Add(t1, t2), v.a, v.b, v.c, Add(v.d, t1), v.e, v.f, v.g)
  }

  function Rounds(v: Vars, block: seq<bv8>, t: nat): Vars
    requires |block| == BLOCK && t <= 64
  {
    if t == 0 then v else Round(Rounds(v, block, t - 1), K(t - 1), W(block, t - 1))
  }

  function VarsOf(h: seq<bv32>): Vars
    requires |h| == 8
  {
    Vars(h[0], h[1], h[2], h[3], h[4], h[5], h[6], h[7])
  }

  /** The intermediate hash value after one more block. */
  function Compress(h: seq<bv32>, block: seq<bv8>): (h': seq<bv32>)
    requires |h| == 8 && |block| == BLOCK
    ensures |h'| == 8
  {
    var v := Rounds(VarsOf(h), block, 64);
    [
      Add(v.a, h[0]), Add(v.b, h[1]), Add(v.c, h[2]), Add(v.d, h[3]),
      Add(v.e, h[4]), Add(v.f, h[5]), Add(v.g, h[6]), Add(v.h, h[7])
    ]
  }

  // ---------------------------------------------------------------- the message

  /** The whole blocks of a string absorbed, one after the other. */
  function Absorbed(h: seq<bv32>, s: seq<bv8>): (h': seq<bv32>)
    requires |h| == 8
    ensures |h'| == 8
    decreases |s|
  {
    if |s| < BLOCK then h else Absorbed(Compress(h, s[..BLOCK]), s[BLOCK..])
  }

  /** What is left behind the whole blocks. */
  function Rest(s: seq<bv8>): (r: seq<bv8>)
    ensures |r| < BLOCK && |r| == |s| % BLOCK
    decreases |s|
  {
    if |s| < BLOCK then s else Rest(s[BLOCK..])
  }

  /** A length as eight bytes, the most significant first. */
  function Len64(n: nat): (bytes: seq<bv8>)
    requires n < 0x1_0000_0000_0000_0000
    ensures |bytes| == 8
  {
    seq(8, i requires 0 <= i < 8 => (n / PLACES[i] % 256) as bv8)
  }

  const PLACES: seq<nat> := [
    0x1_00000000_000000, 0x1_00000000_0000, 0x1_00000000_00, 0x1_00000000,
    0x1_000000, 0x1_0000, 0x1_00, 1
  ]

  /** What bytes mean as a number, the most significant first. */
  function BigEndian(bytes: seq<bv8>): nat {
    if bytes == [] then 0 else BigEndian(bytes[..|bytes| - 1]) * 256 + bytes[|bytes| - 1] as nat
  }

  lemma Len64MeansLength(n: nat)
    requires n < 0x1_0000_0000_0000_0000
    ensures BigEndian(Len64(n)) == n
  {
    var b := Len64(n);
    forall i: nat | 0 < i <= 8
      ensures BigEndian(b[..i]) == n / PLACES[i - 1]
    {
      PlaceByPlace(n, i);
    }
    assert b[..8] == b;
  }

  lemma {:induction false} PlaceByPlace(n: nat, i: nat)
    requires n < 0x1_0000_0000_0000_0000 && 0 < i <= 8
    ensures BigEndian(Len64(n)[..i]) == n / PLACES[i - 1]
  {
    hide Len64;
    var b := Len64(n);
    assert b[..i][..i - 1] == b[..i - 1];
    Len64At(n, i - 1);
    DivMod256(n / PLACES[i - 1]);
    if i > 1 {
      PlaceByPlace(n, i - 1);
      PlaceAbove(n, i);
    } else {
      assert BigEndian(b[..0]) == 0 && n / PLACES[0] < 256;
    }
  }

  lemma PlaceAbove(n: nat, i: nat)
    requires 1 < i <= 8
    ensures n / PLACES[i - 2] == n / PLACES[i - 1] / 256
  {}

  lemma Len64At(n: nat, i: nat)
    requires n < 0x1_0000_0000_0000_0000 && i < 8
    ensures Len64(n)[i] as nat == n / PLACES[i] % 256
  {
    ByteOf(n / PLACES[i]);
  }

  lemma ByteOf(n: nat)
    ensures (n % 256) as bv8 as nat == n % 256
  {
    Words.ThereAndBack(n % 256);
  }

  lemma DivMod256(n: nat)
    ensures n / 256 * 256 + n % 256 == n && (n < 256 ==> n % 256 == n)
  {}

  function Zeros(n: nat): (s: seq<bv8>)
    ensures |s| == n
  {
    seq(n, _ => 0)
  }

  /** How many zero bytes: the least number that leaves room for exactly the length. */
  function ZeroCount(length: nat): (k: nat)
    ensures k < BLOCK && (length + 1 + k) % BLOCK == 56
  {
    (119 - length % BLOCK) % BLOCK
  }

  /** Padding, section 5.1.1 of FIPS 180-4. */
  function Padded(msg: seq<bv8>): (s: seq<bv8>)
    requires 8 * |msg| < 0x1_0000_0000_0000_0000
    ensures |s| % BLOCK == 0
  {
    msg + [0x80] + Zeros(ZeroCount(|msg|)) + Len64(8 * |msg|)
  }

  function Stored(h: seq<bv32>): (bytes: seq<bv8>)
    ensures |bytes| == 4 * |h|
  {
    if h == [] then []
    else
      var x := h[|h| - 1];
      Stored(h[..|h| - 1]) + [Byte3(x), Byte2(x), Byte1(x), Byte0(x)]
  }

  /** The digest of a message. */
  function Digest(msg: seq<bv8>): (d: seq<bv8>)
    requires 8 * |msg| < 0x1_0000_0000_0000_0000
    ensures |d| == 32
  {
    Stored(Absorbed(IV, Padded(msg)))
  }

  // ---------------------------------------------------------------- absorbing in pieces

  /** Absorbing more is absorbing what was left over and the rest. */
  lemma {:induction false} AbsorbInPieces(h: seq<bv32>, s: seq<bv8>, t: seq<bv8>)
    requires |h| == 8
    ensures Absorbed(h, s + t) == Absorbed(Absorbed(h, s), Rest(s) + t)
    ensures Rest(s + t) == Rest(Rest(s) + t)
    decreases |s|
  {
    hide Compress;
    if |s| >= BLOCK {
      assert (s + t)[..BLOCK] == s[..BLOCK] && (s + t)[BLOCK..] == s[BLOCK..] + t;
      AbsorbInPieces(Compress(h, s[..BLOCK]), s[BLOCK..], t);
    }
  }

  lemma AbsorbBlock(h: seq<bv32>, s: seq<bv8>)
    requires |h| == 8 && |s| >= BLOCK
    ensures Absorbed(h, s) == Absorbed(Compress(h, s[..BLOCK]), s[BLOCK..]) && Rest(s) == Rest(s[BLOCK..])
  {}
}
