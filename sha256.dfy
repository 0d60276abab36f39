/**
 * `hashlib.sha256(content.encode('utf-8')).hexdigest()`: the SHA-256 digest
 * (FIPS 180-4) of the UTF-8 encoding of a string, as 64 lower-case hex digits.
 * Only its width and alphabet are used by the rest of the model.
 */
module Sha256 {

  type Word = bv32

  const K: seq<Word> := [
    0x428a2f98, 0x71374491, 0xb5c0fbcf, 0xe9b5dba5, 0x3956c25b, 0x59f111f1, 0x923f82a4, 0xab1c5ed5,
    0xd807aa98, 0x12835b01, 0x243185be, 0x550c7dc3, 0x72be5d74, 0x80deb1fe, 0x9bdc06a7, 0xc19bf174,
    0xe49b69c1, 0xefbe4786, 0x0fc19dc6, 0x240ca1cc, 0x2de92c6f, 0x4a7484aa, 0x5cb0a9dc, 0x76f988da,
    0x983e5152, 0xa831c66d, 0xb00327c8, 0xbf597fc7, 0xc6e00bf3, 0xd5a79147, 0x06ca6351, 0x14292967,
    0x27b70a85, 0x2e1b2138, 0x4d2c6dfc, 0x53380d13, 0x650a7354, 0x766a0abb, 0x81c2c92e, 0x92722c85,
    0xa2bfe8a1, 0xa81a664b, 0xc24b8b70, 0xc76c51a3, 0xd192e819, 0xd6990624, 0xf40e3585, 0x106aa070,
    0x19a4c116, 0x1e376c08, 0x2748774c, 0x34b0bcb5, 0x391c0cb3, 0x4ed8aa4a, 0x5b9cca4f, 0x682e6ff3,
    0x748f82ee, 0x78a5636f, 0x84c87814, 0x8cc70208, 0x90befffa, 0xa4506ceb, 0xbef9a3f7, 0xc67178f2
  ]

  const InitialHash: seq<Word> := [
    0x6a09e667, 0xbb67ae85, 0x3c6ef372, 0xa54ff53a, 0x510e527f, 0x9b05688c, 0x1f83d9ab, 0x5be0cd19
  ]

  /** UTF-8 encoding of one Unicode scalar value. */
  function EncodeChar(c: char): (r: seq<bv8>)
    ensures 1 <= |r| <= 4
  {
    var v := c as int;
    if v < 0x80 then [v as bv8]
    else if v < 0x800 then [(0xC0 + v / 0x40) as bv8, (0x80 + v % 0x40) as bv8]
    else if v < 0x10000 then
      [(0xE0 + v / 0x1000) as bv8, (0x80 + (v / 0x40) % 0x40) as bv8, (0x80 + v % 0x40) as bv8]
    else
      [(0xF0 + (v / 0x40000) % 8) as bv8, (0x80 + (v / 0x1000) % 0x40) as bv8,
       (0x80 + (v / 0x40) % 0x40) as bv8, (0x80 + v % 0x40) as bv8]
  }

  /** `s.encode('utf-8')` */
  function Utf8(s: string): seq<bv8> {
    if s == [] then [] else EncodeChar(s[0]) + Utf8(s[1..])
  }

  /** `n` as `width` big-endian bytes (the low-order ones). */
  function BigEndian(n: nat, width: nat): (r: seq<bv8>)
    ensures |r| == width
  {
    if width == 0 then [] else BigEndian(n / 256, width - 1) + [(n % 256) as bv8]
  }

  /** The message followed by 0x80, zero bytes and the 64-bit bit length: a whole number of 64-byte blocks. */
  function Pad(m: seq<bv8>): (r: seq<bv8>)
    ensures |r| % 64 == 0
  {
    var zeros := (119 - |m| % 64) % 64;
    m + [0x80] + seq(zeros, _ => 0) + BigEndian(|m| * 8, 8)
  }

  function WordAt(block: seq<bv8>, i: nat): Word
    requires 4 * i + 4 <= |block|
  {
    (block[4 * i] as Word << 24) | (block[4 * i + 1] as Word << 16)
    | (block[4 * i + 2] as Word << 8) | (block[4 * i + 3] as Word)
  }

  function SmallSigma0(x: Word): Word { x.RotateRight(7) ^ x.RotateRight(18) ^ (x >> 3) }
  function SmallSigma1(x: Word): Word { x.RotateRight(17) ^ x.RotateRight(19) ^ (x >> 10) }
  function BigSigma0(x: Word): Word { x.RotateRight(2) ^ x.RotateRight(13) ^ x.RotateRight(22) }
  function BigSigma1(x: Word): Word { x.RotateRight(6) ^ x.RotateRight(11) ^ x.RotateRight(25) }
  function Ch(x: Word, y: Word, z: Word): Word { (x & y) ^ (!x & z) }
  function Maj(x: Word, y: Word, z: Word): Word { (x & y) ^ (x & z) ^ (y & z) }

  /** Extends the message schedule from its first `|w|` words to all 64. */
  function Schedule(w: seq<Word>): (r: seq<Word>)
    requires 16 <= |w| <= 64
    ensures |r| == 64
    decreases 64 - |w|
  {
    if |w| == 64 then w
    else
      var t := |w|;
      Schedule(w + [SmallSigma1(w[t - 2]) + w[t - 7] + SmallSigma0(w[t - 15]) + w[t - 16]])
  }

  /** Rounds `t` to 63 of the compression function on the working variables `v`. */
  function Rounds(v: seq<Word>, w: seq<Word>, t: nat): (r: seq<Word>)
    requires |v| == 8 && |w| == 64 && t <= 64
    ensures |r| == 8
    decreases 64 - t
  {
    if t == 64 then v
    else
      var t1 := v[7] + BigSigma1(v[4]) + Ch(v[4], v[5], v[6]) + K[t] + w[t];
      var t2 := BigSigma0(v[0]) + Maj(v[0], v[1], v[2]);
      Rounds([t1 + t2, v[0], v[1], v[2], v[3] + t1, v[4], v[5], v[6]], w, t + 1)
  }

  /** The first `n` big-endian words of a block. */
  function BlockWords(block: seq<bv8>, n: nat): (r: seq<Word>)
    requires 4 * n <= |block|
    ensures |r| == n
  {
    if n == 0 then [] else BlockWords(block, n - 1) + [WordAt(block, n - 1)]
  }

  /** Word-wise sum modulo 2^32. */
  function AddWords(x: seq<Word>, y: seq<Word>): (r: seq<Word>)
    requires |x| == |y|
    ensures |r| == |x|
  {
    if x == [] then [] else [x[0] + y[0]] + AddWords(x[1..], y[1..])
  }

  /** One application of the compression function to a 64-byte block. */
  function Compress(h: seq<Word>, block: seq<bv8>): (r: seq<Word>)
    requires |h| == 8 && |block| == 64
    ensures |r| == 8
  {
    AddWords(h, Rounds(h, Schedule(BlockWords(block, 16)), 0))
  }

  /** Runs the compression function over the `n` blocks of a padded message. */
  function HashBlocks(h: seq<Word>, padded: seq<bv8>, n: nat): (r: seq<Word>)
    requires |h| == 8 && |padded| == 64 * n
    ensures |r| == 8
    decreases n
  {
    if n == 0 then h
    else
      assert |padded[64..]| == 64 * (n - 1);
      HashBlocks(Compress(h, padded[..64]), padded[64..], n - 1)
  }

  const HexDigits: string := "0123456789abcdef"

  /** The `i`-th hex digit of `x`, most significant first. */
  function Nibble(x: Word, i: nat): (d: nat)
    requires i < 8
    ensures d < 16
  {
    ((x >> (28 - 4 * i)) & 0xF) as nat
  }

  function WordHex(x: Word): (r: string)
    ensures |r| == 8 && forall c :: c in r ==> c in HexDigits
  {
    seq(8, i requires 0 <= i < 8 => HexDigits[Nibble(x, i)])
  }

  function DigestHex(h: seq<Word>): (r: string)
    ensures |r| == 8 * |h| && forall c :: c in r ==> c in HexDigits
  {
    if h == [] then "" else WordHex(h[0]) + DigestHex(h[1..])
  }

  /** `hashlib.sha256(s.encode('utf-8')).hexdigest()`: always 64 lower-case hex digits. */
  function HexDigest(s: string): (r: string)
    ensures |r| == 64
    ensures forall c :: c in r ==> c in HexDigits
  {
    var padded := Pad(Utf8(s));
    DigestHex(HashBlocks(InitialHash, padded, |padded| / 64))
  }
}
