/** SHA-1 as FIPS 180-4 defines it, for messages of whole bytes. */
module Sha1 {
  import opened Util

  /** Rotate left, ROTL of section 3.2. */
  function Rotl(x: bv32, n: nat): bv32
    requires n < 32
  {
    x.RotateLeft(n)
  }

  /** Addition modulo 2^32. */
  function Plus(x: bv32, y: bv32): bv32 {
    x + y
  }

  function Sum(v: bv32, w: bv32, x: bv32, y: bv32, z: bv32): bv32 {
    v + w + x + y + z
  }

  function Xor(w: bv32, x: bv32, y: bv32, z: bv32): bv32 {
    w ^ x ^ y ^ z
  }

  function Ch(x: bv32, y: bv32, z: bv32): bv32 {
    (x & y) ^ (!x & z)
  }

  function Parity(x: bv32, y: bv32, z: bv32): bv32 {
    x ^ y ^ z
  }

  function Maj(x: bv32, y: bv32, z: bv32): bv32 {
    (x & y) ^ (x & z) ^ (y & z)
  }

  /** The function of round t, section 4.1.1. */
  function F(t: nat, x: bv32, y: bv32, z: bv32): bv32 {
    if t < 20 then Ch(x, y, z)
    else if t < 40 then Parity(x, y, z)
    else if t < 60 then Maj(x, y, z)
    else Parity(x, y, z)
  }

  /** The constants of section 4.2.1. */
  function K(t: nat): bv32 {
    if t < 20 then 0x5a827999 else if t < 40 then 0x6ed9eba1 else if t < 60 then 0x8f1bbcdc else 0xca62c1d6
  }

  datatype State = State(a: bv32, b: bv32, c: bv32, d: bv32, e: bv32)

  /** The initial hash value of section 5.3.1. */
  const INITIAL := State(0x67452301, 0xefcdab89, 0x98badcfe, 0x10325476, 0xc3d2e1f0)

  type Block = s: seq<bv32> | |s| == 16 witness seq(16, i => 0)

  /** Word t of the message schedule, step 1 of section 6.1.2. */
  function W(m: Block, t: nat): bv32 {
    if t < 16 then m[t] else Rotl(Xor(W(m, t - 3), W(m, t - 8), W(m, t - 14), W(m, t - 16)), 1)
  }

  /** One round, step 3 of section 6.1.2. */
  function Round(s: State, t: nat, w: bv32): State {
    State(Sum(Rotl(s.a, 5), F(t, s.b, s.c, s.d), s.e, K(t), w), s.a, Rotl(s.b, 30), s.c, s.d)
  }

  function Rounds(h: State, m: Block, t: nat): State {
    if t == 0 then h else Round(Rounds(h, m, t - 1), t - 1, W(m, t - 1))
  }

  function Add(x: State, y: State): State {
    State(Plus(x.a, y.a), Plus(x.b, y.b), Plus(x.c, y.c), Plus(x.d, y.d), Plus(x.e, y.e))
  }

  /** The compression of one block, section 6.1.2. */
  function Compress(h: State, m: Block): State {
    Add(h, Rounds(h, m, 80))
  }

  // ---------- bytes and words ----------

  function WordOf(a: bv8, b: bv8, c: bv8, d: bv8): bv32 {
    ((a as bv32) << 24) | ((b as bv32) << 16) | ((c as bv32) << 8) | (d as bv32)
  }

  /** The bytes of a word, most significant first. */
  function BytesOf(w: bv32): (bytes: seq<bv8>)
    ensures |bytes| == 4
  {
    [((w >> 24) & 0xff) as bv8, ((w >> 16) & 0xff) as bv8, ((w >> 8) & 0xff) as bv8, (w & 0xff) as bv8]
  }

  function WordAt(data: seq<bv8>, offset: nat): bv32
    requires offset + 4 <= |data|
  {
    WordOf(data[offset], data[offset + 1], data[offset + 2], data[offset + 3])
  }

  /** Sixteen big-endian words from 64 bytes, section 5.2.1. */
  function BlockAt(data: seq<bv8>, offset: nat): Block
    requires offset + 64 <= |data|
  {
    seq(16, i requires 0 <= i < 16 => WordAt(data, offset + 4 * i))
  }

  // ---------- padding and the digest ----------

  /** The number of zero bytes after the 0x80 byte: the message then lacks eight bytes of a whole block. */
  function ZeroCount(length: nat): (k: nat)
    ensures k < 64 && (length + 1 + k + 8) % 64 == 0
  {
    (119 - length % 64) % 64
  }

  /** The message length in bits as a 64-bit big-endian integer. */
  function LengthBytes(length: nat): (bytes: seq<bv8>)
    ensures |bytes| == 8
  {
    var bits := 8 * length;
    BytesOf((bits / 0x1_0000_0000 % 0x1_0000_0000) as bv32) + BytesOf((bits % 0x1_0000_0000) as bv32)
  }

  /** Section 5.1.1. */
  function Pad(data: seq<bv8>): (r: seq<bv8>)
    ensures |r| % 64 == 0
  {
    data + [0x80] + seq(ZeroCount(|data|), i => 0) + LengthBytes(|data|)
  }

  function CompressAll(h: State, data: seq<bv8>, blocks: nat): State
    requires 64 * blocks <= |data|
  {
    if blocks == 0 then h else Compress(CompressAll(h, data, blocks - 1), BlockAt(data, 64 * (blocks - 1)))
  }

  function DigestBytes(h: State): (bytes: seq<bv8>)
    ensures |bytes| == 20
  {
    BytesOf(h.a) + BytesOf(h.b) + BytesOf(h.c) + BytesOf(h.d) + BytesOf(h.e)
  }

  function Digest(data: seq<bv8>): (bytes: seq<bv8>)
    ensures |bytes| == 20
  {
    DigestBytes(CompressAll(INITIAL, Pad(data), |Pad(data)| / 64))
  }
}
