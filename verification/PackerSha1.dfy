/** The update packer's own SHA-1 over fixed arrays, proved against FIPS 180-4. */
module PackerSha1 {
  import opened Util
  import opened Sha1

  function Sha1Shift(v: bv32, shift: nat): bv32
    requires 0 < shift < 32
  {
    (v << shift) | (v >> (32 - shift))
  }

  lemma ShiftIsRotation(v: bv32)
    ensures Sha1Shift(v, 1) == Rotl(v, 1)
    ensures Sha1Shift(v, 5) == Rotl(v, 5)
    ensures Sha1Shift(v, 30) == Rotl(v, 30)
  {
  }

  function Choose(b: bv32, c: bv32, d: bv32): bv32 {
    (b & c) | (!b & d)
  }

  function Majority(b: bv32, c: bv32, d: bv32): bv32 {
    (b & c) | (b & d) | (c & d)
  }

  /** The OR-forms of the packer are the XOR-forms of the standard. */
  lemma ChooseIsCh(b: bv32, c: bv32, d: bv32)
    ensures Choose(b, c, d) == Ch(b, c, d)
  {
    assert (b & c) | (!b & d) == (b & c) ^ (!b & d);
  }

  lemma MajorityIsMaj(b: bv32, c: bv32, d: bv32)
    ensures Majority(b, c, d) == Maj(b, c, d)
  {
    assert (b & c) | (b & d) | (c & d) == (b & c) ^ (b & d) ^ (c & d);
  }

  /** The _shiftswap macro over the five working variables. */
  function ShiftSwap(s: State, f: bv32, v: bv32, word: bv32): State {
    State(Sum(Sha1Shift(s.a, 5), f, s.e, v, word), s.a, Sha1Shift(s.b, 30), s.c, s.d)
  }

  lemma SwapIsRound(s: State, t: nat, f: bv32, v: bv32, word: bv32)
    requires f == F(t, s.b, s.c, s.d) && v == K(t)
    ensures ShiftSwap(s, f, v, word) == Round(s, t, word)
  {
    ShiftIsRotation(s.a);
    ShiftIsRotation(s.b);
  }

  // ---------- one block ----------

  function StateOf(sha: seq<bv32>): State
    requires |sha| == 5
  {
    State(sha[0], sha[1], sha[2], sha[3], sha[4])
  }

  /** The words computed so far are the schedule of the block. */
  ghost predicate Scheduled(temp: seq<bv32>, m: Block, n: nat) {
    n <= |temp| && forall i | 0 <= i < n :: temp[i] == W(m, i)
  }

  method Sha1PartHash(sha: array<bv32>, temp: array<bv32>)
    requires sha.Length == 5 && temp.Length == 80 && sha != temp
    modifies sha, temp
    ensures StateOf(sha[..]) == Compress(old(StateOf(sha[..])), old(temp[..16]))
  {
    ghost var m: Block := temp[..16];
    ghost var h := StateOf(sha[..]);
    var s := State(sha[0], sha[1], sha[2], sha[3], sha[4]);
    s := FirstRounds(temp, m, s);
    s := LastRounds(temp, m, h, s);
    sha[0] := Plus(sha[0], s.a);
    sha[1] := Plus(sha[1], s.b);
    sha[2] := Plus(sha[2], s.c);
    sha[3] := Plus(sha[3], s.d);
    sha[4] := Plus(sha[4], s.e);
  }

  /** Rounds 0 to 39. */
  method FirstRounds(temp: array<bv32>, ghost m: Block, h: State) returns (s: State)
    requires temp.Length == 80 && temp[..16] == m
    modifies temp
    ensures Scheduled(temp[..], m, 40) && s == Rounds(h, m, 40)
  {
    s := h;
    assert forall i | 0 <= i < 16 :: temp[..][i] == temp[..16][i];
    var round := 0;
    while round < 16
      invariant 0 <= round <= 16
      invariant Scheduled(temp[..], m, 16)
      invariant s == Rounds(h, m, round)
    {
      ChooseIsCh(s.b, s.c, s.d);
      SwapIsRound(s, round, Choose(s.b, s.c, s.d), 0x5a827999, temp[round]);
      s := ShiftSwap(s, Choose(s.b, s.c, s.d), 0x5a827999, temp[round]);
      round := round + 1;
    }
    while round < 20
      invariant 16 <= round <= 20
      invariant Scheduled(temp[..], m, round)
      invariant s == Rounds(h, m, round)
    {
      ExtendSchedule(temp, m, round);
      ChooseIsCh(s.b, s.c, s.d);
      SwapIsRound(s, round, Choose(s.b, s.c, s.d), 0x5a827999, temp[round]);
      s := ShiftSwap(s, Choose(s.b, s.c, s.d), 0x5a827999, temp[round]);
      round := round + 1;
    }
    while round < 40
      invariant 20 <= round <= 40
      invariant Scheduled(temp[..], m, round)
      invariant s == Rounds(h, m, round)
    {
      ExtendSchedule(temp, m, round);
      SwapIsRound(s, round, Parity(s.b, s.c, s.d), 0x6ed9eba1, temp[round]);
      s := ShiftSwap(s, Parity(s.b, s.c, s.d), 0x6ed9eba1, temp[round]);
      round := round + 1;
    }
  }

  /** Rounds 40 to 79. */
  method LastRounds(temp: array<bv32>, ghost m: Block, ghost h: State, middle: State) returns (s: State)
    requires temp.Length == 80 && Scheduled(temp[..], m, 40) && middle == Rounds(h, m, 40)
    modifies temp
    ensures s == Rounds(h, m, 80)
  {
    s := middle;
    var round := 40;
    while round < 60
      invariant 40 <= round <= 60
      invariant Scheduled(temp[..], m, round)
      invariant s == Rounds(h, m, round)
    {
      ExtendSchedule(temp, m, round);
      MajorityIsMaj(s.b, s.c, s.d);
      SwapIsRound(s, round, Majority(s.b, s.c, s.d), 0x8f1bbcdc, temp[round]);
      s := ShiftSwap(s, Majority(s.b, s.c, s.d), 0x8f1bbcdc, temp[round]);
      round := round + 1;
    }
    while round < 80
      invariant 60 <= round <= 80
      invariant Scheduled(temp[..], m, round)
      invariant s == Rounds(h, m, round)
    {
      ExtendSchedule(temp, m, round);
      SwapIsRound(s, round, Parity(s.b, s.c, s.d), 0xca62c1d6, temp[round]);
      s := ShiftSwap(s, Parity(s.b, s.c, s.d), 0xca62c1d6, temp[round]);
      round := round + 1;
    }
  }

  /** The in-place step of _shiftshiftswap that computes the next schedule word. */
  method ExtendSchedule(temp: array<bv32>, ghost m: Block, round: nat)
    requires temp.Length == 80 && 16 <= round < 80 && Scheduled(temp[..], m, round)
    modifies temp
    ensures Scheduled(temp[..], m, round + 1)
  {
    ghost var words := temp[..];
    assert words[round - 3] == W(m, round - 3) && words[round - 8] == W(m, round - 8);
    assert words[round - 14] == W(m, round - 14) && words[round - 16] == W(m, round - 16);
    ShiftIsRotation(Xor(temp[round - 3], temp[round - 8], temp[round - 14], temp[round - 16]));
    temp[round] := Sha1Shift(Xor(temp[round - 3], temp[round - 8], temp[round - 14], temp[round - 16]), 1);
    assert forall i | 0 <= i < round :: temp[..][i] == words[i];
  }

  // ---------- the padded message ----------

  /** What the packer hashes: as the standard pads, but with a zero high word and a 32-bit bit count. */
  function PackerPad(data: seq<bv8>): (r: seq<bv8>)
    ensures |r| == |Pad(data)|
  {
    data + [0x80] + seq(ZeroCount(|data|), i => 0) + ([0, 0, 0, 0] + BytesOf(BitCount(|data|)))
  }

  /** A 32-bit shift left by three. */
  function BitCount(length: nat): bv32 {
    (8 * length % 0x1_0000_0000) as bv32
  }

  lemma WordRoundTrip(w: bv32)
    ensures WordAt(BytesOf(w), 0) == w
  {
    assert (((((w >> 24) & 0xff) as bv8) as bv32) << 24) | (((((w >> 16) & 0xff) as bv8) as bv32) << 16)
         | (((((w >> 8) & 0xff) as bv8) as bv32) << 8) | (((w & 0xff) as bv8) as bv32) == w;
  }

  lemma ZeroWord()
    ensures WordOf(0, 0, 0, 0) == 0
  {
  }

  lemma HighWordBytes(h: bv32)
    ensures BytesOf(h) == [0, 0, 0, 0] <==> h == 0
  {
    WordRoundTrip(h);
    ZeroWord();
  }

  lemma SamePartIff(head: seq<bv8>, a: seq<bv8>, b: seq<bv8>, tail: seq<bv8>)
    requires |a| == |b|
    ensures head + (a + tail) == head + (b + tail) <==> a == b
  {
    assert (head + (a + tail))[|head|..|head| + |a|] == a;
    assert (head + (b + tail))[|head|..|head| + |a|] == b;
  }

  /** The high word of the bit count is zero exactly below 2^29 bytes. */
  lemma HighWord(length: nat) returns (high: bv32)
    requires length < 0x1_0000_0000
    ensures LengthBytes(length) == BytesOf(high) + BytesOf(BitCount(length))
    ensures high == 0 <==> length < 0x2000_0000
  {
    var n := 8 * length / 0x1_0000_0000 % 0x1_0000_0000;
    assert n == 8 * length / 0x1_0000_0000 && n < 8;
    SmallWord(n);
    high := n as bv32;
  }

  /** The packer pads as FIPS 180-4 does exactly while the bit count fits 32 bits. */
  lemma PadsLikeTheStandard(data: seq<bv8>)
    requires |data| < 0x1_0000_0000
    ensures PackerPad(data) == Pad(data) <==> |data| < 0x2000_0000
  {
    var high := HighWord(|data|);
    HighWordBytes(high);
    SamePartIff(data + [0x80] + seq(ZeroCount(|data|), i => 0), [0, 0, 0, 0], BytesOf(high), BytesOf(BitCount(|data|)));
  }

  lemma SmallWord(n: nat)
    requires n < 8
    ensures n as bv32 == 0 <==> n == 0
  {
    if n == 1 {
      assert (1 as bv32) != 0;
    }
  }

  // ---------- packing bytes into words by shifts ----------

  /** A shift left by 8 * (3 - lane). */
  function ToLane(v: bv32, lane: nat): bv32
    requires lane < 4
  {
    if lane == 0 then v << 24 else if lane == 1 then v << 16 else if lane == 2 then v << 8 else v
  }

  function OrInto(word: bv32, x: bv8, lane: nat): bv32
    requires lane < 4
  {
    word | ToLane(x as bv32, lane)
  }

  /** A shift right by 8 * (3 - lane), cut to a byte. */
  function FromLane(v: bv32, lane: nat): bv8
    requires lane < 4
  {
    if lane == 0 then ((v >> 24) & 0xff) as bv8
    else if lane == 1 then ((v >> 16) & 0xff) as bv8
    else if lane == 2 then ((v >> 8) & 0xff) as bv8
    else (v & 0xff) as bv8
  }

  /** Byte k of a partly filled block. */
  function ByteOrZero(bytes: seq<bv8>, k: nat): bv8 {
    if k < |bytes| then bytes[k] else 0
  }

  function WordOrZero(bytes: seq<bv8>, j: nat): bv32 {
    WordOf(ByteOrZero(bytes, 4 * j), ByteOrZero(bytes, 4 * j + 1), ByteOrZero(bytes, 4 * j + 2),
           ByteOrZero(bytes, 4 * j + 3))
  }

  lemma OrIntoLane0(x: bv8)
    ensures WordOf(x, 0, 0, 0) == OrInto(WordOf(0, 0, 0, 0), x, 0)
  {
    ZeroWord();
  }

  lemma OrIntoLane1(a: bv8, x: bv8)
    ensures WordOf(a, x, 0, 0) == OrInto(WordOf(a, 0, 0, 0), x, 1)
  {
  }

  lemma OrIntoLane2(a: bv8, b: bv8, x: bv8)
    ensures WordOf(a, b, x, 0) == OrInto(WordOf(a, b, 0, 0), x, 2)
  {
  }

  lemma OrIntoLane3(a: bv8, b: bv8, c: bv8, x: bv8)
    ensures WordOf(a, b, c, x) == OrInto(WordOf(a, b, c, 0), x, 3)
  {
  }

  lemma OtherBytes(bytes: seq<bv8>, x: bv8, k: nat)
    ensures ByteOrZero(bytes + [x], k) == if k == |bytes| then x else ByteOrZero(bytes, k)
  {
  }

  /** Appending a byte is one OR into its word... */
  lemma AppendHere(bytes: seq<bv8>, x: bv8)
    ensures var j := |bytes| / 4;
            WordOrZero(bytes + [x], j) == OrInto(WordOrZero(bytes, j), x, |bytes| % 4)
  {
    var n, j := |bytes|, |bytes| / 4;
    OtherBytes(bytes, x, 4 * j);
    OtherBytes(bytes, x, 4 * j + 1);
    OtherBytes(bytes, x, 4 * j + 2);
    OtherBytes(bytes, x, 4 * j + 3);
    if n % 4 == 0 {
      OrIntoLane0(x);
    } else if n % 4 == 1 {
      OrIntoLane1(bytes[4 * j], x);
    } else if n % 4 == 2 {
      OrIntoLane2(bytes[4 * j], bytes[4 * j + 1], x);
    } else {
      OrIntoLane3(bytes[4 * j], bytes[4 * j + 1], bytes[4 * j + 2], x);
    }
  }

  /** ... and leaves the other words alone. */
  lemma AppendElsewhere(bytes: seq<bv8>, x: bv8, j: nat)
    requires j != |bytes| / 4
    ensures WordOrZero(bytes + [x], j) == WordOrZero(bytes, j)
  {
    OtherBytes(bytes, x, 4 * j);
    OtherBytes(bytes, x, 4 * j + 1);
    OtherBytes(bytes, x, 4 * j + 2);
    OtherBytes(bytes, x, 4 * j + 3);
  }

  function LoadWord(a: bv8, b: bv8, c: bv8, d: bv8): bv32 {
    (d as bv32) | ((c as bv32) << 8) | ((b as bv32) << 16) | ((a as bv32) << 24)
  }

  lemma LoadOrder(a: bv8, b: bv8, c: bv8, d: bv8)
    ensures LoadWord(a, b, c, d) == WordOf(a, b, c, d)
  {
    assert (d as bv32) | ((c as bv32) << 8) | ((b as bv32) << 16) | ((a as bv32) << 24)
        == ((a as bv32) << 24) | ((b as bv32) << 16) | ((c as bv32) << 8) | (d as bv32);
  }

  /** The inner loop over a whole block. */
  method LoadBlock(buf: seq<bv8>, start: nat, temp: array<bv32>)
    requires temp.Length == 80 && start + 64 <= |buf|
    modifies temp
    ensures temp[..16] == BlockAt(buf, start)
  {
    var i, block := 0, start;
    while block < start + 64
      invariant 0 <= i <= 16 && block == start + 4 * i
      invariant forall j | 0 <= j < i :: temp[j] == WordAt(buf, start + 4 * j)
    {
      LoadOrder(buf[block], buf[block + 1], buf[block + 2], buf[block + 3]);
      temp[i] := LoadWord(buf[block], buf[block + 1], buf[block + 2], buf[block + 3]);
      i, block := i + 1, block + 4;
    }
  }

  /** The words of a partly filled block. */
  ghost predicate HoldsBytes(temp: seq<bv32>, bytes: seq<bv8>) {
    |temp| >= 16 && forall j | 0 <= j < 16 :: temp[j] == WordOrZero(bytes, j)
  }

  /** memset over the first sixteen words. */
  method Clear(temp: array<bv32>)
    requires temp.Length == 80
    modifies temp
    ensures HoldsBytes(temp[..], [])
  {
    ZeroWord();
    var j := 0;
    while j < 16
      invariant 0 <= j <= 16
      invariant forall i | 0 <= i < j :: temp[i] == 0
    {
      temp[j] := 0;
      j := j + 1;
    }
  }

  method PutByte(temp: array<bv32>, ghost bytes: seq<bv8>, x: bv8, last: nat)
    requires temp.Length == 80 && last == |bytes| < 64 && HoldsBytes(temp[..], bytes)
    modifies temp
    ensures HoldsBytes(temp[..], bytes + [x])
  {
    ghost var words := temp[..];
    temp[last / 4] := OrInto(temp[last / 4], x, last % 4);
    AppendHere(bytes, x);
    forall j | 0 <= j < 16
      ensures temp[j] == WordOrZero(bytes + [x], j)
    {
      if j != last / 4 {
        AppendElsewhere(bytes, x, j);
        assert temp[j] == words[j];
      } else {
        assert words[j] == WordOrZero(bytes, j);
      }
    }
  }

  /** The tail of the message and the 0x80 byte. */
  method LoadTail(buf: seq<bv8>, block: nat, temp: array<bv32>)
    requires temp.Length == 80 && block <= |buf| < block + 64
    modifies temp
    ensures HoldsBytes(temp[..], buf[block..] + [0x80])
  {
    Clear(temp);
    var last := 0;
    assert buf[block..block + last] == [];
    while last < |buf| - block
      invariant 0 <= last <= |buf| - block
      invariant HoldsBytes(temp[..], buf[block..block + last])
    {
      PutByte(temp, buf[block..block + last], buf[block + last], last);
      assert buf[block..block + last] + [buf[block + last]] == buf[block..block + (last + 1)];
      last := last + 1;
    }
    assert buf[block..block + last] == buf[block..];
    PutByte(temp, buf[block..], 0x80, last);
  }

  // ---------- the blocks of the padded message ----------

  lemma PaddedByte(data: seq<bv8>, p: nat)
    requires p < |PackerPad(data)|
    ensures PackerPad(data)[p] == if p < |data| then data[p]
                                  else if p == |data| then 0x80
                                  else if p < |PackerPad(data)| - 4 then 0
                                  else BytesOf(BitCount(|data|))[p - (|PackerPad(data)| - 4)]
  {
  }

  /** Before the bit count, a word of the padded message is the word of the tail with its 0x80 byte. */
  lemma TailWord(data: seq<bv8>, block: nat, j: nat)
    requires block <= |data| < block + 64 && block + 4 * j + 4 <= |PackerPad(data)| - 4
    ensures WordAt(PackerPad(data), block + 4 * j) == WordOrZero(data[block..] + [0x80], j)
  {
    PaddedByte(data, block + 4 * j);
    PaddedByte(data, block + 4 * j + 1);
    PaddedByte(data, block + 4 * j + 2);
    PaddedByte(data, block + 4 * j + 3);
    OtherBytes(data[block..], 0x80, 4 * j);
    OtherBytes(data[block..], 0x80, 4 * j + 1);
    OtherBytes(data[block..], 0x80, 4 * j + 2);
    OtherBytes(data[block..], 0x80, 4 * j + 3);
  }

  lemma ZeroTailWord(data: seq<bv8>, j: nat, p: nat)
    requires |data| < p && p + 4 * j + 4 <= |PackerPad(data)| - 4
    ensures WordAt(PackerPad(data), p + 4 * j) == 0
  {
    PaddedByte(data, p + 4 * j);
    PaddedByte(data, p + 4 * j + 1);
    PaddedByte(data, p + 4 * j + 2);
    PaddedByte(data, p + 4 * j + 3);
    ZeroWord();
  }

  lemma LastWord(data: seq<bv8>)
    ensures |PackerPad(data)| >= 4
    ensures WordAt(PackerPad(data), |PackerPad(data)| - 4) == BitCount(|data|)
  {
    var p := |PackerPad(data)| - 4;
    PaddedByte(data, p);
    PaddedByte(data, p + 1);
    PaddedByte(data, p + 2);
    PaddedByte(data, p + 3);
    WordRoundTrip(BitCount(|data|));
  }

  lemma ZeroCountIs(length: nat, block: nat)
    requires block % 64 == 0 && block <= length < block + 64
    ensures ZeroCount(length) == if length - block >= 56 then 119 - (length - block) else 55 - (length - block)
  {
    assert length % 64 == length - block;
  }

  lemma PadLength(data: seq<bv8>)
    ensures |PackerPad(data)| == |data| + ZeroCount(|data|) + 9
  {
  }

  lemma BlocksOfPad(data: seq<bv8>, block: nat)
    requires block % 64 == 0 && block <= |data| < block + 64
    ensures |PackerPad(data)| == if |data| - block >= 56 then block + 128 else block + 64
    ensures |PackerPad(data)| >= 64 && (|PackerPad(data)| - 64) % 64 == 0
    ensures (|PackerPad(data)| - 64) / 64 == |PackerPad(data)| / 64 - 1
    ensures |PackerPad(data)| / 64 - 1 == if |data| - block >= 56 then block / 64 + 1 else block / 64
  {
    ZeroCountIs(|data|, block);
    PadLength(data);
    assert block == 64 * (block / 64);
  }

  lemma NextBlock(h: State, data: seq<bv8>, block: nat)
    requires block % 64 == 0 && block + 64 <= |data|
    ensures (block + 64) / 64 == block / 64 + 1
    ensures CompressAll(h, data, block / 64 + 1) == Compress(CompressAll(h, data, block / 64), BlockAt(data, block))
  {
    assert 64 * (block / 64) == block;
  }

  lemma WholeBlock(data: seq<bv8>, start: nat)
    requires start + 64 <= |data|
    ensures BlockAt(PackerPad(data), start) == BlockAt(data, start)
  {
    forall i | 0 <= i < 16
      ensures WordAt(PackerPad(data), start + 4 * i) == WordAt(data, start + 4 * i)
    {
      PaddedByte(data, start + 4 * i);
      PaddedByte(data, start + 4 * i + 1);
      PaddedByte(data, start + 4 * i + 2);
      PaddedByte(data, start + 4 * i + 3);
    }
  }

  lemma ClosingWord(data: seq<bv8>, block: nat, bytes: seq<bv8>, p: nat, j: nat)
    requires p + 64 == |PackerPad(data)| && j < 15
    requires block % 64 == 0 && block <= |data| < block + 64
    requires bytes == if |data| - block >= 56 then [] else data[block..] + [0x80]
    ensures WordAt(PackerPad(data), p + 4 * j) == WordOrZero(bytes, j)
  {
    BlocksOfPad(data, block);
    if |data| - block >= 56 {
      ZeroTailWord(data, j, p);
      ZeroWord();
    } else {
      assert p == block;
      TailWord(data, block, j);
    }
  }

  lemma WordsAreBlock(temp: seq<bv32>, data: seq<bv8>, p: nat)
    requires p + 64 <= |data| && |temp| >= 16
    requires forall j | 0 <= j < 16 :: temp[j] == WordAt(data, p + 4 * j)
    ensures temp[..16] == BlockAt(data, p)
  {
  }

  /** The block that closes the message: the tail or zeros, then the bit count. */
  lemma ClosingBlock(data: seq<bv8>, temp: seq<bv32>, block: nat, bytes: seq<bv8>, p: nat)
    requires p + 64 == |PackerPad(data)|
    requires block % 64 == 0 && block <= |data| < block + 64
    requires bytes == if |data| - block >= 56 then [] else data[block..] + [0x80]
    requires |temp| >= 16 && temp[15] == BitCount(|data|)
    requires forall j | 0 <= j < 15 :: temp[j] == WordOrZero(bytes, j)
    ensures temp[..16] == BlockAt(PackerPad(data), p)
  {
    forall j | 0 <= j < 16
      ensures temp[j] == WordAt(PackerPad(data), p + 4 * j)
    {
      if j == 15 {
        LastWord(data);
      } else {
        ClosingWord(data, block, bytes, p, j);
      }
    }
    WordsAreBlock(temp, PackerPad(data), p);
  }

  /** The overflow block of a long tail. */
  lemma OverflowBlock(data: seq<bv8>, temp: seq<bv32>, block: nat)
    requires block % 64 == 0 && block + 56 <= |data| < block + 64
    requires HoldsBytes(temp, data[block..] + [0x80])
    ensures |PackerPad(data)| == block + 128 && temp[..16] == BlockAt(PackerPad(data), block)
  {
    BlocksOfPad(data, block);
    forall j | 0 <= j < 16
      ensures temp[j] == WordAt(PackerPad(data), block + 4 * j)
    {
      TailWord(data, block, j);
    }
    WordsAreBlock(temp, PackerPad(data), block);
  }

  // ---------- hashSha1 ----------

  lemma LaneIsByte(w: bv32, lane: nat)
    requires lane < 4
    ensures FromLane(w, lane) == BytesOf(w)[lane]
  {
  }

  lemma FiveWords(a: seq<bv8>, b: seq<bv8>, c: seq<bv8>, d: seq<bv8>, e: seq<bv8>, i: nat)
    requires |a| == |b| == |c| == |d| == |e| == 4 && i < 20
    ensures (a + b + c + d + e)[i] == [a, b, c, d, e][i / 4][i % 4]
  {
  }

  lemma DigestByte(sha: seq<bv32>, i: nat)
    requires |sha| == 5 && i < 20
    ensures DigestBytes(StateOf(sha))[i] == FromLane(sha[i / 4], i % 4)
  {
    var a, b, c, d, e := BytesOf(sha[0]), BytesOf(sha[1]), BytesOf(sha[2]), BytesOf(sha[3]), BytesOf(sha[4]);
    assert DigestBytes(StateOf(sha)) == a + b + c + d + e;
    FiveWords(a, b, c, d, e, i);
    assert [a, b, c, d, e][i / 4] == BytesOf(sha[i / 4]);
    LaneIsByte(sha[i / 4], i % 4);
  }

  method StoreDigest(sha: array<bv32>, dest: array<bv8>)
    requires sha.Length == 5 && dest.Length >= 20
    modifies dest
    ensures dest[..20] == DigestBytes(StateOf(sha[..]))
    ensures forall j | 20 <= j < dest.Length :: dest[j] == old(dest[j])
  {
    var i := 20;
    while i > 0
      invariant 0 <= i <= 20
      invariant forall j | i <= j < 20 :: dest[j] == FromLane(sha[j / 4], j % 4)
      invariant forall j | 20 <= j < dest.Length :: dest[j] == old(dest[j])
    {
      i := i - 1;
      dest[i] := FromLane(sha[i / 4], i % 4);
    }
    forall j | 0 <= j < 20
      ensures dest[..20][j] == DigestBytes(StateOf(sha[..]))[j]
    {
      DigestByte(sha[..], j);
    }
  }

  /** The state after the first n blocks of the packer's padded message. */
  function StateAfter(data: seq<bv8>, n: nat): State
    requires 64 * n <= |PackerPad(data)|
  {
    CompressAll(INITIAL, PackerPad(data), n)
  }

  lemma LastBlock(data: seq<bv8>, block: nat)
    requires block % 64 == 0 && block <= |data| < block + 64
    ensures |PackerPad(data)| >= 64
    ensures StateAfter(data, |PackerPad(data)| / 64)
         == Compress(StateAfter(data, |PackerPad(data)| / 64 - 1), BlockAt(PackerPad(data), |PackerPad(data)| - 64))
  {
    BlocksOfPad(data, block);
    NextBlock(INITIAL, PackerPad(data), |PackerPad(data)| - 64);
  }

  function PackerDigest(data: seq<bv8>): seq<bv8> {
    DigestBytes(StateAfter(data, |PackerPad(data)| / 64))
  }

  /** SHA-1 of FIPS 180-4, for every message shorter than 2^29 bytes. */
  lemma PackerDigestIsSha1(data: seq<bv8>)
    requires |data| < 0x2000_0000
    ensures PackerDigest(data) == Digest(data)
  {
    PadsLikeTheStandard(data);
  }

  /** The end of a block, as the 32-bit counter has it. */
  function BlockEnd(block: nat): nat
    requires block < 0x1_0000_0000
  {
    if block + 64 < 0x1_0000_0000 then block + 64 else block + 64 - 0x1_0000_0000
  }

  /** The loop over the blocks goes on without getting on, at a block it reaches. */
  ghost predicate Stalls(length: nat, block: nat) {
    block % 64 == 0 && block <= length < 0x1_0000_0000 && BlockEnd(block) <= length && BlockEnd(block) <= block
  }

  /** It never ends exactly for the last 64 lengths, where the counter wraps. */
  lemma StallsIff(length: nat)
    requires length < 0x1_0000_0000
    ensures (exists block :: Stalls(length, block)) <==> length >= 0xffff_ffc0
  {
    if length >= 0xffff_ffc0 {
      assert Stalls(length, 0xffff_ffc0);
    }
  }

  /** The digest of the packer, for all lengths for which it gives one. */
  method HashSha1(buf: seq<bv8>, dest: array<bv8>)
    requires |buf| < 0xffff_ffc0 && dest.Length >= 20
    modifies dest
    ensures dest[..20] == PackerDigest(buf)
    ensures forall j | 20 <= j < dest.Length :: dest[j] == old(dest[j])
  {
    var temp := new bv32[80];
    var sha := new bv32[5];
    sha[0], sha[1], sha[2], sha[3], sha[4] := 0x67452301, 0xefcdab89, 0x98badcfe, 0x10325476, 0xc3d2e1f0;
    var block := HashBlocks(buf, sha, temp);
    HashTail(buf, block, sha, temp);
    StoreDigest(sha, dest);
  }

  method HashBlock(buf: seq<bv8>, block: nat, sha: array<bv32>, temp: array<bv32>)
    requires sha.Length == 5 && temp.Length == 80 && sha != temp
    requires block % 64 == 0 && block + 64 <= |buf| && StateOf(sha[..]) == StateAfter(buf, block / 64)
    modifies sha, temp
    ensures StateOf(sha[..]) == StateAfter(buf, (block + 64) / 64)
  {
    LoadBlock(buf, block, temp);
    WholeBlock(buf, block);
    NextBlock(INITIAL, PackerPad(buf), block);
    Sha1PartHash(sha, temp);
  }

  /** The loop over the whole blocks. */
  method HashBlocks(buf: seq<bv8>, sha: array<bv32>, temp: array<bv32>) returns (block: nat)
    requires sha.Length == 5 && temp.Length == 80 && sha != temp
    requires StateOf(sha[..]) == INITIAL && |buf| < 0xffff_ffc0
    modifies sha, temp
    ensures block % 64 == 0 && block <= |buf| < block + 64
    ensures StateOf(sha[..]) == StateAfter(buf, block / 64)
  {
    block := 0;
    var end := BlockEnd(block);
    while end <= |buf|
      invariant block % 64 == 0 && block <= |buf| && end == block + 64
      invariant StateOf(sha[..]) == StateAfter(buf, block / 64)
    {
      HashBlock(buf, block, sha, temp);
      block := end;
      end := BlockEnd(block);
    }
  }

  method HashTail(buf: seq<bv8>, block: nat, sha: array<bv32>, temp: array<bv32>)
    requires sha.Length == 5 && temp.Length == 80 && sha != temp
    requires block % 64 == 0 && block <= |buf| < block + 64
    requires StateOf(sha[..]) == StateAfter(buf, block / 64)
    modifies sha, temp
    ensures StateOf(sha[..]) == StateAfter(buf, |PackerPad(buf)| / 64)
  {
    LoadTail(buf, block, temp);
    BlocksOfPad(buf, block);
    if |buf| - block >= 56 {
      OverflowBlock(buf, temp[..], block);
      NextBlock(INITIAL, PackerPad(buf), block);
      assert temp[..][..16] == temp[..16];
      Sha1PartHash(sha, temp);
      Clear(temp);
      CloseMessage(buf, block, [], sha, temp);
    } else {
      CloseMessage(buf, block, buf[block..] + [0x80], sha, temp);
    }
  }

  /** The bit count goes in the last word, and the last block is hashed. */
  method CloseMessage(buf: seq<bv8>, ghost block: nat, ghost bytes: seq<bv8>, sha: array<bv32>, temp: array<bv32>)
    requires sha.Length == 5 && temp.Length == 80 && sha != temp
    requires block % 64 == 0 && block <= |buf| < block + 64
    requires bytes == if |buf| - block >= 56 then [] else buf[block..] + [0x80]
    requires HoldsBytes(temp[..], bytes)
    requires |PackerPad(buf)| >= 64
    requires StateOf(sha[..]) == StateAfter(buf, |PackerPad(buf)| / 64 - 1)
    modifies sha, temp
    ensures StateOf(sha[..]) == StateAfter(buf, |PackerPad(buf)| / 64)
  {
    ghost var words := temp[..];
    temp[15] := BitCount(|buf|);
    assert forall j | 0 <= j < 15 :: temp[..][j] == words[j];
    ClosingBlock(buf, temp[..], block, bytes, |PackerPad(buf)| - 64);
    LastBlock(buf, block);
    assert temp[..][..16] == temp[..16];
    Sha1PartHash(sha, temp);
  }
}
