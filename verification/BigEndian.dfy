/** The binary side of the mesh scripts: big-endian 32-bit words as Python's struct module lays them out. */
module BigEndian {
  import opened Util

  type Word = x: int | 0 <= x < 0x1_0000_0000

  const MAX_INT32 := 0x7fff_ffff

  predicate IsInt32(n: int) {
    -0x8000_0000 <= n <= 0x7fff_ffff
  }

  /** The bytes of one word, most significant first. */
  function PackWord(w: Word): seq<Byte> {
    [w / 0x100_0000, w / 0x1_0000 % 256, w / 0x100 % 256, w % 256]
  }

  function WordAt(data: seq<Byte>, offset: nat): Word
    requires offset + 4 <= |data|
  {
    Join(data[offset], data[offset + 1], data[offset + 2], data[offset + 3])
  }

  function Join(a: Byte, b: Byte, c: Byte, d: Byte): Word {
    (a as int) * 0x100_0000 + (b as int) * 0x1_0000 + (c as int) * 0x100 + d
  }

  /** Two's complement: the word that stores a signed 32-bit integer. */
  function ToWord(n: int): Word
    requires IsInt32(n)
  {
    if n < 0 then n + 0x1_0000_0000 else n
  }

  function FromWord(w: Word): (n: int)
    ensures IsInt32(n) && ToWord(n) == w
  {
    if w <= MAX_INT32 then w else w - 0x1_0000_0000
  }

  /** A run of words: byte k belongs to word k / 4. */
  function PackWords(ws: seq<Word>): (bytes: seq<Byte>)
    ensures |bytes| == 4 * |ws|
  {
    seq(4 * |ws|, k requires 0 <= k < 4 * |ws| => PackWord(ws[k / 4])[k % 4])
  }

  function WordsAt(data: seq<Byte>, offset: nat, count: nat): (ws: seq<Word>)
    requires offset + 4 * count <= |data|
    ensures |ws| == count
  {
    seq(count, i requires 0 <= i < count => WordAt(data, offset + 4 * i))
  }

  lemma WordRoundTrip(w: Word)
    ensures WordAt(PackWord(w), 0) == w
  {
    assert w / 0x100 == w / 0x1_0000 * 256 + w / 0x100 % 256;
    assert w / 0x1_0000 == w / 0x100_0000 * 256 + w / 0x1_0000 % 256;
  }

  lemma BytesRoundTrip(data: seq<Byte>, offset: nat)
    requires offset + 4 <= |data|
    ensures PackWord(WordAt(data, offset)) == data[offset..offset + 4]
  {
    JoinBytes(data[offset], data[offset + 1], data[offset + 2], data[offset + 3]);
  }

  lemma JoinBytes(a: Byte, b: Byte, c: Byte, d: Byte)
    ensures PackWord(Join(a, b, c, d)) == [a, b, c, d]
  {
    var w: int := Join(a, b, c, d);
    assert w / 0x100 == (a as int) * 0x1_0000 + (b as int) * 0x100 + c;
    assert w / 0x1_0000 == (a as int) * 0x100 + b;
    assert w / 0x100_0000 == a;
  }

  lemma PackedByte(ws: seq<Word>, i: nat, j: nat)
    requires i < |ws| && j < 4
    ensures PackWords(ws)[4 * i + j] == PackWord(ws[i])[j]
  {
    assert (4 * i + j) / 4 == i && (4 * i + j) % 4 == j;
  }

  /** A word depends on its own four bytes only. */
  lemma WordIsLocal(data: seq<Byte>, offset: nat, w: Word)
    requires offset + 4 <= |data|
    requires forall j | 0 <= j < 4 :: data[offset + j] == PackWord(w)[j]
    ensures WordAt(data, offset) == w
  {
    assert data[offset + 0] == PackWord(w)[0] && data[offset + 1] == PackWord(w)[1];
    assert data[offset + 2] == PackWord(w)[2] && data[offset + 3] == PackWord(w)[3];
    WordRoundTrip(w);
  }

  lemma PackedByteAt(data: seq<Byte>, offset: nat, ws: seq<Word>, i: nat, j: nat)
    requires offset + 4 * |ws| <= |data| && i < |ws| && j < 4
    requires data[offset..offset + 4 * |ws|] == PackWords(ws)
    ensures data[offset + 4 * i + j] == PackWord(ws[i])[j]
  {
    PackedByte(ws, i, j);
    var k := 4 * i + j;
    assert data[offset + k] == data[offset..offset + 4 * |ws|][k];
  }

  lemma ReadPackedWord(data: seq<Byte>, offset: nat, ws: seq<Word>, i: nat)
    requires offset + 4 * |ws| <= |data| && i < |ws|
    requires data[offset..offset + 4 * |ws|] == PackWords(ws)
    ensures WordAt(data, offset + 4 * i) == ws[i]
  {
    forall j | 0 <= j < 4
      ensures data[offset + 4 * i + j] == PackWord(ws[i])[j]
    {
      PackedByteAt(data, offset, ws, i, j);
    }
    WordIsLocal(data, offset + 4 * i, ws[i]);
  }

  /** Reading back what was packed, wherever it sits in a longer file. */
  lemma WordsRoundTrip(data: seq<Byte>, offset: nat, ws: seq<Word>)
    requires offset + 4 * |ws| <= |data|
    requires data[offset..offset + 4 * |ws|] == PackWords(ws)
    ensures WordsAt(data, offset, |ws|) == ws
  {
    var read := WordsAt(data, offset, |ws|);
    forall i | 0 <= i < |ws|
      ensures read[i] == ws[i]
    {
      assert read[i] == WordAt(data, offset + 4 * i);
      ReadPackedWord(data, offset, ws, i);
    }
  }

  lemma ByteRoundTrip(data: seq<Byte>, offset: nat, i: nat, j: nat)
    requires offset + 4 * i + 4 <= |data| && j < 4
    ensures PackWord(WordAt(data, offset + 4 * i))[j] == data[offset + (4 * i + j)]
  {
    BytesRoundTrip(data, offset + 4 * i);
    assert data[offset + 4 * i..offset + 4 * i + 4][j] == data[offset + (4 * i + j)];
  }

  /** Packing what was read restores exactly the bytes that were read. */
  lemma RunRoundTrip(data: seq<Byte>, offset: nat, count: nat)
    requires offset + 4 * count <= |data|
    ensures PackWords(WordsAt(data, offset, count)) == data[offset..offset + 4 * count]
  {
    var ws := WordsAt(data, offset, count);
    forall k | 0 <= k < 4 * count
      ensures PackWords(ws)[k] == data[offset + k]
    {
      var i, j := k / 4, k % 4;
      assert k == 4 * i + j && ws[i] == WordAt(data, offset + 4 * i);
      ByteRoundTrip(data, offset, i, j);
    }
  }
}
