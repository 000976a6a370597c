/** The .binobj container: its layout, the writer of obj2binobj.py and the reader of binobj2obj.py. */
module MeshFile {
  import opened Util
  import opened BigEndian

  /** One face corner: 0-based indices, -1 for a missing one. The parser may build indices no int32 holds. */
  datatype Corner = Corner(position: int, uv: int, normal: int) {
    predicate IsInt32s() {
      IsInt32(position) && IsInt32(uv) && IsInt32(normal)
    }

    function Index(j: nat): int
      requires j < 3
    {
      if j == 0 then position else if j == 1 then uv else normal
    }
  }

  /** A float is kept as the 32 bits that store it. */
  datatype Mesh = Mesh(positions: seq<Word>, uvs: seq<Word>, normals: seq<Word>, corners: seq<Corner>)

  /** What struct.pack accepts: every count and every index fits a signed 32-bit integer. */
  ghost predicate Packable(m: Mesh) {
    && |m.positions| <= MAX_INT32 && |m.uvs| <= MAX_INT32
    && |m.normals| <= MAX_INT32 && |m.corners| <= MAX_INT32
    && AllInt32s(m.corners)
  }

  /** Outcome of reading a file: a mesh, an exception from struct, or the reported format mismatch. */
  datatype Decoded = Ok(mesh: Mesh) | Malformed | Trailing

  ghost predicate AllInt32s(cs: seq<Corner>) {
    forall i | 0 <= i < |cs| :: cs[i].IsInt32s()
  }

  function CornerWords(c: Corner): (ws: seq<Word>)
    requires c.IsInt32s()
    ensures |ws| == 3
  {
    [ToWord(c.position), ToWord(c.uv), ToWord(c.normal)]
  }

  function AllCornerWords(cs: seq<Corner>): (ws: seq<Word>)
    requires AllInt32s(cs)
    ensures |ws| == 3 * |cs|
  {
    seq(3 * |cs|, k requires 0 <= k < 3 * |cs| => ToWord(cs[k / 3].Index(k % 3)))
  }

  function Section(ws: seq<Word>): seq<Byte>
    requires |ws| <= MAX_INT32
  {
    PackWord(|ws|) + PackWords(ws)
  }

  function CornerSection(cs: seq<Corner>): seq<Byte>
    requires |cs| <= MAX_INT32 && AllInt32s(cs)
  {
    PackWord(|cs|) + PackWords(AllCornerWords(cs))
  }

  /** The layout of the format: four counted sections, one after another. */
  ghost function Encode(m: Mesh): seq<Byte>
    requires Packable(m)
  {
    Section(m.positions) + Section(m.uvs) + Section(m.normals) + CornerSection(m.corners)
  }

  function CornerAt(data: seq<Byte>, offset: nat): Corner
    requires offset + 12 <= |data|
  {
    Corner(FromWord(WordAt(data, offset)), FromWord(WordAt(data, offset + 4)), FromWord(WordAt(data, offset + 8)))
  }

  function CornersAt(data: seq<Byte>, offset: nat, count: nat): (cs: seq<Corner>)
    requires offset + 12 * count <= |data|
    ensures |cs| == count
  {
    seq(count, i requires 0 <= i < count => CornerAt(data, offset + 12 * i))
  }

  function ReadInt(data: seq<Byte>, offset: nat): Option<int> {
    if offset + 4 <= |data| then Some(FromWord(WordAt(data, offset))) else None
  }

  function ReadFloats(data: seq<Byte>, offset: nat, count: int): Option<seq<Word>> {
    if count < 0 || offset + 4 * count > |data| then None else Some(WordsAt(data, offset, count))
  }

  /** A counted run of floats and the offset just after it. */
  function ReadSection(data: seq<Byte>, offset: nat): Option<(seq<Word>, nat)> {
    match ReadInt(data, offset)
    case None => None
    case Some(count) =>
      match ReadFloats(data, offset + 4, count)
      case None => None
      case Some(ws) => Some((ws, offset + 4 + 4 * |ws|))
  }

  function ReadCorners(data: seq<Byte>, offset: nat,
                       positions: seq<Word>, uvs: seq<Word>, normals: seq<Word>): Decoded
  {
    match ReadInt(data, offset)
    case None => Malformed
    case Some(count) =>
      var end := offset + 4 + 12 * count;
      if count > 0 && end > |data| then Malformed
      else if end != |data| then Trailing
      else Ok(Mesh(positions, uvs, normals, CornersAt(data, offset + 4, count)))
  }

  function Decode(data: seq<Byte>): Decoded {
    match ReadSection(data, 0)
    case None => Malformed
    case Some((positions, o1)) =>
      match ReadSection(data, o1)
      case None => Malformed
      case Some((uvs, o2)) =>
        match ReadSection(data, o2)
        case None => Malformed
        case Some((normals, o3)) => ReadCorners(data, o3, positions, uvs, normals)
  }

  /** A last section that is cut off is malformed, and one that does not end the file leaves a trail. */
  lemma CornerErrors(data: seq<Byte>, offset: nat, p: seq<Word>, u: seq<Word>, n: seq<Word>)
    ensures var r := ReadCorners(data, offset, p, u, n);
            if offset + 4 > |data| then r == Malformed
            else
              var count := FromWord(WordAt(data, offset));
              && (r == Malformed <==> count > 0 && offset + 4 + 12 * count > |data|)
              && (r == Trailing <==>
                    (count <= 0 || offset + 4 + 12 * count <= |data|) && offset + 4 + 12 * count != |data|)
              && (r.Ok? <==> offset + 4 + 12 * count == |data|)
  {
  }

  // ---------- reading inverts writing ----------

  lemma CornerWordAt(cs: seq<Corner>, i: nat, j: nat)
    requires i < |cs| && j < 3 && AllInt32s(cs)
    ensures AllCornerWords(cs)[3 * i + j] == ToWord(cs[i].Index(j))
  {
    assert (3 * i + j) / 3 == i && (3 * i + j) % 3 == j;
  }

  lemma SignRoundTrip(n: int)
    requires IsInt32(n)
    ensures FromWord(ToWord(n)) == n
  {
  }

  lemma IntRead(data: seq<Byte>, offset: nat, w: Word)
    requires offset + 4 <= |data| && data[offset..offset + 4] == PackWord(w)
    ensures WordAt(data, offset) == w
  {
    forall j | 0 <= j < 4
      ensures data[offset + j] == PackWord(w)[j]
    {
      assert data[offset + j] == data[offset..offset + 4][j];
    }
    WordIsLocal(data, offset, w);
  }

  lemma SectionRead(data: seq<Byte>, offset: nat, ws: seq<Word>, end: nat)
    requires |ws| <= MAX_INT32 && Holds(data, offset, Section(ws)) && end == offset + |Section(ws)|
    ensures ReadSection(data, offset) == Some((ws, end))
  {
    SplitSlice(data, offset, PackWord(|ws|), PackWords(ws));
    IntRead(data, offset, |ws|);
    WordsRoundTrip(data, offset + 4, ws);
  }

  lemma FourSlices<T>(a: seq<T>, b: seq<T>, c: seq<T>, d: seq<T>)
    ensures var s := a + b + c + d;
            Holds(s, 0, a) && Holds(s, |a|, b) && Holds(s, |a| + |b|, c) && Holds(s, |a| + |b| + |c|, d)
  {
  }

  lemma FourPieces<T>(s: seq<T>, i: nat, j: nat, k: nat)
    requires i <= j <= k <= |s|
    ensures s == s[0..i] + s[i..j] + s[j..k] + s[k..]
  {
  }

  lemma CornerRead(data: seq<Byte>, offset: nat, cs: seq<Corner>, i: nat)
    requires i < |cs| && AllInt32s(cs)
    requires Holds(data, offset, PackWords(AllCornerWords(cs)))
    ensures offset + 12 * i + 12 <= |data| && CornerAt(data, offset + 12 * i) == cs[i]
  {
    CornerWordRead(data, offset, cs, i, 0);
    CornerWordRead(data, offset, cs, i, 1);
    CornerWordRead(data, offset, cs, i, 2);
  }

  lemma ReadHeldWord(data: seq<Byte>, offset: nat, ws: seq<Word>, k: nat, at: nat)
    requires k < |ws| && at == offset + 4 * k && Holds(data, offset, PackWords(ws))
    ensures at + 4 <= |data| && WordAt(data, at) == ws[k]
  {
    ReadPackedWord(data, offset, ws, k);
  }

  lemma CornerWordRead(data: seq<Byte>, offset: nat, cs: seq<Corner>, i: nat, j: nat)
    requires i < |cs| && j < 3 && AllInt32s(cs)
    requires Holds(data, offset, PackWords(AllCornerWords(cs)))
    ensures offset + 12 * i + 4 * j + 4 <= |data|
    ensures FromWord(WordAt(data, offset + 12 * i + 4 * j)) == cs[i].Index(j)
  {
    ReadHeldWord(data, offset, AllCornerWords(cs), 3 * i + j, offset + 12 * i + 4 * j);
    CornerWordAt(cs, i, j);
    SignRoundTrip(cs[i].Index(j));
  }

  lemma CornersRead(data: seq<Byte>, offset: nat, cs: seq<Corner>)
    requires AllInt32s(cs)
    requires Holds(data, offset, PackWords(AllCornerWords(cs)))
    ensures offset + 12 * |cs| <= |data| && CornersAt(data, offset, |cs|) == cs
  {
    assert offset + 12 * |cs| <= |data|;
    var read := CornersAt(data, offset, |cs|);
    forall i | 0 <= i < |cs|
      ensures read[i] == cs[i]
    {
      CornerRead(data, offset, cs, i);
    }
    assert read == cs;
  }

  lemma CornerSectionRead(data: seq<Byte>, offset: nat, m: Mesh)
    requires Packable(m) && offset + |CornerSection(m.corners)| == |data|
    requires Holds(data, offset, CornerSection(m.corners))
    ensures ReadCorners(data, offset, m.positions, m.uvs, m.normals) == Ok(m)
  {
    SplitSlice(data, offset, PackWord(|m.corners|), PackWords(AllCornerWords(m.corners)));
    IntRead(data, offset, |m.corners|);
    CornersRead(data, offset + 4, m.corners);
  }

  lemma DecodeSlices(data: seq<Byte>, m: Mesh, o1: nat, o2: nat, o3: nat)
    requires Packable(m)
    requires Holds(data, 0, Section(m.positions)) && o1 == |Section(m.positions)|
    requires Holds(data, o1, Section(m.uvs)) && o2 == o1 + |Section(m.uvs)|
    requires Holds(data, o2, Section(m.normals)) && o3 == o2 + |Section(m.normals)|
    requires Holds(data, o3, CornerSection(m.corners)) && o3 + |CornerSection(m.corners)| == |data|
    ensures Decode(data) == Ok(m)
  {
    SectionRead(data, 0, m.positions, o1);
    SectionRead(data, o1, m.uvs, o2);
    SectionRead(data, o2, m.normals, o3);
    CornerSectionRead(data, o3, m);
  }

  lemma DecodeEncode(m: Mesh)
    requires Packable(m)
    ensures Decode(Encode(m)) == Ok(m)
  {
    var p, u, n, c := Section(m.positions), Section(m.uvs), Section(m.normals), CornerSection(m.corners);
    FourSlices(p, u, n, c);
    DecodeSlices(p + u + n + c, m, |p|, |p| + |u|, |p| + |u| + |n|);
  }

  // ---------- writing inverts reading ----------

  lemma SectionCanonical(data: seq<Byte>, offset: nat)
    ensures match ReadSection(data, offset)
            case None => true
            case Some((ws, end)) =>
              |ws| <= MAX_INT32 && offset <= end <= |data| && data[offset..end] == Section(ws)
  {
    match ReadSection(data, offset)
    case None =>
    case Some((ws, end)) =>
      BytesRoundTrip(data, offset);
      RunRoundTrip(data, offset + 4, |ws|);
      assert data[offset..end] == data[offset..offset + 4] + data[offset + 4..end];
  }

  lemma CornersCanonical(data: seq<Byte>, offset: nat, count: nat)
    requires offset + 12 * count <= |data|
    ensures AllInt32s(CornersAt(data, offset, count))
    ensures PackWords(AllCornerWords(CornersAt(data, offset, count))) == data[offset..offset + 12 * count]
  {
    var cs := CornersAt(data, offset, count);
    var ws := WordsAt(data, offset, 3 * count);
    forall k | 0 <= k < 3 * count
      ensures AllCornerWords(cs)[k] == ws[k]
    {
      CornerWordAt(cs, k / 3, k % 3);
      assert offset + 4 * k == offset + 12 * (k / 3) + 4 * (k % 3);
    }
    assert AllCornerWords(cs) == ws;
    RunRoundTrip(data, offset, 3 * count);
  }

  lemma CornerSectionCanonical(data: seq<Byte>, offset: nat, p: seq<Word>, u: seq<Word>, n: seq<Word>)
    ensures match ReadCorners(data, offset, p, u, n)
            case Ok(m) =>
              && m.positions == p && m.uvs == u && m.normals == n
              && |m.corners| <= MAX_INT32 && (AllInt32s(m.corners))
              && offset <= |data| && data[offset..] == CornerSection(m.corners)
            case _ => true
  {
    match ReadCorners(data, offset, p, u, n)
    case Ok(m) =>
      BytesRoundTrip(data, offset);
      CornersCanonical(data, offset + 4, |m.corners|);
      assert data[offset..] == data[offset..offset + 4] + data[offset + 4..offset + 4 + 12 * |m.corners|];
    case _ =>
  }

  /** The format is canonical: a file the reader accepts is the one file its mesh is written to. */
  lemma EncodeDecode(data: seq<Byte>)
    requires Decode(data).Ok?
    ensures Packable(Decode(data).mesh) && Encode(Decode(data).mesh) == data
  {
    SectionCanonical(data, 0);
    var (p, o1) := ReadSection(data, 0).value;
    SectionCanonical(data, o1);
    var (u, o2) := ReadSection(data, o1).value;
    SectionCanonical(data, o2);
    var (n, o3) := ReadSection(data, o2).value;
    CornerSectionCanonical(data, o3, p, u, n);
    FourPieces(data, o1, o2, o3);
  }

  // ---------- the scripts ----------

  /** The reader's moving offset over the whole file. */
  class Reader {
    const data: seq<Byte>
    var offset: int

    constructor (data: seq<Byte>)
      ensures this.data == data && offset == 0
    {
      this.data := data;
      offset := 0;
    }

    method ReadNextInt() returns (r: Option<int>)
      requires offset >= 0
      modifies this
      ensures old(offset) >= 0 && r == ReadInt(data, old(offset))
      ensures offset == if r.Some? then old(offset) + 4 else old(offset)
    {
      if offset + 4 > |data| {
        return None;
      }
      r := Some(FromWord(WordAt(data, offset)));
      offset := offset + 4;
    }

    method ReadNextFloats(count: int) returns (r: Option<seq<Word>>)
      requires offset >= 0
      modifies this
      ensures old(offset) >= 0 && r == ReadFloats(data, old(offset), count)
      ensures offset == if r.Some? then old(offset) + 4 * count else old(offset)
    {
      if count < 0 || offset + 4 * count > |data| {
        return None;
      }
      r := Some(WordsAt(data, offset, count));
      offset := offset + 4 * count;
    }

    method ReadNextSection() returns (r: Option<seq<Word>>)
      requires offset >= 0
      modifies this
      ensures old(offset) >= 0
      ensures match ReadSection(data, old(offset))
              case None => r == None
              case Some((ws, end)) => r == Some(ws) && offset == end
    {
      var count := ReadNextInt();
      if count == None {
        return None;
      }
      r := ReadNextFloats(count.value);
    }
  }

  method ReadBinobj(data: seq<Byte>) returns (r: Decoded)
    ensures r == Decode(data)
  {
    var reader := new Reader(data);
    var positions := reader.ReadNextSection();
    if positions == None { return Malformed; }
    var uvs := reader.ReadNextSection();
    if uvs == None { return Malformed; }
    var normals := reader.ReadNextSection();
    if normals == None { return Malformed; }
    var count := reader.ReadNextInt();
    if count == None { return Malformed; }
    var corners: seq<Corner> := [];
    var i := 0;
    while i < count.value
      invariant 0 <= i && (i <= count.value || i == 0)
      invariant reader.offset + 12 * i <= |data|
      invariant corners == CornersAt(data, reader.offset, i)
    {
      if reader.offset + 12 * i + 12 > |data| { return Malformed; }
      corners := corners + [CornerAt(data, reader.offset + 12 * i)];
      i := i + 1;
    }
    reader.offset := reader.offset + 12 * count.value;
    if reader.offset != |data| { return Trailing; }
    r := Ok(Mesh(positions.value, uvs.value, normals.value, corners));
  }

  /** The writer; None stands for the exception struct raises on a number out of range. */
  method WriteBinobj(m: Mesh) returns (r: Option<seq<Byte>>)
    ensures r.Some? <==> Packable(m)
    ensures r.Some? ==> r.value == Encode(m)
  {
    if |m.positions| > MAX_INT32 { return None; }
    var out := Section(m.positions);
    if |m.uvs| > MAX_INT32 { return None; }
    out := out + Section(m.uvs);
    if |m.normals| > MAX_INT32 { return None; }
    out := out + Section(m.normals);
    if |m.corners| > MAX_INT32 { return None; }
    var tail := WriteCorners(m.corners);
    if tail == None { return None; }
    r := Some(out + (PackWord(|m.corners|) + tail.value));
  }

  method WriteCorners(cs: seq<Corner>) returns (r: Option<seq<Byte>>)
    ensures r.Some? <==> AllInt32s(cs)
    ensures r.Some? ==> r.value == PackWords(AllCornerWords(cs))
  {
    var out: seq<Byte> := [];
    var i := 0;
    while i < |cs|
      invariant 0 <= i <= |cs|
      invariant AllInt32s(cs[..i])
      invariant out == PackWords(AllCornerWords(cs[..i]))
    {
      if !cs[i].IsInt32s() { return None; }
      AppendCorner(cs[..i], cs[i]);
      assert cs[..i] + [cs[i]] == cs[..i + 1];
      out := out + PackWords(CornerWords(cs[i]));
      i := i + 1;
    }
    assert cs[..i] == cs;
    r := Some(out);
  }

  lemma AppendCorner(cs: seq<Corner>, c: Corner)
    requires c.IsInt32s() && AllInt32s(cs)
    ensures AllInt32s(cs + [c])
    ensures PackWords(AllCornerWords(cs + [c])) == PackWords(AllCornerWords(cs)) + PackWords(CornerWords(c))
  {
    assert AllCornerWords(cs + [c]) == AllCornerWords(cs) + CornerWords(c);
    PackAppend(AllCornerWords(cs), CornerWords(c));
  }

  lemma PackAppend(a: seq<Word>, b: seq<Word>)
    ensures PackWords(a + b) == PackWords(a) + PackWords(b)
  {
    forall k | 0 <= k < 4 * |a + b|
      ensures PackWords(a + b)[k] == (PackWords(a) + PackWords(b))[k]
    {
      if k >= 4 * |a| {
        assert (k - 4 * |a|) / 4 == k / 4 - |a| && (k - 4 * |a|) % 4 == k % 4;
      }
    }
  }
}
