/** What the two mesh scripts promise of each other. */
module MeshRoundTrip {
  import opened Util
  import opened BigEndian
  import opened PyText
  import opened MeshFile
  import opened MeshText

  /** obj2binobj.py: parse, then write; None when either step raises. */
  ghost function Convert(f: FloatText, text: string): Option<seq<Byte>> {
    match Parse(f, text)
    case None => None
    case Some(m) => if Packable(m) then Some(Encode(m)) else None
  }

  method Obj2Binobj(f: FloatText, text: string) returns (r: Option<seq<Byte>>)
    ensures r == Convert(f, text)
  {
    var m := ParseObj(f, text);
    if m == None { return None; }
    r := WriteBinobj(m.value);
  }

  /** binobj2obj.py; None when it raises or reports a mismatch. */
  method Binobj2Obj(f: FloatText, data: seq<Byte>) returns (r: Option<string>)
    ensures r == if Decode(data).Ok? then Some(ObjText(f, Decode(data).mesh)) else None
  {
    var d := ReadBinobj(data);
    if !d.Ok? { return None; }
    var text := PrintObj(f, d.mesh);
    r := Some(text);
  }

  /** Whole xyz triples, uv pairs and triangles: nothing for the printer to drop. */
  ghost predicate Aligned(m: Mesh) {
    |m.positions| % 3 == 0 && |m.uvs| % 2 == 0 && |m.normals| % 3 == 0 && |m.corners| % 3 == 0
  }

  ghost predicate AllStable(f: FloatText, ws: seq<Word>) {
    forall i | 0 <= i < |ws| :: f.Stable(ws[i])
  }

  ghost predicate StableMesh(f: FloatText, m: Mesh) {
    AllStable(f, m.positions) && AllStable(f, m.uvs) && AllStable(f, m.normals)
  }

  ghost predicate AllReadable(f: FloatText, ws: seq<Word>) {
    forall i | 0 <= i < |ws| :: f.Readable(ws[i])
  }

  ghost function AgainAll(f: FloatText, ws: seq<Word>): (r: seq<Word>)
    ensures |r| == |ws|
  {
    seq(|ws|, i requires 0 <= i < |ws| => f.Again(ws[i]))
  }

  ghost function Shown(f: FloatText, ws: seq<Word>): (r: seq<string>)
    ensures |r| == |ws|
  {
    seq(|ws|, i requires 0 <= i < |ws| => f.show(ws[i]))
  }

  ghost function AddFloats(m: Mesh, tag: string, ws: seq<Word>): Mesh {
    if tag == "v" then m.(positions := m.positions + ws)
    else if tag == "vt" then m.(uvs := m.uvs + ws)
    else m.(normals := m.normals + ws)
  }

  // ---------- one printed line, parsed back ----------

  lemma FieldsOfShown(f: FloatText, tag: string, ws: seq<Word>, n: nat)
    requires n <= |ws|
    ensures var parts := [tag] + Shown(f, ws);
            FloatFields(f, parts, n) == if AllReadable(f, ws[..n]) then Some(AgainAll(f, ws[..n])) else None
  {
    var parts := [tag] + Shown(f, ws);
    if n > 0 {
      FieldsOfShown(f, tag, ws, n - 1);
      assert ws[..n] == ws[..n - 1] + [ws[n - 1]];
      assert parts[n] == f.show(ws[n - 1]);
      assert AgainAll(f, ws[..n]) == AgainAll(f, ws[..n - 1]) + [f.Again(ws[n - 1])];
      if AllReadable(f, ws[..n]) {
        assert forall i | 0 <= i < n - 1 :: ws[..n - 1][i] == ws[..n][i];
        assert f.Readable(ws[..n][n - 1]);
      } else if AllReadable(f, ws[..n - 1]) {
        assert !f.Readable(ws[n - 1]);
      }
    }
  }

  lemma SpacedFour(parts: seq<string>)
    requires |parts| == 4
    ensures Spaced(parts) == parts[0] + " " + parts[1] + " " + parts[2] + " " + parts[3]
  {
    SpacedThree(parts[1..]);
    var tail := parts[1] + " " + parts[2] + " " + parts[3];
    assert parts[0] + " " + tail == parts[0] + " " + parts[1] + " " + parts[2] + " " + parts[3];
  }

  lemma SpacedThree(parts: seq<string>)
    requires |parts| == 3
    ensures Spaced(parts) == parts[0] + " " + parts[1] + " " + parts[2]
  {
    assert Spaced(parts[1..]) == parts[1] + " " + parts[2];
    assert parts[0] + " " + (parts[1] + " " + parts[2]) == parts[0] + " " + parts[1] + " " + parts[2];
  }

  lemma TripleLineSplits(f: FloatText, tag: string, ws: seq<Word>, i: nat)
    requires f.ShowsTokens() && (tag == "v" || tag == "vn") && 3 * i + 3 <= |ws|
    ensures IsLine(TripleLine(f, tag, ws, i))
    ensures Split(TripleLine(f, tag, ws, i)) == [tag] + Shown(f, ws[3 * i..3 * i + 3])
  {
    var parts := [tag] + Shown(f, ws[3 * i..3 * i + 3]);
    SpacedFour(parts);
    SpacedIsLine(parts);
    SplitSpaced(parts);
  }

  lemma PairLineSplits(f: FloatText, ws: seq<Word>, i: nat)
    requires f.ShowsTokens() && 2 * i + 2 <= |ws|
    ensures IsLine(PairLine(f, ws, i))
    ensures Split(PairLine(f, ws, i)) == ["vt"] + Shown(f, ws[2 * i..2 * i + 2])
  {
    var parts := ["vt"] + Shown(f, ws[2 * i..2 * i + 2]);
    SpacedThree(parts);
    SpacedIsLine(parts);
    SplitSpaced(parts);
  }

  lemma FloatLineParses(f: FloatText, m: Mesh, line: string, tag: string, ws: seq<Word>)
    requires Split(line) == [tag] + Shown(f, ws)
    requires (tag == "v" && |ws| == 3) || (tag == "vt" && |ws| == 2) || (tag == "vn" && |ws| == 3)
    ensures ParseLine(f, m, line)
         == if AllReadable(f, ws) then Some(AddFloats(m, tag, AgainAll(f, ws))) else None
  {
    FieldsOfShown(f, tag, ws, |ws|);
    assert ws[..|ws|] == ws;
  }

  lemma CommentParses(f: FloatText, m: Mesh, text: string)
    ensures ParseLine(f, m, "# " + text) == Some(m)
  {
    SplitCons("#", " " + text);
    assert "# " + text == "#" + (" " + text);
  }

  lemma FieldsParse(vertex: string, a: string, b: string, d: string, c: Corner)
    requires SplitSlash(vertex) == [a, b, d] && a != "" && b != "" && d != ""
    requires ParseInt(a) == Some(c.position + 1) && ParseInt(b) == Some(c.uv + 1) && ParseInt(d) == Some(c.normal + 1)
    ensures ParseCorner(vertex) == Some(c)
  {
    assert ([a, b, d] + ["", ""])[..3] == [a, b, d];
  }

  lemma SlashedParses(a: string, b: string, d: string, c: Corner)
    requires '/' !in a && '/' !in b && '/' !in d && a != "" && b != "" && d != ""
    requires ParseInt(a) == Some(c.position + 1) && ParseInt(b) == Some(c.uv + 1) && ParseInt(d) == Some(c.normal + 1)
    ensures ParseCorner(a + "/" + b + "/" + d) == Some(c)
  {
    SplitSlashTriple(a, b, d);
    FieldsParse(a + "/" + b + "/" + d, a, b, d, c);
  }

  lemma FieldOfDecimal(n: int, field: string)
    requires field == Decimal(n)
    ensures '/' !in field && field != "" && ParseInt(field) == Some(n)
  {
    ParseDecimal(n);
    DecimalIsToken(n);
  }

  lemma CornerTextParses(c: Corner)
    ensures ParseCorner(CornerText(c)) == Some(c)
  {
    var p, u, n := Decimal(c.position + 1), Decimal(c.uv + 1), Decimal(c.normal + 1);
    FieldOfDecimal(c.position + 1, p);
    FieldOfDecimal(c.uv + 1, u);
    FieldOfDecimal(c.normal + 1, n);
    SlashedParses(p, u, n, c);
    assert CornerText(c) == p + "/" + u + "/" + n;
  }

  lemma CornerTextIsToken(c: Corner)
    ensures IsToken(CornerText(c))
  {
    DecimalIsToken(c.position + 1);
    DecimalIsToken(c.uv + 1);
    DecimalIsToken(c.normal + 1);
  }

  lemma FaceGrows(vertices: seq<string>, n: nat, cs: seq<Corner>, c: Corner)
    requires n < |vertices| && ParseFace(vertices, n) == Some(cs) && ParseCorner(vertices[n]) == Some(c)
    ensures ParseFace(vertices, n + 1) == Some(cs + [c])
  {
  }

  lemma FaceParses(vertices: seq<string>, a: Corner, b: Corner, c: Corner)
    requires |vertices| == 3
    requires ParseCorner(vertices[0]) == Some(a) && ParseCorner(vertices[1]) == Some(b)
    requires ParseCorner(vertices[2]) == Some(c)
    ensures ParseFace(vertices, 3) == Some([a, b, c])
  {
    FaceGrows(vertices, 0, [], a);
    FaceGrows(vertices, 1, [] + [a], b);
    FaceGrows(vertices, 2, [] + [a] + [b], c);
    assert [] + [a] + [b] + [c] == [a, b, c];
  }

  lemma FaceLineParses(f: FloatText, m: Mesh, line: string, vertices: seq<string>, a: Corner, b: Corner, c: Corner)
    requires Split(line) == ["f"] + vertices && |vertices| == 3
    requires ParseFace(vertices, 3) == Some([a, b, c])
    ensures ParseLine(f, m, line) == Some(m.(corners := m.corners + [a, b, c]))
  {
    assert (["f"] + vertices)[1..] == vertices;
    assert Fan([a, b, c], 1) == [a, b, c];
  }

  lemma FaceLineSplits(cs: seq<Corner>, i: nat)
    requires 3 * i + 3 <= |cs|
    ensures IsLine(FaceLine(cs, i))
    ensures Split(FaceLine(cs, i))
         == ["f"] + [CornerText(cs[3 * i]), CornerText(cs[3 * i + 1]), CornerText(cs[3 * i + 2])]
  {
    CornerTextIsToken(cs[3 * i]);
    CornerTextIsToken(cs[3 * i + 1]);
    CornerTextIsToken(cs[3 * i + 2]);
    SplitFace(CornerText(cs[3 * i]), CornerText(cs[3 * i + 1]), CornerText(cs[3 * i + 2]));
  }

  lemma SplitFace(x: string, y: string, z: string)
    requires IsToken(x) && IsToken(y) && IsToken(z)
    ensures var line := "f" + " " + x + " " + y + " " + z;
            IsLine(line) && Split(line) == ["f"] + [x, y, z]
  {
    var parts := ["f"] + [x, y, z];
    SpacedFour(parts);
    SpacedIsLine(parts);
    SplitSpaced(parts);
  }

  /** A line of one triangle with these corners. */
  ghost predicate IsFaceLine(line: string, ts: seq<Corner>) {
    && |ts| == 3 && |Split(line)| == 4 && Split(line)[0] == "f"
    && ParseFace(Split(line)[1..], 3) == Some(ts)
  }

  lemma FaceLineAdds(f: FloatText, m: Mesh, line: string, ts: seq<Corner>)
    requires IsFaceLine(line, ts)
    ensures ParseLine(f, m, line) == Some(m.(corners := m.corners + ts))
  {
    assert Split(line) == ["f"] + Split(line)[1..];
    assert ts == [ts[0], ts[1], ts[2]];
    FaceLineParses(f, m, line, Split(line)[1..], ts[0], ts[1], ts[2]);
  }

  lemma TriangleLine(line: string, x: string, y: string, z: string, a: Corner, b: Corner, c: Corner)
    requires Split(line) == ["f"] + [x, y, z]
    requires ParseCorner(x) == Some(a) && ParseCorner(y) == Some(b) && ParseCorner(z) == Some(c)
    ensures IsFaceLine(line, [a, b, c])
  {
    assert Split(line)[1..] == [x, y, z];
    FaceParses([x, y, z], a, b, c);
  }

  lemma PrintedFaceLine(cs: seq<Corner>, i: nat)
    requires 3 * i + 3 <= |cs|
    ensures IsLine(FaceLine(cs, i)) && IsFaceLine(FaceLine(cs, i), cs[3 * i..3 * i + 3])
  {
    var a, b, c := cs[3 * i], cs[3 * i + 1], cs[3 * i + 2];
    assert cs[3 * i..3 * i + 3] == [a, b, c];
    FaceLineSplits(cs, i);
    CornerTextParses(a);
    CornerTextParses(b);
    CornerTextParses(c);
    TriangleLine(FaceLine(cs, i), CornerText(a), CornerText(b), CornerText(c), a, b, c);
  }

  // ---------- the printed blocks, parsed back ----------

  lemma {:induction false} ParseAppend(f: FloatText, m: Mesh, a: seq<string>, b: seq<string>)
    ensures ParseLines(f, m, a + b)
         == match ParseLines(f, m, a) case None => None case Some(m') => ParseLines(f, m', b)
    decreases |a|
  {
    if |a| == 0 {
      assert a + b == b;
    } else {
      assert (a + b)[1..] == a[1..] + b;
      if ParseLine(f, m, a[0]).Some? {
        ParseAppend(f, ParseLine(f, m, a[0]).value, a[1..], b);
      }
    }
  }

  lemma ParseSnoc(f: FloatText, m: Mesh, lines: seq<string>, line: string)
    ensures ParseLines(f, m, lines + [line])
         == match ParseLines(f, m, lines) case None => None case Some(m') => ParseLine(f, m', line)
  {
    ParseAppend(f, m, lines, [line]);
    if ParseLines(f, m, lines).Some? {
      var m' := ParseLines(f, m, lines).value;
      assert [line][1..] == [];
      match ParseLine(f, m', line)
      case None =>
      case Some(m'') => assert ParseLines(f, m'', []) == Some(m'');
    }
  }

  /** A block of printed floats adds them all, unless one of them cannot be read. */
  ghost function Added(f: FloatText, m: Mesh, tag: string, block: seq<Word>): Option<Mesh> {
    if AllReadable(f, block) then Some(AddFloats(m, tag, AgainAll(f, block))) else None
  }

  lemma AddedJoin(f: FloatText, m: Mesh, tag: string, a: seq<Word>, b: seq<Word>)
    ensures Added(f, m, tag, a + b)
         == match Added(f, m, tag, a) case None => None case Some(m') => Added(f, m', tag, b)
  {
    JoinReadable(f, a, b);
    assert AgainAll(f, a + b) == AgainAll(f, a) + AgainAll(f, b);
    JoinFloats(m, tag, AgainAll(f, a), AgainAll(f, b));
  }

  lemma AddedNothing(f: FloatText, m: Mesh, tag: string)
    ensures Added(f, m, tag, []) == Some(m)
  {
    assert AgainAll(f, []) == [];
    assert AddFloats(m, tag, []) == m;
  }

  lemma JoinReadable(f: FloatText, a: seq<Word>, b: seq<Word>)
    ensures AllReadable(f, a + b) <==> AllReadable(f, a) && AllReadable(f, b)
  {
    if AllReadable(f, a + b) {
      assert forall i | 0 <= i < |a| :: a[i] == (a + b)[i];
      assert forall i | 0 <= i < |b| :: b[i] == (a + b)[|a| + i];
    }
  }

  lemma JoinFloats(m: Mesh, tag: string, x: seq<Word>, y: seq<Word>)
    ensures AddFloats(AddFloats(m, tag, x), tag, y) == AddFloats(m, tag, x + y)
  {
    Assoc(m.positions, x, y);
    Assoc(m.uvs, x, y);
    Assoc(m.normals, x, y);
  }

  /** A line that shows these floats behind the tag. */
  ghost predicate IsFloatLine(f: FloatText, line: string, tag: string, ts: seq<Word>) {
    Split(line) == [tag] + Shown(f, ts)
  }

  lemma FloatLineAdds(f: FloatText, m: Mesh, tag: string, lines: seq<string>, n: nat, before: seq<Word>, ts: seq<Word>)
    requires n < |lines| && IsFloatLine(f, lines[n], tag, ts)
    requires (tag == "v" && |ts| == 3) || (tag == "vt" && |ts| == 2) || (tag == "vn" && |ts| == 3)
    requires ParseLines(f, m, lines[..n]) == Added(f, m, tag, before)
    ensures ParseLines(f, m, lines[..n + 1]) == Added(f, m, tag, before + ts)
  {
    assert lines[..n + 1] == lines[..n] + [lines[n]];
    ParseSnoc(f, m, lines[..n], lines[n]);
    AddedJoin(f, m, tag, before, ts);
    if Added(f, m, tag, before).Some? {
      FloatLineParses(f, Added(f, m, tag, before).value, lines[n], tag, ts);
    }
  }

  lemma Cut<T>(s: seq<T>, a: nat, b: nat)
    requires a <= b <= |s|
    ensures s[..b] == s[..a] + s[a..b]
  {
  }

  lemma {:induction false} TriplesParse(f: FloatText, m: Mesh, tag: string, lines: seq<string>, ws: seq<Word>, n: nat)
    requires (tag == "v" || tag == "vn") && n <= |lines| && |lines| == |ws| / 3
    requires forall i | 0 <= i < |lines| :: IsFloatLine(f, lines[i], tag, ws[3 * i..3 * i + 3])
    ensures ParseLines(f, m, lines[..n]) == Added(f, m, tag, ws[..3 * n])
  {
    if n == 0 {
      AddedNothing(f, m, tag);
    } else {
      TriplesParse(f, m, tag, lines, ws, n - 1);
      var ts := ws[3 * (n - 1)..3 * (n - 1) + 3];
      Cut(ws, 3 * (n - 1), 3 * n);
      FloatLineAdds(f, m, tag, lines, n - 1, ws[..3 * (n - 1)], ts);
    }
  }

  lemma {:induction false} PairsParse(f: FloatText, m: Mesh, lines: seq<string>, ws: seq<Word>, n: nat)
    requires n <= |lines| && |lines| == |ws| / 2
    requires forall i | 0 <= i < |lines| :: IsFloatLine(f, lines[i], "vt", ws[2 * i..2 * i + 2])
    ensures ParseLines(f, m, lines[..n]) == Added(f, m, "vt", ws[..2 * n])
  {
    if n == 0 {
      AddedNothing(f, m, "vt");
    } else {
      PairsParse(f, m, lines, ws, n - 1);
      var ts := ws[2 * (n - 1)..2 * (n - 1) + 2];
      Cut(ws, 2 * (n - 1), 2 * n);
      FloatLineAdds(f, m, "vt", lines, n - 1, ws[..2 * (n - 1)], ts);
    }
  }

  lemma FaceLineAddsTo(f: FloatText, m: Mesh, lines: seq<string>, n: nat, before: seq<Corner>, ts: seq<Corner>)
    requires n < |lines| && IsFaceLine(lines[n], ts)
    requires ParseLines(f, m, lines[..n]) == Some(m.(corners := m.corners + before))
    ensures ParseLines(f, m, lines[..n + 1]) == Some(m.(corners := m.corners + (before + ts)))
  {
    assert lines[..n + 1] == lines[..n] + [lines[n]];
    ParseSnoc(f, m, lines[..n], lines[n]);
    FaceLineAdds(f, m.(corners := m.corners + before), lines[n], ts);
    Assoc(m.corners, before, ts);
  }

  lemma {:induction false} FacesParse(f: FloatText, m: Mesh, lines: seq<string>, cs: seq<Corner>, n: nat)
    requires n <= |lines| && |lines| == |cs| / 3
    requires forall i | 0 <= i < |lines| :: IsFaceLine(lines[i], cs[3 * i..3 * i + 3])
    ensures ParseLines(f, m, lines[..n]) == Some(m.(corners := m.corners + cs[..3 * n]))
  {
    if n == 0 {
      assert m.corners + cs[..3 * n] == m.corners;
    } else {
      FacesParse(f, m, lines, cs, n - 1);
      var i := n - 1;
      Cut(cs, 3 * i, 3 * n);
      FaceLineAddsTo(f, m, lines, i, cs[..3 * i], cs[3 * i..3 * i + 3]);
    }
  }

  // ---------- the printed file, parsed back ----------

  ghost function Whole<T>(s: seq<T>, n: nat): seq<T>
    requires n == 2 || n == 3
  {
    s[..n * (|s| / n)]
  }

  /** What the scripts make of a mesh printed and parsed: floats read back, incomplete tails dropped. */
  ghost function Reread(f: FloatText, m: Mesh): Option<Mesh> {
    var p, u, n := Whole(m.positions, 3), Whole(m.uvs, 2), Whole(m.normals, 3);
    if AllReadable(f, p) && AllReadable(f, u) && AllReadable(f, n)
    then Some(Mesh(AgainAll(f, p), AgainAll(f, u), AgainAll(f, n), Whole(m.corners, 3)))
    else None
  }

  lemma SourceNoteIsLine()
    ensures IsLine(SOURCE_NOTE[0]) && IsLine(SOURCE_NOTE[1]) && IsLine(SOURCE_NOTE[2])
  {
  }

  lemma UvNoteIsLine()
    ensures IsLine(UV_NOTE[0]) && IsLine(UV_NOTE[1]) && IsLine(UV_NOTE[2])
  {
  }

  lemma CommentIsLine(notes: seq<string>)
    requires |notes| == 3 && IsLine(notes[0]) && IsLine(notes[1]) && IsLine(notes[2])
    ensures IsLine("# " + (notes[0] + notes[1] + notes[2]))
  {
  }

  lemma ObjLinesAreLines(f: FloatText, m: Mesh)
    requires f.ShowsTokens()
    ensures forall i | 0 <= i < |ObjLines(f, m)| :: IsLine(ObjLines(f, m)[i])
  {
    SourceNoteIsLine();
    UvNoteIsLine();
    CommentIsLine(SOURCE_NOTE);
    CommentIsLine(UV_NOTE);
    forall i | 0 <= i < |m.positions| / 3
      ensures IsLine(TripleLines(f, "v", m.positions)[i])
    {
      TripleLineSplits(f, "v", m.positions, i);
    }
    forall i | 0 <= i < |m.uvs| / 2
      ensures IsLine(PairLines(f, m.uvs)[i])
    {
      PairLineSplits(f, m.uvs, i);
    }
    forall i | 0 <= i < |m.normals| / 3
      ensures IsLine(TripleLines(f, "vn", m.normals)[i])
    {
      TripleLineSplits(f, "vn", m.normals, i);
    }
    forall i | 0 <= i < |m.corners| / 3
      ensures IsLine(FaceLines(m.corners)[i])
    {
      FaceLineSplits(m.corners, i);
    }
  }

  lemma HeaderParses(f: FloatText, m: Mesh)
    ensures ParseLines(f, m, ["# " + HEADER_1, "# " + HEADER_2]) == Some(m)
  {
    CommentParses(f, m, HEADER_1);
    CommentParses(f, m, HEADER_2);
    ParseSnoc(f, m, [], "# " + HEADER_1);
    ParseSnoc(f, m, ["# " + HEADER_1], "# " + HEADER_2);
    assert [] + ["# " + HEADER_1] == ["# " + HEADER_1];
    assert ["# " + HEADER_1] + ["# " + HEADER_2] == ["# " + HEADER_1, "# " + HEADER_2];
  }

  lemma TripleBlockParses(f: FloatText, m: Mesh, tag: string, ws: seq<Word>)
    requires f.ShowsTokens() && (tag == "v" || tag == "vn")
    ensures ParseLines(f, m, TripleLines(f, tag, ws)) == Added(f, m, tag, Whole(ws, 3))
  {
    var lines := TripleLines(f, tag, ws);
    forall i | 0 <= i < |lines|
      ensures IsFloatLine(f, lines[i], tag, ws[3 * i..3 * i + 3])
    {
      TripleLineSplits(f, tag, ws, i);
    }
    TriplesParse(f, m, tag, lines, ws, |ws| / 3);
    assert lines[..|ws| / 3] == lines;
  }

  lemma PairBlockParses(f: FloatText, m: Mesh, ws: seq<Word>)
    requires f.ShowsTokens()
    ensures ParseLines(f, m, PairLines(f, ws)) == Added(f, m, "vt", Whole(ws, 2))
  {
    var lines := PairLines(f, ws);
    forall i | 0 <= i < |lines|
      ensures IsFloatLine(f, lines[i], "vt", ws[2 * i..2 * i + 2])
    {
      PairLineSplits(f, ws, i);
    }
    PairsParse(f, m, lines, ws, |ws| / 2);
    assert lines[..|ws| / 2] == lines;
  }

  lemma FaceBlockParses(f: FloatText, m: Mesh, cs: seq<Corner>)
    ensures ParseLines(f, m, FaceLines(cs)) == Some(m.(corners := m.corners + Whole(cs, 3)))
  {
    var lines := FaceLines(cs);
    forall i | 0 <= i < |lines|
      ensures IsFaceLine(lines[i], cs[3 * i..3 * i + 3])
    {
      PrintedFaceLine(cs, i);
    }
    FacesParse(f, m, lines, cs, |cs| / 3);
    assert lines[..|cs| / 3] == lines;
  }

  /** Five blocks one after another. */
  lemma ParseBlocks(f: FloatText, m: Mesh,
                    a: seq<string>, b: seq<string>, c: seq<string>, d: seq<string>, e: seq<string>)
    ensures ParseLines(f, m, a + b + c + d + e)
         == match ParseLines(f, m, a) case None => None case Some(m1) =>
            match ParseLines(f, m1, b) case None => None case Some(m2) =>
            match ParseLines(f, m2, c) case None => None case Some(m3) =>
            match ParseLines(f, m3, d) case None => None case Some(m4) => ParseLines(f, m4, e)
  {
    ParseAppend(f, m, a, b);
    ParseAppend(f, m, a + b, c);
    ParseAppend(f, m, a + b + c, d);
    ParseAppend(f, m, a + b + c + d, e);
  }

  lemma ReparseIs(f: FloatText, m: Mesh)
    requires f.ShowsTokens()
    ensures Parse(f, ObjText(f, m)) == Reread(f, m)
  {
    ObjLinesAreLines(f, m);
    LinesOfJoin(ObjLines(f, m));
    var p, u, n := Whole(m.positions, 3), Whole(m.uvs, 2), Whole(m.normals, 3);
    ParseBlocks(f, EMPTY_MESH, ["# " + HEADER_1, "# " + HEADER_2], TripleLines(f, "v", m.positions),
                PairLines(f, m.uvs), TripleLines(f, "vn", m.normals), FaceLines(m.corners));
    HeaderParses(f, EMPTY_MESH);
    TripleBlockParses(f, EMPTY_MESH, "v", m.positions);
    var m1 := AddFloats(EMPTY_MESH, "v", AgainAll(f, p));
    PairBlockParses(f, m1, m.uvs);
    var m2 := AddFloats(m1, "vt", AgainAll(f, u));
    TripleBlockParses(f, m2, "vn", m.normals);
    var m3 := AddFloats(m2, "vn", AgainAll(f, n));
    FaceBlockParses(f, m3, m.corners);
    CollectBlocks(AgainAll(f, p), AgainAll(f, u), AgainAll(f, n), Whole(m.corners, 3));
  }

  lemma CollectBlocks(p: seq<Word>, u: seq<Word>, n: seq<Word>, c: seq<Corner>)
    ensures var m := AddFloats(AddFloats(AddFloats(EMPTY_MESH, "v", p), "vt", u), "vn", n);
            m.(corners := m.corners + c) == Mesh(p, u, n, c)
  {
  }

  /**
   * Byte identity, with its exact condition: the printed text of an accepted file converts back to the same
   * bytes if and only if the file is made of whole triples, pairs and triangles and each float survives.
   */
  lemma RoundTripExactly(f: FloatText, data: seq<Byte>)
    requires f.ShowsTokens() && Decode(data).Ok?
    ensures var m := Decode(data).mesh;
            Convert(f, ObjText(f, m)) == Some(data) <==> Aligned(m) && StableMesh(f, m)
  {
    var m := Decode(data).mesh;
    EncodeDecode(data);
    ReparseIs(f, m);
    if Aligned(m) && StableMesh(f, m) {
      RereadSame(f, m);
    }
    if Convert(f, ObjText(f, m)) == Some(data) {
      DecodeEncode(Reread(f, m).value);
      SameReread(f, m);
    }
  }

  /** A file with a single position float is accepted, and does not come back. */
  lemma LooseFloatIsLost(f: FloatText, w: Word)
    requires f.ShowsTokens()
    ensures Packable(Mesh([w], [], [], []))
    ensures var m := Mesh([w], [], [], []);
            Decode(Encode(m)) == Ok(m) && Convert(f, ObjText(f, m)) != Some(Encode(m))
  {
    var m := Mesh([w], [], [], []);
    DecodeEncode(m);
    RoundTripExactly(f, Encode(m));
  }

  lemma RereadSame(f: FloatText, m: Mesh)
    requires Aligned(m) && StableMesh(f, m)
    ensures Reread(f, m) == Some(m)
  {
    WholeIsAll(m.positions, 3);
    WholeIsAll(m.uvs, 2);
    WholeIsAll(m.normals, 3);
    WholeIsAll(m.corners, 3);
    StableAgain(f, m.positions);
    StableAgain(f, m.uvs);
    StableAgain(f, m.normals);
  }

  lemma SameReread(f: FloatText, m: Mesh)
    requires Reread(f, m) == Some(m)
    ensures Aligned(m) && StableMesh(f, m)
  {
    AgainStable(f, m.positions, 3);
    AgainStable(f, m.uvs, 2);
    AgainStable(f, m.normals, 3);
    WholeIsAll(m.corners, 3);
  }

  lemma WholeIsAll<T>(s: seq<T>, n: nat)
    requires n == 2 || n == 3
    ensures Whole(s, n) == s <==> |s| % n == 0
  {
    assert |Whole(s, n)| == n * (|s| / n);
  }

  lemma StableAgain(f: FloatText, ws: seq<Word>)
    requires AllStable(f, ws)
    ensures AllReadable(f, ws) && AgainAll(f, ws) == ws
  {
    forall i | 0 <= i < |ws|
      ensures f.Readable(ws[i]) && f.Again(ws[i]) == ws[i]
    {
      assert f.Stable(ws[i]);
    }
  }

  lemma AgainStable(f: FloatText, ws: seq<Word>, n: nat)
    requires (n == 2 || n == 3) && AllReadable(f, Whole(ws, n)) && AgainAll(f, Whole(ws, n)) == ws
    ensures |ws| % n == 0 && AllStable(f, ws)
  {
    assert |Whole(ws, n)| == |ws|;
    WholeIsAll(ws, n);
    assert Whole(ws, n) == ws;
    forall i | 0 <= i < |ws|
      ensures f.Stable(ws[i])
    {
      assert f.Readable(ws[i]) && f.Again(ws[i]) == ws[i];
    }
  }

  // ---------- the float assumption ----------

  /** A binary32 NaN: all exponent bits set, some fraction bit set. */
  predicate IsNaN(w: Word) {
    w / 0x80_0000 % 256 == 255 && w % 0x80_0000 != 0
  }

  /** Those are the words above the two infinities. */
  lemma NaNsAre(w: Word)
    ensures IsNaN(w) <==> 0x7f80_0000 < w < 0x8000_0000 || 0xff80_0000 < w
  {
    var high := w / 0x80_0000;
    assert 0 <= high < 512;
    assert high % 256 == 255 <==> high == 255 || high == 511;
  }

  /** Nine significant digits recover every binary32 number and infinity (IEEE 754-2008, section 5.12.2). */
  ghost predicate NineDigits(f: FloatText) {
    f.ShowsTokens() && forall w: Word :: !IsNaN(w) ==> f.Stable(w)
  }

  ghost predicate NoNaN(m: Mesh) {
    && (forall i | 0 <= i < |m.positions| :: !IsNaN(m.positions[i]))
    && (forall i | 0 <= i < |m.uvs| :: !IsNaN(m.uvs[i]))
    && (forall i | 0 <= i < |m.normals| :: !IsNaN(m.normals[i]))
  }

  /** The promise of the scripts: a well-formed mesh without NaN comes back byte-identical. */
  lemma ByteIdentical(f: FloatText, data: seq<Byte>)
    requires NineDigits(f) && Decode(data).Ok?
    requires Aligned(Decode(data).mesh) && NoNaN(Decode(data).mesh)
    ensures Convert(f, ObjText(f, Decode(data).mesh)) == Some(data)
  {
    RoundTripExactly(f, data);
  }

  // ---------- whatever the parser accepts ----------

  /** Corners one line contributes: three per triangle of a fan, none for any other line. */
  ghost function CornersOfLine(line: string): nat {
    var parts := Split(line);
    if |parts| > 0 && parts[0] == "f" then 3 * Triangles(|parts| - 1) else 0
  }

  ghost function CornersOfLines(lines: seq<string>): nat {
    if |lines| == 0 then 0 else CornersOfLine(lines[0]) + CornersOfLines(lines[1..])
  }

  lemma {:induction false} ParseKeepsAligned(f: FloatText, m: Mesh, lines: seq<string>)
    requires Aligned(m) && ParseLines(f, m, lines).Some?
    ensures Aligned(ParseLines(f, m, lines).value)
    ensures |ParseLines(f, m, lines).value.corners| == |m.corners| + CornersOfLines(lines)
    decreases |lines|
  {
    if |lines| > 0 {
      var m' := ParseLine(f, m, lines[0]).value;
      assert Aligned(m') && |m'.corners| == |m.corners| + CornersOfLine(lines[0]);
      ParseKeepsAligned(f, m', lines[1..]);
    }
  }

  lemma ConvertedMesh(f: FloatText, text: string)
    requires Convert(f, text).Some?
    ensures Parse(f, text).Some? && Decode(Convert(f, text).value) == Ok(Parse(f, text).value)
  {
    DecodeEncode(Parse(f, text).value);
  }

  /** Any accepted .obj yields a well-formed file with one corner triple per fan triangle. */
  lemma AcceptedIsAligned(f: FloatText, text: string)
    requires Convert(f, text).Some?
    ensures var d := Decode(Convert(f, text).value);
            d.Ok? && Aligned(d.mesh) && |d.mesh.corners| == CornersOfLines(Lines(text))
  {
    ConvertedMesh(f, text);
    ParseKeepsAligned(f, EMPTY_MESH, Lines(text));
  }

  /**
   * Printing a converted file and converting it again changes nothing, if and only if each of its floats
   * survives; no NaN is enough.
   */
  lemma ConversionSettles(f: FloatText, text: string)
    requires f.ShowsTokens() && Convert(f, text).Some?
    ensures Decode(Convert(f, text).value).Ok?
    ensures var data := Convert(f, text).value;
            var m := Decode(data).mesh;
            && (Convert(f, ObjText(f, m)) == Some(data) <==> StableMesh(f, m))
            && (NineDigits(f) && NoNaN(m) ==> StableMesh(f, m))
  {
    AcceptedIsAligned(f, text);
    RoundTripExactly(f, Convert(f, text).value);
  }
}
