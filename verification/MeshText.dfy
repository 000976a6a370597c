/** The Wavefront .obj side of the mesh scripts: the parser of obj2binobj.py and the printer of binobj2obj.py. */
module MeshText {
  import opened Util
  import opened BigEndian
  import opened PyText
  import opened MeshFile

  /**
   * Python's float formatting and parsing, kept abstract: show is '%.9g' of the stored 32 bits, parse is
   * float() followed by the rounding and range check of struct.pack, and None is an exception of either.
   */
  datatype FloatText = FloatText(show: Word -> string, parse: string -> Option<Word>) {
    ghost predicate ShowsTokens() {
      forall w: Word :: IsToken(show(w))
    }

    /** The float survives printing and parsing. */
    predicate Stable(w: Word) {
      parse(show(w)) == Some(w)
    }

    predicate Readable(w: Word) {
      parse(show(w)).Some?
    }

    function Again(w: Word): Word {
      match parse(show(w))
      case Some(v) => v
      case None => w
    }
  }

  const EMPTY_MESH := Mesh([], [], [], [])

  // ---------- parsing ----------

  /** The floats of the first n fields after the tag. */
  function FloatFields(f: FloatText, parts: seq<string>, n: nat): (r: Option<seq<Word>>)
    ensures r.Some? ==> |r.value| == n
  {
    if n == 0 then Some([])
    else
      match FloatFields(f, parts, n - 1)
      case None => None
      case Some(ws) =>
        if |parts| <= n then None
        else
          match f.parse(parts[n])
          case None => None
          case Some(w) => Some(ws + [w])
  }

  function ParseIndex(field: string): Option<int> {
    if field == "" then Some(-1)
    else
      match ParseInt(field)
      case None => None
      case Some(n) => Some(n - 1)
  }

  function ParseCorner(vertex: string): Option<Corner> {
    var fields := (SplitSlash(vertex) + ["", ""])[..3];
    match ParseIndex(fields[0])
    case None => None
    case Some(p) =>
      match ParseIndex(fields[1])
      case None => None
      case Some(u) =>
        match ParseIndex(fields[2])
        case None => None
        case Some(n) => Some(Corner(p, u, n))
  }

  function FieldOf(fields: seq<string>, i: nat): string {
    if i < |fields| then fields[i] else ""
  }

  /** An index is one less than in the text, and -1 where the field is empty. */
  predicate IsIndex(field: string, n: int) {
    if field == "" then n == -1 else ParseInt(field) == Some(n + 1)
  }

  predicate NoIndex(field: string) {
    field != "" && ParseInt(field) == None
  }

  lemma IndexIs(field: string)
    ensures match ParseIndex(field)
            case None => NoIndex(field)
            case Some(n) => IsIndex(field, n)
  {
  }

  /** A corner has the indices of its first three fields, as if those left out were empty. */
  lemma CornerIs(vertex: string)
    ensures var fields := SplitSlash(vertex);
            match ParseCorner(vertex)
            case None => NoIndex(FieldOf(fields, 0)) || NoIndex(FieldOf(fields, 1)) || NoIndex(FieldOf(fields, 2))
            case Some(c) =>
              && IsIndex(FieldOf(fields, 0), c.position)
              && IsIndex(FieldOf(fields, 1), c.uv)
              && IsIndex(FieldOf(fields, 2), c.normal)
  {
    var fields := SplitSlash(vertex);
    var three := (fields + ["", ""])[..3];
    assert three[0] == FieldOf(fields, 0) && three[1] == FieldOf(fields, 1) && three[2] == FieldOf(fields, 2);
    IndexIs(three[0]);
    IndexIs(three[1]);
    IndexIs(three[2]);
  }

  /** The corners of the first n vertices of a face. */
  function ParseFace(vertices: seq<string>, n: nat): (r: Option<seq<Corner>>)
    requires n <= |vertices|
    ensures r.Some? ==> |r.value| == n
  {
    if n == 0 then Some([])
    else
      match ParseFace(vertices, n - 1)
      case None => None
      case Some(cs) =>
        match ParseCorner(vertices[n - 1])
        case None => None
        case Some(c) => Some(cs + [c])
  }

  /** The first n triangles of the fan around the first corner. */
  function Fan(face: seq<Corner>, n: nat): (cs: seq<Corner>)
    requires n == 0 || n + 2 <= |face|
    ensures |cs| == 3 * n
  {
    if n == 0 then [] else Fan(face, n - 1) + [face[0], face[n], face[n + 1]]
  }

  lemma {:induction false} FanAt(face: seq<Corner>, n: nat, t: nat)
    requires t < n && n + 2 <= |face|
    ensures Fan(face, n)[3 * t..3 * t + 3] == [face[0], face[t + 1], face[t + 2]]
  {
    if t < n - 1 {
      FanAt(face, n - 1, t);
      assert Fan(face, n)[3 * t..3 * t + 3] == Fan(face, n - 1)[3 * t..3 * t + 3];
    }
  }

  /** The corners are those of the triangles between the first vertex and each two neighbours after it. */
  ghost predicate IsFan(face: seq<Corner>, corners: seq<Corner>) {
    && |corners| == (if |face| < 3 then 0 else 3 * (|face| - 2))
    && forall t | 0 <= t < |face| - 2 :: corners[3 * t..3 * t + 3] == [face[0], face[t + 1], face[t + 2]]
  }

  lemma FanIs(face: seq<Corner>)
    ensures IsFan(face, Fan(face, Triangles(|face|)))
  {
    forall t | 0 <= t < |face| - 2
      ensures Fan(face, Triangles(|face|))[3 * t..3 * t + 3] == [face[0], face[t + 1], face[t + 2]]
    {
      FanAt(face, Triangles(|face|), t);
    }
  }

  /** The corners of a face are those of its vertices, in order, and there are none if one of them does not parse. */
  ghost predicate IsFace(vertices: seq<string>, face: Option<seq<Corner>>) {
    match face
    case None => exists i :: 0 <= i < |vertices| && ParseCorner(vertices[i]) == None
    case Some(cs) => |cs| == |vertices| && forall i | 0 <= i < |cs| :: ParseCorner(vertices[i]) == Some(cs[i])
  }

  lemma {:induction false} ParseFaceIs(vertices: seq<string>, n: nat)
    requires n <= |vertices|
    ensures IsFace(vertices[..n], ParseFace(vertices, n))
  {
    if n > 0 {
      ParseFaceIs(vertices, n - 1);
      assert vertices[..n] == vertices[..n - 1] + [vertices[n - 1]];
      if ParseFace(vertices, n - 1) == None {
        var i :| 0 <= i < n - 1 && ParseCorner(vertices[..n - 1][i]) == None;
        assert vertices[..n][i] == vertices[i];
      } else if ParseFace(vertices, n) == None {
        assert ParseCorner(vertices[..n][n - 1]) == None;
      }
    }
  }

  function Triangles(vertices: nat): nat {
    if vertices < 3 then 0 else vertices - 2
  }

  function ParseLine(f: FloatText, m: Mesh, line: string): Option<Mesh> {
    var parts := Split(line);
    if |parts| == 0 || (parts[0] != "" && parts[0][0] == '#') then Some(m)
    else if parts[0] == "v" then
      match FloatFields(f, parts, 3)
      case None => None
      case Some(ws) => Some(m.(positions := m.positions + ws))
    else if parts[0] == "vt" then
      match FloatFields(f, parts, 2)
      case None => None
      case Some(ws) => Some(m.(uvs := m.uvs + ws))
    else if parts[0] == "vn" then
      match FloatFields(f, parts, 3)
      case None => None
      case Some(ws) => Some(m.(normals := m.normals + ws))
    else if parts[0] == "f" then
      match ParseFace(parts[1..], |parts| - 1)
      case None => None
      case Some(face) => Some(m.(corners := m.corners + Fan(face, Triangles(|face|))))
    else Some(m)
  }

  /** Only lines of the four kinds are read: empty lines, comments and any other kind are passed over. */
  lemma OtherLines(f: FloatText, m: Mesh, line: string)
    requires var parts := Split(line);
             |parts| == 0 || (parts[0] != "" && parts[0][0] == '#') || parts[0] !in ["v", "vt", "vn", "f"]
    ensures ParseLine(f, m, line) == Some(m)
  {
  }

  function ParseLines(f: FloatText, m: Mesh, lines: seq<string>): Option<Mesh>
    decreases |lines|
  {
    if |lines| == 0 then Some(m)
    else
      match ParseLine(f, m, lines[0])
      case None => None
      case Some(m') => ParseLines(f, m', lines[1..])
  }

  function Parse(f: FloatText, text: string): Option<Mesh> {
    ParseLines(f, EMPTY_MESH, Lines(text))
  }

  method ParseObj(f: FloatText, text: string) returns (r: Option<Mesh>)
    ensures r == Parse(f, text)
  {
    var lines := Lines(text);
    var m := EMPTY_MESH;
    for i := 0 to |lines|
      invariant ParseLines(f, m, lines[i..]) == Parse(f, text)
    {
      assert lines[i..][1..] == lines[i + 1..];
      var parts := Split(lines[i]);
      if |parts| == 0 || (parts[0] != "" && parts[0][0] == '#') {
        continue;
      }
      var tag := parts[0];
      if tag == "v" {
        var ws := FloatFields(f, parts, 3);
        if ws == None { return None; }
        m := m.(positions := m.positions + ws.value);
      } else if tag == "vt" {
        var ws := FloatFields(f, parts, 2);
        if ws == None { return None; }
        m := m.(uvs := m.uvs + ws.value);
      } else if tag == "vn" {
        var ws := FloatFields(f, parts, 3);
        if ws == None { return None; }
        m := m.(normals := m.normals + ws.value);
      } else if tag == "f" {
        var cs := Triangulate(parts[1..]);
        if cs == None { return None; }
        m := m.(corners := m.corners + cs.value);
      }
    }
    r := Some(m);
  }

  method ParseVertices(vertices: seq<string>) returns (r: Option<seq<Corner>>)
    ensures r == ParseFace(vertices, |vertices|)
  {
    var face: seq<Corner> := [];
    for i := 0 to |vertices|
      invariant ParseFace(vertices, i) == Some(face)
    {
      var c := ParseCorner(vertices[i]);
      if c == None {
        FaceFails(vertices, i + 1);
        return None;
      }
      face := face + [c.value];
    }
    return Some(face);
  }

  /** The fan loop over the corners of a face. */
  method TriangulateFace(face: seq<Corner>) returns (corners: seq<Corner>)
    ensures corners == Fan(face, Triangles(|face|)) && IsFan(face, corners)
  {
    corners := [];
    var i := 1;
    while i < |face| - 1
      invariant 1 <= i && i - 1 <= Triangles(|face|)
      invariant corners == Fan(face, i - 1)
    {
      corners := corners + [face[0], face[i], face[i + 1]];
      i := i + 1;
    }
    FanIs(face);
  }

  method Triangulate(vertices: seq<string>) returns (r: Option<seq<Corner>>)
    ensures match ParseFace(vertices, |vertices|)
            case None => r == None
            case Some(face) => r == Some(Fan(face, Triangles(|vertices|)))
    ensures match r
            case None => IsFace(vertices, None)
            case Some(corners) => exists face :: IsFace(vertices, Some(face)) && IsFan(face, corners)
  {
    ParseFaceIs(vertices, |vertices|);
    assert vertices[..|vertices|] == vertices;
    var face := ParseVertices(vertices);
    if face == None {
      return None;
    }
    var corners := TriangulateFace(face.value);
    return Some(corners);
  }

  lemma {:induction false} FaceFails(vertices: seq<string>, n: nat)
    requires n <= |vertices| && ParseFace(vertices, n) == None
    ensures ParseFace(vertices, |vertices|) == None
    decreases |vertices| - n
  {
    if n < |vertices| {
      FaceFails(vertices, n + 1);
    }
  }

  // ---------- printing ----------

  const SOURCE_NOTE := ["3D mesh decoded from .binobj ", "(source of truth; baked back ", "to .binobj at build time)."]
  const UV_NOTE := ["UVs are stored raw here; ", "the V coordinate is flipped ", "(1-v) at load time."]
  const HEADER_1 := SOURCE_NOTE[0] + SOURCE_NOTE[1] + SOURCE_NOTE[2]
  const HEADER_2 := UV_NOTE[0] + UV_NOTE[1] + UV_NOTE[2]

  function TripleLine(f: FloatText, tag: string, ws: seq<Word>, i: nat): string
    requires 3 * i + 3 <= |ws|
  {
    tag + " " + f.show(ws[3 * i]) + " " + f.show(ws[3 * i + 1]) + " " + f.show(ws[3 * i + 2])
  }

  function PairLine(f: FloatText, ws: seq<Word>, i: nat): string
    requires 2 * i + 2 <= |ws|
  {
    "vt" + " " + f.show(ws[2 * i]) + " " + f.show(ws[2 * i + 1])
  }

  function CornerText(c: Corner): string {
    Decimal(c.position + 1) + "/" + Decimal(c.uv + 1) + "/" + Decimal(c.normal + 1)
  }

  function FaceLine(cs: seq<Corner>, i: nat): string
    requires 3 * i + 3 <= |cs|
  {
    "f" + " " + CornerText(cs[3 * i]) + " " + CornerText(cs[3 * i + 1]) + " " + CornerText(cs[3 * i + 2])
  }

  /** One line per whole triple; what does not fill a triple is not printed. */
  function TripleLines(f: FloatText, tag: string, ws: seq<Word>): (lines: seq<string>)
    ensures |lines| == |ws| / 3
  {
    seq(|ws| / 3, i requires 0 <= i < |ws| / 3 => TripleLine(f, tag, ws, i))
  }

  function PairLines(f: FloatText, ws: seq<Word>): (lines: seq<string>)
    ensures |lines| == |ws| / 2
  {
    seq(|ws| / 2, i requires 0 <= i < |ws| / 2 => PairLine(f, ws, i))
  }

  function FaceLines(cs: seq<Corner>): (lines: seq<string>)
    ensures |lines| == |cs| / 3
  {
    seq(|cs| / 3, i requires 0 <= i < |cs| / 3 => FaceLine(cs, i))
  }

  function ObjLines(f: FloatText, m: Mesh): seq<string> {
    ["# " + HEADER_1, "# " + HEADER_2] + TripleLines(f, "v", m.positions) + PairLines(f, m.uvs)
    + TripleLines(f, "vn", m.normals) + FaceLines(m.corners)
  }

  function ObjText(f: FloatText, m: Mesh): string {
    JoinLines(ObjLines(f, m))
  }

  /** Writes lines after what is already in the file. */
  method WriteLines(ghost written: seq<string>, text: string, lines: seq<string>) returns (out: string)
    requires text == JoinLines(written)
    ensures out == JoinLines(written + lines)
  {
    out := text;
    assert written + lines[..0] == written;
    for i := 0 to |lines|
      invariant out == JoinLines(written + lines[..i])
    {
      JoinAppend(written + lines[..i], lines[i]);
      assert written + lines[..i] + [lines[i]] == written + lines[..i + 1];
      out := out + (lines[i] + "\n");
    }
    assert lines[..|lines|] == lines;
  }

  method PrintObj(f: FloatText, m: Mesh) returns (out: string)
    ensures out == ObjText(f, m)
  {
    ghost var written := ["# " + HEADER_1, "# " + HEADER_2];
    out := WriteLines([], "", ["# " + HEADER_1, "# " + HEADER_2]);
    assert [] + written == written;
    var lines := TripleLines(f, "v", m.positions);
    out := WriteLines(written, out, lines);
    written := written + lines;
    lines := PairLines(f, m.uvs);
    out := WriteLines(written, out, lines);
    written := written + lines;
    lines := TripleLines(f, "vn", m.normals);
    out := WriteLines(written, out, lines);
    written := written + lines;
    out := WriteLines(written, out, FaceLines(m.corners));
  }
}
