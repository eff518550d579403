/** The OBJ mesh importer: the lines of a file folded into a mesh. Vertex
    lines append a vertex, face lines append a triangle of 0-based vertex
    indices, every other line is read and dropped. The importer carries its
    own copy of the line parser, which differs from `ObjParser.ParseLine`
    only in having no `usemtl` arm. */
module ObjImporter {
  import opened Common
  import opened Text
  import P = ObjParser

  /** `mesh::Face`: three 0-based vertex indices. */
  datatype Face = Face(a: nat, b: nat, c: nat)

  /** The parts of `mesh::Mesh` the importer fills in. */
  datatype Mesh = Mesh(vertices: seq<Vec3>, faces: seq<Face>)

  /** `Mesh::new()`: no vertices, no faces. */
  const EmptyMesh := Mesh([], [])

  /** `obj_importer::parse`: `obj_parser::parse_line` without the `usemtl`
      arm. */
  function ParseLine(line: string, num: P.NumberParser): (r: Outcome<P.LineType>)
    ensures P.KindOf(P.Tokens(line)[0]) in {P.MaterialKind, P.OtherKind} ==> r == Ok(P.Unknown)
    ensures r.Ok? && P.KindOf(P.Tokens(line)[0]) != P.MaterialKind ==>
      P.KindOfLine(r.value) == P.KindOf(P.Tokens(line)[0])
  {
    P.DispatchKind(P.Tokens(line), num, false);
    P.Dispatch(P.Tokens(line), num, false)
  }

  /** The importer's parser agrees with `obj_parser::parse_line` on every
      line except those starting with `usemtl`, which it reads as
      `Unknown` (and so never panics on). */
  lemma ParseLineAgrees(line: string, num: P.NumberParser)
    ensures var segs := P.Tokens(line);
      if P.KindOf(segs[0]) == P.MaterialKind then ParseLine(line, num) == Ok(P.Unknown)
      else ParseLine(line, num) == P.ParseLine(line, num)
  {
    var segs := P.Tokens(line);
    match P.KindOf(segs[0])
    case MaterialKind =>
    case _ =>
  }

  /** The face of three parsed corners: their vertex indices. */
  function FaceOf(v0: P.FaceVertex, v1: P.FaceVertex, v2: P.FaceVertex): Face
  {
    Face(v0.vertex, v1.vertex, v2.vertex)
  }

  /** One step of `import_obj`'s loop: a vertex line pushes a vertex, a
      face line pushes a face, anything else is dropped. */
  function Absorb(mesh: Mesh, l: P.LineType): (r: Mesh)
    ensures !l.Vertex? && !l.Face? ==> r == mesh
  {
    match l
    case Vertex(x, y, z) => mesh.(vertices := mesh.vertices + [Vec3(x, y, z)])
    case Face(v0, v1, v2) => mesh.(faces := mesh.faces + [FaceOf(v0, v1, v2)])
    case _ => mesh
  }

  /** The mesh after reading `lines` into `mesh` with line parser `f`; the
      first line that panics ends the import. */
  function Fold(mesh: Mesh, lines: seq<string>, f: string -> Outcome<P.LineType>): Outcome<Mesh>
    decreases |lines|
  {
    if |lines| == 0 then Ok(mesh)
    else
      var l :- f(lines[0]);
      Fold(Absorb(mesh, l), lines[1..], f)
  }

  /** The vertices of the vertex lines among parsed lines, in order. */
  function VerticesOf(ls: seq<P.LineType>): seq<Vec3>
  {
    if |ls| == 0 then []
    else (if ls[0].Vertex? then [Vec3(ls[0].x, ls[0].y, ls[0].z)] else []) + VerticesOf(ls[1..])
  }

  /** The faces of the face lines among parsed lines, in order. */
  function FacesOf(ls: seq<P.LineType>): seq<Face>
  {
    if |ls| == 0 then []
    else (if ls[0].Face? then [FaceOf(ls[0].v0, ls[0].v1, ls[0].v2)] else []) + FacesOf(ls[1..])
  }

  /** One parsed line in front: the mesh it is absorbed into, with the
      rest filtered onto it, is the mesh with everything filtered onto it. */
  lemma FilterCons(mesh: Mesh, l: P.LineType, ls: seq<P.LineType>)
    ensures Absorb(mesh, l).vertices + VerticesOf(ls) == mesh.vertices + VerticesOf([l] + ls)
    ensures Absorb(mesh, l).faces + FacesOf(ls) == mesh.faces + FacesOf([l] + ls)
  {
    var all := [l] + ls;
    assert all[0] == l && all[1..] == ls;
    var vs: seq<Vec3> := if l.Vertex? then [Vec3(l.x, l.y, l.z)] else [];
    var fs: seq<Face> := if l.Face? then [FaceOf(l.v0, l.v1, l.v2)] else [];
    assert VerticesOf(all) == vs + VerticesOf(ls);
    assert FacesOf(all) == fs + FacesOf(ls);
    assert Absorb(mesh, l).vertices == mesh.vertices + vs;
    assert Absorb(mesh, l).faces == mesh.faces + fs;
    assert mesh.vertices + vs + VerticesOf(ls) == mesh.vertices + (vs + VerticesOf(ls));
    assert mesh.faces + fs + FacesOf(ls) == mesh.faces + (fs + FacesOf(ls));
  }

  /** The import is the parse of all lines, filtered: it succeeds exactly
      when every line parses, and then appends the vertices of the vertex
      lines and the faces of the face lines, in input order; otherwise it
      ends with the same panic as the parse. */
  lemma {:induction false} FoldIsFilteredParse(mesh: Mesh, lines: seq<string>, f: string -> Outcome<P.LineType>)
    ensures Fold(mesh, lines, f) == match P.Each(lines, f)
                                    case Ok(ls) => Ok(Mesh(mesh.vertices + VerticesOf(ls), mesh.faces + FacesOf(ls)))
                                    case Panicked(e) => Panicked(e)
    decreases |lines|
  {
    if |lines| == 0 {
      assert mesh.vertices + [] == mesh.vertices && mesh.faces + [] == mesh.faces;
    } else if f(lines[0]).Ok? {
      var l := f(lines[0]).value;
      var m := Absorb(mesh, l);
      assert Fold(mesh, lines, f) == Fold(m, lines[1..], f);
      FoldIsFilteredParse(m, lines[1..], f);
      var rest := P.Each(lines[1..], f);
      if rest.Ok? {
        assert P.Each(lines, f) == Ok([l] + rest.value);
        FilterCons(mesh, l, rest.value);
      } else {
        assert P.Each(lines, f) == Panicked(rest.fault);
      }
    }
  }

  /** The number of parsed lines that are vertex lines. */
  function VertexLines(ls: seq<P.LineType>): (n: nat)
    ensures n <= |ls|
  {
    if |ls| == 0 then 0 else (if ls[0].Vertex? then 1 else 0) + VertexLines(ls[1..])
  }

  /** The number of parsed lines that are face lines. */
  function FaceLines(ls: seq<P.LineType>): (n: nat)
    ensures n <= |ls|
  {
    if |ls| == 0 then 0 else (if ls[0].Face? then 1 else 0) + FaceLines(ls[1..])
  }

  /** One vertex per vertex line and one face per face line. */
  lemma {:induction false} FilteredCounts(ls: seq<P.LineType>)
    ensures |VerticesOf(ls)| == VertexLines(ls)
    ensures |FacesOf(ls)| == FaceLines(ls)
  {
    if |ls| > 0 {
      FilteredCounts(ls[1..]);
    }
  }

  /** Lines that are neither vertices nor faces add nothing to the mesh. */
  lemma {:induction false} OtherLinesAddNothing(ls: seq<P.LineType>)
    requires forall i :: 0 <= i < |ls| ==> !ls[i].Vertex? && !ls[i].Face?
    ensures VerticesOf(ls) == [] && FacesOf(ls) == []
  {
    if |ls| > 0 {
      OtherLinesAddNothing(ls[1..]);
    }
  }

  /** Each face keeps the corners' vertex indices as parsed: nothing checks
      them against the number of vertices, so a file made of one face line
      yields a mesh with a face and no vertices. */
  lemma DanglingFaceKept(line: string, f: string -> Outcome<P.LineType>, v0: P.FaceVertex, v1: P.FaceVertex, v2: P.FaceVertex)
    requires f(line) == Ok(P.Face(v0, v1, v2))
    ensures Fold(EmptyMesh, [line], f) == Ok(Mesh([], [Face(v0.vertex, v1.vertex, v2.vertex)]))
  {
    var m := Mesh([], [Face(v0.vertex, v1.vertex, v2.vertex)]);
    assert [line][1..] == [];
    assert Absorb(EmptyMesh, P.Face(v0, v1, v2)) == m;
    assert Fold(m, [], f) == Ok(m);
  }

  /** The importer's parser for a fixed number parser. */
  function LineParser(num: P.NumberParser): string -> Outcome<P.LineType>
  {
    line => ParseLine(line, num)
  }

  /** What `import_obj` builds from the text of a file. */
  function Import(data: string, num: P.NumberParser): Outcome<Mesh>
  {
    Fold(EmptyMesh, Split(data, '\n'), LineParser(num))
  }

  /** The loop of `import_obj`, reading `lines` into a fresh mesh. */
  method ImportLines(lines: seq<string>, f: string -> Outcome<P.LineType>) returns (r: Outcome<Mesh>)
    ensures r == Fold(EmptyMesh, lines, f)
  {
    var vertices: seq<Vec3> := [];
    var faces: seq<Face> := [];
    assert lines[0..] == lines;
    for i := 0 to |lines|
      invariant Fold(EmptyMesh, lines, f) == Fold(Mesh(vertices, faces), lines[i..], f)
    {
      var line := f(lines[i]);
      assert lines[i..][1..] == lines[i + 1..];
      if line.Panicked? {
        return Panicked(line.fault);
      }
      match line.value
      case Vertex(x, y, z) =>
        vertices := vertices + [Vec3(x, y, z)];
      case Face(v0, v1, v2) =>
        faces := faces + [Face(v0.vertex, v1.vertex, v2.vertex)];
      case _ =>
    }
    return Ok(Mesh(vertices, faces));
  }

  /** `import_obj` on the text of the file (the file read is not part of
      this model). */
  method ImportObj(data: string, num: P.NumberParser) returns (r: Outcome<Mesh>)
    ensures r == Import(data, num)
  {
    r := ImportLines(Split(data, '\n'), LineParser(num));
  }

  /** Reading lines into an empty mesh succeeds exactly when every line
      parses, and then yields one vertex per vertex line and one face per
      face line. */
  lemma FoldCounts(lines: seq<string>, f: string -> Outcome<P.LineType>)
    ensures Fold(EmptyMesh, lines, f).Ok? <==> forall i :: 0 <= i < |lines| ==> f(lines[i]).Ok?
    ensures Fold(EmptyMesh, lines, f).Ok? ==>
      && P.Each(lines, f).Ok?
      && |Fold(EmptyMesh, lines, f).value.vertices| == VertexLines(P.Each(lines, f).value)
      && |Fold(EmptyMesh, lines, f).value.faces| == FaceLines(P.Each(lines, f).value)
  {
    FoldIsFilteredParse(EmptyMesh, lines, f);
    P.EachOk(lines, f);
    if P.Each(lines, f).Ok? {
      FilteredCounts(P.Each(lines, f).value);
    }
  }

  /** The kind a line's first token announces. */
  function KindOfText(line: string): P.Kind
  {
    P.KindOf(P.Tokens(line)[0])
  }

  /** A line the importer parses is a vertex exactly when it starts with
      `v`, and a face exactly when it starts with `f`. */
  lemma ParsedKind(line: string, num: P.NumberParser)
    requires ParseLine(line, num).Ok?
    ensures ParseLine(line, num).value.Vertex? <==> KindOfText(line) == P.VertexKind
    ensures ParseLine(line, num).value.Face? <==> KindOfText(line) == P.FaceKind
  {
    var segs := P.Tokens(line);
    match P.KindOf(segs[0])
    case CommentKind => P.DispatchName(segs, num, false);
    case ObjectKind => P.DispatchName(segs, num, false);
    case MaterialKind => P.DispatchName(segs, num, false);
    case VertexKind => P.DispatchVertex(segs, num, false);
    case NormalKind => P.DispatchNormal(segs, num, false);
    case TextureKind => P.DispatchTexture(segs, num, false);
    case FaceKind => P.DispatchFace(segs, num, false);
    case OtherKind => P.DispatchOther(segs, num, false);
  }

  /** The number of lines whose first token announces kind `k`. */
  function LinesOfKind(lines: seq<string>, k: P.Kind): (n: nat)
    ensures n <= |lines|
  {
    if |lines| == 0 then 0 else (if KindOfText(lines[0]) == k then 1 else 0) + LinesOfKind(lines[1..], k)
  }

  /** Among lines that all parse, the vertex lines are the `v` lines and
      the face lines are the `f` lines. */
  lemma {:induction false} ParsedLinesOfKind(lines: seq<string>, num: P.NumberParser)
    requires P.Each(lines, LineParser(num)).Ok?
    ensures VertexLines(P.Each(lines, LineParser(num)).value) == LinesOfKind(lines, P.VertexKind)
    ensures FaceLines(P.Each(lines, LineParser(num)).value) == LinesOfKind(lines, P.FaceKind)
    decreases |lines|
  {
    if |lines| > 0 {
      var f := LineParser(num);
      var l := f(lines[0]);
      assert l == ParseLine(lines[0], num);
      ParsedKind(lines[0], num);
      ParsedLinesOfKind(lines[1..], num);
      var ls := P.Each(lines, f).value;
      assert ls == [l.value] + P.Each(lines[1..], f).value;
      assert ls[0] == l.value && ls[1..] == P.Each(lines[1..], f).value;
    }
  }

  /** `import_obj` yields exactly one vertex per `v` line and one face per
      `f` line of the file, and succeeds exactly when every line parses. */
  lemma ImportCounts(data: string, num: P.NumberParser)
    ensures var lines := Split(data, '\n');
      Import(data, num).Ok? <==> forall i :: 0 <= i < |lines| ==> ParseLine(lines[i], num).Ok?
    ensures var lines := Split(data, '\n');
      Import(data, num).Ok? ==>
        && |Import(data, num).value.vertices| == LinesOfKind(lines, P.VertexKind)
        && |Import(data, num).value.faces| == LinesOfKind(lines, P.FaceKind)
  {
    var lines := Split(data, '\n');
    FoldCounts(lines, LineParser(num));
    if Import(data, num).Ok? {
      ParsedLinesOfKind(lines, num);
    }
  }
}
