/** The Wavefront OBJ line parser: one `LineType` per line, chosen by the
    line's first space-separated token. Decimal numbers are read by a
    number parser passed in by the caller (Rust's `f32::from_str`). */
module ObjParser {
  import opened Common
  import opened Text

  /** Reads one decimal number, or fails. */
  type NumberParser = string -> Option<real>

  /** A face corner: the 0-based vertex index and the optional texture and
      normal indices, as written (not shifted). */
  datatype FaceVertex = FaceVertex(vertex: nat, texture: Option<nat>, normal: Option<nat>)

  datatype LineType =
    | Comment(comment: string)
    | Object(objectName: string)
    | Vertex(x: real, y: real, z: real)
    | VertexNormal(nx: real, ny: real, nz: real)
    | VertexTexture(u: real, v: real)
    | Face(v0: FaceVertex, v1: FaceVertex, v2: FaceVertex)
    | UseMaterial(material: string)
    | Unknown

  /** The line kinds the parser tells apart by their first token. */
  datatype Kind = CommentKind | ObjectKind | VertexKind | NormalKind | TextureKind | FaceKind
                | MaterialKind | OtherKind

  /** The first token of every line kind the parser recognises. */
  const Keywords: set<string> := {"#", "o", "v", "vn", "vt", "f", "usemtl"}

  /** The kind of line a first token announces. */
  function KindOf(token: string): (k: Kind)
    ensures k == OtherKind <==> token !in Keywords
  {
    match token
    case "#" => CommentKind
    case "o" => ObjectKind
    case "v" => VertexKind
    case "vn" => NormalKind
    case "vt" => TextureKind
    case "f" => FaceKind
    case "usemtl" => MaterialKind
    case _ => OtherKind
  }

  /** The first token that announces a line kind ("" for other lines). */
  function KeywordOf(k: Kind): string
  {
    match k
    case CommentKind => "#"
    case ObjectKind => "o"
    case VertexKind => "v"
    case NormalKind => "vn"
    case TextureKind => "vt"
    case FaceKind => "f"
    case MaterialKind => "usemtl"
    case OtherKind => ""
  }

  /** Keywords and kinds correspond one to one. */
  lemma KeywordKindRoundTrip(token: string, k: Kind)
    ensures k != OtherKind ==> KindOf(KeywordOf(k)) == k
    ensures token in Keywords ==> KeywordOf(KindOf(token)) == token
  {
  }

  /** The kind of a parsed line. */
  function KindOfLine(l: LineType): Kind
  {
    match l
    case Comment(_) => CommentKind
    case Object(_) => ObjectKind
    case Vertex(_, _, _) => VertexKind
    case VertexNormal(_, _, _) => NormalKind
    case VertexTexture(_, _) => TextureKind
    case Face(_, _, _) => FaceKind
    case UseMaterial(_) => MaterialKind
    case Unknown => OtherKind
  }

  /** `line.trim().split(" ")`: the space-free pieces that, joined with
      single spaces, make up the trimmed line. */
  function Tokens(line: string): (t: seq<string>)
    ensures |t| >= 1
    ensures forall i :: 0 <= i < |t| ==> ' ' !in t[i]
    ensures Join(t, ' ') == Trim(line)
  {
    JoinSplit(Trim(line), ' ');
    Split(Trim(line), ' ')
  }

  /** `segments[i]`, which panics past the end. */
  function Field(segs: seq<string>, i: nat): (r: Outcome<string>)
    ensures r.Ok? <==> i < |segs|
    ensures r.Ok? ==> r.value == segs[i]
  {
    if i < |segs| then Ok(segs[i]) else Panicked(IndexOutOfBounds)
  }

  /** `segments[i].parse().ok().unwrap()`. */
  function Number(segs: seq<string>, i: nat, num: NumberParser): (r: Outcome<real>)
    ensures r.Ok? <==> i < |segs| && num(segs[i]).Some?
    ensures r.Ok? ==> r.value == num(segs[i]).value
  {
    var s :- Field(segs, i);
    match num(s)
    case Some(x) => Ok(x)
    case None => Panicked(UnwrapNone)
  }

  /** `parse_face_vertex`: `v/t/n`, where the 1-based vertex index becomes
      0-based and the texture and normal fields are kept when they are
      numbers. A missing or unreadable vertex field, a vertex field of 0
      (the `usize` subtraction underflows), or fewer than three fields
      panics. */
  function ParseFaceVertex(segment: string): (r: Outcome<FaceVertex>)
    ensures var nums := Split(Trim(segment), '/');
      && (ParseUsize(nums[0]) == None ==> r == Panicked(UnwrapNone))
      && (ParseUsize(nums[0]) == Some(0) ==> r == Panicked(SubtractOverflow))
      && (r.Ok? <==> ParseUsize(nums[0]).Some? && ParseUsize(nums[0]).value > 0 && |nums| >= 3)
      && (r.Ok? ==> r.value.vertex + 1 == ParseUsize(nums[0]).value)
      && (r.Ok? ==> r.value.texture == ParseUsize(nums[1]) && r.value.normal == ParseUsize(nums[2]))
  {
    var nums := Split(Trim(segment), '/');
    match ParseUsize(nums[0])
    case None => Panicked(UnwrapNone)
    case Some(n) =>
      if n == 0 then Panicked(SubtractOverflow)
      else if |nums| < 3 then Panicked(IndexOutOfBounds)
      else Ok(FaceVertex(n - 1, ParseUsize(nums[1]), ParseUsize(nums[2])))
  }

  /** The optional index field of a face corner, as an exporter writes it. */
  function OptionalDecimal(n: Option<nat>): string
  {
    match n
    case None => ""
    case Some(k) => Decimal(k)
  }

  /** A face corner written back out as `v/t/n`, with the vertex 1-based. */
  function FormatFaceVertex(fv: FaceVertex): string
  {
    Decimal(fv.vertex + 1) + "/" + OptionalDecimal(fv.texture) + "/" + OptionalDecimal(fv.normal)
  }

  /** Three slash-free fields joined by `/` split back into those fields. */
  lemma {:induction false} SplitSlashes(a: string, b: string, c: string)
    requires '/' !in a && '/' !in b && '/' !in c
    ensures Split(a + "/" + b + "/" + c, '/') == [a, b, c]
  {
    SplitNoSeparator(c, '/');
    SplitCons(b, '/', c);
    SplitCons(a, '/', b + "/" + c);
    assert a + "/" + b + "/" + c == a + ['/'] + (b + ['/'] + c);
  }

  /** Decimal digits hold no slash. */
  lemma DecimalNoSlash(n: Option<nat>)
    ensures '/' !in OptionalDecimal(n)
  {
    if n.Some? {
      var d := Decimal(n.value);
      assert AllDigits(d);
    }
  }

  /** A formatted face corner starts with a digit and ends with a digit or
      a slash, so trimming leaves it alone. */
  lemma FormattedUntrimmed(fv: FaceVertex)
    ensures Trim(FormatFaceVertex(fv)) == FormatFaceVertex(fv)
  {
    var a, b, c := Decimal(fv.vertex + 1), OptionalDecimal(fv.texture), OptionalDecimal(fv.normal);
    var s := FormatFaceVertex(fv);
    assert s == a + "/" + b + "/" + c;
    assert s[0] == a[0];
    assert IsDigit(a[0]);
    if |c| > 0 {
      assert c == Decimal(fv.normal.value);
      assert s[|s| - 1] == c[|c| - 1];
      assert IsDigit(c[|c| - 1]);
    } else {
      assert s[|s| - 1] == '/';
    }
    TrimUntouched(s);
  }

  /** An optional index survives being written out and read back. */
  lemma OptionalDecimalRoundTrip(n: Option<nat>)
    requires n.Some? ==> n.value < UsizeLimit
    ensures ParseUsize(OptionalDecimal(n)) == n
  {
    if n.Some? {
      ParseDecimal(n.value);
    }
  }

  /** `parse_face_vertex` on a segment that splits into three fields,
      the first a positive number. */
  lemma ParseFaceVertexOfFields(segment: string, a: string, b: string, c: string, fv: FaceVertex)
    requires Split(Trim(segment), '/') == [a, b, c]
    requires ParseUsize(a) == Some(fv.vertex + 1)
    requires ParseUsize(b) == fv.texture && ParseUsize(c) == fv.normal
    ensures ParseFaceVertex(segment) == Ok(fv)
  {
  }

  /** A formatted face corner splits back into its three fields. */
  lemma FormattedFields(fv: FaceVertex)
    ensures Split(Trim(FormatFaceVertex(fv)), '/') ==
      [Decimal(fv.vertex + 1), OptionalDecimal(fv.texture), OptionalDecimal(fv.normal)]
  {
    var a, b, c := Decimal(fv.vertex + 1), OptionalDecimal(fv.texture), OptionalDecimal(fv.normal);
    DecimalNoSlash(Some(fv.vertex + 1));
    DecimalNoSlash(fv.texture);
    DecimalNoSlash(fv.normal);
    FormattedUntrimmed(fv);
    SplitSlashes(a, b, c);
  }

  /** Every face corner survives being written out and parsed back. */
  lemma FaceVertexRoundTrip(fv: FaceVertex)
    requires fv.vertex + 1 < UsizeLimit
    requires fv.texture.Some? ==> fv.texture.value < UsizeLimit
    requires fv.normal.Some? ==> fv.normal.value < UsizeLimit
    ensures ParseFaceVertex(FormatFaceVertex(fv)) == Ok(fv)
  {
    var a, b, c := Decimal(fv.vertex + 1), OptionalDecimal(fv.texture), OptionalDecimal(fv.normal);
    var s := FormatFaceVertex(fv);
    FormattedFields(fv);
    ParseDecimal(fv.vertex + 1);
    OptionalDecimalRoundTrip(fv.texture);
    OptionalDecimalRoundTrip(fv.normal);
    ParseFaceVertexOfFields(s, a, b, c, fv);
  }

  /** The name after a `#`, `o` or `usemtl` keyword, which must be there. */
  function NameField(segs: seq<string>): (r: Outcome<string>)
    ensures r.Ok? <==> |segs| >= 2
    ensures r.Ok? ==> r.value == segs[1]
    ensures r.Panicked? ==> r.fault == IndexOutOfBounds
  {
    Field(segs, 1)
  }

  /** Three numbers after the keyword, read left to right; the first one
      missing or unreadable panics. */
  function ThreeNumbers(segs: seq<string>, num: NumberParser): (r: Outcome<(real, real, real)>)
    ensures r.Ok? <==> |segs| >= 4 && num(segs[1]).Some? && num(segs[2]).Some? && num(segs[3]).Some?
    ensures r.Ok? ==> r.value == (num(segs[1]).value, num(segs[2]).value, num(segs[3]).value)
  {
    var x :- Number(segs, 1, num);
    var y :- Number(segs, 2, num);
    var z :- Number(segs, 3, num);
    Ok((x, y, z))
  }

  /** Two numbers after the keyword, as for `vt`. */
  function TwoNumbers(segs: seq<string>, num: NumberParser): (r: Outcome<(real, real)>)
    ensures r.Ok? <==> |segs| >= 3 && num(segs[1]).Some? && num(segs[2]).Some?
    ensures r.Ok? ==> r.value == (num(segs[1]).value, num(segs[2]).value)
  {
    var u :- Number(segs, 1, num);
    var v :- Number(segs, 2, num);
    Ok((u, v))
  }

  /** `segments[i]` read as a face corner. */
  function Corner(segs: seq<string>, i: nat): (r: Outcome<FaceVertex>)
    ensures r.Ok? <==> i < |segs| && ParseFaceVertex(segs[i]).Ok?
    ensures r.Ok? ==> r.value == ParseFaceVertex(segs[i]).value
  {
    var s :- Field(segs, i);
    ParseFaceVertex(s)
  }

  /** Three face corners after the keyword, read left to right. */
  function ThreeCorners(segs: seq<string>): (r: Outcome<(FaceVertex, FaceVertex, FaceVertex)>)
    ensures r.Ok? <==> |segs| >= 4 && ParseFaceVertex(segs[1]).Ok? && ParseFaceVertex(segs[2]).Ok?
                                    && ParseFaceVertex(segs[3]).Ok?
    ensures r.Ok? ==> r.value == (ParseFaceVertex(segs[1]).value, ParseFaceVertex(segs[2]).value,
                                  ParseFaceVertex(segs[3]).value)
  {
    var f1 :- Corner(segs, 1);
    var f2 :- Corner(segs, 2);
    var f3 :- Corner(segs, 3);
    Ok((f1, f2, f3))
  }

  /** `parse_line`'s dispatch on the first token. With `useMaterial` false
      the `usemtl` arm is missing, as in `obj_importer::parse`. */
  function Dispatch(segs: seq<string>, num: NumberParser, useMaterial: bool): (r: Outcome<LineType>)
    requires |segs| >= 1
    ensures KindOf(segs[0]) == OtherKind ==> r == Ok(Unknown)
  {
    match KindOf(segs[0])
    case CommentKind =>
      var s :- NameField(segs);
      Ok(Comment(s))
    case ObjectKind =>
      var s :- NameField(segs);
      Ok(Object(s))
    case VertexKind =>
      var p :- ThreeNumbers(segs, num);
      Ok(Vertex(p.0, p.1, p.2))
    case NormalKind =>
      var p :- ThreeNumbers(segs, num);
      Ok(VertexNormal(p.0, p.1, p.2))
    case TextureKind =>
      var p :- TwoNumbers(segs, num);
      Ok(VertexTexture(p.0, p.1))
    case FaceKind =>
      var p :- ThreeCorners(segs);
      Ok(Face(p.0, p.1, p.2))
    case MaterialKind =>
      if useMaterial then
        var s :- NameField(segs);
        Ok(UseMaterial(s))
      else Ok(Unknown)
    case OtherKind => Ok(Unknown)
  }

  /** A line that parses becomes the line type its first token announces;
      without the `usemtl` arm, a `usemtl` line is `Unknown`. */
  lemma DispatchKind(segs: seq<string>, num: NumberParser, useMaterial: bool)
    requires |segs| >= 1
    ensures var r := Dispatch(segs, num, useMaterial);
      r.Ok? ==> KindOfLine(r.value) == if KindOf(segs[0]) == MaterialKind && !useMaterial then OtherKind else KindOf(segs[0])
  {
    match KindOf(segs[0])
    case CommentKind => DispatchName(segs, num, useMaterial);
    case ObjectKind => DispatchName(segs, num, useMaterial);
    case MaterialKind => DispatchName(segs, num, useMaterial);
    case VertexKind => DispatchVertex(segs, num, useMaterial);
    case NormalKind => DispatchNormal(segs, num, useMaterial);
    case TextureKind => DispatchTexture(segs, num, useMaterial);
    case FaceKind => DispatchFace(segs, num, useMaterial);
    case OtherKind => DispatchOther(segs, num, useMaterial);
  }

  /** A line whose first token is not a keyword is `Unknown` and never
      panics. */
  lemma DispatchOther(segs: seq<string>, num: NumberParser, useMaterial: bool)
    requires |segs| >= 1 && segs[0] !in Keywords
    ensures Dispatch(segs, num, useMaterial) == Ok(Unknown)
  {
  }

  /** The `#`, `o` and `usemtl` arms keep the second token and panic
      without one. */
  lemma DispatchName(segs: seq<string>, num: NumberParser, useMaterial: bool)
    requires |segs| >= 1 && KindOf(segs[0]) in {CommentKind, ObjectKind, MaterialKind}
    ensures var r := Dispatch(segs, num, useMaterial);
      if KindOf(segs[0]) == MaterialKind && !useMaterial then r == Ok(Unknown)
      else
        && (r.Ok? <==> |segs| >= 2)
        && (r.Ok? ==> r.value == if KindOf(segs[0]) == CommentKind then Comment(segs[1])
                                 else if KindOf(segs[0]) == ObjectKind then Object(segs[1])
                                 else UseMaterial(segs[1]))
  {
  }

  /** The `v` arm needs three numbers after the keyword. */
  lemma DispatchVertex(segs: seq<string>, num: NumberParser, useMaterial: bool)
    requires |segs| >= 1 && KindOf(segs[0]) == VertexKind
    ensures var r := Dispatch(segs, num, useMaterial);
      && (r.Ok? <==> |segs| >= 4 && num(segs[1]).Some? && num(segs[2]).Some? && num(segs[3]).Some?)
      && (r.Ok? ==> r.value == Vertex(num(segs[1]).value, num(segs[2]).value, num(segs[3]).value))
  {
  }

  /** The `vn` arm needs three numbers after the keyword. */
  lemma DispatchNormal(segs: seq<string>, num: NumberParser, useMaterial: bool)
    requires |segs| >= 1 && KindOf(segs[0]) == NormalKind
    ensures var r := Dispatch(segs, num, useMaterial);
      && (r.Ok? <==> |segs| >= 4 && num(segs[1]).Some? && num(segs[2]).Some? && num(segs[3]).Some?)
      && (r.Ok? ==> r.value == VertexNormal(num(segs[1]).value, num(segs[2]).value, num(segs[3]).value))
  {
  }

  /** The `vt` arm needs two numbers after the keyword. */
  lemma DispatchTexture(segs: seq<string>, num: NumberParser, useMaterial: bool)
    requires |segs| >= 1 && KindOf(segs[0]) == TextureKind
    ensures var r := Dispatch(segs, num, useMaterial);
      && (r.Ok? <==> |segs| >= 3 && num(segs[1]).Some? && num(segs[2]).Some?)
      && (r.Ok? ==> r.value == VertexTexture(num(segs[1]).value, num(segs[2]).value))
  {
  }

  /** The `f` arm needs three face corners after the keyword. */
  lemma DispatchFace(segs: seq<string>, num: NumberParser, useMaterial: bool)
    requires |segs| >= 1 && KindOf(segs[0]) == FaceKind
    ensures var r := Dispatch(segs, num, useMaterial);
      && (r.Ok? <==> |segs| >= 4 && ParseFaceVertex(segs[1]).Ok? && ParseFaceVertex(segs[2]).Ok?
                                 && ParseFaceVertex(segs[3]).Ok?)
      && (r.Ok? ==> r.value == Face(ParseFaceVertex(segs[1]).value, ParseFaceVertex(segs[2]).value,
                                    ParseFaceVertex(segs[3]).value))
  {
  }

  /** `obj_parser::parse_line`: a line whose first token is no keyword is
      `Unknown`, and a line that parses becomes the line type its first
      token announces. */
  function ParseLine(line: string, num: NumberParser): (r: Outcome<LineType>)
    ensures KindOf(Tokens(line)[0]) == OtherKind ==> r == Ok(Unknown)
    ensures r.Ok? ==> KindOfLine(r.value) == KindOf(Tokens(line)[0])
  {
    DispatchKind(Tokens(line), num, true);
    Dispatch(Tokens(line), num, true)
  }

  /** An empty or blank line is `Unknown`. */
  lemma BlankLineUnknown(line: string, num: NumberParser)
    requires forall i :: 0 <= i < |line| ==> IsWhitespace(line[i])
    ensures ParseLine(line, num) == Ok(Unknown)
  {
    assert Trim(line) == "";
  }

  /** Two spaces between the numbers of a vertex line leave an empty token
      in a number's place, which does not parse. */
  lemma VertexDoubleSpacePanics(rest: string, num: NumberParser)
    requires num("") == None
    requires ' ' !in rest && |rest| > 0 && !IsWhitespace(rest[|rest| - 1])
    ensures ParseLine("v  " + rest, num).Panicked?
  {
    var line := "v  " + rest;
    assert ["v", "", rest][1..] == ["", rest] && ["", rest][1..] == [rest];
    assert Join([rest], ' ') == rest;
    assert Join(["", rest], ' ') == "" + [' '] + rest;
    assert Join(["v", "", rest], ' ') == "v" + [' '] + ("" + [' '] + rest);
    assert line == Join(["v", "", rest], ' ');
    assert Trim(line) == line;
    SplitJoin(["v", "", rest], ' ');
  }

  /** `parse_line` for a fixed number parser. */
  function LineParser(num: NumberParser): string -> Outcome<LineType>
  {
    line => ParseLine(line, num)
  }

  /** `f` applied to every line, front to back; the first line that panics
      decides the outcome. */
  function Each<T>(lines: seq<string>, f: string -> Outcome<T>): Outcome<seq<T>>
    decreases |lines|
  {
    if |lines| == 0 then Ok([])
    else
      var l :- f(lines[0]);
      var rest :- Each(lines[1..], f);
      Ok([l] + rest)
  }

  /** Results already computed, put in front of the outcome for the rest. */
  function Prepend<T>(done: seq<T>, rest: Outcome<seq<T>>): Outcome<seq<T>>
  {
    match rest
    case Ok(more) => Ok(done + more)
    case Panicked(f) => Panicked(f)
  }

  /** `Each` succeeds exactly when every line succeeds, and then holds one
      result per line, in order. */
  lemma {:induction false} EachOk<T>(lines: seq<string>, f: string -> Outcome<T>)
    ensures var r := Each(lines, f);
      && (r.Ok? <==> forall i :: 0 <= i < |lines| ==> f(lines[i]).Ok?)
      && (r.Ok? ==> |r.value| == |lines| && forall i :: 0 <= i < |lines| ==> r.value[i] == f(lines[i]).value)
    decreases |lines|
  {
    if |lines| > 0 {
      EachOk(lines[1..], f);
      var r := Each(lines, f);
      if r.Ok? {
        forall i | 0 <= i < |lines|
          ensures f(lines[i]).Ok? && r.value[i] == f(lines[i]).value
        {
          if i > 0 {
            assert lines[1..][i - 1] == lines[i];
          }
        }
      } else if f(lines[0]).Ok? {
        var k :| 0 <= k < |lines[1..]| && !f(lines[1..][k]).Ok?;
        assert !f(lines[k + 1]).Ok?;
      }
    }
  }

  /** A failed `Each` reports the fault of the first line that fails. */
  lemma {:induction false} EachFirstPanic<T>(lines: seq<string>, f: string -> Outcome<T>)
    requires Each(lines, f).Panicked?
    ensures exists k :: 0 <= k < |lines| && f(lines[k]) == Panicked(Each(lines, f).fault)
                        && forall j :: 0 <= j < k ==> f(lines[j]).Ok?
    decreases |lines|
  {
    if f(lines[0]).Ok? {
      EachFirstPanic(lines[1..], f);
      var k :| 0 <= k < |lines[1..]| && f(lines[1..][k]) == Panicked(Each(lines[1..], f).fault)
               && forall j :: 0 <= j < k ==> f(lines[1..][j]).Ok?;
      assert lines[1..][k] == lines[k + 1];
      forall j | 0 <= j < k + 1
        ensures f(lines[j]).Ok?
      {
        if j > 0 {
          assert lines[1..][j - 1] == lines[j];
        }
      }
    }
  }

  /** What `obj_parser::parse` computes for the lines of a file. */
  function ParseLines(lines: seq<string>, num: NumberParser): Outcome<seq<LineType>>
  {
    Each(lines, LineParser(num))
  }

  /** The parse succeeds exactly when every line parses, and then holds one
      entry per line, in order; otherwise it reports the first line's
      panic. */
  lemma ParseLinesSpec(lines: seq<string>, num: NumberParser)
    ensures var r := ParseLines(lines, num);
      && (r.Ok? <==> forall i :: 0 <= i < |lines| ==> ParseLine(lines[i], num).Ok?)
      && (r.Ok? ==> |r.value| == |lines| && forall i :: 0 <= i < |lines| ==> r.value[i] == ParseLine(lines[i], num).value)
      && (r.Panicked? ==> exists k :: 0 <= k < |lines| && ParseLine(lines[k], num) == Panicked(r.fault)
                                      && forall j :: 0 <= j < k ==> ParseLine(lines[j], num).Ok?)
  {
    var f := LineParser(num);
    EachOk(lines, f);
    if Each(lines, f).Panicked? {
      EachFirstPanic(lines, f);
    }
  }

  /** The loop of `obj_parser::parse`: `f` applied to each line in turn,
      the results pushed in order; a line that panics ends the loop. */
  method Collect<T>(lines: seq<string>, f: string -> Outcome<T>) returns (r: Outcome<seq<T>>)
    ensures r == Each(lines, f)
  {
    var parsed: seq<T> := [];
    assert lines[0..] == lines;
    if Each(lines, f).Ok? {
      assert parsed + Each(lines, f).value == Each(lines, f).value;
    }
    for i := 0 to |lines|
      invariant Each(lines, f) == Prepend(parsed, Each(lines[i..], f))
    {
      var line := f(lines[i]);
      assert lines[i..][1..] == lines[i + 1..];
      if line.Panicked? {
        return Panicked(line.fault);
      }
      var rest := Each(lines[i + 1..], f);
      if rest.Ok? {
        assert parsed + ([line.value] + rest.value) == parsed + [line.value] + rest.value;
      }
      parsed := parsed + [line.value];
    }
    assert lines[|lines|..] == [];
    assert parsed + [] == parsed;
    return Ok(parsed);
  }

  /** `obj_parser::parse`: one parsed line per `"\n"`-separated piece of the
      input, in order; the first line that panics ends the parse. */
  method Parse(obj: string, num: NumberParser) returns (r: Outcome<seq<LineType>>)
    ensures r == ParseLines(Split(obj, '\n'), num)
  {
    r := Collect(Split(obj, '\n'), LineParser(num));
  }
}
