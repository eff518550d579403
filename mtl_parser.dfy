/** The Wavefront MTL reader: a small state machine over the lines of a
    file. `newmtl name` starts a new material (first storing the one being
    built), `Kd r g b` sets the diffuse colour of the material being built,
    and every other line is ignored; the last material is stored at the
    end. Materials are kept by name, a later one replacing an earlier one
    of the same name. */
module MtlParser {
  import opened Common
  import opened Text
  import opened Textures
  import P = ObjParser

  /** The material record the reader fills in: five optional texture
      channels. Only the albedo is ever set. */
  datatype Material = Material(
    albedo: Option<Texture>,
    specular: Option<Texture>,
    normal: Option<Texture>,
    emissionColor: Option<Texture>,
    emissionIntensity: Option<Texture>)

  /** A fresh material: every channel `None`. */
  const Blank := Material(None, None, None, None, None)

  /** The line kinds the reader tells apart. */
  datatype LineKind = NewMaterialLine | DiffuseLine | IgnoredLine

  /** The kind of line a first token announces. */
  function KindOf(token: string): (k: LineKind)
    ensures k == NewMaterialLine <==> token == "newmtl"
    ensures k == DiffuseLine <==> token == "Kd"
  {
    match token
    case "newmtl" => NewMaterialLine
    case "Kd" => DiffuseLine
    case _ => IgnoredLine
  }

  /** The kind of a whole line, read from its first token after trimming. */
  function KindOfText(line: string): LineKind
  {
    KindOf(P.Tokens(line)[0])
  }

  /** The reader's state between lines: the materials stored so far and
      the one being built, with its name. */
  datatype State = State(materials: map<string, Material>, pending: Option<(string, Material)>)

  /** Nothing stored, nothing being built. */
  const Initial := State(map[], None)

  /** `mat.map(|m| materials.insert(m.0, m.1))`: the material being built,
      if any, stored under its name, replacing any earlier one. */
  function Flush(st: State): (m: map<string, Material>)
    ensures st.pending.None? ==> m == st.materials
    ensures st.pending.Some? ==> m.Keys == st.materials.Keys + {st.pending.value.0}
    ensures st.pending.Some? ==> m[st.pending.value.0] == st.pending.value.1
    ensures forall n :: n in st.materials && (st.pending.None? || n != st.pending.value.0) ==>
      n in m && m[n] == st.materials[n]
  {
    match st.pending
    case None => st.materials
    case Some((name, material)) => st.materials[name := material]
  }

  /** The material being built with its albedo set to a solid colour. */
  function WithAlbedo(pending: (string, Material), c: Color): (string, Material)
  {
    (pending.0, pending.1.(albedo := Some(Solid(c))))
  }

  /** One line of `mtl_parser::parse`. A `newmtl` without a name panics on
      the missing token. A `Kd` line reads its three numbers first (a
      missing or unreadable one panics) and then panics if no material is
      being built, since Rust evaluates the right-hand side of an
      assignment before the place it assigns to. */
  function Step(st: State, line: string, num: P.NumberParser): (r: Outcome<State>)
    ensures KindOfText(line) == IgnoredLine ==> r == Ok(st)
    ensures r.Ok? && KindOfText(line) == NewMaterialLine ==>
      r.value.materials == Flush(st) && r.value.pending.Some? && r.value.pending.value.1 == Blank
    ensures r.Ok? && KindOfText(line) != NewMaterialLine ==>
      r.value.materials == st.materials && st.pending.Some? == r.value.pending.Some? &&
      (st.pending.Some? ==> r.value.pending.value.0 == st.pending.value.0)
  {
    var segs := P.Tokens(line);
    match KindOf(segs[0])
    case NewMaterialLine =>
      var name :- P.NameField(segs);
      Ok(State(Flush(st), Some((name, Blank))))
    case DiffuseLine =>
      var rgb :- P.ThreeNumbers(segs, num);
      if st.pending.None? then Panicked(UnwrapNone)
      else Ok(st.(pending := Some(WithAlbedo(st.pending.value, Color(rgb.0, rgb.1, rgb.2)))))
    case IgnoredLine => Ok(st)
  }

  /** The state after reading `lines` from `st`; the first line that
      panics ends the read. */
  function Run(st: State, lines: seq<string>, num: P.NumberParser): Outcome<State>
    decreases |lines|
  {
    if |lines| == 0 then Ok(st)
    else
      var next :- Step(st, lines[0], num);
      Run(next, lines[1..], num)
  }

  /** What `mtl_parser::parse` returns for the text of a file: when it
      does not panic, a map whose keys are exactly the names that follow
      `newmtl` in the file. */
  function Materials(data: string, num: P.NumberParser): (r: Outcome<map<string, Material>>)
    ensures r.Ok? ==> r.value.Keys == Names(Split(data, '\n'))
  {
    var st :- Run(Initial, Split(data, '\n'), num);
    RunNames(Initial, Split(data, '\n'), num);
    Ok(Flush(st))
  }

  /** The body of `mtl_parser::parse`'s loop: one line read into the map
      of stored materials and the material being built. */
  method ReadLine(materials: map<string, Material>, mat: Option<(string, Material)>, line: string, num: P.NumberParser)
    returns (r: Outcome<State>)
    ensures r == Step(State(materials, mat), line, num)
  {
    var segs := P.Tokens(line);
    match KindOf(segs[0]) {
      case NewMaterialLine =>
        var stored := materials;
        if mat.Some? {
          stored := stored[mat.value.0 := mat.value.1];
        }
        if |segs| < 2 {
          return Panicked(IndexOutOfBounds);
        }
        return Ok(State(stored, Some((segs[1], Blank))));
      case DiffuseLine =>
        var rgb := P.ThreeNumbers(segs, num);
        if rgb.Panicked? {
          return Panicked(rgb.fault);
        }
        if mat.None? {
          return Panicked(UnwrapNone);
        }
        return Ok(State(materials, Some(WithAlbedo(mat.value, Color(rgb.value.0, rgb.value.1, rgb.value.2)))));
      case IgnoredLine =>
        return Ok(State(materials, mat));
    }
  }

  /** `mtl_parser::parse`: the lines read one by one into the map and the
      material being built, which is stored at the end. */
  method Parse(data: string, num: P.NumberParser) returns (r: Outcome<map<string, Material>>)
    ensures r == Materials(data, num)
  {
    var lines := Split(data, '\n');
    var materials: map<string, Material> := map[];
    var mat: Option<(string, Material)> := None;
    assert lines[0..] == lines;
    for i := 0 to |lines|
      invariant Run(Initial, lines, num) == Run(State(materials, mat), lines[i..], num)
    {
      assert lines[i..][1..] == lines[i + 1..];
      var next := ReadLine(materials, mat, lines[i], num);
      if next.Panicked? {
        return Panicked(next.fault);
      }
      materials, mat := next.value.materials, next.value.pending;
    }
    if mat.Some? {
      materials := materials[mat.value.0 := mat.value.1];
    }
    return Ok(materials);
  }


  /** The names a state holds: those stored and the one being built. */
  function Defined(st: State): set<string>
  {
    st.materials.Keys + (if st.pending.Some? then {st.pending.value.0} else {})
  }

  /** The names that follow a `newmtl` keyword in `lines`. */
  function Names(lines: seq<string>): set<string>
  {
    if |lines| == 0 then {}
    else
      var segs := P.Tokens(lines[0]);
      (if KindOf(segs[0]) == NewMaterialLine && |segs| >= 2 then {segs[1]} else {}) + Names(lines[1..])
  }

  /** Reading lines adds exactly the names that follow `newmtl` to the
      names the state holds. */
  lemma {:induction false} RunNames(st: State, lines: seq<string>, num: P.NumberParser)
    requires Run(st, lines, num).Ok?
    ensures Defined(Run(st, lines, num).value) == Defined(st) + Names(lines)
    decreases |lines|
  {
    if |lines| > 0 {
      var next := Step(st, lines[0], num).value;
      var segs := P.Tokens(lines[0]);
      assert Defined(next) == Defined(st) + (if KindOf(segs[0]) == NewMaterialLine then {segs[1]} else {});
      RunNames(next, lines[1..], num);
    }
  }

  /** Lines without a `newmtl` line read from the initial state store no
      materials, if they do not panic. */
  lemma NoNewMaterialNoMaterials(lines: seq<string>, num: P.NumberParser)
    requires forall i :: 0 <= i < |lines| ==> KindOfText(lines[i]) != NewMaterialLine
    requires Run(Initial, lines, num).Ok?
    ensures Flush(Run(Initial, lines, num).value) == map[]
  {
    NamesWithoutNewMaterial(lines);
    RunNames(Initial, lines, num);
    var st := Run(Initial, lines, num).value;
    assert Defined(st) == {};
    assert st.pending.None?;
    assert st.materials.Keys == {};
  }

  /** Without `newmtl` lines there are no names. */
  lemma {:induction false} NamesWithoutNewMaterial(lines: seq<string>)
    requires forall i :: 0 <= i < |lines| ==> KindOfText(lines[i]) != NewMaterialLine
    ensures Names(lines) == {}
    decreases |lines|
  {
    if |lines| > 0 {
      assert KindOfText(lines[0]) != NewMaterialLine;
      NamesWithoutNewMaterial(lines[1..]);
    }
  }

  /** An empty file yields an empty map. */
  lemma EmptyInput(num: P.NumberParser)
    ensures Materials("", num) == Ok(map[])
  {
    assert Split("", '\n') == [""];
    assert Trim("") == "";
    assert P.Tokens("") == [""];
    assert Step(Initial, "", num) == Ok(Initial);
    assert [""][1..] == [];
  }

  /** Lines with any other first token leave the state as it is. */
  lemma {:induction false} IgnoredLinesKeepState(st: State, lines: seq<string>, num: P.NumberParser)
    requires forall i :: 0 <= i < |lines| ==> KindOfText(lines[i]) == IgnoredLine
    ensures Run(st, lines, num) == Ok(st)
    decreases |lines|
  {
    if |lines| > 0 {
      assert KindOfText(lines[0]) == IgnoredLine;
      IgnoredLinesKeepState(st, lines[1..], num);
    }
  }

  /** A `Kd` line with no `newmtl` line before it panics, whatever it
      holds. */
  lemma {:induction false} DiffuseBeforeNewMaterialPanics(st: State, lines: seq<string>, num: P.NumberParser, k: nat)
    requires st.pending.None?
    requires k < |lines| && KindOfText(lines[k]) == DiffuseLine
    requires forall j :: 0 <= j < k ==> KindOfText(lines[j]) != NewMaterialLine
    ensures Run(st, lines, num).Panicked?
    decreases k
  {
    var first := Step(st, lines[0], num);
    if KindOfText(lines[0]) == DiffuseLine {
      DiffuseStep(st, lines[0], num);
      assert first.Panicked?;
    } else {
      assert k > 0 && KindOfText(lines[0]) == IgnoredLine;
      assert first == Ok(st);
      assert lines[1..][k - 1] == lines[k];
      DiffuseBeforeNewMaterialPanics(st, lines[1..], num, k - 1);
    }
  }

  /** A `newmtl` line stores the material being built under its name and
      starts a blank material under the line's second token; without a
      second token it panics. */
  lemma NewMaterialStep(st: State, line: string, num: P.NumberParser)
    requires KindOfText(line) == NewMaterialLine
    ensures var r := Step(st, line, num);
      && (r.Ok? <==> |P.Tokens(line)| >= 2)
      && (r.Panicked? ==> r.fault == IndexOutOfBounds)
      && (r.Ok? ==> r.value.materials == Flush(st) && r.value.pending == Some((P.Tokens(line)[1], Blank)))
  {
  }

  /** A `Kd r g b` line sets the albedo of the material being built to the
      solid colour (r, g, b) and changes nothing else. Its numbers are read
      first: a missing or unreadable one panics even when no material is
      being built, and with all three read, no material being built
      panics on the unwrap. */
  lemma DiffuseStep(st: State, line: string, num: P.NumberParser)
    requires KindOfText(line) == DiffuseLine
    ensures var segs := P.Tokens(line);
      var r := Step(st, line, num);
      var numbersOk := |segs| >= 4 && num(segs[1]).Some? && num(segs[2]).Some? && num(segs[3]).Some?;
      && (r.Ok? <==> numbersOk && st.pending.Some?)
      && (numbersOk && st.pending.None? ==> r == Panicked(UnwrapNone))
      && (r.Ok? ==>
            && r.value.materials == st.materials
            && r.value.pending.Some?
            && r.value.pending.value.0 == st.pending.value.0
            && r.value.pending.value.1.albedo == Some(Solid(Color(num(segs[1]).value, num(segs[2]).value, num(segs[3]).value)))
            && r.value.pending.value.1 == st.pending.value.1.(albedo := r.value.pending.value.1.albedo))
  {
  }

  /** A second `Kd` line replaces what the first one set. */
  lemma DiffuseOverrides(st: State, first: string, second: string, num: P.NumberParser)
    requires KindOfText(first) == DiffuseLine && KindOfText(second) == DiffuseLine
    requires Step(st, first, num).Ok?
    ensures Step(Step(st, first, num).value, second, num) == Step(st, second, num)
  {
  }

  /** Two states building a material of the same name and contents stay in
      step over lines that start no new material. */
  lemma {:induction false} SameBlock(s1: State, s2: State, lines: seq<string>, num: P.NumberParser)
    requires s1.pending.Some? && s1.pending == s2.pending
    requires forall i :: 0 <= i < |lines| ==> KindOfText(lines[i]) != NewMaterialLine
    ensures Run(s1, lines, num).Ok? <==> Run(s2, lines, num).Ok?
    ensures Run(s1, lines, num).Ok? ==>
      && Run(s1, lines, num).value.pending.Some?
      && Run(s1, lines, num).value.pending.value.0 == s1.pending.value.0
      && Run(s1, lines, num).value.pending == Run(s2, lines, num).value.pending
    decreases |lines|
  {
    if |lines| > 0 {
      assert KindOfText(lines[0]) != NewMaterialLine;
      var n1, n2 := Step(s1, lines[0], num), Step(s2, lines[0], num);
      assert n1.Ok? <==> n2.Ok?;
      if n1.Ok? {
        assert n1.value.pending.Some? && n1.value.pending == n2.value.pending;
        assert n1.value.pending.value.0 == s1.pending.value.0;
        SameBlock(n1.value, n2.value, lines[1..], num);
      }
    }
  }

  /** The material a `newmtl` block builds depends only on the block: from
      any two states, the block's lines leave the same material under the
      block's name once it is stored. */
  lemma BlockMaterial(s1: State, s2: State, header: string, body: seq<string>, num: P.NumberParser)
    requires KindOfText(header) == NewMaterialLine && |P.Tokens(header)| >= 2
    requires forall i :: 0 <= i < |body| ==> KindOfText(body[i]) != NewMaterialLine
    requires Run(s1, [header] + body, num).Ok? && Run(s2, [header] + body, num).Ok?
    ensures var name := P.Tokens(header)[1];
      var m1 := Flush(Run(s1, [header] + body, num).value);
      var m2 := Flush(Run(s2, [header] + body, num).value);
      name in m1 && name in m2 && m1[name] == m2[name]
  {
    var lines := [header] + body;
    assert lines[0] == header && lines[1..] == body;
    var n1, n2 := Step(s1, header, num).value, Step(s2, header, num).value;
    assert n1.pending == Some((P.Tokens(header)[1], Blank)) == n2.pending;
    assert Run(s1, lines, num) == Run(n1, body, num);
    assert Run(s2, lines, num) == Run(n2, body, num);
    SameBlock(n1, n2, body, num);
  }

  /** Reading `a + b` without a panic reads `a` without a panic and then
      `b` from where `a` left off. */
  lemma {:induction false} RunAppend(st: State, a: seq<string>, b: seq<string>, num: P.NumberParser)
    requires Run(st, a + b, num).Ok?
    ensures Run(st, a, num).Ok? && Run(st, a + b, num) == Run(Run(st, a, num).value, b, num)
    decreases |a|
  {
    if |a| == 0 {
      assert a + b == b;
    } else {
      var ab := a + b;
      assert ab[0] == a[0] && ab[1..] == a[1..] + b;
      var next := Step(st, a[0], num);
      assert next.Ok?;
      assert Run(st, ab, num) == Run(next.value, a[1..] + b, num);
      RunAppend(next.value, a[1..], b, num);
      assert Run(st, a, num) == Run(next.value, a[1..], num);
    }
  }

  /** A name already stored, and not the one being built, keeps its
      material over lines none of whose `newmtl` lines name it. */
  lemma {:induction false} StoredNameKept(st: State, lines: seq<string>, num: P.NumberParser, name: string, m: Material)
    requires name in st.materials && st.materials[name] == m
    requires st.pending.Some? ==> st.pending.value.0 != name
    requires forall i :: 0 <= i < |lines| && KindOfText(lines[i]) == NewMaterialLine && |P.Tokens(lines[i])| >= 2 ==>
      P.Tokens(lines[i])[1] != name
    requires Run(st, lines, num).Ok?
    ensures var final := Flush(Run(st, lines, num).value);
      name in final && final[name] == m
    decreases |lines|
  {
    if |lines| > 0 {
      var next := Step(st, lines[0], num).value;
      if KindOfText(lines[0]) == NewMaterialLine {
        NewMaterialStep(st, lines[0], num);
      }
      assert name in next.materials && next.materials[name] == m;
      forall i | 0 <= i < |lines[1..]| && KindOfText(lines[1..][i]) == NewMaterialLine && |P.Tokens(lines[1..][i])| >= 2
        ensures P.Tokens(lines[1..][i])[1] != name
      {
        assert lines[1..][i] == lines[i + 1];
      }
      StoredNameKept(next, lines[1..], num, name, m);
    }
  }

  /** After a `newmtl` block the material being built carries the
      block's name. */
  lemma BlockPending(s: State, header: string, body: seq<string>, num: P.NumberParser)
    requires KindOfText(header) == NewMaterialLine && |P.Tokens(header)| >= 2
    requires forall i :: 0 <= i < |body| ==> KindOfText(body[i]) != NewMaterialLine
    requires Run(s, [header] + body, num).Ok?
    ensures var t := Run(s, [header] + body, num).value;
      t.pending.Some? && t.pending.value.0 == P.Tokens(header)[1]
  {
    var blockLines := [header] + body;
    var n := Step(s, header, num).value;
    assert blockLines[0] == header && blockLines[1..] == body;
    assert Run(s, blockLines, num) == Run(n, body, num);
    SameBlock(n, n, body, num);
  }

  /** The material being built is stored under its name for good when
      the lines after it start with a `newmtl` (or there are none) and
      never name it again. */
  lemma LaterBlocksKeep(t: State, rest: seq<string>, num: P.NumberParser)
    requires t.pending.Some?
    requires |rest| > 0 ==> KindOfText(rest[0]) == NewMaterialLine
    requires forall i :: 0 <= i < |rest| && KindOfText(rest[i]) == NewMaterialLine && |P.Tokens(rest[i])| >= 2 ==>
      P.Tokens(rest[i])[1] != t.pending.value.0
    requires Run(t, rest, num).Ok?
    ensures var final := Flush(Run(t, rest, num).value);
      t.pending.value.0 in final && final[t.pending.value.0] == t.pending.value.1
  {
    var name := t.pending.value.0;
    if |rest| > 0 {
      var u := Step(t, rest[0], num).value;
      NewMaterialStep(t, rest[0], num);
      assert u.pending.value.0 != name;
      forall i | 0 <= i < |rest[1..]| && KindOfText(rest[1..][i]) == NewMaterialLine && |P.Tokens(rest[1..][i])| >= 2
        ensures P.Tokens(rest[1..][i])[1] != name
      {
        assert rest[1..][i] == rest[i + 1];
      }
      StoredNameKept(u, rest[1..], num, name, t.pending.value.1);
    }
  }

  /** From any state, the material a `newmtl` block builds is what ends
      up stored under its name when the lines after the block start with a
      `newmtl` (or there are none) and never name it again. */
  lemma BlockWins(s: State, header: string, body: seq<string>, rest: seq<string>, num: P.NumberParser)
    requires KindOfText(header) == NewMaterialLine && |P.Tokens(header)| >= 2
    requires forall i :: 0 <= i < |body| ==> KindOfText(body[i]) != NewMaterialLine
    requires |rest| > 0 ==> KindOfText(rest[0]) == NewMaterialLine
    requires forall i :: 0 <= i < |rest| && KindOfText(rest[i]) == NewMaterialLine && |P.Tokens(rest[i])| >= 2 ==>
      P.Tokens(rest[i])[1] != P.Tokens(header)[1]
    requires Run(s, [header] + body + rest, num).Ok?
    ensures Run(s, [header] + body, num).Ok?
    ensures var name := P.Tokens(header)[1];
      var block := Run(s, [header] + body, num).value;
      var final := Flush(Run(s, [header] + body + rest, num).value);
      && block.pending.Some? && block.pending.value.0 == name
      && name in final && final[name] == block.pending.value.1
  {
    RunAppend(s, [header] + body, rest, num);
    BlockPending(s, header, body, num);
    LaterBlocksKeep(Run(s, [header] + body, num).value, rest, num);
  }

  /** `HashMap::insert` replaces: the material `parse` stores under a name
      is the one built by the last `newmtl` block of that name. The file's
      lines are `prefix`, then the block (`header` and the lines up to the
      next `newmtl`), then `rest`, which starts with a `newmtl` line if it
      is not empty and never names the block's name again. */
  lemma LastBlockWins(prefix: seq<string>, header: string, body: seq<string>, rest: seq<string>, num: P.NumberParser)
    requires KindOfText(header) == NewMaterialLine && |P.Tokens(header)| >= 2
    requires forall i :: 0 <= i < |body| ==> KindOfText(body[i]) != NewMaterialLine
    requires |rest| > 0 ==> KindOfText(rest[0]) == NewMaterialLine
    requires forall i :: 0 <= i < |rest| && KindOfText(rest[i]) == NewMaterialLine && |P.Tokens(rest[i])| >= 2 ==>
      P.Tokens(rest[i])[1] != P.Tokens(header)[1]
    requires Run(Initial, prefix + ([header] + body + rest), num).Ok?
    ensures Run(Initial, prefix, num).Ok?
    ensures Run(Run(Initial, prefix, num).value, [header] + body, num).Ok?
    ensures var name := P.Tokens(header)[1];
      var block := Run(Run(Initial, prefix, num).value, [header] + body, num).value;
      var stored := Flush(Run(Initial, prefix + ([header] + body + rest), num).value);
      && block.pending.Some? && block.pending.value.0 == name
      && name in stored && stored[name] == block.pending.value.1
  {
    RunAppend(Initial, prefix, [header] + body + rest, num);
    BlockWins(Run(Initial, prefix, num).value, header, body, rest, num);
  }
}
