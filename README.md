# raytracer — a Dafny model of its discrete core

This project models the parts of the `raytracer` Rust crate that are not floating-point geometry.

- **The frame buffer** (`Frames`): a row-major array of colours with `index` / `pos_from_index` and in-place `set` / `get`.
- **4x4 matrices** (`Matrices`): column-major storage of 16 entries, in-place `transpose`, entrywise `+`, `-`, scalar `*`, and the triple-loop product.
- **The numeric helpers** (`Utils`): `clamp` and `avg`.
- **The checkerboard texture** (`Textures`): its cell-parity rule.
- **The Wavefront OBJ line parser** (`ObjParser`): `parse`, `parse_line` and `parse_face_vertex`.
- **The OBJ mesh importer** (`ObjImporter`): the line fold of `import_obj` and the importer's own `parse`.
- **The MTL reader** (`MtlParser`): a `newmtl` / `Kd` state machine that builds a name-to-material map.
- **The integrator's ray casting** (`Cast`): the nearest-hit scan of `cast_ray` and the rejection-sampling loop of `get_sample_rays`.
- **The renderer's driver** (`Render`):
  - the square image is cut into `rcc x rcc` tiles of `cell_size` pixels a side;
  - each tile's pixels are shaded and written by `ray_trace_cell`;
  - tiles are counted as they finish.

Floats are modelled as exact reals. The string functions the parsers rely on are modelled in `Text`: `str::split` on one character, `str::trim` and `usize::from_str`.

Rust panics are modelled as values, not as preconditions, except where a line under "## Left out" says otherwise (the frame's `set`, the matrix accessors and `ray_trace_cell`'s rectangle). An operation that can panic returns `Outcome<T>`, which is `Ok(value)` or `Panicked(fault)`. The fault is one of:
- an index past the end;
- an `unwrap` of `None`;
- a `usize` subtraction below zero;
- an integer division by zero.

Things the code calls but that are not part of this model are parameters of the operations that need them:
- the decimal-number parser `f32::from_str`;
- the per-object intersection test, the distance of a hit and the material's `shade`;
- the random ray source;
- the colour a pixel's ray produces.

Some constants are parameters too:
- `RESOLUTION` (64 in `fidelity_consts.rs`), `SAMPLE_COUNT` (32) and `MAX_DEPTH` (2) are defined by the source. The model takes them as the parameters `resolution`, `count` and `depth`, so the proofs hold for every value.
- `RESOLUTION_X`, `RESOLUTION_Y` and `CELLS` are used but not defined in `fidelity_consts.rs`. They are the frame's `width` and `height` and the driver's `cells`.

The methods are proved against specification functions:
- `Collect` / `Parse` against `Each` / `ParseLines`;
- `ImportLines` against `Fold`;
- `MtlParser.Parse` against `Run` / `Materials`;
- `Matrix.Transpose` and `Matrix.Mul` against `Transposed` and `Product`.

Lemmas then state what the source promises about those functions.

## Model

| member | source | states |
|---|---|---|
| Common.Scale | src/color.rs:6-16 | scaling by 1 keeps a colour, scaling by 0 gives black |
| Utils.Clamp | src/utils.rs:2-6 | below `min` gives `min` (even with inverted bounds); at or above `min` and above `max` gives `max`; inside `[min,max]` gives the value; with `min <= max` the result lies in `[min,max]` |
| Utils.ClampIdempotent | src/utils.rs:2-6 | with `min <= max`, clamping twice equals clamping once |
| Utils.ClampInvertedBounds | src/utils.rs:2-6 | with `max < min` the result is `min` below `min` and `max` otherwise |
| Utils.Avg | src/utils.rs:8-10 | the result is equally far from both arguments and lies between them |
| Utils.AvgSymmetric | src/utils.rs:8-10 | `avg(a,b) == avg(b,a)` |
| Frames.PosFromIndex | src/frame.rs:65-67 | for every index, the column is below the row width and `index(pos_from_index(i)) == i` |
| Frames.Index | src/frame.rs:61-63 | a pixel whose column is below the width lies in its row's band `[y*width, y*width + width)` of the buffer |
| Frames.IndexInjective | src/frame.rs:61-63 | with both columns below the width, equal indices mean equal pixels |
| Frames.PosFromIndexOfIndex | src/frame.rs:61-67 | `pos_from_index(index(x,y)) == (x,y)` whenever `x` is below the width |
| Frames.IndexInBuffer | src/frame.rs:61-63 | a pixel inside a `width x height` image has an index inside a `width*height` buffer |
| Frames.IndicesInBuffer | src/frame.rs:61-63 | the same, for every pixel at once |
| Frames.Frame.constructor | src/frame.rs:47-51 | a fresh buffer of `width*height` cells, all black |
| Frames.Frame.Get | src/frame.rs:57-59 | a colour exactly when the pixel's index is inside the buffer, a panic otherwise |
| Frames.Frame.Set | src/frame.rs:53-55 | afterwards `get(x,y)` is the new colour, and every other buffer cell and every other pixel of the row-major grid keeps its colour; the source panics when the index is past the end, which is required here |
| Matrices.IndexFor | src/matrix.rs:33-35 | inside the 4x4 grid the slot is below 16, its remainder by 4 is the row and its quotient the column |
| Matrices.IndexForBijective | src/matrix.rs:33-35 | `row + col*4` maps the 4x4 grid one-to-one onto `0..16` |
| Matrices.IdentityEntries | src/matrix.rs:5-12 | `IDENTITY` has 1 on the diagonal and 0 elsewhere under the column-major layout |
| Matrices.Transposed | src/matrix.rs:59-67 | entry (r,c) of the transpose is entry (c,r) of the original |
| Matrices.TransposedTwice | src/matrix.rs:69-73 | transposing twice gives the original back |
| Matrices.TransposedDiagonal | src/matrix.rs:59-67 | diagonal entries do not move |
| Matrices.SumDifference | src/matrix.rs:77-102 | subtracting `b` after adding `b` gives the original matrix |
| Matrices.ProductEntry | src/matrix.rs:103-123 | entry (r,c) of the product is the sum over n of a(r,n)·b(n,c) |
| Matrices.ProductIdentityLeft | src/matrix.rs:103-123 | `identity * b == b` |
| Matrices.ProductIdentityRight | src/matrix.rs:103-123 | `a * identity == a` |
| Matrices.TestMul | src/matrix.rs:138-165 | the product asserted by `test_mul` holds under the column-major layout |
| Matrices.Matrix.constructor | src/matrix.rs:23-27 | `Matrix::new` holds sixteen zeros |
| Matrices.Matrix.Identity | src/matrix.rs:29-31 | `Matrix::identity` holds the `IDENTITY` entries |
| Matrices.Matrix.Get | src/matrix.rs:37-39 | inside the grid, entry (row,col) of the column-major contents; outside it, the entry that the slot `row + col*4` names, so a row past 3 runs on into a later column |
| Matrices.Matrix.Set | src/matrix.rs:45-47 | afterwards `get(row,col)` is the new value and no other slot changes |
| Matrices.Matrix.Transpose | src/matrix.rs:59-67 | the new contents are the transpose of the old ones |
| Matrices.Matrix.Transposition | src/matrix.rs:69-73 | a fresh matrix holding the transpose; `self` is untouched |
| Matrices.Matrix.Copy | src/matrix.rs:70 | `clone` gives a fresh matrix with equal contents |
| Matrices.Matrix.Add | src/matrix.rs:77-89 | a fresh matrix holding the entrywise sum |
| Matrices.Matrix.Sub | src/matrix.rs:90-102 | a fresh matrix holding the entrywise difference |
| Matrices.Matrix.MulScalar | src/matrix.rs:124-136 | a fresh matrix holding every entry times the scalar |
| Matrices.ScaledOne | src/matrix.rs:124-136 | multiplying every entry by 1 gives the original matrix |
| Matrices.ScaledSum | src/matrix.rs:124-136 | scaling a sum is the sum of the scaled matrices |
| Matrices.Matrix.Mul | src/matrix.rs:103-123 | a fresh matrix holding the matrix product |
| Textures.CellIndex | src/texture_checkered.rs:37-40 | `x as u32` truncates non-negative values to their floor and saturates at 0 and `u32::MAX` |
| Textures.NewCheckered | src/texture_checkered.rs:17-24 | an 8x8 board of white and black |
| Textures.FromColors | src/texture_checkered.rs:25-32 | an 8x8 board of the two given colours, in order |
| Textures.CheckeredColorAt | src/texture_checkered.rs:36-45 | always one of the two colours; with distinct colours, the first one exactly when the two cell indices have the same parity |
| Textures.CheckeredSymmetric | src/texture_checkered.rs:37-40 | swapping u and v changes nothing, since both are scaled by `cols` |
| Textures.CheckeredIgnoresRows | src/texture_checkered.rs:37-40 | `rows` has no effect on the colour |
| Textures.CheckeredNeighbourFlips | src/texture_checkered.rs:37-44 | moving one cell along an axis swaps the colour |
| Textures.CheckeredTestPoints | src/texture_checkered.rs:49-59 | the test's sample points give white at (0.01,0.01) and (0.4,0.4) and black at the two others |
| Textures.ColorAt | src/texture_solid.rs:22-24 | a solid texture gives its colour everywhere; a checkerboard gives one of its two colours |
| Text.Split | src/obj_parser.rs:5 | `str::split` gives at least one piece, and no piece holds the separator |
| Text.JoinSplit | src/obj_parser.rs:5 | joining the pieces with the separator gives the input back |
| Text.SplitJoin | src/obj_parser.rs:41 | splitting separator-free pieces joined by the separator gives the pieces back |
| Text.Trim | src/obj_parser.rs:13 | the result neither starts nor ends with whitespace |
| Text.TrimSlice | src/obj_parser.rs:13 | the result is a contiguous slice of the input, and everything dropped before and after it is whitespace |
| Text.TrimStart | src/obj_parser.rs:13 | a suffix of the input; everything dropped is whitespace |
| Text.TrimEnd | src/obj_parser.rs:13 | a prefix of the input; everything dropped is whitespace |
| Text.ParseUsize | src/obj_parser.rs:44 | a result is below 2^64; the empty string, a lone `+` and a non-digit start give `None` |
| Text.ParseDecimal | src/obj_parser.rs:44 | every `usize` written in decimal parses back to itself |
| ObjParser.KindOf | src/obj_parser.rs:15-36 | a first token that is not one of `#`, `o`, `v`, `vn`, `vt`, `f`, `usemtl` is an unknown line |
| ObjParser.KeywordKindRoundTrip | src/obj_parser.rs:15-36 | keywords and line kinds correspond one to one |
| ObjParser.Tokens | src/obj_parser.rs:13 | at least one token, none holding a space, and joining them with spaces gives the trimmed line back |
| ObjParser.Field | src/obj_parser.rs:16 | `segments[i]` is the token when it exists and panics otherwise |
| ObjParser.Number | src/obj_parser.rs:19 | a number exactly when the token exists and parses |
| ObjParser.ParseFaceVertex | src/obj_parser.rs:40-47 | an unreadable vertex field panics on `unwrap`; a vertex field of 0 underflows; fewer than three `/` fields panic; otherwise the stored vertex is the field minus 1, and the texture and normal are fields 2 and 3 read as optional numbers, any further fields ignored |
| ObjParser.FaceVertexRoundTrip | src/obj_parser.rs:40-47 | a face corner written as `v/t/n` with a 1-based vertex parses back to itself, including empty texture and normal fields |
| ObjParser.ParseFaceVertexOfFields | src/obj_parser.rs:40-47 | a segment of three fields, the first a positive number, gives the first minus 1 and the other two as optional numbers |
| ObjParser.FormattedFields | src/obj_parser.rs:40-41 | a face corner written as `v/t/n` is left alone by `trim` and splits on `/` into its three fields |
| ObjParser.NameField | src/obj_parser.rs:16-17 | the second token when it exists, an index panic otherwise |
| ObjParser.ThreeNumbers | src/obj_parser.rs:18-21 | three numbers exactly when the three tokens after the keyword exist and parse |
| ObjParser.TwoNumbers | src/obj_parser.rs:26-28 | two numbers exactly when the two tokens after the keyword exist and parse |
| ObjParser.ThreeCorners | src/obj_parser.rs:29-32 | three face corners exactly when the three tokens after `f` exist and parse as corners |
| ObjParser.ParseLine | src/obj_parser.rs:12-38 | a line whose first token is no keyword is `Unknown`; a parsed line has the kind its first token names |
| ObjParser.DispatchKind | src/obj_parser.rs:14-37 | a parsed line has the kind of its keyword, except that `usemtl` is `Unknown` when the caller does not read materials |
| ObjParser.Dispatch | src/obj_parser.rs:36 | a line whose first token is no keyword is `Unknown` |
| ObjParser.DispatchOther | src/obj_parser.rs:36 | any other first token, including the empty line's, gives `Unknown` and never panics |
| ObjParser.DispatchName | src/obj_parser.rs:16-17 | `#`, `o` and `usemtl` keep the second token and panic without one |
| ObjParser.DispatchVertex | src/obj_parser.rs:18-21 | `v` needs three parseable tokens and keeps their values in order |
| ObjParser.DispatchNormal | src/obj_parser.rs:22-25 | `vn` needs three parseable tokens and keeps their values in order |
| ObjParser.DispatchTexture | src/obj_parser.rs:26-28 | `vt` needs two parseable tokens and keeps their values in order |
| ObjParser.DispatchFace | src/obj_parser.rs:29-32 | `f` needs three parseable face corners and keeps them in order |
| ObjParser.BlankLineUnknown | src/obj_parser.rs:13-15 | an empty or all-whitespace line is `Unknown` |
| ObjParser.VertexDoubleSpacePanics | src/obj_parser.rs:13 | two spaces inside a vertex line leave an empty token where a number should be, and the line panics |
| ObjParser.EachOk | src/obj_parser.rs:5-7 | the per-line loop succeeds exactly when every line does, and then holds one result per line, in order |
| ObjParser.EachFirstPanic | src/obj_parser.rs:5-7 | a failed loop reports the panic of the first failing line |
| ObjParser.ParseLinesSpec | src/obj_parser.rs:2-10 | one parsed line per `"\n"` piece, in input order, exactly when every line parses; otherwise the first line's panic |
| ObjParser.Collect | src/obj_parser.rs:3-9 | the pushing loop computes the per-line parse |
| ObjParser.Parse | src/obj_parser.rs:2-10 | `parse` is the per-line parse of the `"\n"` pieces of the input |
| ObjImporter.ParseLine | src/obj_importer.rs:27-51 | `usemtl` lines and lines without a keyword are `Unknown`; every other parsed line has the kind its first token names |
| ObjImporter.ParseLineAgrees | src/obj_importer.rs:27-51 | the importer's `parse` equals `obj_parser::parse_line` except that `usemtl` lines are `Unknown` |
| ObjImporter.Absorb | src/obj_importer.rs:15-18 | a line that is neither a vertex nor a face leaves the mesh unchanged |
| ObjImporter.FilterCons | src/obj_importer.rs:15-18 | absorbing one line and then the rest is absorbing the whole list |
| ObjImporter.FoldIsFilteredParse | src/obj_importer.rs:14-20 | the import is the per-line parse filtered: the vertices of the `v` lines and the faces of the `f` lines, in order, appended to the starting mesh; or the first panic |
| ObjImporter.FilteredCounts | src/obj_importer.rs:14-20 | one vertex per vertex line and one face per face line |
| ObjImporter.OtherLinesAddNothing | src/obj_importer.rs:18 | comments, objects, normals, texture coordinates and unknown lines add nothing |
| ObjImporter.DanglingFaceKept | src/obj_importer.rs:17 | a face's vertex indices are stored as parsed, unchecked against the vertex list |
| ObjImporter.ImportLines | src/obj_importer.rs:12-20 | the loop pushing onto `mesh.vertices` and `mesh.faces` computes the fold from `Mesh::new()` |
| ObjImporter.ImportObj | src/obj_importer.rs:7-25 | `import_obj` on the file's text is the fold of its `"\n"` pieces |
| ObjImporter.FoldCounts | src/obj_importer.rs:14-20 | the import succeeds exactly when every line parses, and then has one vertex per vertex line and one face per face line |
| ObjImporter.ParsedKind | src/obj_importer.rs:30-51 | a parsed line is a vertex exactly when its first token is `v`, and a face exactly when it is `f` |
| ObjImporter.ParsedLinesOfKind | src/obj_importer.rs:14-20 | among lines that all parse, the vertex lines are the `v` lines and the face lines the `f` lines |
| ObjImporter.ImportCounts | src/obj_importer.rs:7-25 | the mesh has as many vertices as the file has `v` lines and as many faces as `f` lines, and the import succeeds exactly when every line parses |
| MtlParser.KindOf | src/mtl_parser.rs:30-87 | `newmtl` starts a material, `Kd` sets a colour, every other token is ignored |
| MtlParser.Flush | src/mtl_parser.rs:91-93 | the pending material is stored under its name, replacing an earlier one; other names are kept |
| MtlParser.Step | src/mtl_parser.rs:28-88 | an ignored line changes nothing; `newmtl` stores the pending material and starts a blank one; any other line keeps the stored map and the pending name |
| MtlParser.Parse | src/mtl_parser.rs:23-96 | the loop over lines with the pending material and the final flush computes the state machine's map |
| MtlParser.ReadLine | src/mtl_parser.rs:28-88 | one turn of the loop over lines computes exactly the state machine's step, panics included |
| MtlParser.RunNames | src/mtl_parser.rs:27-89 | reading lines adds exactly the names that follow `newmtl` |
| MtlParser.Materials | src/mtl_parser.rs:23-96 | when `parse` returns, the keys of its map are exactly the names that follow `newmtl` |
| MtlParser.NoNewMaterialNoMaterials | src/mtl_parser.rs:23-27 | input without a `newmtl` line gives an empty map |
| MtlParser.NamesWithoutNewMaterial | src/mtl_parser.rs:31 | without `newmtl` lines there are no names |
| MtlParser.EmptyInput | src/mtl_parser.rs:23-27 | empty input gives an empty map |
| MtlParser.IgnoredLinesKeepState | src/mtl_parser.rs:87 | lines with any other first token change nothing |
| MtlParser.NewMaterialStep | src/mtl_parser.rs:31-46 | `newmtl name` stores the pending material, then starts a blank one named `name`; without a name it panics |
| MtlParser.DiffuseStep | src/mtl_parser.rs:47-53 | `Kd r g b` sets the pending albedo to `Solid(Color(r,g,b))` and nothing else; missing numbers panic first, and no pending material panics on `unwrap` |
| MtlParser.DiffuseBeforeNewMaterialPanics | src/mtl_parser.rs:48 | a `Kd` line before any `newmtl` panics |
| MtlParser.DiffuseOverrides | src/mtl_parser.rs:47-53 | a later `Kd` overrides an earlier one |
| MtlParser.SameBlock | src/mtl_parser.rs:47-87 | lines that start no material evolve the pending material the same way whatever was stored before |
| MtlParser.BlockMaterial | src/mtl_parser.rs:31-53 | the material a `newmtl` block builds does not depend on what came before the block |
| MtlParser.RunAppend | src/mtl_parser.rs:27-89 | reading two runs of lines one after the other is reading them together |
| MtlParser.BlockWins | src/mtl_parser.rs:31-93 | from any state, a block followed only by blocks of other names leaves its material stored under its name |
| MtlParser.LastBlockWins | src/mtl_parser.rs:23-96 | in a whole file that `parse` reads without panicking, the material stored under a name is the one built by that name's last `newmtl` block, whatever came before it |
| Cast.NearestUnique | src/cast.rs:30 | at most one object is the nearest |
| Cast.FindNearest | src/cast.rs:22-37 | the index is present exactly when the hit is; it is absent exactly when no object is hit; the chosen object's distance is minimal, and every earlier hit object is strictly farther, so the first of equal hits wins |
| Cast.CastRay | src/cast.rs:19-50 | depth 0 gives the background; no hit gives the background; otherwise the nearest object's `shade`, called with the same depth |
| Cast.Accepted | src/cast.rs:61-64 | no more accepted draws than draws, and every one passes the predicate |
| Cast.AcceptedPrefix | src/cast.rs:57-65 | the draws accepted from a prefix are a prefix of those accepted from all |
| Cast.AcceptedExactly | src/cast.rs:61-64 | a draw is accepted exactly when it passes the predicate |
| Cast.SampleRays | src/cast.rs:53-68 | the array holds the first `SAMPLE_COUNT` accepted draws in acceptance order, when there are that many |
| Render.RoundSqrt | src/bin/main.rs:57 | the tile count `r` is the rounded square root: `r*r - r < cells <= r*r + r`, or 0 for no cells |
| Render.RoundSqrtUnique | src/bin/main.rs:57 | that bound determines the tile count |
| Render.RoundSqrtOfSquare | src/bin/main.rs:57 | a perfect square `n*n` gives exactly `n` |
| Render.CellSize | src/bin/main.rs:57-58 | no tiles divide by zero; otherwise `cell_size` is the integer quotient of the resolution by the tile count |
| Render.TileOf | src/bin/main.rs:77-80 | a coordinate lies in tile `p / cell_size` |
| Render.TilesDisjoint | src/bin/main.rs:73-81 | distinct tiles share no pixel |
| Render.TilesCover | src/bin/main.rs:65-81 | the union of the tiles is the square `[0, rcc*cs)^2` |
| Render.FullCoverage | src/bin/main.rs:57-58 | with a perfect-square cell count whose root divides the resolution, the tiles cover the whole image |
| Render.Shaded | src/bin/main.rs:114 | the written colour is the illumination colour scaled by the intensity clamped to `[0,1]` |
| Render.VisitsExactlyOnce | src/bin/main.rs:105-116 | the pixel loop visits every pixel of its rectangle, nothing outside it, and no pixel twice |
| Render.TraceColumn | src/bin/main.rs:106-116 | one column of a tile is shaded, in order, and no other pixel changes |
| Render.RayTraceCell | src/bin/main.rs:102-118 | every pixel of the rectangle gets its shaded colour, in visiting order, and no other pixel changes |
| Render.TraceTileColumn | src/bin/main.rs:66-81 | one column of tiles is traced and counted, and no other pixel changes |
| Render.TraceTiles | src/bin/main.rs:65-90 | from an all-black square frame, `rcc*rcc` tiles are counted and each pixel ends shaded inside `[0, rcc*cs)^2` and black outside it |
| Render.RayTrace | src/bin/main.rs:36-97 | no tiles panic on the division; otherwise `rcc*rcc` tiles are counted, the pixels of `[0, rcc*cs)^2` are shaded and the rest stay black |

## Left out

- `Matrix::invert` / `inverse` are `unimplemented!` and always panic. Their bodies hold nothing to model.
- The camera:
  - `pixel_to_world` / `pixel_to_ray` and the camera matrix constructors are not part of this model;
  - the colour of a pixel is a parameter `render(x, y)` of the driver.
- f32 semantics:
  - rounding, NaN and infinities are not modelled; floats are exact reals;
  - in the source a hit at infinite or NaN distance is never chosen, because it is not below `INFINITY`; here every hit has a real distance;
  - `(CELLS as f32).sqrt().round()` is computed over exact reals.
- `Common.Scale`: the `u8` colour of `color.rs`, with its rounding cast, comes from a different revision of the source than the `f32` colour used elsewhere. The model scales real channels without rounding.
- Threads, I/O and randomness:
  - `crossbeam` threads, the `Mutex` / `Arc` wrappers, the timing and the progress output are not modelled: the renderer's `print!`s and the `println!("Loading obj...")` and `println!("done")` of `import_obj` (src/obj_importer.rs:10, 22);
  - tiles are traced one after another, in the loops' order;
  - the per-tile `SmallRng` seeding is not modelled: `render` is deterministic per pixel;
  - `write_image`, `load_and_parse` and the file read in `import_obj` are not modelled: the readers take the file's text.
- `Text.IsWhitespace` follows Unicode's White_Space list, but no other Unicode behaviour is modelled.
- `Text.ParseUsize` assumes a 64-bit `usize`.
- `ObjParser.ParseFaceVertex`: a face index of 0 is modelled as the debug build's overflow panic. A release build would wrap to `usize::MAX`.
- `Matrices.Matrix.Get`: the slice-index panic for a slot past 16 is a precondition, not a modelled panic. Every caller in `matrix.rs` passes a row and column below 4, which always meets it.
- `Matrices.Matrix.Set`: the same precondition replaces the slice-index panic, and every caller meets it. `Matrix::get_mut` is not modelled separately. It hands out the same slot that `Set` writes.
- `Frames.Frame.Set` requires the index to be inside the buffer instead of modelling the slice-index panic. `Frame::get` does model it.
- `Render.RayTraceCell` requires the rectangle to lie inside the frame. Pixels whose column is past the row width, which alias pixels of the next row, are not modelled. `ray_trace` only asks for rectangles inside the image.
- Index arithmetic overflowing `usize` is not modelled.
- `Frames.Frame.constructor` takes the width and height as parameters, as `bin/main.rs` calls it. This revision's `frame.rs` takes no arguments and reads `TOTAL_BUFFER_SIZE`.
- `Cast.SampleRays` draws from a finite sequence of random rays. It returns `None` when the draws run out, where the source would keep drawing forever.
- `Cast.SampleRays` takes the predicate as a pure function of the draw, while the source passes it `&mut Intersection` (src/cast.rs:53, 61). A predicate that mutated the intersection is not modelled. The draws here do not depend on `intersection.position`, which the source reads on every turn (src/cast.rs:58).
- `Cast.CastRay` folds the hit's `uv`, the object list and the RNG that `shade` receives into the `shade` parameter.
- `MtlParser.Material`: this revision's `Material` type is a different shape. The record here holds the five texture channels `mtl_parser.rs` fills in, each as a texture value.
- `ObjImporter.Mesh` holds only the vertex and face lists the importer fills. The mesh's position, material and uv fields are not modelled.
- The importer's own `parse_face_vertex` (src/obj_importer.rs:53-60) is text-identical to the parser's. The model uses `ObjParser.ParseFaceVertex` for both.
- `texture_checkered.rs`'s test expects grey `(0.5, 0.5, 0.5)` at two of its points, but `TextureCheckered::new()` has no grey. `Textures.CheckeredTestPoints` proves the colours the code gives.
- Texture images (`texture_image.rs`) are not part of this model. `TextureSolid` and `TextureBlank` are the `Solid` variant of `Textures.Texture`.
