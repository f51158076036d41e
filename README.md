# bsp2minimap core, modelled in Dafny

bsp2minimap turns a parsed Quake BSP level into a top-down SVG minimap. This
project models the geometry and colour pipeline of `src/lib.rs`, which sits
between the level parser and the SVG writer:

- **Texture filtering** (`Textures`). A face is dropped when its texture name is
  exactly "clip", "hint", "trigger" or "163", or when it contains "sky", "light",
  "tech" or "wood". Matching is case-sensitive.
- **Painter's order** (`Ordering`, `StableSort`). For each kept face, the smallest
  coordinate of its vertices along the view axis is memoised in a map keyed by
  the face's edge-list index. The kept faces are then sorted stably by that
  minimum.
- **Axis projection** (`Geometry`). A vertex maps to (y, z) looking along X, to
  (x, z) along Y and to (x, -y) along Z, one point per vertex at the same index.
- **Drawable faces and polygons** (`Drawing`). Each face becomes the projected
  points of its vertex indexes, its texture name, and the smallest and largest
  3D z of its vertices. Each drawable face then becomes a polygon filled with its
  texture's colour.
- **Colours** (`Colors`, `Fill`). Each texture gets the truncated mean of each
  channel of its interleaved RGB raster. The fill is written `#rrggbb` in
  lowercase hex, or `#ffffff` for a texture with no colour.
- **ViewBox** (`Viewport`). The extent of all projected vertices, padded by 100
  units on every side.
- **The conversion** (`Convert.ConvertLevel`). It ties these steps together for
  the Z axis, which is the axis `convert` always uses.

Inputs the parser and the texture decoder would provide are parameters:

- a `Level` holds the vertices, the faces and the texture names;
- a `Face` holds its edge-list index, its vertex indexes and its texture's name;
- each texture comes with its raster as a byte sequence, or `None` when it
  cannot be read.

A face's vertices (`get_face_vertices`) are taken to be the level's vertices at
the face's vertex indexes (`get_face_vertice_indexes`); `Levels.FaceVertices`
is that lookup, and both the depth minimum and the z range are taken over it.

Where the source panics, the model has a precondition. The conversion reads
every texture first and returns a read failure before any of these panics can
happen, so `Convert.ConvertLevel` demands them only once every raster was read:

- every kept face has at least one vertex (the `unwrap` of the minimum and
  maximum reductions);
- every vertex index addresses a vertex;
- the level has at least one vertex (the viewBox reductions).

Coordinates are `real`, so there is no NaN and `partial_cmp(..).unwrap()`
cannot fail. The error cases the source returns are modelled as a `Result`: a
texture whose raster cannot be read aborts the conversion.

Two consequences of the code show up in the proofs:

- The "skip empty" filter on drawable faces never drops anything. A face with
  no vertices has already panicked in the minimum computation and in the z
  reductions. `Drawing.BuildDrawables` proves one drawable face per face.
- The mean colour divides the channel sum by a third of the buffer length, as
  a float. An empty buffer therefore gives NaN, which the cast turns into 0. A
  length that is not a multiple of three also counts the leftover bytes in the
  divisor. `Colors.MeanChannel` models exactly this (in exact arithmetic), so no
  precondition on the length is needed. A uniform raster gives back its colour
  when the length is a positive multiple of three.

On a kept face with no vertices the code panics (the `unwrap`s at
src/lib.rs:196, 83 and 88); the model states this as a precondition.

## Model

| member | source | states |
|---|---|---|
| `Levels.FaceVertices` | src/lib.rs:190 | a face's vertices are the level's vertices at its indexes, one per index, in order |
| `Reductions.MinOf` | src/lib.rs:192-196 | `reduce(f32::min).unwrap()` on a non-empty sequence yields one of its values, at most every value |
| `Reductions.MaxOf` | src/lib.rs:79-83 | `reduce(f32::max).unwrap()` on a non-empty sequence yields one of its values, at least every value |
| `Reductions.MinAtMostMax` | src/lib.rs:79-88 | the minimum of a face's z values never exceeds their maximum |
| `Geometry.Project` | src/lib.rs:35-39 | the per-vertex projection closure; `Geometry.Unproject` is its inverse and `Geometry.ProjectInjectiveAtDepth` its injectivity |
| `Geometry.Unproject` | src/lib.rs:35-39 | a point plus the dropped depth rebuilds a vertex that projects back to the point with that depth |
| `Geometry.ProjectAll` | src/lib.rs:35-39 | one point per vertex at the same index: (y,z) for X, (x,z) for Y, (x,-y) for Z; each point with its vertex's depth rebuilds the vertex |
| `Geometry.ProjectInjectiveAtDepth` | src/lib.rs:35-39 | at equal depth, two vertices project to the same point exactly when they are equal |
| `Textures.Contains` | src/lib.rs:229 | `str::contains` as a left-to-right scan; its meaning, an occurrence at some position, is `Textures.ContainsIff` |
| `Textures.IsIgnoredTexture` | src/lib.rs:221-230 | the ignore rule; what it accepts is stated by `Textures.IgnoredTextureIff` and the three example lemmas |
| `Textures.ContainsIff` | src/lib.rs:228-229 | the left-to-right substring scan holds exactly when the needle occurs at some position |
| `Textures.IgnoredTextureIff` | src/lib.rs:221-230 | a name is ignored iff it is "clip", "hint", "trigger" or "163", or "sky", "light", "tech" or "wood" occurs in it |
| `Textures.ExactNameIgnored` | src/lib.rs:222-226 | each of the four exact names is ignored |
| `Textures.NeedleNameIgnored` | src/lib.rs:228-229 | names containing a needle ("sky1", "wood_floor") are ignored |
| `Textures.OrdinaryNamesKept` | src/lib.rs:221-230 | "wall" and "metal" are kept, and "CLIP" is kept because matching is case-sensitive |
| `Textures.FilterFaces` | src/lib.rs:210-219 | the kept faces come from the input and none has an ignored texture |
| `Textures.FilterFacesCount` | src/lib.rs:210-219 | a face with a kept texture occurs as often as in the input; one with an ignored texture never occurs |
| `Textures.FilterFacesAppend` | src/lib.rs:210-219 | filtering commutes with concatenation, so the input order is kept |
| `Textures.FilterFacesKeepsAll` | src/lib.rs:210-219 | a face list with no ignored texture passes unchanged |
| `StableSort.SortBy` | src/lib.rs:202-206 | the sorted faces are a permutation of the input with keys non-decreasing |
| `StableSort.SortByStable` | src/lib.rs:202-206 | for every key, the elements with that key keep their input order (stability) |
| `StableSort.SortByUnique` | src/lib.rs:202-206 | any sorted arrangement that keeps each key's elements in order equals `SortBy`, so the choice of stable algorithm does not matter |
| `StableSort.SortByCongruent` | src/lib.rs:202-206 | comparators that agree on every element sort the same way, so memo lookups can stand for recomputed minimums |
| `Ordering.FaceMinimum` | src/lib.rs:190-196 | a face's minimum along the axis (x for X, y for Y, z for Z) is one of its vertices' coordinates and at most all of them |
| `Ordering.ComputeMinimums` | src/lib.rs:187-200 | the memo's keys are the faces' edge-list indexes; a later face overwrites an earlier one with the same key; with unique keys each lookup is the face's own minimum |
| `Ordering.FilterAndSortFaces` | src/lib.rs:184-208 | the result is the kept faces stably sorted by their own minimum along the axis |
| `Ordering.PaintersOrder` | src/lib.rs:184-208 | that order is a permutation of the kept faces, adjacent minimums are non-decreasing, and faces with equal minimums keep filter order |
| `Colors.MeanChannel` | src/lib.rs:57-62 | the division by a third of the length and the `as u32` cast, in exact arithmetic; its range and floor meaning are `Colors.MeanChannelRange` and `Colors.MeanChannelIsFloor` |
| `Colors.MeanColorOf` | src/lib.rs:49-62 | the three mean channels of a raster; `Colors.UniformMean` states that a uniform raster gives back its colour |
| `Colors.MeanChannelRange` | src/lib.rs:49-62 | every mean channel lies in 0..255 |
| `Colors.MeanChannelIsFloor` | src/lib.rs:52-62 | for whole texels the channel is the floor of the average: n*mean <= sum < n*(mean+1) |
| `Colors.UniformMean` | src/lib.rs:49-62 | a raster of whole texels all (c0,c1,c2) averages to exactly (c0,c1,c2) |
| `Colors.MeanColor` | src/lib.rs:49-62 | the accumulation loop and the division give the truncated per-channel mean, 0 for an empty buffer |
| `Colors.BuildColorTable` | src/lib.rs:42-63 | fails exactly when some raster cannot be read, naming the first; otherwise it maps every texture name to the mean colour of the last texture with that name |
| `Fill.DigitValue` | src/lib.rs:114-117 | reading a lowercase hex digit back gives a value below 16 that writes to the same digit |
| `Fill.Hex2` | src/lib.rs:114-117 | `{:02x}` gives two lowercase hex digits, most significant first, whose value is the byte |
| `Fill.FillColor` | src/lib.rs:109-117 | the fill is '#' and six lowercase hex digits, and reading it back gives the texture's colour, or white when it has none |
| `Fill.FillInjective` | src/lib.rs:109-117 | different colours never share a fill |
| `Fill.MissingTextureIsWhite` | src/lib.rs:109-111 | a texture missing from the colour table is filled "#ffffff" |
| `Fill.FillExample` | src/lib.rs:113-117 | the colour (10,20,30) is written "#0a141e" |
| `Drawing.MakeDrawable` | src/lib.rs:70-90 | the points are the projected vertices at the face's indexes, in order, one per index; min_z and max_z are the smallest and largest 3D z of the face, min_z <= max_z |
| `Drawing.DropEmpty` | src/lib.rs:91-93 | no kept entry has an empty point list, and nothing is dropped when none is empty; with `Drawing.DropEmptyCount` and `Drawing.DropEmptyAppend` the result is exactly the non-empty entries in input order |
| `Drawing.DropEmptyCount` | src/lib.rs:92 | a drawable face with points is kept as often as it occurs; one without points is never kept |
| `Drawing.DropEmptyAppend` | src/lib.rs:92 | dropping commutes with concatenation, so the kept faces stay in input order |
| `Drawing.BuildDrawables` | src/lib.rs:68-93 | one drawable face per sorted face, in the same order |
| `Drawing.DrawablePointsAreProjections` | src/lib.rs:71-74 | each drawable point is the projection of the face's own vertex |
| `Drawing.BuildGroup` | src/lib.rs:101-124 | one polygon per drawable face, in order, with its points and its texture's hex fill (white when absent) |
| `Viewport.BoundsOf` | src/lib.rs:127-132 | the bounds enclose every projected point and each bound is attained by some point |
| `Viewport.ViewBoxOf` | src/lib.rs:134-139 | the viewBox is at least 200 wide and high, and every projected point lies at least 100 inside it |
| `Viewport.ViewBoxTight` | src/lib.rs:127-139 | on each side some point lies exactly 100 inside the viewBox |
| `Viewport.UnitSquareViewBox` | src/lib.rs:127-139 | a unit square seen from above gets the viewBox (-100, -101, 201, 201) |
| `Convert.PaintOrder` | src/lib.rs:68 | the paint order has one face per kept face |
| `Convert.ConvertLevel` | src/lib.rs:22-172 | fails exactly when a raster cannot be read, whatever the level; otherwise one polygon per kept face in paint order, through the face's projected vertices, filled with its texture's mean colour or white, and a viewBox over all projected vertices |

## Left out

- Parsing the level (`BspFile::parse`) and the parser's helpers (`get_face_texture`, `get_face_vertices`, `get_face_vertice_indexes`) are foreign code. Their results are the fields of `Level` and `Face`. A parse failure is not modelled.
- `read_texture_image` (fetching and downsampling a texture to one-eighth resolution) is foreign code. Each texture's raster, or its failure, is a parameter.
- Building the SVG document is not modelled: the polygons' `points` strings, the background rectangle, the definitions block, the two `use` overlays and their stroke attributes, and `svg::save` with its output path and I/O error. The model stops at the numbers and the fill strings fed to the document.
- f32 arithmetic is not modelled: rounding in the colour sums and in the division, the `Display` formatting of coordinates in the points and viewBox strings, and NaN with its partial order. Coordinates are exact reals.
- The `dbg!` output and the set of (min_z, max_z, texture) strings built for it are diagnostics only.
- The test module and the benchmark harness only open files on disk and call `convert`.
- FilterAndSortFaces: the source sorts the vector in place with the standard library's `sort_by`. The model sorts a sequence with a stable insertion sort; `StableSort.SortByUnique` shows any stable sort gives the same result.
- FilterAndSortFaces: requires unique edge-list indexes among the kept faces. The source accepts duplicates and then sorts those faces by the last one's minimum. `Ordering.ComputeMinimums` models that overwrite, but the sort's guarantees are only proved for unique keys.
- ConvertLevel: requires unique edge-list indexes among the kept faces once every raster was read, for the same reason.
- ConvertLevel: the view axis is fixed to Z, as in the source. The other axes are covered by `FilterAndSortFaces` and `ProjectAll`, which take the axis as a parameter.
