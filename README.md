# Isk grid-game core in Dafny

A model of the sequential integer core of the Isk roguelike engine
(zaimoni/MinGame-Rust2000), written in Dafny with the properties of each
piece proved. It covers:

- the overflow-safe absolute value and the mixed-width `Min`/`Max` of
  `src/Isk/numerics.rs` (module `Numerics`);
- `min`/`max`, the viewport constants `VIEW_RADIUS` = 21 and `VIEW` = 43, and
  the terrain, actor and map-object kinds of `src/Isk.rs` (module `Isk`);
- points, the eight-way `Compass` with its conversions, and the two heading
  resolvers `compass_heading` / `compass_heading_full` of `src/Isk/gps.rs`
  (module `Gps`);
- the `Rect` class with its anchors and its in-place split, alignment and
  translation (module `Rects`);
- the `AngbandlikeTrace` line-of-sight walk of `src/Isk/los.rs`, with its
  error accumulator, its step budget and its deferred knight-move ties
  (module `Los`);
- the map state of `src/Isk/gps.rs` (module `Maps`):
  - the `Map` class with its flat terrain buffer, object table and actor list;
  - walkability and the line-of-sight predicate;
  - `Location` arithmetic;
  - the base-3 wall code and the `MapRect::draw` room painter;
- the `World` of `src/Isk.rs` (module `IskWorld`): the atlas, the kind
  registries with their first-match lookups, and the location helpers,
  including the camera clamp `loc_to_td_camera`;
- the coalescing message log `msg_panel` of `src/Isk/messages.rs` (module
  `Messages`).

Integers are mathematical. The source's fixed widths appear as subset types
(`i32`, `i64`, `u8`, `u32`, `u64`) exactly where the code converts between
them. Objects the source updates in place are classes: `Rect`, `MapRect`,
`Map`, `Actor`, `World` and `MsgPanel`. The source's loops are loops with
invariants: the trace, the lookups, the camera clamp, the painter and the
tie revision. Each loop is proved against a specification function, and the
properties are proved about that function.

The map's terrain buffer is allocated with `width*width` cells but indexed
`x + y*width`. This is modelled as written. The operations that index the
buffer (`SetTerrain`, `TerrainAt`, `IsWalkableFor`, `Draw`) require the cell
to be `Indexable`, that is, in bounds with `y < width`. `Map.TallOverruns`
shows that on a map taller than it is wide, an in-bounds cell falls past the
end of the buffer. `Map.SquareIndexable` shows that on other maps the two
notions agree. `Map::los` is modelled for maps no taller than they are wide,
so that its visibility test is total.

## Model

| member | source | states |
|---|---|---|
| Numerics.NormI32 | src/Isk/numerics.rs:8-14 | `norm` on i32 is the absolute value for every i32, including the most negative one; the result fits in u32, and the `-(x+1)` step stays in i32 |
| Numerics.NormI64 | src/Isk/numerics.rs:16-22 | `norm` on i64 is the absolute value for every i64; the result fits in u64 |
| Numerics.MinU64U32 | src/Isk/numerics.rs:34-39 | `u64::Min(u32)` is a u32 that is at most both operands and equals one of them |
| Numerics.MaxU64U32 | src/Isk/numerics.rs:40-44 | `u64::Max(u32)` is at least both operands and equals one of them |
| Isk.Min | src/Isk.rs:37-40 | `min` returns the smaller argument |
| Isk.Max | src/Isk.rs:42-45 | `max` returns the larger argument |
| Gps.Add | src/Isk/gps.rs:35-47 | point addition; the sum of two i32 points fits in i64 |
| Gps.Sub | src/Isk/gps.rs:49-82 | point subtraction is the inverse of addition; the difference of two i32 points fits in i64 |
| Gps.Norm | src/Isk/gps.rs:84-87 | `Point::norm` is the componentwise absolute value: each component is non-negative and equals the original one or its negation |
| Gps.Index | src/Isk/gps.rs:101-115 | `i32::from(Compass)` lies in 0..7 |
| Gps.FromIndex | src/Isk/gps.rs:179-195 | `Compass::try_from(i32)` succeeds exactly on 0..7 |
| Gps.IndexRoundTrip | src/Isk/gps.rs:101-115 | converting a direction to its index and back gives the direction |
| Gps.FromIndexRoundTrip | src/Isk/gps.rs:179-195 | converting an index in 0..7 to a direction and back gives the index |
| Gps.Vec | src/Isk/gps.rs:117-145 | every direction's vector is non-zero with components in {-1, 0, 1} |
| Gps.FromVector | src/Isk/gps.rs:197-228 | `Compass::try_from(Point)` succeeds exactly on the eight unit vectors and then inverts `Vec` |
| Gps.VecRoundTrip | src/Isk/gps.rs:117-130 | the vector of a direction converts back to that direction |
| Gps.Step | src/Isk/gps.rs:147-170 | `point + Compass` moves by the direction's unit vector |
| Gps.StepIsKingMove | src/Isk/gps.rs:147-153 | one step is one king move |
| Gps.StepBack | src/Isk/gps.rs:171-177 | `-= Compass` is undone by `+= Compass` |
| Gps.Scale | src/Isk/gps.rs:230-253 | `k * Compass` with k = 1 is the unit vector |
| Gps.ScaleLength | src/Isk/gps.rs:230-253 | `k * Compass` is `|k|` king moves long |
| Gps.Diag | src/Isk/gps.rs:255-262 | `_diag` of one of the four diagonal codes is the diagonal whose vector `(dx, dy)` gives back the code as `3*dx + dy` |
| Gps.HeadingFull | src/Isk/gps.rs:271-308 | `compass_heading_full` branch for branch; `HeadingNoneIff`, `HeadingOnAxis` and `HeadingOffAxis` state its result, `AlternateApproaches` its alternate |
| Gps.Heading | src/Isk/gps.rs:310-345 | `compass_heading` branch for branch; `HeadingFullAgrees` ties it to the full heading and `HeadingApproaches` shows each step along it gains one king move |
| Gps.HeadingNoneIff | src/Isk/gps.rs:271-282 | both heading resolvers return `None` exactly when the points coincide |
| Gps.HeadingOnAxis | src/Isk/gps.rs:275-282 | a displacement along one axis gives that axis's cardinal direction in the delta's sign, with no alternate |
| Gps.HeadingOffAxis | src/Isk/gps.rs:283-308 | off the axes the heading is the signed diagonal when the magnitudes are equal or `2*min < max`, and otherwise the cardinal of the larger axis; the alternate is the diagonal exactly when `2*min == max` |
| Gps.HeadingFullAgrees | src/Isk/gps.rs:310-345 | the first component of `compass_heading_full` always equals `compass_heading` |
| Gps.DiagonalApproaches | src/Isk/gps.rs:284-288 | off the axes, a step along the signs of the displacement brings the target one king move closer |
| Gps.CardinalApproaches | src/Isk/gps.rs:291-307 | a step along the strictly larger axis brings the target one king move closer |
| Gps.HeadingApproaches | src/Isk/gps.rs:310-345 | one step along the heading always brings the target exactly one king move closer |
| Gps.AlternateApproaches | src/Isk/gps.rs:289-290 | so does a step along the knight-move alternate |
| Rects.AnchorOffset | src/Isk/gps.rs:492-516 | an anchor lies on the rectangle's boundary box, NW at the origin and SE at the far corner, and depends only on the dimensions |
| Rects.SplitEastTiles | src/Isk/gps.rs:462-467 | the two pieces of an eastward split cover the original exactly, without overlap |
| Rects.SplitSouthTiles | src/Isk/gps.rs:468-473 | the two pieces of a southward split cover the original exactly, without overlap |
| Rects.Rect.constructor | src/Isk/gps.rs:447-449 | `Rect::new` stores the origin and the dimensions |
| Rects.Rect.Anchor | src/Isk/gps.rs:492-516 | `anchor` is the origin plus the direction's offset |
| Rects.Rect.Center | src/Isk/gps.rs:484-490 | `center` has the x of the N anchor and the y of the W anchor |
| Rects.Rect.Translate | src/Isk/gps.rs:432-437 | `+=` moves the origin and every anchor by the offset and keeps the dimensions |
| Rects.Rect.Split | src/Isk/gps.rs:451-482 | E (S) shrinks the width (height) to `cut` and returns a fresh rect at `origin + cut` holding the rest; every other direction returns `None` and changes nothing |
| Rects.Rect.AlignTo | src/Isk/gps.rs:518-522 | afterwards this rect's `myDir` anchor equals the other's `otherDir` anchor, with the dimensions unchanged |
| Los.TraceEndTimes | src/Isk/los.rs:20 | the end of the straight walk is `range` primary steps from the start |
| Los.TraceGeometry | src/Isk/los.rs:20-36 | when the straight walk misses the target: the miss is along an axis, the turned vector is a unit vector other than the primary one (so the unwrap cannot fail), `0 < alt_count < range`, and `range - alt_count` primary plus `alt_count` secondary steps reach the target |
| Los.TraceAltVec | src/Isk/los.rs:30-32 | the secondary step's vector is the primary vector plus the offset |
| Los.PathChebyshev | src/Isk/los.rs:44-84 | the j-th point of a walk of unit steps is at most j king moves from the start |
| Los.ExactAlts | src/Isk/los.rs:45-48 | the accumulator identity fixes the number of secondary steps to `alt_count` |
| Los.ReviseKnightMoves | src/Isk/los.rs:62-65 | the revision loop moves exactly the recorded tie points from the primary step to the secondary one |
| Los.Revised | src/Isk/los.rs:62-65 | the revised line has the same length, and exactly the recorded points are moved by `alt - dir` |
| Los.StraightWalk | src/Isk/los.rs:22-29 | the cardinal-direction walk: primary steps only, each accepted by `pass`; it stops before the first refused cell and reaches the target exactly when it walked the whole distance |
| Los.TieRule | src/Isk/los.rs:58-72 | the three tie tests as a value; `ResolveTie` is proved equal to it and `TieKeeps` proves it keeps the walk well formed |
| Los.ResolveTie | src/Isk/los.rs:58-72 | the knight-move rule at a tie, as the tie function states it |
| Los.KnightStep | src/Isk/los.rs:45-83 | one pass of the loop body: the accumulator update, the tie rule, the step, the `pass` check and the push |
| Los.KnightWalk | src/Isk/los.rs:41-85 | the turning walk is made of accepted primary and secondary steps; it stops early only before a refused cell and reaches the target exactly when it walked the whole distance |
| Los.TraceKnightGeometry | src/Isk/los.rs:33-44 | the facts the turning walk starts from: step counts, the accumulator bounds and where the steps lead |
| Los.TracePlan | src/Isk/los.rs:13-20 | `needRange` is the Chebyshev distance and fits in u32, `actualRange` is `min(needRange, maxSteps)`, and `dir_pair.0` is the trace direction |
| Los.AngbandlikeTrace | src/Isk/los.rs:7-86 | with no budget or no distance the result is `(true, [from])`. Otherwise: the line starts at `from`; each later cell is one primary or secondary step from the one before and was accepted by `pass`; the length is at most `min(distance, maxSteps) + 1`; an early stop means the next cell was refused; success means the last cell is `to`; a full-budget walk succeeds exactly when `maxSteps` covers the distance |
| Maps.Offset | src/Isk/gps.rs:739-745 | `Location + [i32;2]` keeps the map and moves the position by exactly the offset |
| Maps.OffsetToward | src/Isk/gps.rs:747-751 | `Location + Compass` keeps the map and makes one king move |
| Maps.Actor.constructor | src/Isk.rs:190-194 | a new actor has its kind and location and is not the player character |
| Maps.RowStartProduct | src/Isk/gps.rs:611 | the row offset used for indexing is `y*width` |
| Maps.IndexInBuffer | src/Isk/gps.rs:585 | a cell with `x, y < width` indexes inside the `width*width` buffer |
| Maps.IndexInjective | src/Isk/gps.rs:611 | distinct cells of a row-major grid have distinct indices |
| Maps.Map.constructor | src/Isk/gps.rs:583-586 | `Map::new` allocates `width*width` cells filled with one terrain, with no objects and no actors |
| Maps.Map.SquareIndexable | src/Isk/gps.rs:603-606 | on a map no taller than wide, in bounds and inside the buffer are the same |
| Maps.Map.InBounds | src/Isk/gps.rs:603-605 | `in_bounds`: both coordinates non-negative and below the width and the height; `SquareIndexable` and `TallOverruns` relate it to the terrain buffer |
| Maps.Map.TallOverruns | src/Isk/gps.rs:608-612 | on a taller map the cell `(0, width)` is in bounds, but its index is the buffer's length |
| Maps.Map.Index | src/Isk/gps.rs:611 | the index of an indexable cell lies inside the buffer |
| Maps.Map.TerrainAt | src/Isk/gps.rs:628-631 | the terrain the source reads at buffer index `x + y*width`; `SetTerrain` rewrites it at exactly one cell and `IsWalkableFor` tests its walkable flag |
| Maps.Map.SetTerrain | src/Isk/gps.rs:608-612 | `set_terrain` rewrites exactly one cell |
| Maps.Map.GetMapObject | src/Isk/gps.rs:622-626 | `get_map_object` finds something exactly when an object is filed at the point, and that object stands there |
| Maps.Map.SetMapObject | src/Isk/gps.rs:614-620 | `set_map_object` files the object under its own position, returns the displaced one, and leaves the actors alone |
| Maps.Map.IsWalkableFor | src/Isk/gps.rs:628-637 | a cell is not walkable exactly when its terrain or its object is not walkable, whoever asks |
| Maps.SeenThrough | src/Isk/gps.rs:640-650 | the `is_visible` closure over a snapshot of the map; `Maps.Map.Visible` states its three clauses on the live map |
| Maps.Map.Visible | src/Isk/gps.rs:640-650 | the `los` predicate: an out-of-bounds cell blocks, the in-bounds target passes, and any other cell passes exactly when its terrain and its object, if any, are transparent |
| Maps.Map.Los | src/Isk/gps.rs:639-653 | `los` starts at `from`, every later cell is visible, and the length is at most the distance; it succeeds exactly when the whole distance was walked; on failure the next cell was hidden |
| Maps.Map.NewActor | src/Isk/gps.rs:588-592 | `Map::new_actor` appends one fresh non-player actor with the given kind and location |
| Maps.PlaceObject | src/Isk/gps.rs:777-780 | `Location::set_map_object` files a new object of the kind at the location and returns what it displaced |
| Maps.Wallcode | src/Isk/gps.rs:539-545 | the wall code of four edge values below 3 is below 81 |
| Maps.WallDigit | src/Isk/gps.rs:547-558 | each digit is below 3, and a diagonal reads 0 |
| Maps.WallcodeRoundTrip | src/Isk/gps.rs:539-558 | after `set_wallcode(n,e,s,w)`, `read_wallcode` gives back each value for N, E, S and W |
| Maps.WallcodeOfDigits | src/Isk/gps.rs:547-558 | every code below 81 is the wall code of its own four digits |
| Maps.ColumnPaint | src/Isk/gps.rs:702-715 | a column's base paint and gap flag, the west code winning on a one-column rectangle; its effect on the edges is stated by `DrawSolidEdges` and `DrawGaps` |
| Maps.Painted | src/Isk/gps.rs:716-727 | the kind `draw` gives a cell; `DrawInterior`, `DrawSolidEdges` and `DrawGaps` state it region by region, and `Draw` proves the loops paint it |
| Maps.DrawInterior | src/Isk/gps.rs:704-728 | `draw` gives floor to every cell on no edge row or column |
| Maps.DrawSolidEdges | src/Isk/gps.rs:704-728 | an edge with code 1 is wall along its whole length |
| Maps.DrawGaps | src/Isk/gps.rs:704-728 | an edge with code 2 has floor at its centre cell (rects at least 3 by 3) and is wall everywhere else away from the corners |
| Maps.MapRect.constructor | src/Isk/gps.rs:534-536 | `MapRect::new` starts with wall code 0 |
| Maps.MapRect.SetWallcode | src/Isk/gps.rs:539-545 | the stored code reads back each edge value |
| Maps.MapRect.ReadWallcode | src/Isk/gps.rs:547-558 | each edge value is below 3 |
| Maps.MapRect.PlanOf | src/Isk/gps.rs:694-700 | the corners, centre and edge codes `draw` starts from |
| Maps.MapRect.Draw | src/Isk/gps.rs:693-730 | every cell of the rectangle gets the terrain the painting rule gives it, and every other cell keeps its terrain |
| Maps.PaintColumn | src/Isk/gps.rs:702-729 | one pass of the outer loop picks the column's paint and gap flag by the column rule, then paints that column by the row rule and touches nothing else |
| IskWorld.FirstNamed | src/Isk.rs:277-282 | the position of the first entry with the name (or the length): that entry has the name and no earlier one does |
| IskWorld.Lookup | src/Isk.rs:277-282 | `None` exactly when no entry has the name; otherwise the entry has the name and no earlier entry does |
| IskWorld.LookupAppend | src/Isk.rs:271-275 | registering a kind never shadows an earlier one with the same name; a failed lookup finds the new kind exactly when it has the name |
| IskWorld.FirstOfTwinsWins | src/Isk.rs:447-448 | of two terrains registered under one name, the lookup gives the first |
| IskWorld.FindNamed | src/Isk.rs:304-309 | the `get_*` loop with early return computes the first-match lookup |
| IskWorld.World.constructor | src/Isk.rs:252-254 | `World::new` has every registry empty |
| IskWorld.World.NewMap | src/Isk.rs:256-260 | `new_map` appends one fresh map of the given name, dimensions and fill |
| IskWorld.World.GetMap | src/Isk.rs:262-269 | `get_map` returns the first map with the name, or `None` |
| IskWorld.World.NewActorModel | src/Isk.rs:271-275 | `new_actor_model` appends exactly the new kind and returns it |
| IskWorld.World.GetActorModel | src/Isk.rs:277-282 | `get_actor_model` is the first-match lookup |
| IskWorld.World.NewMapObjectModel | src/Isk.rs:284-289 | `new_map_object_model` appends exactly the new kind and returns it |
| IskWorld.World.GetMapObjectModel | src/Isk.rs:291-296 | `get_map_object_model` is the first-match lookup |
| IskWorld.World.NewTerrain | src/Isk.rs:298-302 | `new_terrain` appends exactly the new kind and returns it |
| IskWorld.World.GetTerrain | src/Isk.rs:304-309 | `get_terrain` is the first-match lookup |
| IskWorld.World.CanonicalLoc | src/Isk.rs:327-341 | `Some` of the same location exactly when its position is in bounds |
| IskWorld.World.CoerceMap | src/Isk.rs:343-349 | `src` unchanged exactly when its map equals the viewpoint map, that is, has the same name and dimensions |
| IskWorld.World.ScreenToLoc | src/Isk.rs:351-353 | the cell `src` away from the top-left on the same map, when it is in bounds |
| IskWorld.World.NewActor | src/Isk.rs:427-436 | `World::new_actor` places a fresh actor at the screen offset when that cell is on the camera's map, and otherwise changes nothing |
| IskWorld.ClampRound | src/Isk.rs:360-369 | one round of the clamp loop removes a negative coordinate, leaves non-negative ones as they are, and changes nothing once none is negative |
| IskWorld.ClampStuck | src/Isk.rs:355-371 | for the off-map centre (40, 5) on a 10 by 10 map, one round reaches the off-map corner (19, 0), which no later round changes |
| IskWorld.World.ClampTopLeft | src/Isk.rs:357-372 | the clamping loop ends after at most two rounds, with no round when the centre is at least `VIEW_RADIUS` from the top and left edges, and at `(max(0, cx-R), max(0, cy-R))` |
| IskWorld.World.LocToTdCamera | src/Isk.rs:355-391 | the camera's top-left on each axis is `CameraAxis` of the centre, on the centre's map |
| IskWorld.CameraAxis | src/Isk.rs:373-390 | the top-left lies between 0 and the centre, and the centre is on screen; on a map at least `VIEW` long it lies in `0..length-VIEW`; a centre at least `VIEW_RADIUS` from both edges gives exactly `centre - VIEW_RADIUS` |
| Messages.Appended | src/Isk/messages.rs:13-21 | `add_message` on the log as a value; `AppendedCoalesced` and `ExpandAppended` prove it keeps the log coalesced and adds exactly the non-empty text |
| Messages.AppendedCoalesced | src/Isk/messages.rs:13-21 | `add_message` keeps every count in 1..255 and lets neighbouring lines share a text only when the earlier count is 255 |
| Messages.ExpandAppended | src/Isk/messages.rs:13-21 | adding a non-empty text adds exactly that text to the texts the log stands for; adding `""` changes nothing |
| Messages.LogOfFaithful | src/Isk/messages.rs:13-21 | a log built by adding texts is coalesced and stands for exactly the non-empty texts, in order |
| Messages.MsgPanel.constructor | src/Isk/messages.rs:7 | a new panel has no prompt and an empty log |
| Messages.MsgPanel.Prompt | src/Isk/messages.rs:9 | the current prompt; `SetPrompt` and `ClearPrompt` state its value after each |
| Messages.MsgPanel.SetPrompt | src/Isk/messages.rs:10 | `prompt()` is `Some(src)` afterwards, and the log is untouched |
| Messages.MsgPanel.ClearPrompt | src/Isk/messages.rs:11 | `prompt()` is `None` afterwards, and the log is untouched |
| Messages.MsgPanel.AddMessage | src/Isk/messages.rs:13-21 | the empty text is ignored; a repeat of the last text bumps its count below 255; anything else appends `(src, 1)`; the log stays coalesced and gains exactly the text |
| Messages.MsgPanel.Message | src/Isk/messages.rs:22-25 | `None` exactly when `n` is past the end, and otherwise entry `n` |

## Left out

- Rendering is not modelled: `DisplayManager`, `World::draw`, `Map::bg`, `bg_i32` and `tiles`. They draw to the tcod console. Tile and colour specs are replaced by one `glyph` character per kind. The glyph is all that tells the two "water wheel in floor" terrains apart.
- Keyboard and event dispatch is not modelled: `World::add_handler`, `exec_key` and `src/main.rs`. They are input plumbing over tcod.
- `World::new_game` is not modelled. It is a fixed castle layout seeded from the clock; the primitives it calls are modelled.
- The random cut in `Rect::split` is a parameter `cut` with `lb <= cut < ub`.
- `Rc`/`RefCell` sharing and its borrow-failure branches are not modelled. Maps are Dafny objects, so the release-mode `None` fallbacks never arise.
- The commented-out line cache in `src/Isk/messages.rs` is not modelled.
- `Map::los_terrain` is not modelled separately; it only calls `los`.
- `Map::is_named`, `named`, `width_i32` and `height_i32` are plain field reads.
- Gps.Add: i32 wrap-around in `Location` and `[i32;2]` arithmetic is not modelled; coordinates are unbounded. Conversions (`norm`, `Min`, the trace's `needRange`) are bounded where the code performs them.
- Gps.HeadingFull: the `Point<i64>` impl of `Pathfinder` computes the same thing as the `Point<i32>` one, so one pair of functions stands for both.
- Los.AngbandlikeTrace: requires both points to be i32 points, as the source's argument types do. The four ways through the loop body are written as one step choice followed by a shared move, check and push. The choice is the same as in the source.
- Los.AngbandlikeTrace: the source takes `max` of two u64 norms in the i32 helper. The model reads it as the u64 maximum, that is, the Chebyshev distance.
- Maps.Map.Los: `pass` reads a snapshot of the terrain and of the object table. Nothing changes while the trace runs, so the snapshot is the map. It is also stated only for maps no taller than wide. That leaves out tall maps on which the source's trace stays inside the buffer, such as a trace from (0,0) to (2,3) on a map 5 wide and 10 high.
- Maps.Map.SetTerrain: requires the cell to be inside the `width*width` buffer, not just in bounds. On a taller map the source would index past the end of its vector, which panics.
- Maps.Map.Visible: stated only for maps no taller than wide. On other maps the source's predicate can index past the end of the buffer.
- Maps.Map.SetMapObject: the source's `debug_assert` that the object is in bounds is not a precondition. Release builds do not check it. Its release behaviour (filing the object anyway) is well defined, so the model keeps it.
- IskWorld.World.ClampTopLeft: requires the centre to be on its map. This is the source's `debug_assert` at src/Isk.rs:356, which release builds do not check. Without it the clamp loop need not end: `IskWorld.ClampStuck` gives a centre whose corner some round leaves off the map and unchanged forever. A terminating model cannot express that case.
- IskWorld.World.LocToTdCamera: requires the centre to be on its map, for the same reason; it runs the same clamp loop.
- Rects.Rect.Split: for E and S it requires `ub` below the width or the height. These are the source's `debug_assert`s; in a release build a larger cut wraps the `usize` subtraction of the remainder's dimension, which the model does not follow. For N and W the source's `debug_assert`s guard a branch that returns `None` anyway, so those are not preconditions.
- Maps.MapRect: `rect` is a reference to a `Rects.Rect` object, while the source owns its `Rect` by value. Two `MapRect`s could share one `Rect` here; nothing in the model does so.
- Gps.Scale: takes an `i64` factor, which also covers every `u32` factor. The `u64 * Compass` impl converts its factor with `i64::try_from(...).unwrap()`, which panics above `i64::MAX`; that panic is not modelled, and such factors are outside the parameter's type. The overflow of `i64::MIN * -1` is not modelled either.
- Isk.Min: the source's i32 `min`/`max` are modelled on unbounded integers; they cannot overflow.
