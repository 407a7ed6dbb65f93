/** The map state of `src/Isk/gps.rs`: locations, map objects, actors, the
    `Map` with its flat terrain buffer and object table, its walkability and
    line-of-sight queries, and the `MapRect` room painter. */
module Maps {
  import opened Wrappers
  import opened Numerics
  import opened Gps
  import opened Isk
  import Rects
  import Trace = Los

  /** `Location`: a map and a position on it. */
  datatype Location = Location(m: Map, pos: Point)

  /** `Location + [i32;2]`: the same map, the position moved by `delta`. */
  function Offset(l: Location, delta: Point): (r: Location)
    ensures r.m == l.m && Sub(r.pos, l.pos) == delta
  {
    Location(l.m, Add(l.pos, delta))
  }

  /** `Location + Compass`: one king move on the same map. */
  function OffsetToward(l: Location, d: Compass): (r: Location)
    ensures r.m == l.m && r.pos == Step(l.pos, d)
    ensures Chebyshev(l.pos, r.pos) == 1
  {
    StepIsKingMove(l.pos, d);
    Offset(l, Vec(d))
  }

  /** `MapObject`: a kind placed at a location. */
  datatype MapObject = MapObject(model: MapObjectModel, loc: Location)

  /** `Actor` (declared in `src/Isk.rs`; it lives here because it holds a `Location`). */
  class Actor {
    var isPc: bool
    var model: ActorModel
    var loc: Location

    /** `Actor::new`: never the player character. */
    constructor (model: ActorModel, loc: Location)
      ensures this.model == model && this.loc == loc && !isPc
    {
      this.model, this.loc, isPc := model, loc, false;
    }
  }

  /** The index of the first cell of row `y` in a `w`-wide buffer, `y*w`,
      written as a sum of `y` rows. */
  function RowStart(y: nat, w: nat): nat
  {
    if y == 0 then 0 else RowStart(y - 1, w) + w
  }

  lemma {:induction false} RowStartProduct(y: nat, w: nat)
    ensures RowStart(y, w) == y * w
  {
    if y > 0 {
      RowStartProduct(y - 1, w);
    }
  }

  /** Row `a` ends no later than a later row `b` starts. */
  lemma {:induction false} RowsApart(a: nat, b: nat, w: nat)
    requires a < b
    ensures RowStart(a, w) + w <= RowStart(b, w)
    decreases b
  {
    if a + 1 < b {
      RowsApart(a, b - 1, w);
    }
  }

  /** The flat index of a cell of a `w`-wide grid with `y < w` lies in a
      buffer of `w*w` cells. */
  lemma IndexInBuffer(x: nat, y: nat, w: nat)
    requires x < w && y < w
    ensures x + RowStart(y, w) < w * w
  {
    RowsApart(y, w, w);
    RowStartProduct(w, w);
  }

  /** Distinct cells of a `w`-wide grid have distinct flat indices. */
  lemma IndexInjective(p: Point, q: Point, w: nat)
    requires 0 <= p.x < w && 0 <= q.x < w && 0 <= p.y && 0 <= q.y
    ensures p.x + RowStart(p.y, w) == q.x + RowStart(q.y, w) ==> p == q
  {
    if p.y < q.y {
      RowsApart(p.y, q.y, w);
    } else if q.y < p.y {
      RowsApart(q.y, p.y, w);
    }
  }

  class Map {
    const name: string
    const width: nat
    const height: nat
    /** The terrain buffer, `x + y*width` for cell `(x, y)`. */
    const terrain: array<Terrain>
    /** The position -> object table. */
    var objects: map<Point, MapObject>
    var actors: seq<Actor>

    /** The buffer holds `width*width` cells, as `Map::new` allocates it, and
        every object is filed under its own position. */
    ghost predicate Valid()
      reads this
    {
      && terrain.Length == width * width
      && forall p :: p in objects ==> objects[p].loc.pos == p
    }

    /** `Map::new`: every cell of the buffer holds `fill`, no objects, no actors. */
    constructor (name: string, dim: Point, fill: Terrain)
      requires 0 <= dim.x && 0 <= dim.y
      ensures this.name == name && width == dim.x && height == dim.y
      ensures Valid() && fresh(terrain)
      ensures forall i :: 0 <= i < terrain.Length ==> terrain[i] == fill
      ensures objects == map[] && actors == []
    {
      this.name, width, height := name, dim.x, dim.y;
      terrain := new Terrain[dim.x * dim.x](_ => fill);
      objects, actors := map[], [];
    }

    /** `in_bounds`. */
    predicate InBounds(pt: Point)
    {
      0 <= pt.x < width && 0 <= pt.y < height
    }

    /** The cells whose index falls inside the `width*width` buffer. */
    predicate Indexable(pt: Point)
    {
      InBounds(pt) && pt.y < width
    }

    /** On a map no taller than wide, every in-bounds cell is in the buffer. */
    lemma SquareIndexable(pt: Point)
      requires height <= width
      ensures InBounds(pt) <==> Indexable(pt)
    {
    }

    /** On a map taller than wide, the first cell of row `width` is in bounds
        but its index is already past the end of the buffer. */
    lemma TallOverruns()
      requires Valid() && 0 < width < height
      ensures InBounds(Point(0, width)) && !Indexable(Point(0, width))
      ensures 0 + RowStart(width, width) == terrain.Length
    {
      RowStartProduct(width, width);
    }

    /** The buffer index of a cell, `x + y*width` (see `RowStartProduct`). */
    function Index(pt: Point): (i: nat)
      requires Indexable(pt)
      ensures i < width * width
    {
      IndexInBuffer(pt.x, pt.y, width);
      pt.x + RowStart(pt.y, width)
    }

    /** The terrain of a cell. */
    function TerrainAt(pt: Point): Terrain
      reads this, terrain
      requires Valid() && Indexable(pt)
    {
      terrain[Index(pt)]
    }

    /** `set_terrain`: exactly the one cell changes. */
    method SetTerrain(pt: Point, src: Terrain)
      requires Valid() && Indexable(pt)
      modifies terrain
      ensures terrain[..] == old(terrain[..])[Index(pt) := src]
      ensures TerrainAt(pt) == src
      ensures forall q :: Indexable(q) && q != pt ==> TerrainAt(q) == old(TerrainAt(q))
    {
      DistinctIndex(pt);
      terrain[Index(pt)] := src;
    }

    /** No other cell shares `pt`'s index. */
    lemma DistinctIndex(pt: Point)
      requires Indexable(pt)
      ensures forall q :: Indexable(q) && q != pt ==> Index(q) != Index(pt)
    {
      forall q | Indexable(q)
        ensures q != pt ==> Index(q) != Index(pt)
      {
        IndexInjective(q, pt, width);
      }
    }

    /** `get_map_object`: the object filed at `pt`, which stands at `pt`. */
    function GetMapObject(pt: Point): (r: Option<MapObject>)
      reads this
      requires Valid()
      ensures r.Some? <==> pt in objects
      ensures r.Some? ==> r.value.loc.pos == pt
    {
      if pt in objects then Some(objects[pt]) else None
    }

    /** `set_map_object`: file `src` under its own position, returning the
        object it displaces. */
    method SetMapObject(src: MapObject) returns (prev: Option<MapObject>)
      requires Valid()
      modifies this
      ensures Valid()
      ensures prev == old(GetMapObject(src.loc.pos))
      ensures objects == old(objects)[src.loc.pos := src]
      ensures GetMapObject(src.loc.pos) == Some(src)
      ensures actors == old(actors)
    {
      prev := GetMapObject(src.loc.pos);
      objects := objects[src.loc.pos := src];
    }

    /** `is_walkable_for`: blocked by the terrain or by an object; who asks
        makes no difference. */
    predicate IsWalkableFor(pt: Point, who: Actor)
      reads this, terrain
      requires Valid() && Indexable(pt)
      ensures !IsWalkableFor(pt, who) <==>
        !TerrainAt(pt).walkable || (GetMapObject(pt).Some? && !GetMapObject(pt).value.model.walkable)
    {
      if !TerrainAt(pt).walkable then false
      else match GetMapObject(pt)
        case Some(obj) => obj.model.walkable
        case None => true
    }

    /** The visibility test `Map::los` hands to the trace. */
    predicate Visible(to: Point, x: Point)
      reads this, terrain
      requires Valid() && height <= width
      ensures !InBounds(x) ==> !Visible(to, x)
      ensures InBounds(x) && x == to ==> Visible(to, x)
      ensures InBounds(x) && x != to ==>
        (Visible(to, x) <==> TerrainAt(x).transparent &&
                             (GetMapObject(x).Some? ==> GetMapObject(x).value.model.transparent))
    {
      SeenThrough(width, height, terrain[..], objects, to, x)
    }

    /** `los`: the trace from `from` to `to` with no step budget to speak of
        (`u32::MAX`), seeing through what `Visible` lets through. Every cell
        entered is visible; the target is reached exactly when the whole
        king-move distance was walked, and otherwise both possible next
        cells are hidden or the one the trace needed is. */
    method Los(from: Point, to: Point) returns (ok: bool, line: seq<Point>)
      requires Valid() && height <= width
      requires IsI32Point(from) && IsI32Point(to)
      ensures |line| >= 1 && line[0] == from
      ensures ok <==> Trace.Last(line) == to
      ensures forall j :: 1 <= j < |line| ==> Visible(to, line[j])
      ensures |line| - 1 <= Chebyshev(from, to)
      ensures ok <==> |line| - 1 == Chebyshev(from, to)
      ensures !ok ==>
        !Visible(to, Step(Trace.Last(line), Trace.TraceDir(from, to))) ||
        !Visible(to, Step(Trace.Last(line), Trace.TraceAlt(from, to)))
    {
      var cells, objs := terrain[..], objects;
      var w, h := width, height;
      var pass := (x: Point) => SeenThrough(w, h, cells, objs, to, x);
      ok, line := Trace.AngbandlikeTrace(U32_MAX, from, to, pass);
      if from != to {
        Trace.TracePlan(from, to, U32_MAX);
        forall j | 1 <= j < |line|
          ensures Visible(to, line[j])
        {
          assert Trace.LinkAt(line, j, Vec(Trace.TraceDir(from, to)), Vec(Trace.TraceAlt(from, to)), pass);
        }
      }
    }

    /** `cells` is `before` with every cell the painter has reached (see
        `Reached`) repainted as `plan` says. */
    ghost predicate PaintedSoFar(cells: seq<Terrain>, before: seq<Terrain>, plan: Plan, x: int, y: int)
    {
      // bound to one name so that a loop invariant carries it as a single fact
      var holds :=
        && |cells| == width * width && |before| == width * width
        && forall p :: Indexable(p) ==>
             cells[Index(p)] == if Reached(plan, x, y, p) then Painted(plan, p) else before[Index(p)];
      holds
    }

    /** Before the first column nothing is reached. */
    lemma DrawStart(cells: seq<Terrain>, plan: Plan)
      requires |cells| == width * width
      ensures PaintedSoFar(cells, cells, plan, plan.nw.x, plan.nw.y)
    {
    }

    /** Painting cell `(x, y)` advances the painter by one row. */
    lemma DrawStep(cells: seq<Terrain>, before: seq<Terrain>, plan: Plan, x: int, y: int, paint: Terrain)
      requires PaintedSoFar(cells, before, plan, x, y)
      requires Indexable(Point(x, y)) && plan.nw.y <= y
      requires paint == Painted(plan, Point(x, y))
      ensures PaintedSoFar(cells[Index(Point(x, y)) := paint], before, plan, x, y + 1)
    {
      DistinctIndex(Point(x, y));
    }

    /** A finished column moves the painter to the top of the next one. */
    lemma ColumnDone(cells: seq<Terrain>, before: seq<Terrain>, plan: Plan, x: int)
      requires PaintedSoFar(cells, before, plan, x, plan.se.y) && plan.nw.x <= x
      ensures PaintedSoFar(cells, before, plan, x + 1, plan.nw.y)
    {
    }

    /** Once every column is painted, the reached cells are the rectangle. */
    lemma DrawDone(cells: seq<Terrain>, before: seq<Terrain>, plan: Plan)
      requires PaintedSoFar(cells, before, plan, plan.se.x, plan.nw.y)
      ensures forall p :: Indexable(p) ==>
        cells[Index(p)] == if plan.nw.x <= p.x < plan.se.x && plan.nw.y <= p.y < plan.se.y
                           then Painted(plan, p) else before[Index(p)]
    {
    }

    /** `new_actor`: a fresh non-player actor appended to the actor list. */
    method NewActor(model: ActorModel, loc: Location) returns (r: Actor)
      requires Valid()
      modifies this
      ensures Valid()
      ensures fresh(r) && r.model == model && r.loc == loc && !r.isPc
      ensures actors == old(actors) + [r] && objects == old(objects)
    {
      r := new Actor(model, loc);
      actors := actors + [r];
    }
  }

  /** The visibility rule over a snapshot of a map: out of bounds blocks, the
      target always shows, anything else shows unless its terrain or its
      object is opaque. */
  predicate SeenThrough(width: nat, height: nat, cells: seq<Terrain>, objects: map<Point, MapObject>,
                        to: Point, x: Point)
    requires |cells| == width * width && height <= width
  {
    if !(0 <= x.x < width && 0 <= x.y < height) then false
    else if to == x then true
    else
      IndexInBuffer(x.x, x.y, width);
      if !cells[x.x + RowStart(x.y, width)].transparent then false
      else if x in objects then objects[x].model.transparent
      else true
  }

  /** `Location::set_map_object`: a new object of kind `model` at `l`, filed
      on `l`'s map. */
  method PlaceObject(l: Location, model: MapObjectModel) returns (prev: Option<MapObject>)
    requires l.m.Valid()
    modifies l.m
    ensures l.m.Valid()
    ensures prev == old(l.m.GetMapObject(l.pos))
    ensures l.m.objects == old(l.m.objects)[l.pos := MapObject(model, l)]
  {
    prev := l.m.SetMapObject(MapObject(model, l));
  }

  /** The base-3 wall code `n + 3e + 9s + 27w` of `set_wallcode`; each edge is
      0 (none), 1 (solid) or 2 (solid with a gap in the middle). */
  function Wallcode(n: u8, e: u8, s: u8, w: u8): (code: u8)
    requires n < 3 && e < 3 && s < 3 && w < 3
    ensures code < 81
  {
    n + 3 * e + 9 * s + 27 * w
  }

  /** `read_wallcode`: the digit for one of the four side directions, and 0
      for a diagonal. */
  function WallDigit(code: u8, dir: Compass): (r: u8)
    ensures r < 3
    ensures dir !in {N, E, S, W} ==> r == 0
  {
    match dir
    case N => code % 3
    case E => (code / 3) % 3
    case S => (code / 9) % 3
    case W => (code / 27) % 3
    case _ => 0
  }

  /** Reading back a wall code gives each edge's value. */
  lemma WallcodeRoundTrip(n: u8, e: u8, s: u8, w: u8)
    requires n < 3 && e < 3 && s < 3 && w < 3
    ensures WallDigit(Wallcode(n, e, s, w), N) == n
    ensures WallDigit(Wallcode(n, e, s, w), E) == e
    ensures WallDigit(Wallcode(n, e, s, w), S) == s
    ensures WallDigit(Wallcode(n, e, s, w), W) == w
  {
    var code: int := Wallcode(n, e, s, w);
    DivMod3(code, e + 3 * s + 9 * w, n);
    DivMod3(e + 3 * s + 9 * w, s + 3 * w, e);
    DivMod3(s + 3 * w, w, s);
    DivMod3(w, 0, w);
    Div3Twice(code);
    Div3Twice(code / 3);
    Div3Twice(code / 9);
  }

  /** Base-3 digit arithmetic: `q` and `r` are the quotient and remainder of `c` by 3. */
  lemma DivMod3(c: int, q: int, r: int)
    requires 0 <= r < 3 && c == r + 3 * q
    ensures c / 3 == q && c % 3 == r
  {
  }

  /** Dividing by 3 and then by `3^k` is dividing by `3^(k+1)`, for the powers used. */
  lemma Div3Twice(c: int)
    requires c >= 0
    ensures c / 9 == (c / 3) / 3
    ensures c / 27 == (c / 3) / 9
  {
  }

  /** Every code below 81 is the encoding of its own four digits. */
  lemma WallcodeOfDigits(code: u8)
    requires code < 81
    ensures Wallcode(WallDigit(code, N), WallDigit(code, E), WallDigit(code, S), WallDigit(code, W)) == code
  {
    var c: int := code;
    var q1, q2 := c / 3, c / 9;
    Div3Twice(c);
    Div3Twice(q1);
    var q3 := q2 / 3;
    assert c == c % 3 + 3 * q1 && q1 == q1 % 3 + 3 * q2 && q2 == q2 % 3 + 3 * q3;
    assert q3 < 3;
    DivMod3(q3, 0, q3);
  }

  /** What `MapRect::draw` works from: the rectangle's north-west and
      south-east corners and centre, the four edge codes and the two kinds. */
  datatype Plan = Plan(nw: Point, se: Point, mid: Point, n: int, e: int, s: int, w: int,
                       floor: Terrain, wall: Terrain)

  /** A column's base paint and whether its middle is a gap: the west column
      takes the west code, the east column the east code (west wins in a
      rectangle one cell wide). */
  function ColumnPaint(plan: Plan, x: int): (Terrain, bool)
  {
    if plan.nw.x == x then (if 1 <= plan.w then (plan.wall, plan.w == 2) else (plan.floor, false))
    else if plan.se.x - 1 == x then (if 1 <= plan.e then (plan.wall, plan.e == 2) else (plan.floor, false))
    else (plan.floor, false)
  }

  /** The kind `draw` paints at `p`: the north row, then the south row, take
      their own code (code 2 spares the centre column); a gap column is floor
      at the centre row; anything else keeps the column's paint. */
  function Painted(plan: Plan, p: Point): Terrain
  {
    var (prePaint, midYTest) := ColumnPaint(plan, p.x);
    var midXTest := plan.mid.x == p.x;
    if plan.nw.y == p.y then
      (if 1 <= plan.n && (!midXTest || plan.n == 1) then plan.wall else prePaint)
    else if plan.se.y - 1 == p.y then
      (if 1 <= plan.s && (!midXTest || plan.s == 1) then plan.wall else prePaint)
    else if midYTest && plan.mid.y == p.y then plan.floor
    else prePaint
  }

  /** The cells the painter has reached when it is about to paint `(x, y)`:
      the columns of the rectangle left of `x`, and column `x` above `y`. */
  predicate Reached(plan: Plan, x: int, y: int, p: Point)
  {
    || (plan.nw.x <= p.x < x && plan.nw.y <= p.y < plan.se.y)
    || (p.x == x && plan.nw.y <= p.y < y)
  }

  /** The plan of a rectangle with origin `o` and dimensions `w` by `h`. */
  function RectPlan(o: Point, w: nat, h: nat, nc: int, ec: int, sc: int, wc: int,
                    floor: Terrain, wall: Terrain): (plan: Plan)
    ensures plan.nw == o && plan.se == Point(o.x + w, o.y + h)
  {
    Plan(o, Add(o, Point(w, h)), Add(o, Point(w / 2, h / 2)), nc, ec, sc, wc, floor, wall)
  }

  /** Cells off every edge row and column are floor. */
  lemma DrawInterior(o: Point, w: nat, h: nat, nc: int, ec: int, sc: int, wc: int,
                     floor: Terrain, wall: Terrain, p: Point)
    requires o.x < p.x < o.x + w - 1 && o.y < p.y < o.y + h - 1
    ensures Painted(RectPlan(o, w, h, nc, ec, sc, wc, floor, wall), p) == floor
  {
  }

  /** An edge with code 1 is wall along its whole length (the east and south
      edges need the rectangle to be at least two cells across). */
  lemma DrawSolidEdges(o: Point, w: nat, h: nat, nc: int, ec: int, sc: int, wc: int,
                       floor: Terrain, wall: Terrain, p: Point)
    requires 2 <= w && 2 <= h
    requires o.x <= p.x < o.x + w && o.y <= p.y < o.y + h
    ensures nc == 1 && p.y == o.y ==> Painted(RectPlan(o, w, h, nc, ec, sc, wc, floor, wall), p) == wall
    ensures sc == 1 && p.y == o.y + h - 1 ==> Painted(RectPlan(o, w, h, nc, ec, sc, wc, floor, wall), p) == wall
    ensures wc == 1 && p.x == o.x ==> Painted(RectPlan(o, w, h, nc, ec, sc, wc, floor, wall), p) == wall
    ensures ec == 1 && p.x == o.x + w - 1 ==> Painted(RectPlan(o, w, h, nc, ec, sc, wc, floor, wall), p) == wall
  {
  }

  /** An edge with code 2 leaves the centre cell of that edge floor (for
      rectangles at least three cells each way), while the rest of the edge
      away from the corners is wall. */
  lemma DrawGaps(o: Point, w: nat, h: nat, nc: int, ec: int, sc: int, wc: int,
                 floor: Terrain, wall: Terrain)
    requires 3 <= w && 3 <= h
    ensures nc == 2 ==> Painted(RectPlan(o, w, h, nc, ec, sc, wc, floor, wall), Point(o.x + w / 2, o.y)) == floor
    ensures sc == 2 ==> Painted(RectPlan(o, w, h, nc, ec, sc, wc, floor, wall), Point(o.x + w / 2, o.y + h - 1)) == floor
    ensures wc == 2 ==> Painted(RectPlan(o, w, h, nc, ec, sc, wc, floor, wall), Point(o.x, o.y + h / 2)) == floor
    ensures ec == 2 ==> Painted(RectPlan(o, w, h, nc, ec, sc, wc, floor, wall), Point(o.x + w - 1, o.y + h / 2)) == floor
    ensures forall x :: o.x < x < o.x + w - 1 && x != o.x + w / 2 && nc == 2 ==>
      Painted(RectPlan(o, w, h, nc, ec, sc, wc, floor, wall), Point(x, o.y)) == wall
    ensures forall y :: o.y < y < o.y + h - 1 && y != o.y + h / 2 && wc == 2 ==>
      Painted(RectPlan(o, w, h, nc, ec, sc, wc, floor, wall), Point(o.x, y)) == wall
    ensures forall p: Point :: p.y == o.y + h - 1 && o.x < p.x < o.x + w - 1 && p.x != o.x + w / 2 && sc == 2 ==>
      Painted(RectPlan(o, w, h, nc, ec, sc, wc, floor, wall), p) == wall
    ensures forall p: Point :: p.x == o.x + w - 1 && o.y < p.y < o.y + h - 1 && p.y != o.y + h / 2 && ec == 2 ==>
      Painted(RectPlan(o, w, h, nc, ec, sc, wc, floor, wall), p) == wall
  {
  }

  /** `MapRect`: a rectangle with a floor kind, a wall kind and a wall code. */
  class MapRect {
    var rect: Rects.Rect
    const floor: Terrain
    const wall: Terrain
    var wallcode: u8

    /** `MapRect::new`: no walls. */
    constructor (rect: Rects.Rect, floor: Terrain, wall: Terrain)
      ensures this.rect == rect && this.floor == floor && this.wall == wall && wallcode == 0
    {
      this.rect, this.floor, this.wall, wallcode := rect, floor, wall, 0;
    }

    /** `set_wallcode`: the four edge codes, each read back by `ReadWallcode`. */
    method SetWallcode(n: u8, e: u8, s: u8, w: u8)
      requires n < 3 && e < 3 && s < 3 && w < 3
      modifies this
      ensures wallcode == Wallcode(n, e, s, w)
      ensures ReadWallcode(N) == n && ReadWallcode(E) == e && ReadWallcode(S) == s && ReadWallcode(W) == w
    {
      wallcode := n + 3 * e + 9 * s + 27 * w;
      WallcodeRoundTrip(n, e, s, w);
    }

    /** `read_wallcode`. */
    function ReadWallcode(dir: Compass): (r: u8)
      reads this
      ensures r < 3
    {
      WallDigit(wallcode, dir)
    }

    /** The plan `draw` computes from the rectangle and the wall code. */
    function PlanOf(): (plan: Plan)
      reads this, rect
      ensures plan == RectPlan(rect.origin, rect.width, rect.height, ReadWallcode(N), ReadWallcode(E),
                               ReadWallcode(S), ReadWallcode(W), floor, wall)
    {
      Plan(rect.Anchor(NW), rect.Anchor(SE), rect.Center(),
           ReadWallcode(N), ReadWallcode(E), ReadWallcode(S), ReadWallcode(W), floor, wall)
    }

    /** The cells the plan's corners enclose are the rectangle's. */
    lemma PlanCovers()
      ensures PlanOf().nw.y <= PlanOf().se.y
      ensures forall p :: Rects.Covers(rect.origin, rect.width, rect.height, p) <==>
        PlanOf().nw.x <= p.x < PlanOf().se.x && PlanOf().nw.y <= p.y < PlanOf().se.y
    {
    }

    /** `draw`: paint every cell of the rectangle with `Painted`, column by
        column, and nothing outside it. */
    method Draw(m: Map)
      requires m.Valid()
      requires forall p :: Rects.Covers(rect.origin, rect.width, rect.height, p) ==> m.Indexable(p)
      modifies m.terrain
      ensures forall p :: m.Indexable(p) ==>
        m.TerrainAt(p) == if Rects.Covers(rect.origin, rect.width, rect.height, p)
                          then Painted(PlanOf(), p) else old(m.TerrainAt(p))
    {
      var plan := PlanOf();
      PlanCovers();
      ghost var before := m.terrain[..];
      m.DrawStart(before, plan);
      for x := plan.nw.x to plan.se.x
        invariant m.PaintedSoFar(m.terrain[..], before, plan, x, plan.nw.y)
      {
        PaintColumn(m, plan, x, before);
      }
      m.DrawDone(m.terrain[..], before, plan);
    }
  }

  /** One column of `draw`: the column's paint and gap flag, then the inner
      loop down the rows. */
  method PaintColumn(m: Map, plan: Plan, x: int, ghost before: seq<Terrain>)
    requires m.Valid() && plan.nw.y <= plan.se.y && plan.nw.x <= x
    requires forall y :: plan.nw.y <= y < plan.se.y ==> m.Indexable(Point(x, y))
    requires m.PaintedSoFar(m.terrain[..], before, plan, x, plan.nw.y)
    modifies m.terrain
    ensures m.PaintedSoFar(m.terrain[..], before, plan, x + 1, plan.nw.y)
  {
    var prePaint := plan.floor;
    var midXTest := plan.mid.x == x;
    var midYTest := false;
    if plan.nw.x == x {
      if 1 <= plan.w {
        prePaint := plan.wall;
        if 2 == plan.w { midYTest := true; }
      }
    } else if plan.se.x - 1 == x {
      if 1 <= plan.e {
        prePaint := plan.wall;
        if 2 == plan.e { midYTest := true; }
      }
    }
    assert (prePaint, midYTest) == ColumnPaint(plan, x);
    for y := plan.nw.y to plan.se.y
      invariant m.PaintedSoFar(m.terrain[..], before, plan, x, y)
    {
      var paint := prePaint;
      if plan.nw.y == y {
        if 1 <= plan.n {
          if !midXTest || 1 == plan.n { paint := plan.wall; }
        }
      } else if plan.se.y - 1 == y {
        if 1 <= plan.s {
          if !midXTest || 1 == plan.s { paint := plan.wall; }
        }
      } else if midYTest && plan.mid.y == y {
        paint := plan.floor;
      }
      m.DrawStep(m.terrain[..], before, plan, x, y, paint);
      m.SetTerrain(Point(x, y), paint);
    }
    m.ColumnDone(m.terrain[..], before, plan, x);
  }
}
