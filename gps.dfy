/** Integer points, the eight-way compass and the heading resolver of
    `src/Isk/gps.rs`. Coordinates are mathematical integers: the source widens
    i32 sums and differences to i64, so no operation here can wrap. */
module Gps {
  import opened Wrappers
  import opened Numerics
  import Isk

  /** A grid point; the same type stands for `Point<i32>`, `Point<i64>` and `[i32;2]`. */
  datatype Point = Point(x: int, y: int)

  predicate IsI32Point(p: Point)
  {
    -0x8000_0000 <= p.x < 0x8000_0000 && -0x8000_0000 <= p.y < 0x8000_0000
  }

  predicate IsI64Point(p: Point)
  {
    -0x8000_0000_0000_0000 <= p.x < 0x8000_0000_0000_0000 &&
    -0x8000_0000_0000_0000 <= p.y < 0x8000_0000_0000_0000
  }

  /** `Point<i32> + Point<i32>`, computed in i64: two i32 points never overflow the result. */
  function Add(p: Point, q: Point): (r: Point)
    ensures IsI32Point(p) && IsI32Point(q) ==> IsI64Point(r)
    ensures r.x - q.x == p.x && r.y - q.y == p.y
  {
    Point(p.x + q.x, p.y + q.y)
  }

  /** `Point<i32> - Point<i32>`, computed in i64: the delta never overflows either. */
  function Sub(p: Point, q: Point): (r: Point)
    ensures IsI32Point(p) && IsI32Point(q) ==> IsI64Point(r)
    ensures Add(r, q) == p
  {
    Point(p.x - q.x, p.y - q.y)
  }

  /** `Norm` for points: the componentwise absolute value. */
  function Norm(p: Point): (r: Point)
    ensures 0 <= r.x && (r.x == p.x || r.x == -p.x)
    ensures 0 <= r.y && (r.y == p.y || r.y == -p.y)
  {
    Point(Abs(p.x), Abs(p.y))
  }

  /** Chebyshev (king-move) distance: the number of compass steps between two points. */
  function Chebyshev(p: Point, q: Point): nat
  {
    Isk.Max(Abs(q.x - p.x), Abs(q.y - p.y))
  }

  /** The eight compass directions, clockwise from north; y grows southwards. */
  datatype Compass = N | NE | E | SE | S | SW | W | NW

  /** `From<Compass> for i32`. */
  function Index(d: Compass): (i: i32)
    ensures 0 <= i < 8
  {
    match d
    case N => 0
    case NE => 1
    case E => 2
    case SE => 3
    case S => 4
    case SW => 5
    case W => 6
    case NW => 7
  }

  /** `TryFrom<i32> for Compass`: defined exactly on 0..7. */
  function FromIndex(i: i32): (r: Result<Compass, Isk.Error>)
    ensures r.Ok? <==> 0 <= i < 8
  {
    if i == 0 then Ok(N)
    else if i == 1 then Ok(NE)
    else if i == 2 then Ok(E)
    else if i == 3 then Ok(SE)
    else if i == 4 then Ok(S)
    else if i == 5 then Ok(SW)
    else if i == 6 then Ok(W)
    else if i == 7 then Ok(NW)
    else Err(Isk.Error("out of range; try %8 before converting to Compass"))
  }

  /** A non-zero vector with both components in {-1, 0, 1}. */
  predicate IsUnit(p: Point)
  {
    -1 <= p.x <= 1 && -1 <= p.y <= 1 && p != Point(0, 0)
  }

  /** `From<Compass> for [i32;2]` (and for `Point<i32>`): the unit step of a direction. */
  function Vec(d: Compass): (v: Point)
    ensures IsUnit(v)
  {
    match d
    case N => Point(0, -1)
    case NE => Point(1, -1)
    case E => Point(1, 0)
    case SE => Point(1, 1)
    case S => Point(0, 1)
    case SW => Point(-1, 1)
    case W => Point(-1, 0)
    case NW => Point(-1, -1)
  }

  /** `TryFrom<Point<i64>> for Compass`: succeeds exactly on the eight unit vectors. */
  function FromVector(p: Point): (r: Result<Compass, ()>)
    ensures r.Ok? <==> IsUnit(p)
    ensures r.Ok? ==> Vec(r.value) == p
  {
    if p.x == -1 then
      (if p.y == -1 then Ok(NW) else if p.y == 0 then Ok(W) else if p.y == 1 then Ok(SW) else Err(()))
    else if p.x == 0 then
      (if p.y == -1 then Ok(N) else if p.y == 1 then Ok(S) else Err(()))
    else if p.x == 1 then
      (if p.y == -1 then Ok(NE) else if p.y == 0 then Ok(E) else if p.y == 1 then Ok(SE) else Err(()))
    else Err(())
  }

  /** `i32::from` and `Compass::try_from(i32)` are inverse on every direction. */
  lemma IndexRoundTrip(d: Compass)
    ensures FromIndex(Index(d)) == Ok(d)
  {
  }

  /** ... and on every index 0..7 the other way round. */
  lemma FromIndexRoundTrip(i: i32)
    requires 0 <= i < 8
    ensures FromIndex(i).Ok? && Index(FromIndex(i).value) == i
  {
  }

  /** The unit-vector conversion inverts `Vec`, so `Vec` is injective. */
  lemma VecRoundTrip(d: Compass)
    ensures FromVector(Vec(d)) == Ok(d)
  {
  }

  /** `Point<i32> + Compass` (and `+=`): one step in a direction. */
  function Step(p: Point, d: Compass): (r: Point)
    ensures Sub(r, p) == Vec(d)
  {
    Add(p, Vec(d))
  }

  /** A step is one king move. */
  lemma StepIsKingMove(p: Point, d: Compass)
    ensures Chebyshev(p, Step(p, d)) == 1
  {
  }

  /** `Point<i32> -= Compass`: one step back. */
  function StepBack(p: Point, d: Compass): (r: Point)
    ensures Step(r, d) == p
  {
    Sub(p, Vec(d))
  }

  /** `u32 * Compass`, `u64 * Compass` and `i64 * Compass`: k steps in one
      direction (the u64 form unwraps a conversion to i64, hence the i64 argument). */
  function Scale(k: i64, d: Compass): (r: Point)
    ensures k == 1 ==> r == Vec(d)
  {
    var v := Vec(d);
    Point(Multiple(v.x, k), Multiple(v.y, k))
  }

  /** `c * k` for a unit-vector component `c`, written without a product of two
      unknowns (any other `c` is multiplied out). */
  function Multiple(c: int, k: int): (r: int)
    ensures r == c * k
  {
    if c == 0 then 0 else if c == 1 then k else if c == -1 then -k else c * k
  }

  /** `k` steps in one direction are `|k|` king moves. */
  lemma ScaleLength(k: i64, d: Compass)
    ensures Chebyshev(Point(0, 0), Scale(k, d)) == Abs(k)
  {
  }

  function Signum(v: int): int
  {
    if v < 0 then -1 else if 0 < v then 1 else 0
  }

  /** `_diag`: the diagonal named by the code 3*signum(dx) + signum(dy). */
  function Diag(code: int): (d: Compass)
    requires code == -4 || code == -2 || code == 2 || code == 4
    ensures 3 * Vec(d).x + Vec(d).y == code
  {
    if code == -4 then NW else if code == -2 then SW else if code == 2 then NE else SE
  }

  /** `compass_heading_full`, for both `Pathfinder` impls: `None` when the points
      coincide, otherwise a direction and, for a knight-move displacement, the
      equally good diagonal. Written branch for branch as the source does,
      including the rule that a comparatively small off-axis component still
      yields the diagonal. */
  function HeadingFull(from: Point, to: Point): Option<(Compass, Option<Compass>)>
  {
    var delta := Sub(to, from);
    var code := 3 * Signum(delta.x) + Signum(delta.y);
    if code == -3 then Some((W, None))
    else if code == -1 then Some((N, None))
    else if code == 0 then None
    else if code == 1 then Some((S, None))
    else if code == 3 then Some((E, None))
    else
      var absDelta := Norm(delta);
      if absDelta.x == absDelta.y then Some((Diag(code), None))
      else
        var scale2 := 2 * Isk.Min(absDelta.x, absDelta.y);
        var scale1 := Isk.Max(absDelta.x, absDelta.y);
        if scale2 < scale1 then Some((Diag(code), None))
        else
          var alt := if scale2 == scale1 then Some(Diag(code)) else None;
          if absDelta.x < absDelta.y then
            Some((if code == -4 || code == 2 then N else S, alt))
          else
            Some((if code < 0 then W else E, alt))
  }

  /** `compass_heading`, for both `Pathfinder` impls. */
  function Heading(from: Point, to: Point): Option<Compass>
  {
    var delta := Sub(to, from);
    var code := 3 * Signum(delta.x) + Signum(delta.y);
    if code == -3 then Some(W)
    else if code == -1 then Some(N)
    else if code == 0 then None
    else if code == 1 then Some(S)
    else if code == 3 then Some(E)
    else
      var absDelta := Norm(delta);
      if absDelta.x == absDelta.y then Some(Diag(code))
      else
        var scale2 := 2 * Isk.Min(absDelta.x, absDelta.y);
        var scale1 := Isk.Max(absDelta.x, absDelta.y);
        if scale2 < scale1 then Some(Diag(code))
        else if absDelta.x < absDelta.y then
          Some(if code == -4 || code == 2 then N else S)
        else
          Some(if code < 0 then W else E)
  }

  /** The direction whose unit vector has the signs of the displacement (the
      diagonal off the axes, a cardinal on them). */
  function SignDirection(from: Point, to: Point): Compass
    requires from != to
  {
    var s := Point(Signum(to.x - from.x), Signum(to.y - from.y));
    assert IsUnit(s);
    FromVector(s).value
  }

  /** The cardinal direction along the axis of larger displacement. */
  function DominantCardinal(from: Point, to: Point): Compass
    requires from != to
  {
    var dx, dy := to.x - from.x, to.y - from.y;
    if Abs(dx) < Abs(dy) then (if dy < 0 then N else S) else (if dx < 0 then W else E)
  }

  /** There is a heading exactly when the points differ, for both resolvers. */
  lemma HeadingNoneIff(from: Point, to: Point)
    ensures Heading(from, to).None? <==> from == to
    ensures HeadingFull(from, to).None? <==> from == to
  {
  }

  /** On an axis the heading is the cardinal direction of the displacement, with no alternate. */
  lemma HeadingOnAxis(from: Point, to: Point)
    requires (to.x == from.x) != (to.y == from.y)
    ensures Heading(from, to) == Some(SignDirection(from, to))
    ensures HeadingFull(from, to) == Some((SignDirection(from, to), None))
  {
  }

  /** Off the axes: the diagonal when the magnitudes are equal or the smaller one is
      less than half the larger, otherwise the cardinal of the larger axis; the
      diagonal is offered as the alternate exactly on a knight-move ratio 1:2. */
  lemma HeadingOffAxis(from: Point, to: Point)
    requires to.x != from.x && to.y != from.y
    ensures var lo, hi := Isk.Min(Abs(to.x - from.x), Abs(to.y - from.y)), Isk.Max(Abs(to.x - from.x), Abs(to.y - from.y));
      && Heading(from, to) == Some(if lo == hi || 2 * lo < hi then SignDirection(from, to) else DominantCardinal(from, to))
      && HeadingFull(from, to).Some?
      && HeadingFull(from, to).value.1 == if 2 * lo == hi then Some(SignDirection(from, to)) else None
  {
  }

  /** The first component of `compass_heading_full` is always `compass_heading`. */
  lemma HeadingFullAgrees(from: Point, to: Point)
    ensures HeadingFull(from, to).None? <==> Heading(from, to).None?
    ensures HeadingFull(from, to).Some? ==> HeadingFull(from, to).value.0 == Heading(from, to).value
  {
  }

  /** Off the axes, a step along the signs of the displacement is one king move closer. */
  lemma DiagonalApproaches(from: Point, to: Point)
    requires to.x != from.x && to.y != from.y
    ensures Chebyshev(Step(from, SignDirection(from, to)), to) == Chebyshev(from, to) - 1
  {
    assert Vec(SignDirection(from, to)) == Point(Signum(to.x - from.x), Signum(to.y - from.y));
  }

  /** A step along the axis of the strictly larger component is one king move closer. */
  lemma CardinalApproaches(from: Point, to: Point)
    requires Abs(to.x - from.x) != Abs(to.y - from.y)
    ensures Chebyshev(Step(from, DominantCardinal(from, to)), to) == Chebyshev(from, to) - 1
  {
  }

  /** One step along the heading brings the target exactly one king move closer. */
  lemma HeadingApproaches(from: Point, to: Point)
    requires from != to
    ensures Heading(from, to).Some?
    ensures Chebyshev(Step(from, Heading(from, to).value), to) == Chebyshev(from, to) - 1
  {
    if (to.x == from.x) != (to.y == from.y) {
      HeadingOnAxis(from, to);
      assert Vec(SignDirection(from, to)) == Point(Signum(to.x - from.x), Signum(to.y - from.y));
    } else {
      HeadingOffAxis(from, to);
      var lo, hi := Isk.Min(Abs(to.x - from.x), Abs(to.y - from.y)), Isk.Max(Abs(to.x - from.x), Abs(to.y - from.y));
      if lo == hi || 2 * lo < hi {
        DiagonalApproaches(from, to);
      } else {
        CardinalApproaches(from, to);
      }
    }
  }

  /** So does one step along the alternate offered on a knight-move ratio. */
  lemma AlternateApproaches(from: Point, to: Point)
    requires HeadingFull(from, to).Some? && HeadingFull(from, to).value.1.Some?
    ensures Chebyshev(Step(from, HeadingFull(from, to).value.1.value), to) == Chebyshev(from, to) - 1
  {
    HeadingNoneIff(from, to);
    if (to.x == from.x) != (to.y == from.y) {
      HeadingOnAxis(from, to);
    } else {
      HeadingOffAxis(from, to);
      DiagonalApproaches(from, to);
    }
  }
}
