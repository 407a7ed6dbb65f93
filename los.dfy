/** The line-of-sight walk of `src/Isk/los.rs` (`AngbandlikeTrace`): an
    error-accumulator walk from one point towards another that asks a caller
    predicate about every cell it enters, with deferred knight-move ties. */
module Los {
  import opened Wrappers
  import opened Numerics
  import opened Gps
  import Isk

  /** `k` copies of a vector. */
  function Times(k: int, v: Point): Point
  {
    Point(Multiple(v.x, k), Multiple(v.y, k))
  }

  lemma TimesSucc(k: int, v: Point)
    ensures Times(k + 1, v) == Add(Times(k, v), v)
  {
  }

  /** The primary direction of the walk: the first component of the full heading. */
  function TraceDir(from: Point, to: Point): Compass
    requires from != to
  {
    HeadingNoneIff(from, to);
    HeadingFull(from, to).value.0
  }

  /** Where `Chebyshev(from, to)` steps along the primary direction end. */
  function TraceEnd(from: Point, to: Point): Point
    requires IsI32Point(from) && IsI32Point(to) && from != to
  {
    Add(from, Scale(Chebyshev(from, to), TraceDir(from, to)))
  }

  /** The end of the straight walk, as `range` copies of the primary step. */
  lemma TraceEndTimes(from: Point, to: Point)
    requires IsI32Point(from) && IsI32Point(to) && from != to
    ensures TraceEnd(from, to) == Add(from, Times(Chebyshev(from, to), Vec(TraceDir(from, to))))
  {
  }

  /** The number of secondary steps: the size of the axis-aligned miss at `TraceEnd`. */
  function AltCount(from: Point, to: Point): int
    requires IsI32Point(from) && IsI32Point(to) && from != to
  {
    var err := Sub(to, TraceEnd(from, to));
    var c := if err.x == 0 then err.y else err.x;
    if c < 0 then -c else c
  }

  /** The secondary direction: the primary one turned towards the target. On a
      straight walk (the end is the target) it is the primary direction itself. */
  function TraceAlt(from: Point, to: Point): Compass
    requires IsI32Point(from) && IsI32Point(to) && from != to
  {
    var end := TraceEnd(from, to);
    if end == to then TraceDir(from, to)
    else
      TraceGeometry(from, to);
      FromVector(Add(Vec(TraceDir(from, to)), Vec(Heading(end, to).value))).value
  }

  /** The geometry the walk relies on: when the primary direction alone misses the
      target, the miss is axis-aligned, the turned direction is a unit vector
      different from the primary one (so the unwrap in the source never fails), and
      `range - alts` primary steps plus `alts` secondary steps reach the target. */
  lemma TraceGeometry(from: Point, to: Point)
    requires IsI32Point(from) && IsI32Point(to) && from != to
    ensures Chebyshev(from, to) > 0
    ensures TraceEnd(from, to) != to ==>
      && Heading(TraceEnd(from, to), to).Some?
      && IsUnit(Add(Vec(TraceDir(from, to)), Vec(Heading(TraceEnd(from, to), to).value)))
      && 0 < AltCount(from, to) < Chebyshev(from, to)
      && Add(Vec(TraceDir(from, to)), Vec(Heading(TraceEnd(from, to), to).value)) != Vec(TraceDir(from, to))
      && Add(Add(from, Times(Chebyshev(from, to) - AltCount(from, to), Vec(TraceDir(from, to)))),
             Times(AltCount(from, to), Add(Vec(TraceDir(from, to)), Vec(Heading(TraceEnd(from, to), to).value)))) == to
  {
    var dx, dy := to.x - from.x, to.y - from.y;
    HeadingNoneIff(from, to);
    HeadingFullAgrees(from, to);
    if dx == 0 || dy == 0 {
      HeadingOnAxis(from, to);
      AxisEnd(from, to);
    } else {
      HeadingOffAxis(from, to);
      if Abs(dx) == Abs(dy) {
        DiagonalEnd(from, to);
      } else if 2 * Isk.Min(Abs(dx), Abs(dy)) < Isk.Max(Abs(dx), Abs(dy)) {
        ShallowDiagonal(from, to);
      } else {
        SteepCardinal(from, to);
      }
    }
  }

  lemma AxisEnd(from: Point, to: Point)
    requires IsI32Point(from) && IsI32Point(to) && from != to
    requires (to.x == from.x) != (to.y == from.y)
    requires TraceDir(from, to) == SignDirection(from, to)
    ensures TraceEnd(from, to) == to
  {
    var dx, dy := to.x - from.x, to.y - from.y;
    if dx == 0 {
      if dy < 0 { assert Vec(SignDirection(from, to)) == Point(0, -1); }
      else { assert Vec(SignDirection(from, to)) == Point(0, 1); }
    } else {
      if dx < 0 { assert Vec(SignDirection(from, to)) == Point(-1, 0); }
      else { assert Vec(SignDirection(from, to)) == Point(1, 0); }
    }
  }

  lemma DiagonalEnd(from: Point, to: Point)
    requires IsI32Point(from) && IsI32Point(to) && from != to
    requires to.x != from.x && to.y != from.y && Abs(to.x - from.x) == Abs(to.y - from.y)
    requires TraceDir(from, to) == SignDirection(from, to)
    ensures TraceEnd(from, to) == to
  {
    var dx, dy := to.x - from.x, to.y - from.y;
    assert Vec(SignDirection(from, to)) == Point(Signum(dx), Signum(dy));
  }

  lemma ShallowDiagonal(from: Point, to: Point)
    requires IsI32Point(from) && IsI32Point(to) && from != to
    requires to.x != from.x && to.y != from.y && Abs(to.x - from.x) != Abs(to.y - from.y)
    requires 2 * Isk.Min(Abs(to.x - from.x), Abs(to.y - from.y)) < Isk.Max(Abs(to.x - from.x), Abs(to.y - from.y))
    requires TraceDir(from, to) == SignDirection(from, to)
    ensures TraceEnd(from, to) != to
    ensures Heading(TraceEnd(from, to), to).Some?
    ensures IsUnit(Add(Vec(TraceDir(from, to)), Vec(Heading(TraceEnd(from, to), to).value)))
    ensures 0 < AltCount(from, to) < Chebyshev(from, to)
    ensures Add(Vec(TraceDir(from, to)), Vec(Heading(TraceEnd(from, to), to).value)) != Vec(TraceDir(from, to))
    ensures Add(Add(from, Times(Chebyshev(from, to) - AltCount(from, to), Vec(TraceDir(from, to)))),
             Times(AltCount(from, to), Add(Vec(TraceDir(from, to)), Vec(Heading(TraceEnd(from, to), to).value)))) == to
  {
    var dx, dy := to.x - from.x, to.y - from.y;
    if dx > dy && dx > 0 && dy > 0 {
      ShallowXES(from, to);
    } else if dx > (-dy) && dx > 0 && dy < 0 {
      ShallowXEN(from, to);
    } else if (-dx) > dy && dx < 0 && dy > 0 {
      ShallowXWS(from, to);
    } else if (-dx) > (-dy) && dx < 0 && dy < 0 {
      ShallowXWN(from, to);
    } else if dx < dy && dx > 0 && dy > 0 {
      ShallowYES(from, to);
    } else if dx < (-dy) && dx > 0 && dy < 0 {
      ShallowYEN(from, to);
    } else if (-dx) < dy && dx < 0 && dy > 0 {
      ShallowYWS(from, to);
    } else if (-dx) < (-dy) && dx < 0 && dy < 0 {
      ShallowYWN(from, to);
    }
  }

  lemma SteepCardinal(from: Point, to: Point)
    requires IsI32Point(from) && IsI32Point(to) && from != to
    requires to.x != from.x && to.y != from.y && Abs(to.x - from.x) != Abs(to.y - from.y)
    requires TraceDir(from, to) == DominantCardinal(from, to)
    ensures TraceEnd(from, to) != to
    ensures Heading(TraceEnd(from, to), to).Some?
    ensures IsUnit(Add(Vec(TraceDir(from, to)), Vec(Heading(TraceEnd(from, to), to).value)))
    ensures 0 < AltCount(from, to) < Chebyshev(from, to)
    ensures Add(Vec(TraceDir(from, to)), Vec(Heading(TraceEnd(from, to), to).value)) != Vec(TraceDir(from, to))
    ensures Add(Add(from, Times(Chebyshev(from, to) - AltCount(from, to), Vec(TraceDir(from, to)))),
             Times(AltCount(from, to), Add(Vec(TraceDir(from, to)), Vec(Heading(TraceEnd(from, to), to).value)))) == to
  {
    var dx, dy := to.x - from.x, to.y - from.y;
    if dx > dy && dx > 0 && dy > 0 {
      SteepXES(from, to);
    } else if dx > (-dy) && dx > 0 && dy < 0 {
      SteepXEN(from, to);
    } else if (-dx) > dy && dx < 0 && dy > 0 {
      SteepXWS(from, to);
    } else if (-dx) > (-dy) && dx < 0 && dy < 0 {
      SteepXWN(from, to);
    } else if dx < dy && dx > 0 && dy > 0 {
      SteepYES(from, to);
    } else if dx < (-dy) && dx > 0 && dy < 0 {
      SteepYEN(from, to);
    } else if (-dx) < dy && dx < 0 && dy > 0 {
      SteepYWS(from, to);
    } else if (-dx) < (-dy) && dx < 0 && dy < 0 {
      SteepYWN(from, to);
    }
  }

  lemma ShallowXES(from: Point, to: Point)
    requires IsI32Point(from) && IsI32Point(to) && from != to
    requires to.x != from.x && to.y != from.y && Abs(to.x - from.x) != Abs(to.y - from.y)
    requires 2 * Isk.Min(Abs(to.x - from.x), Abs(to.y - from.y)) < Isk.Max(Abs(to.x - from.x), Abs(to.y - from.y))
    requires TraceDir(from, to) == SignDirection(from, to)
    requires (to.x - from.x) > (to.y - from.y) && (to.x - from.x) > 0 && (to.y - from.y) > 0
    ensures Vec(TraceDir(from, to)) == Point(1, 1)
    ensures TraceEnd(from, to) == Point(to.x, from.y + (to.x - from.x))
    ensures Heading(TraceEnd(from, to), to).Some?
    ensures Vec(Heading(TraceEnd(from, to), to).value) == Point(0, -1)
    ensures Chebyshev(from, to) == (to.x - from.x)
    ensures AltCount(from, to) == (to.x - from.x) - (to.y - from.y)
  {
    HeadingOnAxis(TraceEnd(from, to), to);
  }

  lemma ShallowXEN(from: Point, to: Point)
    requires IsI32Point(from) && IsI32Point(to) && from != to
    requires to.x != from.x && to.y != from.y && Abs(to.x - from.x) != Abs(to.y - from.y)
    requires 2 * Isk.Min(Abs(to.x - from.x), Abs(to.y - from.y)) < Isk.Max(Abs(to.x - from.x), Abs(to.y - from.y))
    requires TraceDir(from, to) == SignDirection(from, to)
    requires (to.x - from.x) > (-(to.y - from.y)) && (to.x - from.x) > 0 && (to.y - from.y) < 0
    ensures Vec(TraceDir(from, to)) == Point(1, -1)
    ensures TraceEnd(from, to) == Point(to.x, from.y - (to.x - from.x))
    ensures Heading(TraceEnd(from, to), to).Some?
    ensures Vec(Heading(TraceEnd(from, to), to).value) == Point(0, 1)
    ensures Chebyshev(from, to) == (to.x - from.x)
    ensures AltCount(from, to) == (to.x - from.x) - (-(to.y - from.y))
  {
    HeadingOnAxis(TraceEnd(from, to), to);
  }

  lemma ShallowXWS(from: Point, to: Point)
    requires IsI32Point(from) && IsI32Point(to) && from != to
    requires to.x != from.x && to.y != from.y && Abs(to.x - from.x) != Abs(to.y - from.y)
    requires 2 * Isk.Min(Abs(to.x - from.x), Abs(to.y - from.y)) < Isk.Max(Abs(to.x - from.x), Abs(to.y - from.y))
    requires TraceDir(from, to) == SignDirection(from, to)
    requires (-(to.x - from.x)) > (to.y - from.y) && (to.x - from.x) < 0 && (to.y - from.y) > 0
    ensures Vec(TraceDir(from, to)) == Point(-1, 1)
    ensures TraceEnd(from, to) == Point(to.x, from.y + (-(to.x - from.x)))
    ensures Heading(TraceEnd(from, to), to).Some?
    ensures Vec(Heading(TraceEnd(from, to), to).value) == Point(0, -1)
    ensures Chebyshev(from, to) == (-(to.x - from.x))
    ensures AltCount(from, to) == (-(to.x - from.x)) - (to.y - from.y)
  {
    HeadingOnAxis(TraceEnd(from, to), to);
  }

  lemma ShallowXWN(from: Point, to: Point)
    requires IsI32Point(from) && IsI32Point(to) && from != to
    requires to.x != from.x && to.y != from.y && Abs(to.x - from.x) != Abs(to.y - from.y)
    requires 2 * Isk.Min(Abs(to.x - from.x), Abs(to.y - from.y)) < Isk.Max(Abs(to.x - from.x), Abs(to.y - from.y))
    requires TraceDir(from, to) == SignDirection(from, to)
    requires (-(to.x - from.x)) > (-(to.y - from.y)) && (to.x - from.x) < 0 && (to.y - from.y) < 0
    ensures Vec(TraceDir(from, to)) == Point(-1, -1)
    ensures TraceEnd(from, to) == Point(to.x, from.y - (-(to.x - from.x)))
    ensures Heading(TraceEnd(from, to), to).Some?
    ensures Vec(Heading(TraceEnd(from, to), to).value) == Point(0, 1)
    ensures Chebyshev(from, to) == (-(to.x - from.x))
    ensures AltCount(from, to) == (-(to.x - from.x)) - (-(to.y - from.y))
  {
    HeadingOnAxis(TraceEnd(from, to), to);
  }

  lemma ShallowYES(from: Point, to: Point)
    requires IsI32Point(from) && IsI32Point(to) && from != to
    requires to.x != from.x && to.y != from.y && Abs(to.x - from.x) != Abs(to.y - from.y)
    requires 2 * Isk.Min(Abs(to.x - from.x), Abs(to.y - from.y)) < Isk.Max(Abs(to.x - from.x), Abs(to.y - from.y))
    requires TraceDir(from, to) == SignDirection(from, to)
    requires (to.x - from.x) < (to.y - from.y) && (to.x - from.x) > 0 && (to.y - from.y) > 0
    ensures Vec(TraceDir(from, to)) == Point(1, 1)
    ensures TraceEnd(from, to) == Point(from.x + (to.y - from.y), to.y)
    ensures Heading(TraceEnd(from, to), to).Some?
    ensures Vec(Heading(TraceEnd(from, to), to).value) == Point(-1, 0)
    ensures Chebyshev(from, to) == (to.y - from.y)
    ensures AltCount(from, to) == (to.y - from.y) - (to.x - from.x)
  {
    HeadingOnAxis(TraceEnd(from, to), to);
  }

  lemma ShallowYEN(from: Point, to: Point)
    requires IsI32Point(from) && IsI32Point(to) && from != to
    requires to.x != from.x && to.y != from.y && Abs(to.x - from.x) != Abs(to.y - from.y)
    requires 2 * Isk.Min(Abs(to.x - from.x), Abs(to.y - from.y)) < Isk.Max(Abs(to.x - from.x), Abs(to.y - from.y))
    requires TraceDir(from, to) == SignDirection(from, to)
    requires (to.x - from.x) < (-(to.y - from.y)) && (to.x - from.x) > 0 && (to.y - from.y) < 0
    ensures Vec(TraceDir(from, to)) == Point(1, -1)
    ensures TraceEnd(from, to) == Point(from.x + (-(to.y - from.y)), to.y)
    ensures Heading(TraceEnd(from, to), to).Some?
    ensures Vec(Heading(TraceEnd(from, to), to).value) == Point(-1, 0)
    ensures Chebyshev(from, to) == (-(to.y - from.y))
    ensures AltCount(from, to) == (-(to.y - from.y)) - (to.x - from.x)
  {
    HeadingOnAxis(TraceEnd(from, to), to);
  }

  lemma ShallowYWS(from: Point, to: Point)
    requires IsI32Point(from) && IsI32Point(to) && from != to
    requires to.x != from.x && to.y != from.y && Abs(to.x - from.x) != Abs(to.y - from.y)
    requires 2 * Isk.Min(Abs(to.x - from.x), Abs(to.y - from.y)) < Isk.Max(Abs(to.x - from.x), Abs(to.y - from.y))
    requires TraceDir(from, to) == SignDirection(from, to)
    requires (-(to.x - from.x)) < (to.y - from.y) && (to.x - from.x) < 0 && (to.y - from.y) > 0
    ensures Vec(TraceDir(from, to)) == Point(-1, 1)
    ensures TraceEnd(from, to) == Point(from.x - (to.y - from.y), to.y)
    ensures Heading(TraceEnd(from, to), to).Some?
    ensures Vec(Heading(TraceEnd(from, to), to).value) == Point(1, 0)
    ensures Chebyshev(from, to) == (to.y - from.y)
    ensures AltCount(from, to) == (to.y - from.y) - (-(to.x - from.x))
  {
    HeadingOnAxis(TraceEnd(from, to), to);
  }

  lemma ShallowYWN(from: Point, to: Point)
    requires IsI32Point(from) && IsI32Point(to) && from != to
    requires to.x != from.x && to.y != from.y && Abs(to.x - from.x) != Abs(to.y - from.y)
    requires 2 * Isk.Min(Abs(to.x - from.x), Abs(to.y - from.y)) < Isk.Max(Abs(to.x - from.x), Abs(to.y - from.y))
    requires TraceDir(from, to) == SignDirection(from, to)
    requires (-(to.x - from.x)) < (-(to.y - from.y)) && (to.x - from.x) < 0 && (to.y - from.y) < 0
    ensures Vec(TraceDir(from, to)) == Point(-1, -1)
    ensures TraceEnd(from, to) == Point(from.x - (-(to.y - from.y)), to.y)
    ensures Heading(TraceEnd(from, to), to).Some?
    ensures Vec(Heading(TraceEnd(from, to), to).value) == Point(1, 0)
    ensures Chebyshev(from, to) == (-(to.y - from.y))
    ensures AltCount(from, to) == (-(to.y - from.y)) - (-(to.x - from.x))
  {
    HeadingOnAxis(TraceEnd(from, to), to);
  }

  lemma SteepXES(from: Point, to: Point)
    requires IsI32Point(from) && IsI32Point(to) && from != to
    requires to.x != from.x && to.y != from.y && Abs(to.x - from.x) != Abs(to.y - from.y)
    requires TraceDir(from, to) == DominantCardinal(from, to)
    requires (to.x - from.x) > (to.y - from.y) && (to.x - from.x) > 0 && (to.y - from.y) > 0
    ensures Vec(TraceDir(from, to)) == Point(1, 0)
    ensures TraceEnd(from, to) == Point(to.x, from.y)
    ensures Heading(TraceEnd(from, to), to).Some?
    ensures Vec(Heading(TraceEnd(from, to), to).value) == Point(0, 1)
    ensures Chebyshev(from, to) == (to.x - from.x)
    ensures AltCount(from, to) == (to.y - from.y)
  {
    HeadingOnAxis(TraceEnd(from, to), to);
  }

  lemma SteepXEN(from: Point, to: Point)
    requires IsI32Point(from) && IsI32Point(to) && from != to
    requires to.x != from.x && to.y != from.y && Abs(to.x - from.x) != Abs(to.y - from.y)
    requires TraceDir(from, to) == DominantCardinal(from, to)
    requires (to.x - from.x) > (-(to.y - from.y)) && (to.x - from.x) > 0 && (to.y - from.y) < 0
    ensures Vec(TraceDir(from, to)) == Point(1, 0)
    ensures TraceEnd(from, to) == Point(to.x, from.y)
    ensures Heading(TraceEnd(from, to), to).Some?
    ensures Vec(Heading(TraceEnd(from, to), to).value) == Point(0, -1)
    ensures Chebyshev(from, to) == (to.x - from.x)
    ensures AltCount(from, to) == (-(to.y - from.y))
  {
    HeadingOnAxis(TraceEnd(from, to), to);
  }

  lemma SteepXWS(from: Point, to: Point)
    requires IsI32Point(from) && IsI32Point(to) && from != to
    requires to.x != from.x && to.y != from.y && Abs(to.x - from.x) != Abs(to.y - from.y)
    requires TraceDir(from, to) == DominantCardinal(from, to)
    requires (-(to.x - from.x)) > (to.y - from.y) && (to.x - from.x) < 0 && (to.y - from.y) > 0
    ensures Vec(TraceDir(from, to)) == Point(-1, 0)
    ensures TraceEnd(from, to) == Point(to.x, from.y)
    ensures Heading(TraceEnd(from, to), to).Some?
    ensures Vec(Heading(TraceEnd(from, to), to).value) == Point(0, 1)
    ensures Chebyshev(from, to) == (-(to.x - from.x))
    ensures AltCount(from, to) == (to.y - from.y)
  {
    HeadingOnAxis(TraceEnd(from, to), to);
  }

  lemma SteepXWN(from: Point, to: Point)
    requires IsI32Point(from) && IsI32Point(to) && from != to
    requires to.x != from.x && to.y != from.y && Abs(to.x - from.x) != Abs(to.y - from.y)
    requires TraceDir(from, to) == DominantCardinal(from, to)
    requires (-(to.x - from.x)) > (-(to.y - from.y)) && (to.x - from.x) < 0 && (to.y - from.y) < 0
    ensures Vec(TraceDir(from, to)) == Point(-1, 0)
    ensures TraceEnd(from, to) == Point(to.x, from.y)
    ensures Heading(TraceEnd(from, to), to).Some?
    ensures Vec(Heading(TraceEnd(from, to), to).value) == Point(0, -1)
    ensures Chebyshev(from, to) == (-(to.x - from.x))
    ensures AltCount(from, to) == (-(to.y - from.y))
  {
    HeadingOnAxis(TraceEnd(from, to), to);
  }

  lemma SteepYES(from: Point, to: Point)
    requires IsI32Point(from) && IsI32Point(to) && from != to
    requires to.x != from.x && to.y != from.y && Abs(to.x - from.x) != Abs(to.y - from.y)
    requires TraceDir(from, to) == DominantCardinal(from, to)
    requires (to.x - from.x) < (to.y - from.y) && (to.x - from.x) > 0 && (to.y - from.y) > 0
    ensures Vec(TraceDir(from, to)) == Point(0, 1)
    ensures TraceEnd(from, to) == Point(from.x, to.y)
    ensures Heading(TraceEnd(from, to), to).Some?
    ensures Vec(Heading(TraceEnd(from, to), to).value) == Point(1, 0)
    ensures Chebyshev(from, to) == (to.y - from.y)
    ensures AltCount(from, to) == (to.x - from.x)
  {
    HeadingOnAxis(TraceEnd(from, to), to);
  }

  lemma SteepYEN(from: Point, to: Point)
    requires IsI32Point(from) && IsI32Point(to) && from != to
    requires to.x != from.x && to.y != from.y && Abs(to.x - from.x) != Abs(to.y - from.y)
    requires TraceDir(from, to) == DominantCardinal(from, to)
    requires (to.x - from.x) < (-(to.y - from.y)) && (to.x - from.x) > 0 && (to.y - from.y) < 0
    ensures Vec(TraceDir(from, to)) == Point(0, -1)
    ensures TraceEnd(from, to) == Point(from.x, to.y)
    ensures Heading(TraceEnd(from, to), to).Some?
    ensures Vec(Heading(TraceEnd(from, to), to).value) == Point(1, 0)
    ensures Chebyshev(from, to) == (-(to.y - from.y))
    ensures AltCount(from, to) == (to.x - from.x)
  {
    HeadingOnAxis(TraceEnd(from, to), to);
  }

  lemma SteepYWS(from: Point, to: Point)
    requires IsI32Point(from) && IsI32Point(to) && from != to
    requires to.x != from.x && to.y != from.y && Abs(to.x - from.x) != Abs(to.y - from.y)
    requires TraceDir(from, to) == DominantCardinal(from, to)
    requires (-(to.x - from.x)) < (to.y - from.y) && (to.x - from.x) < 0 && (to.y - from.y) > 0
    ensures Vec(TraceDir(from, to)) == Point(0, 1)
    ensures TraceEnd(from, to) == Point(from.x, to.y)
    ensures Heading(TraceEnd(from, to), to).Some?
    ensures Vec(Heading(TraceEnd(from, to), to).value) == Point(-1, 0)
    ensures Chebyshev(from, to) == (to.y - from.y)
    ensures AltCount(from, to) == (-(to.x - from.x))
  {
    HeadingOnAxis(TraceEnd(from, to), to);
  }

  lemma SteepYWN(from: Point, to: Point)
    requires IsI32Point(from) && IsI32Point(to) && from != to
    requires to.x != from.x && to.y != from.y && Abs(to.x - from.x) != Abs(to.y - from.y)
    requires TraceDir(from, to) == DominantCardinal(from, to)
    requires (-(to.x - from.x)) < (-(to.y - from.y)) && (to.x - from.x) < 0 && (to.y - from.y) < 0
    ensures Vec(TraceDir(from, to)) == Point(0, -1)
    ensures TraceEnd(from, to) == Point(from.x, to.y)
    ensures Heading(TraceEnd(from, to), to).Some?
    ensures Vec(Heading(TraceEnd(from, to), to).value) == Point(-1, 0)
    ensures Chebyshev(from, to) == (-(to.y - from.y))
    ensures AltCount(from, to) == (-(to.x - from.x))
  {
    HeadingOnAxis(TraceEnd(from, to), to);
  }

  /** On a turned walk, the secondary direction's unit vector is the primary one
      plus the turn. */
  lemma TraceAltVec(from: Point, to: Point)
    requires IsI32Point(from) && IsI32Point(to) && from != to
    requires TraceEnd(from, to) != to
    ensures Heading(TraceEnd(from, to), to).Some?
    ensures Vec(TraceAlt(from, to)) == Add(Vec(TraceDir(from, to)), Vec(Heading(TraceEnd(from, to), to).value))
  {
    TraceGeometry(from, to);
  }

  /** Every step of a walk made of unit steps moves at most one king move, so the
      j-th point is at most j king moves from the first. */
  lemma {:induction false} PathChebyshev(line: seq<Point>, from: Point, dv: Point, av: Point,
                                         pass: Point -> bool, j: nat)
    requires IsUnit(dv) && IsUnit(av)
    requires WalkOf(line, from, dv, av, pass)
    requires j < |line|
    ensures Chebyshev(from, line[j]) <= j
  {
    if j > 0 {
      PathChebyshev(line, from, dv, av, pass, j - 1);
      assert LinkAt(line, j, dv, av, pass);
      var u := Sub(line[j], line[j - 1]);
      assert IsUnit(u);
    }
  }

  /** The accumulator identity pins the number of secondary steps: if
      `2*a*n - 2*n*alts` lies in `[-n, n]`, then `alts == a`. */
  lemma ExactAlts(n: int, a: int, alts: int)
    requires n > 0
    requires -n <= 2 * a * n - 2 * n * alts <= n
    ensures alts == a
  {
    var t := a - alts;
    assert 2 * a * n - 2 * n * alts == 2 * n * t;
  }

  /** `k` copies of `c` added up: a product kept apart from multiplication, so
      that the invariant of the turning walk stays linear. */
  function IntCopies(k: nat, c: int): int
  {
    if k == 0 then 0 else IntCopies(k - 1, c) + c
  }

  lemma IntCopiesSucc(k: nat, c: int)
    ensures IntCopies(k + 1, c) == IntCopies(k, c) + c
  {
  }

  lemma {:induction false} IntCopiesProduct(k: nat, c: int)
    ensures IntCopies(k, c) == k * c
  {
    if k > 0 {
      IntCopiesProduct(k - 1, c);
    }
  }

  /** `k` copies of a vector added up, the point counterpart of `IntCopies`. */
  function Copies(k: nat, v: Point): Point
  {
    if k == 0 then Point(0, 0) else Add(Copies(k - 1, v), v)
  }

  lemma CopiesSucc(k: nat, v: Point)
    ensures Copies(k + 1, v) == Add(Copies(k, v), v)
  {
  }

  lemma {:induction false} CopiesTimes(k: nat, v: Point)
    ensures Copies(k, v) == Times(k, v)
  {
    if k > 0 {
      CopiesTimes(k - 1, v);
      TimesSucc(k - 1, v);
    }
  }

  predicate StrictlyIncreasing(km: seq<nat>)
  {
    forall i, j :: 0 <= i < j < |km| ==> km[i] < km[j]
  }

  /** The inner loop over `knight_moves`: each recorded tie point, stepped along
      the primary direction, is moved back and stepped along the secondary one. */
  method ReviseKnightMoves(line: seq<Point>, knightMoves: seq<nat>, dv: Point, av: Point)
    returns (fixed: seq<Point>)
    requires StrictlyIncreasing(knightMoves)
    requires forall k :: 0 <= k < |knightMoves| ==> knightMoves[k] < |line|
    ensures fixed == Revised(line, knightMoves, dv, av)
  {
    fixed := line;
    for t := 0 to |knightMoves|
      invariant |fixed| == |line|
      invariant forall j :: 0 <= j < |line| ==>
        fixed[j] == if j in knightMoves[..t] then Add(Sub(line[j], dv), av) else line[j]
    {
      var fixMe := knightMoves[t];
      assert fixMe !in knightMoves[..t];
      fixed := fixed[fixMe := Sub(fixed[fixMe], dv)];
      fixed := fixed[fixMe := Add(fixed[fixMe], av)];
      assert knightMoves[..t + 1] == knightMoves[..t] + [fixMe];
    }
    assert knightMoves[..|knightMoves|] == knightMoves;
  }

  /** The line with every recorded tie point moved from its primary step to
      the secondary one. */
  function Revised(line: seq<Point>, knightMoves: seq<nat>, dv: Point, av: Point): (r: seq<Point>)
    ensures |r| == |line|
    ensures forall j :: 0 <= j < |line| ==> r[j] == if j in knightMoves then Add(Sub(line[j], dv), av) else line[j]
  {
    seq(|line|, j requires 0 <= j < |line| => if j in knightMoves then Add(Sub(line[j], dv), av) else line[j])
  }

  /** A walk so far: it starts at `from`, and every later point is one step along
      `d` or `a` from its predecessor and was accepted by `pass`. */
  ghost predicate WalkOf(line: seq<Point>, from: Point, dv: Point, av: Point, pass: Point -> bool)
  {
    && |line| >= 1 && line[0] == from
    && forall j :: 1 <= j < |line| ==> LinkAt(line, j, dv, av, pass)
  }

  /** The j-th point of a walk was accepted and is one step from the one before. */
  ghost predicate LinkAt(line: seq<Point>, j: nat, dv: Point, av: Point, pass: Point -> bool)
    requires 1 <= j < |line|
  {
    pass(line[j]) && (line[j] == Add(line[j - 1], dv) || line[j] == Add(line[j - 1], av))
  }

  /** A walk extended by an accepted step is a walk. */
  lemma WalkExtend(line: seq<Point>, from: Point, dv: Point, av: Point, pass: Point -> bool, p: Point)
    requires WalkOf(line, from, dv, av, pass)
    requires pass(p) && (p == Add(line[|line| - 1], dv) || p == Add(line[|line| - 1], av))
    ensures WalkOf(line + [p], from, dv, av, pass)
  {
    var ext := line + [p];
    forall j | 1 <= j < |ext|
      ensures LinkAt(ext, j, dv, av, pass)
    {
      if j < |line| {
        assert LinkAt(line, j, dv, av, pass);
        assert ext[j] == line[j] && ext[j - 1] == line[j - 1];
      }
    }
  }

  /** A tie point recorded at index k: reached by a primary step from a point whose
      secondary step `pass` also accepted, and left by a secondary step if the walk
      went on. */
  ghost predicate KnightRecorded(line: seq<Point>, k: nat, dv: Point, av: Point, pass: Point -> bool)
    requires 1 <= k < |line|
  {
    && line[k] == Add(line[k - 1], dv)
    && pass(Add(line[k - 1], av))
    && (k + 1 < |line| ==> line[k + 1] == Add(line[k], av))
  }

  /** One link of a revised walk, seen locally: `prev` and `cur` are consecutive
      points of the walk (`pp` the point before `prev`), `inPrev`/`inCur` say whether
      they are rewritten. */
  lemma ReviseLink(pp: Point, prev: Point, cur: Point, dv: Point, av: Point,
                   inPrev: bool, inCur: bool, pass: Point -> bool, fprev: Point, fcur: Point)
    requires dv != av
    requires pass(cur) && (cur == Add(prev, dv) || cur == Add(prev, av))
    requires inCur ==> cur == Add(prev, dv) && pass(Add(prev, av))
    requires inPrev ==> cur == Add(prev, av) && prev == Add(pp, dv)
    requires fprev == if inPrev then Add(Sub(prev, dv), av) else prev
    requires fcur == if inCur then Add(Sub(cur, dv), av) else cur
    ensures pass(fcur) && (fcur == Add(fprev, dv) || fcur == Add(fprev, av))
  {
  }

  /** The recorded ties, read as a set of indices. */
  lemma RecordedMembers(line: seq<Point>, knightMoves: seq<nat>, dv: Point, av: Point, pass: Point -> bool)
    requires Recorded(line, knightMoves, dv, av, pass)
    requires forall k :: 0 <= k < |knightMoves| ==> knightMoves[k] < |line| - 1
    ensures forall j :: j in knightMoves ==> 1 <= j < |line| - 1 && KnightRecorded(line, j, dv, av, pass)
  {
    forall j | j in knightMoves
      ensures 1 <= j < |line| - 1 && KnightRecorded(line, j, dv, av, pass)
    {
      var k :| 0 <= k < |knightMoves| && knightMoves[k] == j;
    }
  }

  /** Revising the recorded tie points keeps the walk a walk, with the same ends. */
  lemma ReviseKeepsWalk(line: seq<Point>, fixed: seq<Point>, knightMoves: seq<nat>,
                        from: Point, dv: Point, av: Point, pass: Point -> bool)
    requires dv != av
    requires WalkOf(line, from, dv, av, pass)
    requires forall j :: j in knightMoves ==> 1 <= j < |line| - 1 && KnightRecorded(line, j, dv, av, pass)
    requires |fixed| == |line|
    requires forall j :: 0 <= j < |line| ==>
      fixed[j] == if j in knightMoves then Add(Sub(line[j], dv), av) else line[j]
    ensures WalkOf(fixed, from, dv, av, pass)
    ensures fixed[|fixed| - 1] == line[|line| - 1]
  {
    assert 0 !in knightMoves && fixed[0] == line[0];
    assert |line| - 1 !in knightMoves && fixed[|line| - 1] == line[|line| - 1];
    forall j | 1 <= j < |fixed|
      ensures LinkAt(fixed, j, dv, av, pass)
    {
      ReviseAt(line, fixed, dv, av, pass, j, j - 1 in knightMoves, j in knightMoves);
    }
  }

  /** One link of the revised walk. */
  lemma ReviseAt(line: seq<Point>, fixed: seq<Point>, dv: Point, av: Point,
                 pass: Point -> bool, j: nat, inPrev: bool, inCur: bool)
    requires dv != av
    requires 1 <= j < |line| == |fixed|
    requires LinkAt(line, j, dv, av, pass)
    requires inCur ==> j < |line| - 1 && KnightRecorded(line, j, dv, av, pass)
    requires inPrev ==> 2 <= j && KnightRecorded(line, j - 1, dv, av, pass)
    requires fixed[j] == if inCur then Add(Sub(line[j], dv), av) else line[j]
    requires fixed[j - 1] == if inPrev then Add(Sub(line[j - 1], dv), av) else line[j - 1]
    ensures LinkAt(fixed, j, dv, av, pass)
  {
    var pp := if inPrev then line[j - 2] else line[0];
    ReviseLink(pp, line[j - 1], line[j], dv, av, inPrev, inCur, pass, fixed[j - 1], fixed[j]);
  }

  function Last<T>(s: seq<T>): T
    requires |s| > 0
  {
    s[|s| - 1]
  }

  /** The walk with no turn (the target lies on the primary direction): `range`
      primary steps, stopping before the first cell `pass` refuses. */
  method StraightWalk(from: Point, to: Point, range: nat, pass: Point -> bool)
    returns (ok: bool, line: seq<Point>)
    requires IsI32Point(from) && IsI32Point(to) && from != to
    requires TraceEnd(from, to) == to
    requires range <= Chebyshev(from, to)
    ensures WalkOf(line, from, Vec(TraceDir(from, to)), Vec(TraceDir(from, to)), pass)
    ensures |line| - 1 <= range
    ensures ok <==> Last(line) == to
    ensures |line| - 1 < range ==> !ok && !pass(Step(Last(line), TraceDir(from, to)))
    ensures |line| - 1 == range ==> (ok <==> range == Chebyshev(from, to))
  {
    var dv := Vec(TraceDir(from, to));
    var n := Chebyshev(from, to);
    var start := from;
    line := [start];
    for i := 0 to range
      invariant |line| == i + 1 && Last(line) == start
      invariant WalkOf(line, from, dv, dv, pass)
      invariant start == Add(from, Times(i, dv))
    {
      TimesSucc(i, dv);
      start := Add(start, dv);
      if !pass(start) {
        PathChebyshev(line, from, dv, dv, pass, i);
        return false, line;
      }
      WalkExtend(line, from, dv, dv, pass, start);
      line := line + [start];
    }
    PathChebyshev(line, from, dv, dv, pass, range);
    TraceEndTimes(from, to);
    ok := start == to;
  }

  /** The tie points recorded so far, in increasing order, each one a valid
      `KnightRecorded` index of the walk. */
  ghost predicate Recorded(line: seq<Point>, knightMoves: seq<nat>, dv: Point, av: Point, pass: Point -> bool)
  {
    && StrictlyIncreasing(knightMoves)
    && forall k :: 0 <= k < |knightMoves| ==>
         1 <= knightMoves[k] < |line| && KnightRecorded(line, knightMoves[k], dv, av, pass)
  }

  /** Extending the walk keeps the recorded ties, provided a tie at the current
      end is left by a secondary step. */
  lemma RecordedExtend(line: seq<Point>, knightMoves: seq<nat>, dv: Point, av: Point,
                       pass: Point -> bool, p: Point)
    requires Recorded(line, knightMoves, dv, av, pass)
    requires forall k :: 0 <= k < |knightMoves| && knightMoves[k] == |line| - 1 ==>
      p == Add(line[|line| - 1], av)
    ensures Recorded(line + [p], knightMoves, dv, av, pass)
  {
    var ext := line + [p];
    forall k | 0 <= k < |knightMoves|
      ensures 1 <= knightMoves[k] < |ext| && KnightRecorded(ext, knightMoves[k], dv, av, pass)
    {
      var j := knightMoves[k];
      assert KnightRecorded(line, j, dv, av, pass);
      assert ext[j] == line[j] && ext[j - 1] == line[j - 1];
    }
  }

  /** A tie taken by a primary step, with the secondary step also accepted, is
      recorded at the index of the new point. */
  lemma RecordedPush(line: seq<Point>, knightMoves: seq<nat>, dv: Point, av: Point,
                     pass: Point -> bool, p: Point)
    requires |line| >= 1
    requires Recorded(line, knightMoves, dv, av, pass)
    requires forall k :: 0 <= k < |knightMoves| ==> knightMoves[k] < |line| - 1
    requires p == Add(line[|line| - 1], dv) && pass(Add(line[|line| - 1], av))
    ensures Recorded(line + [p], knightMoves + [|line|], dv, av, pass)
  {
    RecordedExtend(line, knightMoves, dv, av, pass, p);
    var ext, km := line + [p], knightMoves + [|line|];
    assert KnightRecorded(ext, |line|, dv, av, pass);
    forall k | 0 <= k < |km|
      ensures 1 <= km[k] < |ext| && KnightRecorded(ext, km[k], dv, av, pass)
    {
      if k < |knightMoves| {
        assert km[k] == knightMoves[k];
      }
    }
  }

  /** What the turning walk needs to know about its parameters: two different
      unit steps, `a` of the `n` steps secondary, and `n - a` primary plus `a`
      secondary steps reaching the target at king-move distance `n`. */
  ghost predicate KnightGeometry(from: Point, to: Point, dv: Point, av: Point, n: int, a: int)
  {
    && KnightCounts(dv, av, n, a)
    && Chebyshev(from, to) == n
    && Add(Add(from, Copies(n - a, dv)), Copies(a, av)) == to
  }

  /** The part of `KnightGeometry` a single step needs. */
  ghost predicate KnightCounts(dv: Point, av: Point, n: int, a: int)
  {
    dv != av && IsUnit(dv) && IsUnit(av) && 0 < a < n < 0x1_0000_0000
  }

  /** The trace's own directions and counts satisfy `KnightGeometry` whenever the
      primary direction alone misses the target. */
  lemma TraceKnightGeometry(from: Point, to: Point)
    requires IsI32Point(from) && IsI32Point(to) && from != to && TraceEnd(from, to) != to
    ensures KnightGeometry(from, to, Vec(TraceDir(from, to)), Vec(TraceAlt(from, to)), Chebyshev(from, to), AltCount(from, to))
  {
    TraceGeometry(from, to);
    TraceAltVec(from, to);
    var dv, av, n, a := Vec(TraceDir(from, to)), Vec(TraceAlt(from, to)), Chebyshev(from, to), AltCount(from, to);
    assert av != dv;
    assert 0 < a < n;
    CopiesTimes(n - a, dv);
    CopiesTimes(a, av);
  }

  /** The walk part of the state after `i` steps: `i` links ending at `start`. */
  ghost predicate KnightWalked(from: Point, dv: Point, av: Point, pass: Point -> bool,
                               i: nat, line: seq<Point>, start: Point)
  {
    |line| == i + 1 && Last(line) == start && WalkOf(line, from, dv, av, pass)
  }

  /** Where the walk stands: `i - alts` primary plus `alts` secondary steps
      away from `from`. */
  ghost predicate KnightPosition(from: Point, dv: Point, av: Point, i: nat, start: Point, alts: int)
  {
    0 <= alts <= i && start == Add(Add(from, Copies(i - alts, dv)), Copies(alts, av))
  }

  /** The error accumulator as an exact function of `i` and `alts`
      (`2*a*i - 2*n*alts`), within `[-n, n]`, and the tie parity in `[-1, 1]`,
      which is `-1` once the accumulator has reached `-n`. */
  ghost predicate KnightAccumulator(n: int, a: int, i: nat, numerator: int, parity: int, alts: int)
  {
    && 0 <= alts <= i
    && numerator == IntCopies(i, 2 * a) - IntCopies(alts, 2 * n)
    && -n <= numerator <= n
    && -1 <= parity <= 1
    && (numerator == -n ==> parity == -1)
  }

  /** While no tie has been resolved, the recorded ties; one recorded at the
      end of the walk means the accumulator sits on `n`. */
  ghost predicate KnightTies(dv: Point, av: Point, n: int, pass: Point -> bool, line: seq<Point>,
                             numerator: int, parity: int, knightMoves: seq<nat>)
  {
    parity == 0 ==>
      && Recorded(line, knightMoves, dv, av, pass)
      && forall k :: 0 <= k < |knightMoves| && knightMoves[k] == |line| - 1 ==> numerator == n
  }

  /** The state of the turning walk after `i` steps. The four parts are bound
      to one name so that the verifier takes the invariant as a single fact. */
  ghost predicate KnightInv(from: Point, dv: Point, av: Point, n: int, a: int, pass: Point -> bool,
                            i: nat, line: seq<Point>, start: Point, numerator: int, parity: int,
                            knightMoves: seq<nat>, alts: int)
  {
    var holds :=
      && KnightWalked(from, dv, av, pass, i, line, start)
      && KnightPosition(from, dv, av, i, start, alts)
      && KnightAccumulator(n, a, i, numerator, parity, alts)
      && KnightTies(dv, av, n, pass, line, numerator, parity, knightMoves);
    holds
  }

  /** The walk before its first step. */
  lemma KnightInit(from: Point, to: Point, dv: Point, av: Point, n: int, a: int, pass: Point -> bool)
    requires KnightGeometry(from, to, dv, av, n, a)
    ensures KnightInv(from, dv, av, n, a, pass, 0, [from], from, 0, 0, [], 0)
  {
    assert KnightWalked(from, dv, av, pass, 0, [from], from);
    assert KnightPosition(from, dv, av, 0, from, 0);
    assert KnightAccumulator(n, a, 0, 0, 0, 0);
    assert KnightTies(dv, av, n, pass, [from], 0, 0, []);
  }

  lemma WalkedStep(from: Point, dv: Point, av: Point, pass: Point -> bool,
                   i: nat, line: seq<Point>, start: Point, p: Point)
    requires KnightWalked(from, dv, av, pass, i, line, start)
    requires pass(p) && (p == Add(start, dv) || p == Add(start, av))
    ensures KnightWalked(from, dv, av, pass, i + 1, line + [p], p)
  {
    WalkExtend(line, from, dv, av, pass, p);
  }

  /** One more copy of either vector, added to a point made of copies of both. */
  lemma CopiesShift(from: Point, u: Point, w: Point, k: nat, k1: nat, m: nat, m1: nat, start: Point)
    requires k1 == k + 1 && m1 == m + 1
    requires start == Add(Add(from, Copies(k, u)), Copies(m, w))
    ensures Add(start, u) == Add(Add(from, Copies(k1, u)), Copies(m, w))
    ensures Add(start, w) == Add(Add(from, Copies(k, u)), Copies(m1, w))
  {
    CopiesSucc(k, u);
    CopiesSucc(m, w);
  }

  lemma PositionAlt(from: Point, dv: Point, av: Point, i: nat, start: Point, alts: int)
    requires KnightPosition(from, dv, av, i, start, alts)
    ensures KnightPosition(from, dv, av, i + 1, Add(start, av), alts + 1)
  {
    CopiesShift(from, dv, av, i - alts, i - alts + 1, alts, alts + 1, start);
  }

  lemma PositionDir(from: Point, dv: Point, av: Point, i: nat, start: Point, alts: int)
    requires KnightPosition(from, dv, av, i, start, alts)
    ensures KnightPosition(from, dv, av, i + 1, Add(start, dv), alts)
  {
    CopiesShift(from, dv, av, i - alts, i + 1 - alts, alts, alts + 1, start);
  }

  lemma AccumulatorAlt(n: int, a: int, i: nat, numerator: int, parity: int, alts: int)
    requires 0 < a < n
    requires KnightAccumulator(n, a, i, numerator, parity, alts)
    requires numerator + 2 * a > n || (numerator + 2 * a == n && parity == -1)
    ensures KnightAccumulator(n, a, i + 1, numerator + 2 * a - 2 * n, parity, alts + 1)
  {
    IntCopiesSucc(i, 2 * a);
    IntCopiesSucc(alts, 2 * n);
  }

  lemma AccumulatorDir(n: int, a: int, i: nat, numerator: int, parity: int, alts: int)
    requires 0 < a < n
    requires KnightAccumulator(n, a, i, numerator, parity, alts)
    requires numerator + 2 * a <= n
    ensures KnightAccumulator(n, a, i + 1, numerator + 2 * a, parity, alts)
  {
    IntCopiesSucc(i, 2 * a);
  }

  /** Extending the walk keeps the ties, unless it leaves a tie recorded at its
      end by a primary step. */
  lemma TiesStep(dv: Point, av: Point, n: int, pass: Point -> bool, line: seq<Point>,
                 numerator: int, parity: int, knightMoves: seq<nat>, p: Point, numerator': int)
    requires |line| >= 1
    requires KnightTies(dv, av, n, pass, line, numerator, parity, knightMoves)
    requires p == Add(Last(line), av) || numerator != n
    ensures KnightTies(dv, av, n, pass, line + [p], numerator', parity, knightMoves)
  {
    if parity == 0 {
      RecordedExtend(line, knightMoves, dv, av, pass, p);
    }
  }

  /** A tie taken by a primary step with both steps accepted is recorded. */
  lemma TiesPush(dv: Point, av: Point, n: int, pass: Point -> bool, line: seq<Point>,
                 numerator: int, knightMoves: seq<nat>, p: Point)
    requires |line| >= 1
    requires KnightTies(dv, av, n, pass, line, numerator, 0, knightMoves)
    requires numerator != n
    requires p == Add(Last(line), dv) && pass(Add(Last(line), av))
    ensures KnightTies(dv, av, n, pass, line + [p], n, 0, knightMoves + [|line|])
  {
    forall k | 0 <= k < |knightMoves|
      ensures knightMoves[k] < |line| - 1
    {
      assert knightMoves[k] != |line| - 1;
    }
    RecordedPush(line, knightMoves, dv, av, pass, p);
  }

  /** A secondary step: taken when the accumulator overshoots, or at a tie once
      the primary step has been refused. */
  lemma AltStepKeeps(from: Point, dv: Point, av: Point, n: int, a: int, pass: Point -> bool,
                     i: nat, line: seq<Point>, start: Point, numerator: int, parity: int,
                     knightMoves: seq<nat>, alts: int)
    requires KnightCounts(dv, av, n, a)
    requires KnightInv(from, dv, av, n, a, pass, i, line, start, numerator, parity, knightMoves, alts)
    requires numerator + 2 * a > n || (numerator + 2 * a == n && parity == -1)
    requires pass(Add(start, av))
    ensures KnightInv(from, dv, av, n, a, pass, i + 1, line + [Add(start, av)], Add(start, av),
                      numerator + 2 * a - 2 * n, parity, knightMoves, alts + 1)
  {
    WalkedStep(from, dv, av, pass, i, line, start, Add(start, av));
    PositionAlt(from, dv, av, i, start, alts);
    AccumulatorAlt(n, a, i, numerator, parity, alts);
    TiesStep(dv, av, n, pass, line, numerator, parity, knightMoves, Add(start, av), numerator + 2 * a - 2 * n);
  }

  /** A primary step: taken when the accumulator undershoots, or at a tie whose
      secondary step was refused. */
  lemma DirStepKeeps(from: Point, dv: Point, av: Point, n: int, a: int, pass: Point -> bool,
                     i: nat, line: seq<Point>, start: Point, numerator: int, parity: int,
                     knightMoves: seq<nat>, alts: int)
    requires KnightCounts(dv, av, n, a)
    requires KnightInv(from, dv, av, n, a, pass, i, line, start, numerator, parity, knightMoves, alts)
    requires numerator + 2 * a < n || (numerator + 2 * a == n && parity == 1)
    requires pass(Add(start, dv))
    ensures KnightInv(from, dv, av, n, a, pass, i + 1, line + [Add(start, dv)], Add(start, dv),
                      numerator + 2 * a, parity, knightMoves, alts)
  {
    WalkedStep(from, dv, av, pass, i, line, start, Add(start, dv));
    PositionDir(from, dv, av, i, start, alts);
    AccumulatorDir(n, a, i, numerator, parity, alts);
    TiesStep(dv, av, n, pass, line, numerator, parity, knightMoves, Add(start, dv), numerator + 2 * a);
  }

  /** A tie at which both steps are accepted: the primary step is taken and the
      new point recorded for a possible later revision. */
  lemma TieRecordKeeps(from: Point, dv: Point, av: Point, n: int, a: int, pass: Point -> bool,
                       i: nat, line: seq<Point>, start: Point, numerator: int,
                       knightMoves: seq<nat>, alts: int)
    requires KnightCounts(dv, av, n, a)
    requires KnightInv(from, dv, av, n, a, pass, i, line, start, numerator, 0, knightMoves, alts)
    requires numerator + 2 * a == n
    requires pass(Add(start, dv)) && pass(Add(start, av))
    ensures KnightInv(from, dv, av, n, a, pass, i + 1, line + [Add(start, dv)], Add(start, dv),
                      numerator + 2 * a, 0, knightMoves + [|line|], alts)
  {
    WalkedStep(from, dv, av, pass, i, line, start, Add(start, dv));
    PositionDir(from, dv, av, i, start, alts);
    AccumulatorDir(n, a, i, numerator, 0, alts);
    TiesPush(dv, av, n, pass, line, numerator, knightMoves, Add(start, dv));
  }

  /** The step that ends a pass of the loop body, whichever way it was chosen:
      a secondary step, a primary step at a recorded tie, or a plain primary step. */
  lemma TakeStep(from: Point, dv: Point, av: Point, n: int, a: int, pass: Point -> bool,
                 i: nat, line: seq<Point>, start: Point, numerator: int, parity: int,
                 knightMoves: seq<nat>, alts: int, step: Point, recorded: bool, knightMoves': seq<nat>,
                 line': seq<Point>, start': Point, numerator': int, alts': int)
    requires KnightCounts(dv, av, n, a)
    requires KnightInv(from, dv, av, n, a, pass, i, line, start, numerator, parity, knightMoves, alts)
    requires step == av ==> numerator + 2 * a > n || (numerator + 2 * a == n && parity == -1)
    requires step != av ==> step == dv && numerator + 2 * a <= n
    requires recorded ==>
      && step == dv && parity == 0 && numerator + 2 * a == n
      && knightMoves' == knightMoves + [|line|] && pass(Add(start, av))
    requires !recorded ==> knightMoves' == knightMoves && (step == dv && numerator + 2 * a == n ==> parity == 1)
    requires pass(Add(start, step))
    requires line' == line + [Add(start, step)] && start' == Add(start, step)
    requires numerator' == if step == av then numerator + 2 * a - 2 * n else numerator + 2 * a
    requires alts' == if step == av then alts + 1 else alts
    ensures KnightInv(from, dv, av, n, a, pass, i + 1, line', start', numerator', parity, knightMoves', alts')
  {
    if step == av {
      AltStepKeeps(from, dv, av, n, a, pass, i, line, start, numerator, parity, knightMoves, alts);
    } else if recorded {
      TieRecordKeeps(from, dv, av, n, a, pass, i, line, start, numerator, knightMoves, alts);
    } else {
      DirStepKeeps(from, dv, av, n, a, pass, i, line, start, numerator, parity, knightMoves, alts);
    }
  }

  /** At a tie whose primary step is refused, the recorded ties are revised; the
      walk so far stays a walk and is committed to secondary steps at ties. */
  lemma ReviseKeeps(from: Point, dv: Point, av: Point, n: int, a: int, pass: Point -> bool,
                    i: nat, line: seq<Point>, fixed: seq<Point>, start: Point, numerator: int,
                    knightMoves: seq<nat>, alts: int)
    requires KnightCounts(dv, av, n, a)
    requires KnightInv(from, dv, av, n, a, pass, i, line, start, numerator, 0, knightMoves, alts)
    requires numerator + 2 * a == n
    requires |fixed| == |line|
    requires forall j :: 0 <= j < |line| ==>
      fixed[j] == if j in knightMoves then Add(Sub(line[j], dv), av) else line[j]
    ensures KnightInv(from, dv, av, n, a, pass, i, fixed, start, numerator, -1, knightMoves, alts)
  {
    RecordedMembers(line, knightMoves, dv, av, pass);
    ReviseKeepsWalk(line, fixed, knightMoves, from, dv, av, pass);
  }

  /** A tie with no parity yet whose secondary step is refused commits the walk
      to primary steps at ties. */
  lemma ParityOneKeeps(from: Point, dv: Point, av: Point, n: int, a: int, pass: Point -> bool,
                       i: nat, line: seq<Point>, start: Point, numerator: int,
                       knightMoves: seq<nat>, alts: int)
    requires KnightInv(from, dv, av, n, a, pass, i, line, start, numerator, 0, knightMoves, alts)
    ensures KnightInv(from, dv, av, n, a, pass, i, line, start, numerator, 1, knightMoves, alts)
  {
  }

  /** During the walk the accumulator stays within `[-n, n]`, and the recorded
      ties can be handed to the revision. */
  lemma KnightFacts(from: Point, dv: Point, av: Point, n: int, a: int, pass: Point -> bool,
                    i: nat, line: seq<Point>, start: Point, numerator: int, parity: int,
                    knightMoves: seq<nat>, alts: int)
    requires KnightInv(from, dv, av, n, a, pass, i, line, start, numerator, parity, knightMoves, alts)
    ensures -n <= numerator <= n
    ensures -1 <= parity <= 1 && |line| == i + 1 && Last(line) == start
    ensures WalkOf(line, from, dv, av, pass)
    ensures parity == 0 ==>
      StrictlyIncreasing(knightMoves) && forall k :: 0 <= k < |knightMoves| ==> knightMoves[k] < |line|
  {
  }

  /** After the full count of steps the accumulator is back in range only if
      exactly `a` secondary steps were taken, so the walk ends at the target;
      after fewer steps it cannot have reached it. */
  lemma KnightEnd(from: Point, to: Point, dv: Point, av: Point, n: int, a: int, pass: Point -> bool,
                  i: nat, line: seq<Point>, start: Point, numerator: int, parity: int,
                  knightMoves: seq<nat>, alts: int)
    requires KnightGeometry(from, to, dv, av, n, a)
    requires KnightInv(from, dv, av, n, a, pass, i, line, start, numerator, parity, knightMoves, alts)
    requires i <= n
    ensures WalkOf(line, from, dv, av, pass) && |line| == i + 1 && Last(line) == start
    ensures start == to <==> i == n
  {
    assert WalkOf(line, from, dv, av, pass) && Last(line) == start;
    PathChebyshev(line, from, dv, av, pass, i);
    if i == n {
      IntCopiesProduct(n, 2 * a);
      IntCopiesProduct(alts, 2 * n);
      ExactAlts(n, a, alts);
    }
  }

  /** The knight-move rule at a tie, as a value (line, parity, recorded ties):
      with no parity yet, a refused primary step commits to secondary steps
      (parity -1) and revises the recorded ties; otherwise a refused secondary
      step commits to primary steps (parity 1); if both steps are accepted the
      tie is recorded at the index the next point will take. */
  function TieRule(dv: Point, av: Point, pass: Point -> bool, line: seq<Point>, start: Point,
                   parity: int, knightMoves: seq<nat>): (seq<Point>, int, seq<nat>)
  {
    if parity != 0 then (line, parity, knightMoves)
    else if !pass(Add(start, dv)) then (Revised(line, knightMoves, dv, av), -1, knightMoves)
    else if !pass(Add(start, av)) then (line, 1, knightMoves)
    else (line, 0, knightMoves + [|line|])
  }

  /** The state after one pass of the loop body, with the step it chose. */
  datatype KnightPass = KnightPass(stopped: bool, line: seq<Point>, start: Point, numerator: int,
                                   parity: int, knightMoves: seq<nat>, step: Point)

  /** The tie stage of a pass: the tie rule when the advanced accumulator `acc`
      lands exactly on `n`, nothing otherwise. */
  function TieStage(dv: Point, av: Point, n: int, pass: Point -> bool, line: seq<Point>, start: Point,
                    acc: int, parity: int, knightMoves: seq<nat>): (seq<Point>, int, seq<nat>)
  {
    if acc == n then TieRule(dv, av, pass, line, start, parity, knightMoves) else (line, parity, knightMoves)
  }

  /** The step of a pass: secondary when the accumulator overshoots or a tie
      committed to secondary steps, primary otherwise. */
  function StepChoice(dv: Point, av: Point, n: int, acc: int, parity: int): Point
  {
    if acc > n || (acc == n && parity == -1) then av else dv
  }

  /** One pass of the source's loop body, as a value: advance the accumulator,
      apply the tie stage, choose the step, and stop instead if `pass` refuses
      the new cell. */
  function KnightNext(dv: Point, av: Point, n: int, a: int, pass: Point -> bool, line: seq<Point>,
                      start: Point, numerator: int, parity: int, knightMoves: seq<nat>): KnightPass
  {
    var acc := numerator + 2 * a;
    var stage := TieStage(dv, av, n, pass, line, start, acc, parity, knightMoves);
    var step := StepChoice(dv, av, n, acc, stage.1);
    var next := Add(start, step);
    if !pass(next) then KnightPass(true, stage.0, start, numerator, stage.1, knightMoves, step)
    else KnightPass(false, stage.0 + [next], next, if step == av then acc - 2 * n else acc,
                    stage.1, stage.2, step)
  }

  /** The tie rule keeps the walk's invariant; a recorded tie leaves the line
      alone and means both steps are accepted. */
  lemma TieKeeps(from: Point, dv: Point, av: Point, n: int, a: int, pass: Point -> bool,
                 i: nat, line: seq<Point>, start: Point, numerator: int, parity: int,
                 knightMoves: seq<nat>, alts: int)
    requires KnightCounts(dv, av, n, a)
    requires KnightInv(from, dv, av, n, a, pass, i, line, start, numerator, parity, knightMoves, alts)
    requires numerator + 2 * a == n
    ensures var (line1, parity1, knightMoves1) := TieRule(dv, av, pass, line, start, parity, knightMoves);
      && KnightInv(from, dv, av, n, a, pass, i, line1, start, numerator, parity1, knightMoves, alts)
      && (parity1 == 0 ==>
           && line1 == line && parity == 0 && knightMoves1 == knightMoves + [|line|]
           && pass(Add(start, dv)) && pass(Add(start, av)))
      && (parity1 != 0 ==> knightMoves1 == knightMoves)
  {
    if parity == 0 && !pass(Add(start, dv)) {
      ReviseKeeps(from, dv, av, n, a, pass, i, line, Revised(line, knightMoves, dv, av), start, numerator, knightMoves, alts);
    } else if parity == 0 && !pass(Add(start, av)) {
      ParityOneKeeps(from, dv, av, n, a, pass, i, line, start, numerator, knightMoves, alts);
    }
  }

  /** One pass of the loop body keeps the walk's invariant: either it stops,
      leaving the state where it was (up to a revision at a tie) because one of
      the two steps is refused, or it takes one more step. */
  lemma KnightNextKeeps(from: Point, dv: Point, av: Point, n: int, a: int, pass: Point -> bool,
                        i: nat, line: seq<Point>, start: Point, numerator: int, parity: int,
                        knightMoves: seq<nat>, alts: int)
    requires KnightCounts(dv, av, n, a)
    requires KnightInv(from, dv, av, n, a, pass, i, line, start, numerator, parity, knightMoves, alts)
    ensures var r := KnightNext(dv, av, n, a, pass, line, start, numerator, parity, knightMoves);
      && (r.stopped ==>
           && r.start == start && r.numerator == numerator && r.knightMoves == knightMoves
           && KnightInv(from, dv, av, n, a, pass, i, r.line, start, numerator, r.parity, knightMoves, alts)
           && (!pass(Add(start, dv)) || !pass(Add(start, av))))
      && (!r.stopped ==>
           KnightInv(from, dv, av, n, a, pass, i + 1, r.line, r.start, r.numerator, r.parity, r.knightMoves,
                     if r.step == av then alts + 1 else alts))
  {
    var acc := numerator + 2 * a;
    var r := KnightNext(dv, av, n, a, pass, line, start, numerator, parity, knightMoves);
    var (line1, parity1, knightMoves1) := TieStage(dv, av, n, pass, line, start, acc, parity, knightMoves);
    if acc == n {
      TieKeeps(from, dv, av, n, a, pass, i, line, start, numerator, parity, knightMoves, alts);
    }
    if !r.stopped {
      TakeStep(from, dv, av, n, a, pass, i, line1, start, numerator, parity1, knightMoves, alts,
               r.step, acc == n && parity1 == 0, r.knightMoves,
               r.line, r.start, r.numerator, if r.step == av then alts + 1 else alts);
    }
  }

  /** The knight-move rule of the source's loop body at a tie. */
  method ResolveTie(dv: Point, av: Point, pass: Point -> bool, line: seq<Point>, start: Point,
                    knightmoveParity: int, knightMoves: seq<nat>)
    returns (line': seq<Point>, knightmoveParity': int, knightMoves': seq<nat>)
    requires knightmoveParity == 0 ==>
      StrictlyIncreasing(knightMoves) && forall k :: 0 <= k < |knightMoves| ==> knightMoves[k] < |line|
    ensures (line', knightmoveParity', knightMoves') == TieRule(dv, av, pass, line, start, knightmoveParity, knightMoves)
  {
    line', knightmoveParity', knightMoves' := line, knightmoveParity, knightMoves;
    if knightmoveParity' == 0 {
      var test := Add(start, dv);
      if !pass(test) {
        knightmoveParity' := -1;
        line' := ReviseKnightMoves(line, knightMoves, dv, av);
      }
    }
    if knightmoveParity' == 0 {
      var test := Add(start, av);
      if !pass(test) {
        knightmoveParity' := 1;
      }
    }
    if knightmoveParity' == 0 {
      knightMoves' := knightMoves + [|line|];
    }
  }

  /** One pass of the source's loop body. */
  method KnightStep(dv: Point, av: Point, n: i64, altCount: i64, pass: Point -> bool,
                    line: seq<Point>, start: Point, numerator: i64, knightmoveParity: int, knightMoves: seq<nat>)
    returns (stopped: bool, line': seq<Point>, start': Point, numerator': i64,
             knightmoveParity': int, knightMoves': seq<nat>, step: Point)
    requires KnightCounts(dv, av, n, altCount)
    requires -n <= numerator <= n
    requires knightmoveParity == 0 ==>
      StrictlyIncreasing(knightMoves) && forall k :: 0 <= k < |knightMoves| ==> knightMoves[k] < |line|
    ensures KnightPass(stopped, line', start', numerator', knightmoveParity', knightMoves', step)
         == KnightNext(dv, av, n, altCount, pass, line, start, numerator, knightmoveParity, knightMoves)
  {
    stopped := false;
    line', start', knightmoveParity', knightMoves' := line, start, knightmoveParity, knightMoves;
    numerator' := numerator + 2 * altCount;
    step := dv;
    if numerator' > n {
      step := av;
    } else if numerator' == n {
      line', knightmoveParity', knightMoves' := ResolveTie(dv, av, pass, line, start, knightmoveParity, knightMoves);
      if knightmoveParity' == -1 {
        step := av;
      }
    }
    assert (line', knightmoveParity', knightMoves')
        == TieStage(dv, av, n, pass, line, start, numerator', knightmoveParity, knightMoves);
    assert step == StepChoice(dv, av, n, numerator', knightmoveParity');
    // The four ways through the source's loop body share this tail: move,
    // stop if `pass` refuses the new cell, otherwise extend the line.
    if !pass(Add(start, step)) {
      return true, line', start, numerator, knightmoveParity', knightMoves, step;
    }
    line', start' := line' + [Add(start, step)], Add(start, step);
    if step == av {
      numerator' := numerator' - 2 * n;
    }
  }

  /** The walk that turns: `range` steps driven by the error accumulator, with
      the knight-move tie rule, from `from` towards `to` with primary step `d`,
      secondary step `alt`, `n` steps in all of which `altCount` secondary. A walk
      that stops early stops before a cell `pass` refuses; a walk of the full
      distance reaches the target. */
  method KnightWalk(from: Point, to: Point, dv: Point, av: Point, n: i64, altCount: i64,
                    range: nat, pass: Point -> bool)
    returns (ok: bool, line: seq<Point>)
    requires KnightGeometry(from, to, dv, av, n, altCount)
    requires range <= n
    ensures WalkOf(line, from, dv, av, pass)
    ensures |line| - 1 <= range
    ensures ok <==> Last(line) == to
    ensures |line| - 1 < range ==> !ok && (!pass(Add(Last(line), dv)) || !pass(Add(Last(line), av)))
    ensures |line| - 1 == range ==> (ok <==> range == n)
  {
    var knightmoveParity := 0;
    var numerator: i64 := 0;
    var knightMoves: seq<nat> := [];
    ghost var alts := 0;
    var start := from;
    line := [start];
    KnightInit(from, to, dv, av, n, altCount, pass);
    for i := 0 to range
      invariant KnightInv(from, dv, av, n, altCount, pass, i, line, start, numerator, knightmoveParity, knightMoves, alts)
    {
      KnightNextKeeps(from, dv, av, n, altCount, pass, i, line, start, numerator, knightmoveParity, knightMoves, alts);
      KnightFacts(from, dv, av, n, altCount, pass, i, line, start, numerator, knightmoveParity, knightMoves, alts);
      var stopped, step;
      stopped, line, start, numerator, knightmoveParity, knightMoves, step :=
        KnightStep(dv, av, n, altCount, pass, line, start, numerator, knightmoveParity, knightMoves);
      if stopped {
        KnightEnd(from, to, dv, av, n, altCount, pass, i, line, start, numerator, knightmoveParity, knightMoves, alts);
        return false, line;
      }
      alts := if step == av then alts + 1 else alts;
    }
    KnightEnd(from, to, dv, av, n, altCount, pass, range, line, start, numerator, knightmoveParity, knightMoves, alts);
    ok := start == to;
  }

  /** The values the source computes before walking, in terms of the trace's
      specification functions. */
  lemma TracePlan(from: Point, to: Point, maxSteps: u32)
    requires IsI32Point(from) && IsI32Point(to) && from != to
    ensures Isk.Max(NormI64(Sub(to, from).x), NormI64(Sub(to, from).y)) == Chebyshev(from, to)
    ensures Chebyshev(from, to) < 0x1_0000_0000
    ensures MinU64U32(Chebyshev(from, to), maxSteps) == Isk.Min(Chebyshev(from, to), maxSteps)
    ensures HeadingFull(from, to).Some? && HeadingFull(from, to).value.0 == TraceDir(from, to)
    ensures Add(from, Scale(Chebyshev(from, to), TraceDir(from, to))) == TraceEnd(from, to)
  {
    HeadingNoneIff(from, to);
  }

  /** `AngbandlikeTrace`: walk from `from` towards `to` for at most `maxSteps`
      steps, asking `pass` about every cell entered. The result is whether the
      target was reached, and the cells visited (starting with `from`). */
  method AngbandlikeTrace(maxSteps: u32, from: Point, to: Point, pass: Point -> bool)
    returns (ok: bool, line: seq<Point>)
    requires IsI32Point(from) && IsI32Point(to)
    ensures |line| >= 1 && line[0] == from
    ensures maxSteps == 0 || from == to ==> ok && line == [from]
    ensures maxSteps > 0 ==> (ok <==> Last(line) == to)
    ensures from != to ==> WalkOf(line, from, Vec(TraceDir(from, to)), Vec(TraceAlt(from, to)), pass)
    ensures |line| - 1 <= Isk.Min(Chebyshev(from, to), maxSteps)
    ensures from != to && |line| - 1 < Isk.Min(Chebyshev(from, to), maxSteps) ==>
      !ok && (!pass(Step(Last(line), TraceDir(from, to))) || !pass(Step(Last(line), TraceAlt(from, to))))
    ensures 0 < maxSteps && |line| - 1 == Isk.Min(Chebyshev(from, to), maxSteps) ==>
      (ok <==> maxSteps >= Chebyshev(from, to))
  {
    var start := from;
    line := [start];
    if maxSteps == 0 {
      return true, line;
    }
    var delta := Sub(to, from);
    var absDelta := Point(NormI64(delta.x), NormI64(delta.y));
    var needRange: i64 := Isk.Max(absDelta.x, absDelta.y);
    var actualRange := MinU64U32(needRange, maxSteps);
    var tmp := HeadingFull(from, to);
    HeadingNoneIff(from, to);
    if tmp.None? {
      return true, line;
    }
    TracePlan(from, to, maxSteps);
    var dirPair := tmp.value;
    var end := Add(start, Scale(needRange, dirPair.0));
    var offset := Heading(end, to);
    HeadingNoneIff(end, to);
    if offset.None? {
      ok, line := StraightWalk(from, to, actualRange, pass);
      return;
    }
    TraceKnightGeometry(from, to);
    TraceAltVec(from, to);
    var offsetDir := offset.value;
    var altStep := FromVector(Add(Vec(dirPair.0), Vec(offsetDir))).value;
    var err := Sub(to, end);
    var altCount := err.x;
    if 0 == altCount {
      altCount := err.y;
    }
    if 0 > altCount {
      altCount := -altCount;
    }
    assert altStep == TraceAlt(from, to);
    assert altCount == AltCount(from, to);
    ok, line := KnightWalk(from, to, Vec(dirPair.0), Vec(altStep), needRange, altCount, actualRange, pass);
  }
}
