/** Axis-aligned rectangles of `src/Isk/gps.rs` (`Rect`): an origin and non-negative
    dimensions, named anchor points, and the in-place split, alignment and
    translation used by the map builder. */
module Rects {
  import opened Wrappers
  import opened Gps

  /** The offset of a named anchor from the origin: compass anchors on the
      boundary, halves rounded down. It depends on nothing but the dimensions. */
  function AnchorOffset(dir: Compass, w: nat, h: nat): (r: Point)
    ensures 0 <= r.x <= w && 0 <= r.y <= h
    ensures dir == NW ==> r == Point(0, 0)
    ensures dir == SE ==> r == Point(w, h)
  {
    match dir
    case N => Point(w / 2, 0)
    case NE => Point(w, 0)
    case E => Point(w, h / 2)
    case SE => Point(w, h)
    case S => Point(w / 2, h)
    case SW => Point(0, h)
    case W => Point(0, h / 2)
    case NW => Point(0, 0)
  }

  /** The cells a rectangle covers: origin inclusive, far corner exclusive. */
  predicate Covers(o: Point, w: nat, h: nat, p: Point)
  {
    o.x <= p.x < o.x + w && o.y <= p.y < o.y + h
  }

  /** An eastward split at `cut` tiles the original: every cell is in exactly one piece. */
  lemma SplitEastTiles(o: Point, w: nat, h: nat, cut: nat, p: Point)
    requires cut < w
    ensures Covers(o, w, h, p) <==> Covers(o, cut, h, p) || Covers(Add(o, Point(cut, 0)), w - cut, h, p)
    ensures !(Covers(o, cut, h, p) && Covers(Add(o, Point(cut, 0)), w - cut, h, p))
  {
  }

  /** A southward split at `cut` tiles the original in the same way. */
  lemma SplitSouthTiles(o: Point, w: nat, h: nat, cut: nat, p: Point)
    requires cut < h
    ensures Covers(o, w, h, p) <==> Covers(o, w, cut, p) || Covers(Add(o, Point(0, cut)), w, h - cut, p)
    ensures !(Covers(o, w, cut, p) && Covers(Add(o, Point(0, cut)), w, h - cut, p))
  {
  }

  class Rect {
    var origin: Point
    var width: nat
    var height: nat

    /** `Rect::new`. */
    constructor (o: Point, w: nat, h: nat)
      ensures origin == o && width == w && height == h
    {
      origin, width, height := o, w, h;
    }

    /** `anchor`: the origin plus the direction's offset. */
    function Anchor(dir: Compass): (r: Point)
      reads this
      ensures Sub(r, origin) == AnchorOffset(dir, width, height)
    {
      Add(origin, AnchorOffset(dir, width, height))
    }

    /** `center`: halfway along each side, rounded down; it is the x of the north
        anchor and the y of the west anchor. */
    function Center(): (r: Point)
      reads this
      ensures r == Point(Anchor(N).x, Anchor(W).y)
    {
      Add(origin, Point(width / 2, height / 2))
    }

    /** `+= [i32;2]`: translation, which moves every anchor by the same offset. */
    method Translate(delta: Point)
      modifies this
      ensures origin == Add(old(origin), delta)
      ensures width == old(width) && height == old(height)
      ensures forall d :: Anchor(d) == Add(old(Anchor(d)), delta)
    {
      origin := Add(origin, delta);
    }

    /** `split` with the random cut supplied by the caller. East and south
        shrink this rectangle to `cut` along that axis and return the rest;
        every other direction returns `None` and changes nothing. */
    method Split(dir: Compass, lb: nat, ub: nat, cut: nat) returns (r: Option<Rect>)
      requires 1 <= lb <= cut < ub
      requires dir == S ==> ub < height
      requires dir == E ==> ub < width
      modifies this
      ensures dir == E ==>
        && r.Some? && fresh(r.value)
        && r.value.origin == Add(old(origin), Point(cut, 0))
        && r.value.width == old(width) - cut && r.value.height == old(height)
        && origin == old(origin) && width == cut && height == old(height)
      ensures dir == S ==>
        && r.Some? && fresh(r.value)
        && r.value.origin == Add(old(origin), Point(0, cut))
        && r.value.width == old(width) && r.value.height == old(height) - cut
        && origin == old(origin) && width == old(width) && height == cut
      ensures dir != E && dir != S ==> r.None? && unchanged(this)
    {
      match dir {
        case E =>
          var ret := new Rect(Add(origin, Point(cut, 0)), width - cut, height);
          width := cut;
          return Some(ret);
        case S =>
          var ret := new Rect(Add(origin, Point(0, cut)), width, height - cut);
          height := cut;
          return Some(ret);
        case _ =>
          return None;
      }
    }

    /** `align_to`: translate this rectangle so that its `myDir` anchor lands on
        `other`'s `otherDir` anchor, keeping its dimensions. */
    method AlignTo(myDir: Compass, other: Rect, otherDir: Compass)
      requires other != this
      modifies this
      ensures Anchor(myDir) == other.Anchor(otherDir)
      ensures width == old(width) && height == old(height)
    {
      var myGuess := Anchor(myDir);
      var otherAnchor := other.Anchor(otherDir);
      Translate(Point(otherAnchor.x - myGuess.x, otherAnchor.y - myGuess.y));
    }
  }
}
