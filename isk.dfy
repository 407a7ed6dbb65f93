/** The value-level part of `src/Isk.rs`: the integer `min`/`max` helpers, the
    viewport constants, the error record and the immutable kind records that
    maps, objects and actors share. */
module Isk {

  /** Half the side of the square viewport. */
  const VIEW_RADIUS: int := 21
  /** Side of the square viewport. */
  const VIEW: int := 2 * VIEW_RADIUS + 1

  /** The error record carried by failed conversions. */
  datatype Error = Error(desc: string)

  /** A terrain kind. `glyph` stands for the display tile: it is all that
      distinguishes two kinds that share a name. */
  datatype Terrain = Terrain(name: string, glyph: char, walkable: bool, transparent: bool)

  /** An actor kind. */
  datatype ActorModel = ActorModel(name: string, glyph: char)

  /** A map-object kind (a door, a spring, water). */
  datatype MapObjectModel = MapObjectModel(name: string, glyph: char, walkable: bool, transparent: bool)

  /** `min`: the smaller argument (the first one on a tie is never observable). */
  function Min(x: int, y: int): (r: int)
    ensures r <= x && r <= y
    ensures r == x || r == y
  {
    if x < y then x else y
  }

  /** `max`: the larger argument. */
  function Max(x: int, y: int): (r: int)
    ensures r >= x && r >= y
    ensures r == x || r == y
  {
    if x < y then y else x
  }
}
