/** The `World` of `src/Isk.rs`: the atlas of maps, the three kind registries
    with their first-match lookups, and the spatial helpers that turn screen
    offsets and view centres into map locations. */
module IskWorld {
  import opened Wrappers
  import opened Gps
  import opened Isk
  import opened Maps

  /** The position of the first entry of `s` whose name is `name`, or `|s|`
      when no entry has that name. */
  function FirstNamed<T>(s: seq<T>, nameOf: T -> string, name: string): (i: nat)
    ensures i <= |s|
    ensures i < |s| ==> nameOf(s[i]) == name
    ensures forall j :: 0 <= j < i ==> nameOf(s[j]) != name
  {
    if |s| == 0 then 0
    else if nameOf(s[0]) == name then 0
    else 1 + FirstNamed(s[1..], nameOf, name)
  }

  /** The earliest-registered entry named `name`, if any. */
  function Lookup<T>(s: seq<T>, nameOf: T -> string, name: string): (r: Option<T>)
    ensures r.None? <==> forall j :: 0 <= j < |s| ==> nameOf(s[j]) != name
    ensures r.Some? ==> exists i :: 0 <= i < |s| && s[i] == r.value && nameOf(s[i]) == name &&
                                    forall j :: 0 <= j < i ==> nameOf(s[j]) != name
  {
    var i := FirstNamed(s, nameOf, name);
    if i < |s| then Some(s[i]) else None
  }

  /** Registering an entry never shadows one already registered: a lookup
      that succeeded before still finds the same entry, and one that failed
      now finds the new entry exactly when it carries the name. */
  lemma {:induction false} LookupAppend<T>(s: seq<T>, x: T, nameOf: T -> string, name: string)
    ensures Lookup(s + [x], nameOf, name) ==
            if Lookup(s, nameOf, name).Some? then Lookup(s, nameOf, name)
            else if nameOf(x) == name then Some(x) else None
  {
    var i := FirstNamed(s, nameOf, name);
    var k := FirstNamed(s + [x], nameOf, name);
    if i < |s| {
      assert (s + [x])[i] == s[i];
    } else {
      assert forall j :: 0 <= j < |s| ==> (s + [x])[j] == s[j];
      assert (s + [x])[|s|] == x;
    }
  }

  /** Of two kinds registered under one name (as the two "water wheel in
      floor" terrains are), the lookup always yields the first. */
  lemma FirstOfTwinsWins(s: seq<Terrain>, a: Terrain, b: Terrain)
    requires a.name == b.name
    requires forall j :: 0 <= j < |s| ==> s[j].name != a.name
    ensures Lookup(s + [a, b], TerrainName, a.name) == Some(a)
  {
    assert s + [a, b] == (s + [a]) + [b];
    LookupAppend(s, a, TerrainName, a.name);
    LookupAppend(s + [a], b, TerrainName, a.name);
  }

  /** The linear search of the `get_*` methods, with its early return. */
  method FindNamed<T>(s: seq<T>, nameOf: T -> string, name: string) returns (r: Option<T>)
    ensures r == Lookup(s, nameOf, name)
  {
    for i := 0 to |s|
      invariant forall j :: 0 <= j < i ==> nameOf(s[j]) != name
    {
      if nameOf(s[i]) == name {
        return Some(s[i]);
      }
    }
    return None;
  }

  function MapName(m: Map): string { m.name }
  function ActorModelName(k: ActorModel): string { k.name }
  function MapObjectModelName(k: MapObjectModel): string { k.name }
  function TerrainName(t: Terrain): string { t.name }

  /** `impl PartialEq for Map`: two maps are equal when their names and
      dimensions are, whether or not they are the same object. */
  predicate SameMap(a: Map, b: Map)
  {
    a.name == b.name && a.width == b.width && a.height == b.height
  }

  class World {
    var atlas: seq<Map>
    var actorTypes: seq<ActorModel>
    var objTypes: seq<MapObjectModel>
    var terrainTypes: seq<Terrain>

    /** `World::new`: every registry empty. */
    constructor ()
      ensures atlas == [] && actorTypes == [] && objTypes == [] && terrainTypes == []
    {
      atlas, actorTypes, objTypes, terrainTypes := [], [], [], [];
    }

    /** `new_map`: a fresh map filled with `fill`, appended to the atlas. */
    method NewMap(name: string, dim: Point, fill: Terrain) returns (r: Map)
      requires 0 <= dim.x && 0 <= dim.y
      modifies this
      ensures fresh(r) && r.Valid()
      ensures r.name == name && r.width == dim.x && r.height == dim.y
      ensures r.objects == map[] && r.actors == []
      ensures forall i :: 0 <= i < r.terrain.Length ==> r.terrain[i] == fill
      ensures atlas == old(atlas) + [r]
      ensures actorTypes == old(actorTypes) && objTypes == old(objTypes) && terrainTypes == old(terrainTypes)
    {
      r := new Map(name, dim, fill);
      atlas := atlas + [r];
    }

    /** `get_map`: the first map of the atlas with that name. */
    method GetMap(name: string) returns (r: Option<Map>)
      ensures r == Lookup(atlas, MapName, name)
    {
      r := FindNamed(atlas, MapName, name);
    }

    /** `new_actor_model`: registers and returns the kind. */
    method NewActorModel(name: string, glyph: char) returns (r: ActorModel)
      modifies this
      ensures r == ActorModel(name, glyph)
      ensures actorTypes == old(actorTypes) + [r]
      ensures atlas == old(atlas) && objTypes == old(objTypes) && terrainTypes == old(terrainTypes)
    {
      r := ActorModel(name, glyph);
      actorTypes := actorTypes + [r];
    }

    /** `get_actor_model`. */
    method GetActorModel(name: string) returns (r: Option<ActorModel>)
      ensures r == Lookup(actorTypes, ActorModelName, name)
    {
      r := FindNamed(actorTypes, ActorModelName, name);
    }

    /** `new_map_object_model`: registers and returns the kind. */
    method NewMapObjectModel(name: string, glyph: char, walkable: bool, transparent: bool)
      returns (r: MapObjectModel)
      modifies this
      ensures r == MapObjectModel(name, glyph, walkable, transparent)
      ensures objTypes == old(objTypes) + [r]
      ensures atlas == old(atlas) && actorTypes == old(actorTypes) && terrainTypes == old(terrainTypes)
    {
      r := MapObjectModel(name, glyph, walkable, transparent);
      objTypes := objTypes + [r];
    }

    /** `get_map_object_model`. */
    method GetMapObjectModel(name: string) returns (r: Option<MapObjectModel>)
      ensures r == Lookup(objTypes, MapObjectModelName, name)
    {
      r := FindNamed(objTypes, MapObjectModelName, name);
    }

    /** `new_terrain`: registers and returns the kind. */
    method NewTerrain(name: string, glyph: char, walkable: bool, transparent: bool) returns (r: Terrain)
      modifies this
      ensures r == Terrain(name, glyph, walkable, transparent)
      ensures terrainTypes == old(terrainTypes) + [r]
      ensures atlas == old(atlas) && actorTypes == old(actorTypes) && objTypes == old(objTypes)
    {
      r := Terrain(name, glyph, walkable, transparent);
      terrainTypes := terrainTypes + [r];
    }

    /** `get_terrain`. */
    method GetTerrain(name: string) returns (r: Option<Terrain>)
      ensures r == Lookup(terrainTypes, TerrainName, name)
    {
      r := FindNamed(terrainTypes, TerrainName, name);
    }

    /** `canonical_loc`: the location itself when it is on its map, otherwise
        nothing (no map-to-map translation exists yet). */
    function CanonicalLoc(viewpoint: Location): (r: Option<Location>)
      ensures r.Some? <==> viewpoint.m.InBounds(viewpoint.pos)
      ensures r.Some? ==> r.value == viewpoint
    {
      if viewpoint.m.InBounds(viewpoint.pos) then Some(viewpoint) else None
    }

    /** `coerce_map`: `src` unchanged when its map equals `viewpoint`. */
    function CoerceMap(src: Location, viewpoint: Map): (r: Option<Location>)
      ensures r.Some? <==> SameMap(src.m, viewpoint)
      ensures r.Some? ==> r.value == src
    {
      if SameMap(src.m, viewpoint) then Some(src) else None
    }

    /** `screen_to_loc`: the cell `src` away from the top-left `topleft`, if
        it is on that map. */
    function ScreenToLoc(src: Point, topleft: Location): (r: Option<Location>)
      ensures r.Some? <==> topleft.m.InBounds(Add(topleft.pos, src))
      ensures r.Some? ==> r.value.m == topleft.m && Sub(r.value.pos, topleft.pos) == src
    {
      CanonicalLoc(Location(topleft.m, Add(topleft.pos, src)))
    }

    /** `World::new_actor`: a fresh actor at screen offset `pos` from the
        camera, on the camera's map, or nothing when that cell is off it. */
    method NewActor(model: ActorModel, camera: Location, pos: Point) returns (r: Option<Actor>)
      requires camera.m.Valid()
      modifies camera.m
      ensures camera.m.Valid() && camera.m.objects == old(camera.m.objects)
      ensures r.Some? <==> camera.m.InBounds(Add(camera.pos, pos))
      ensures r.Some? ==> fresh(r.value) && r.value.model == model && !r.value.isPc &&
                          r.value.loc == Location(camera.m, Add(camera.pos, pos)) &&
                          camera.m.actors == old(camera.m.actors) + [r.value]
      ensures r.None? ==> camera.m.actors == old(camera.m.actors)
    {
      var loc := ScreenToLoc(pos, camera);
      if loc.Some? {
        var a := loc.value.m.NewActor(model, loc.value);
        return Some(a);
      }
      return None;
    }

    /** The first half of `loc_to_td_camera`: start `VIEW_RADIUS` up and left
        of the centre and pull negative coordinates back onto the map until
        the top-left is on it. At most two rounds are needed. */
    method ClampTopLeft(center: Location) returns (tl: Location, ghost rounds: nat)
      requires center.m.InBounds(center.pos)
      ensures tl == Location(center.m, Point(Max(0, center.pos.x - VIEW_RADIUS), Max(0, center.pos.y - VIEW_RADIUS)))
      ensures rounds <= 2
      ensures rounds == 0 <==> VIEW_RADIUS <= center.pos.x && VIEW_RADIUS <= center.pos.y
    {
      var cx, cy := center.pos.x - VIEW_RADIUS, center.pos.y - VIEW_RADIUS;
      tl := Offset(center, Point(-VIEW_RADIUS, -VIEW_RADIUS));
      var canon := CanonicalLoc(tl);
      rounds := 0;
      while canon.None?
        invariant tl.m == center.m
        invariant tl.pos.x >= 0 ==> tl.pos.x == Max(0, cx)
        invariant tl.pos.x < 0 ==> cx < 0
        invariant tl.pos.y >= 0 ==> tl.pos.y == Max(0, cy)
        invariant tl.pos.y < 0 ==> cy < 0
        invariant canon == CanonicalLoc(tl)
        invariant rounds + Negatives(tl.pos) <= 2
        invariant rounds == 0 <==> tl.pos == Point(cx, cy)
        invariant rounds > 0 ==> cx < 0 || cy < 0
        decreases Negatives(tl.pos)
      {
        tl := Location(tl.m, ClampRound(tl.pos));
        rounds := rounds + 1;
        canon := CanonicalLoc(tl);
      }
      tl := canon.value;
    }

    /** `loc_to_td_camera`: the top-left corner of the view around `center`,
        kept on the map and, where the map allows, clear of its far edges. */
    method LocToTdCamera(center: Location) returns (r: Location)
      requires center.m.InBounds(center.pos)
      ensures r == Location(center.m, Point(CameraAxis(center.pos.x, center.m.width),
                                            CameraAxis(center.pos.y, center.m.height)))
    {
      var tl, rounds := ClampTopLeft(center);
      if 0 >= tl.pos.x && 0 >= tl.pos.y {
        return tl;
      }
      if 0 < tl.pos.x {
        var test := Offset(tl, Point(2 * VIEW_RADIUS, 0));
        if CanonicalLoc(test).None? {
          var lb := Min(tl.pos.x, test.pos.x - (test.m.width - 1));
          if 0 < lb {
            tl := Location(tl.m, Point(tl.pos.x - lb, tl.pos.y));
          }
        }
      }
      if 0 < tl.pos.y {
        var test := Offset(tl, Point(0, 2 * VIEW_RADIUS));
        if CanonicalLoc(test).None? {
          var lb := Min(tl.pos.y, test.pos.y - (test.m.height - 1));
          if 0 < lb {
            tl := Location(tl.m, Point(tl.pos.x, tl.pos.y - lb));
          }
        }
      }
      r := tl;
    }
  }

  /** How many coordinates of `p` are negative. */
  function Negatives(p: Point): nat
  {
    (if p.x < 0 then 1 else 0) + (if p.y < 0 then 1 else 0)
  }

  /** One round of the clamp loop of `loc_to_td_camera`: with both coordinates
      negative, move diagonally by the one nearer zero; otherwise zero the
      negative one. Each round removes a negative coordinate, and a point with
      none is left as it is. */
  function ClampRound(p: Point): (q: Point)
    ensures Negatives(p) > 0 ==> Negatives(q) < Negatives(p)
    ensures Negatives(p) == 0 ==> q == p
    ensures p.x >= 0 ==> q.x == p.x
    ensures p.y >= 0 ==> q.y == p.y
  {
    if 0 > p.x then
      if 0 > p.y then
        var ub := Max(p.x, p.y);
        Point(p.x - ub, p.y - ub)
      else Point(0, p.y)
    else if 0 > p.y then Point(p.x, 0)
    else p
  }

  /** Without its in-bounds precondition the clamp loop need not end: for the
      centre (40, 5) on a 10 by 10 map the corner (19, -16) becomes (19, 0) in
      one round, which is off the map yet left unchanged by every later round. */
  lemma ClampStuck(m: Map)
    requires m.width == 10 && m.height == 10
    ensures !m.InBounds(Point(40, 5))
    ensures Add(Point(40, 5), Point(-VIEW_RADIUS, -VIEW_RADIUS)) == Point(19, -16)
    ensures ClampRound(Point(19, -16)) == Point(19, 0)
    ensures !m.InBounds(Point(19, 0)) && ClampRound(Point(19, 0)) == Point(19, 0)
  {
  }

  /** One axis of the camera's top-left for a centre `c` on an axis of
      length `w`: `c - VIEW_RADIUS`, clamped to the map. */
  function CameraAxis(c: int, w: int): (r: int)
    requires 0 <= c < w
    ensures 0 <= r <= c
    ensures c < r + VIEW
    ensures w >= VIEW ==> r <= w - VIEW
    ensures VIEW_RADIUS <= c && c + VIEW_RADIUS < w ==> r == c - VIEW_RADIUS
  {
    Min(Max(c - VIEW_RADIUS, 0), Max(0, w - VIEW))
  }
}
