/** The vendor's data as the program reads it: gyms, sectors, walls and climbs.
    All of it is fetched once and never changed. */
module Types {
  import opened Wrappers

  /** A UTC instant, as seconds since the Unix epoch (leap seconds left out). */
  datatype Timestamp = Timestamp(unixSeconds: int)

  type Hour = h: int | 0 <= h < 24

  /** chrono's `hour()` of a UTC instant: the hour of the day it falls in. */
  function HourOf(t: Timestamp): (h: Hour)
    ensures exists day :: t.unixSeconds == day * 86400 + h * 3600 + t.unixSeconds % 3600
  {
    var secondOfDay := t.unixSeconds % 86400;
    assert t.unixSeconds == (t.unixSeconds / 86400) * 86400 + secondOfDay;
    assert secondOfDay == (secondOfDay / 3600) * 3600 + t.unixSeconds % 3600;
    secondOfDay / 3600
  }

  datatype GymSector = GymSector(
    id: nat,
    gymId: nat,
    name: string,
    category: string,
    cover: Option<string>,
    overview: string,
    routeCount: nat)

  datatype GymSectorFull = GymSectorFull(
    id: nat,
    gymId: nat,
    name: string,
    category: string,
    cover: Option<string>,
    overview: string,
    routeCount: nat,
    walls: seq<Wall>)

  /** `category` is documented as one of "gym_bouldering" and
      "gym_sportclimbing"; nothing enforces it (see `KnownWallCategory`). */
  datatype Wall = Wall(
    id: nat,
    gymSectorId: nat,
    height: nat,
    name: string,
    category: string,
    gymBoulders: Option<seq<Climb>>,
    gymRoutes: Option<seq<Climb>>)

  datatype Gym = Gym(
    id: nat,
    name: string,
    boulderCount: nat,
    routeCount: nat,
    gymSectors: seq<GymSector>)

  /** `itemType` is documented as one of "gym_boulder" and "gym_route";
      nothing enforces it (see `KnownItemType`). */
  datatype Climb = Climb(
    id: nat,
    difficulty: string,
    setAt: Timestamp,
    color: string,
    sectorName: string,
    parentName: string,
    routeCardLabel: string,
    routeSetter: string,
    itemType: string)

  /** The documented domain of `Wall.category`; the program never checks it. */
  predicate KnownWallCategory(category: string) {
    category == "gym_bouldering" || category == "gym_sportclimbing"
  }

  /** The documented domain of `Climb.itemType`; the program never checks it. */
  predicate KnownItemType(itemType: string) {
    itemType == "gym_boulder" || itemType == "gym_route"
  }

  /** `option.iter().flatten()`: the items of a present list, none of an absent one. */
  function Items(list: Option<seq<Climb>>): (items: seq<Climb>)
    ensures list.None? ==> items == []
    ensures list.Some? ==> items == list.value
  {
    match list
    case None => []
    case Some(xs) => xs
  }

  /** `Wall::climbs`: the boulders in their order, then the routes in theirs. */
  function Climbs(wall: Wall): (climbs: seq<Climb>)
    ensures |climbs| == |Items(wall.gymBoulders)| + |Items(wall.gymRoutes)|
    ensures forall i :: 0 <= i < |Items(wall.gymBoulders)| ==> climbs[i] == Items(wall.gymBoulders)[i]
    ensures forall j :: 0 <= j < |Items(wall.gymRoutes)| ==>
              climbs[|Items(wall.gymBoulders)| + j] == Items(wall.gymRoutes)[j]
  {
    Items(wall.gymBoulders) + Items(wall.gymRoutes)
  }

  /** A climb is in the combined sequence exactly when it is in one of the two lists. */
  lemma ClimbsMembership(wall: Wall, c: Climb)
    ensures c in Climbs(wall) <==> c in Items(wall.gymBoulders) || c in Items(wall.gymRoutes)
  {
  }

  /** A wall with both lists absent has no climbs. */
  lemma ClimbsOfBareWall(wall: Wall)
    requires wall.gymBoulders.None? && wall.gymRoutes.None?
    ensures Climbs(wall) == []
  {
  }
}
