/** The route-setting-time report: every climb's set-at instant, in gym,
    sector, wall and `Wall::climbs` order, counted into 24 hourly buckets and
    written out one line per hour. The gyms and sectors fetched from the API
    are the input. */
module RouteSetTimes {
  import opened Strings
  import opened Types

  // ---------------------------------------------------------------------
  // The collected instants
  // ---------------------------------------------------------------------

  /** The set-at instants of some climbs, in their order. */
  function ClimbTimes(climbs: seq<Climb>): seq<Timestamp> {
    if climbs == [] then [] else ClimbTimes(climbs[..|climbs| - 1]) + [climbs[|climbs| - 1].setAt]
  }

  /** One instant per climb, each the climb's own, in the climbs' order. */
  lemma {:induction false} ClimbTimesAt(climbs: seq<Climb>)
    ensures |ClimbTimes(climbs)| == |climbs|
    ensures forall i :: 0 <= i < |climbs| ==> ClimbTimes(climbs)[i] == climbs[i].setAt
  {
    if climbs != [] {
      var init := climbs[..|climbs| - 1];
      ClimbTimesAt(init);
      assert forall i :: 0 <= i < |init| ==> init[i] == climbs[i];
    }
  }

  /** The instants of the climbs of some walls, wall by wall. */
  function WallTimes(walls: seq<Wall>): seq<Timestamp> {
    if walls == [] then []
    else WallTimes(walls[..|walls| - 1]) + ClimbTimes(Climbs(walls[|walls| - 1]))
  }

  /** The instants of the walls of some sectors, sector by sector. */
  function SectorTimes(sectors: seq<GymSectorFull>): seq<Timestamp> {
    if sectors == [] then []
    else SectorTimes(sectors[..|sectors| - 1]) + WallTimes(sectors[|sectors| - 1].walls)
  }

  /** `all_set_at`: the instants of the sectors of each configured gym, gym by gym. */
  function AllSetAt(gyms: seq<seq<GymSectorFull>>): seq<Timestamp> {
    if gyms == [] then []
    else AllSetAt(gyms[..|gyms| - 1]) + SectorTimes(gyms[|gyms| - 1])
  }

  /** The number of climbs on some walls. */
  function ClimbCount(walls: seq<Wall>): nat {
    if walls == [] then 0 else ClimbCount(walls[..|walls| - 1]) + |Climbs(walls[|walls| - 1])|
  }

  /** One instant per climb. */
  lemma {:induction false} WallTimesLength(walls: seq<Wall>)
    ensures |WallTimes(walls)| == ClimbCount(walls)
  {
    if walls != [] {
      WallTimesLength(walls[..|walls| - 1]);
      ClimbTimesAt(Climbs(walls[|walls| - 1]));
    }
  }

  lemma WallTimesSnoc(walls: seq<Wall>, w: nat)
    requires w < |walls|
    ensures WallTimes(walls[..w + 1]) == WallTimes(walls[..w]) + ClimbTimes(Climbs(walls[w]))
  {
    assert walls[..w + 1][..w] == walls[..w];
  }

  lemma SectorTimesSnoc(sectors: seq<GymSectorFull>, s: nat)
    requires s < |sectors|
    ensures SectorTimes(sectors[..s + 1]) == SectorTimes(sectors[..s]) + WallTimes(sectors[s].walls)
  {
    assert sectors[..s + 1][..s] == sectors[..s];
  }

  lemma AllSetAtSnoc(gyms: seq<seq<GymSectorFull>>, g: nat)
    requires g < |gyms|
    ensures AllSetAt(gyms[..g + 1]) == AllSetAt(gyms[..g]) + SectorTimes(gyms[g])
  {
    assert gyms[..g + 1][..g] == gyms[..g];
  }

  /** The instant of every climb of every wall is collected. */
  lemma {:induction false} WallTimesHas(walls: seq<Wall>, w: nat, t: Timestamp)
    requires w < |walls| && t in ClimbTimes(Climbs(walls[w]))
    ensures t in WallTimes(walls)
  {
    if w < |walls| - 1 {
      var init := walls[..|walls| - 1];
      assert init[w] == walls[w];
      WallTimesHas(init, w, t);
    }
  }

  /** Every collected instant is that of a climb of one of the walls. */
  lemma {:induction false} WallTimesFrom(walls: seq<Wall>, t: Timestamp)
    requires t in WallTimes(walls)
    ensures exists w :: 0 <= w < |walls| && t in ClimbTimes(Climbs(walls[w]))
  {
    var last := |walls| - 1;
    if t !in ClimbTimes(Climbs(walls[last])) {
      var init := walls[..last];
      WallTimesFrom(init, t);
      var w :| 0 <= w < |init| && t in ClimbTimes(Climbs(init[w]));
      assert init[w] == walls[w];
    }
  }

  /** The instants of every wall of every sector are collected. */
  lemma {:induction false} SectorTimesHas(sectors: seq<GymSectorFull>, s: nat, t: Timestamp)
    requires s < |sectors| && t in WallTimes(sectors[s].walls)
    ensures t in SectorTimes(sectors)
  {
    if s < |sectors| - 1 {
      var init := sectors[..|sectors| - 1];
      assert init[s] == sectors[s];
      SectorTimesHas(init, s, t);
    }
  }

  /** Every instant collected from some sectors comes from the walls of one of them. */
  lemma {:induction false} SectorTimesFrom(sectors: seq<GymSectorFull>, t: Timestamp)
    requires t in SectorTimes(sectors)
    ensures exists s :: 0 <= s < |sectors| && t in WallTimes(sectors[s].walls)
  {
    var last := |sectors| - 1;
    if t !in WallTimes(sectors[last].walls) {
      var init := sectors[..last];
      SectorTimesFrom(init, t);
      var s :| 0 <= s < |init| && t in WallTimes(init[s].walls);
      assert init[s] == sectors[s];
    }
  }

  /** The instants of every sector of every configured gym are collected. */
  lemma {:induction false} AllSetAtHas(gyms: seq<seq<GymSectorFull>>, g: nat, t: Timestamp)
    requires g < |gyms| && t in SectorTimes(gyms[g])
    ensures t in AllSetAt(gyms)
  {
    if g < |gyms| - 1 {
      var init := gyms[..|gyms| - 1];
      assert init[g] == gyms[g];
      AllSetAtHas(init, g, t);
    }
  }

  /** Every collected instant comes from the sectors of one of the gyms. */
  lemma {:induction false} AllSetAtFrom(gyms: seq<seq<GymSectorFull>>, t: Timestamp)
    requires t in AllSetAt(gyms)
    ensures exists g :: 0 <= g < |gyms| && t in SectorTimes(gyms[g])
  {
    var last := |gyms| - 1;
    if t !in SectorTimes(gyms[last]) {
      var init := gyms[..last];
      AllSetAtFrom(init, t);
      var g :| 0 <= g < |init| && t in SectorTimes(init[g]);
      assert init[g] == gyms[g];
    }
  }

  /** Gym order is kept: the instants of later gyms follow those of earlier ones. */
  lemma {:induction false} AllSetAtAppend(gyms: seq<seq<GymSectorFull>>, more: seq<seq<GymSectorFull>>)
    decreases |more|
    ensures AllSetAt(gyms + more) == AllSetAt(gyms) + AllSetAt(more)
  {
    if more != [] {
      var init := more[..|more| - 1];
      assert (gyms + more)[..|gyms + more| - 1] == gyms + init;
      AllSetAtAppend(gyms, init);
    } else {
      assert gyms + more == gyms;
    }
  }

  lemma AppendAssociates(a: seq<Timestamp>, b: seq<Timestamp>, c: seq<Timestamp>)
    ensures (a + b) + c == a + (b + c)
  {
  }

  /** The pushes for one wall: its climbs' instants after those collected so far. */
  method CollectWall(all: seq<Timestamp>, wall: Wall) returns (r: seq<Timestamp>)
    ensures r == all + ClimbTimes(Climbs(wall))
  {
    var climbs := Climbs(wall);
    r := all;
    for i := 0 to |climbs|
      invariant r == all + ClimbTimes(climbs[..i])
    {
      assert climbs[..i + 1][..i] == climbs[..i];
      r := r + [climbs[i].setAt];
    }
    assert climbs[..|climbs|] == climbs;
  }

  /** The pushes for one sector, wall by wall. */
  method CollectSector(all: seq<Timestamp>, sector: GymSectorFull) returns (r: seq<Timestamp>)
    ensures r == all + WallTimes(sector.walls)
  {
    r := all;
    for w := 0 to |sector.walls|
      invariant r == all + WallTimes(sector.walls[..w])
    {
      WallTimesSnoc(sector.walls, w);
      r := CollectWall(r, sector.walls[w]);
      AppendAssociates(all, WallTimes(sector.walls[..w]), ClimbTimes(Climbs(sector.walls[w])));
    }
    assert sector.walls[..|sector.walls|] == sector.walls;
  }

  /** The pushes for one gym, sector by sector. */
  method CollectGym(all: seq<Timestamp>, sectors: seq<GymSectorFull>) returns (r: seq<Timestamp>)
    ensures r == all + SectorTimes(sectors)
  {
    r := all;
    for s := 0 to |sectors|
      invariant r == all + SectorTimes(sectors[..s])
    {
      SectorTimesSnoc(sectors, s);
      r := CollectSector(r, sectors[s]);
      AppendAssociates(all, SectorTimes(sectors[..s]), WallTimes(sectors[s].walls));
    }
    assert sectors[..|sectors|] == sectors;
  }

  /** The collection loop over the configured gyms. */
  method CollectSetAt(gyms: seq<seq<GymSectorFull>>) returns (all: seq<Timestamp>)
    ensures all == AllSetAt(gyms)
  {
    all := [];
    for g := 0 to |gyms|
      invariant all == AllSetAt(gyms[..g])
    {
      AllSetAtSnoc(gyms, g);
      all := CollectGym(all, gyms[g]);
    }
    assert gyms[..|gyms|] == gyms;
  }

  // ---------------------------------------------------------------------
  // The hourly buckets
  // ---------------------------------------------------------------------

  const HoursPerDay: nat := 24

  /** How many of the instants fall in hour `h`. */
  function Count(ts: seq<Timestamp>, h: int): nat {
    if ts == [] then 0
    else Count(ts[..|ts| - 1], h) + (if HourOf(ts[|ts| - 1]) == h then 1 else 0)
  }

  /** The counts of the hours below `n`, added up. */
  function SumCounts(ts: seq<Timestamp>, n: nat): nat {
    if n == 0 then 0 else SumCounts(ts, n - 1) + Count(ts, n - 1)
  }

  lemma {:induction false} SumCountsPush(ts: seq<Timestamp>, t: Timestamp, n: nat)
    ensures SumCounts(ts + [t], n) == SumCounts(ts, n) + (if HourOf(t) < n then 1 else 0)
  {
    assert (ts + [t])[..|ts + [t]| - 1] == ts;
    if n > 0 {
      SumCountsPush(ts, t, n - 1);
    }
  }

  /** Every instant lands in exactly one bucket: the 24 counts add up to the
      number of instants. */
  lemma {:induction false} BucketsSumToTotal(ts: seq<Timestamp>)
    ensures SumCounts(ts, HoursPerDay) == |ts|
  {
    if ts == [] {
      SumCountsOfNothing(HoursPerDay);
    } else {
      var init := ts[..|ts| - 1];
      BucketsSumToTotal(init);
      assert init + [ts[|ts| - 1]] == ts;
      SumCountsPush(init, ts[|ts| - 1], HoursPerDay);
    }
  }

  lemma {:induction false} SumCountsOfNothing(n: nat)
    ensures SumCounts([], n) == 0
  {
    if n > 0 {
      SumCountsOfNothing(n - 1);
    }
  }

  /** The bucket loop: 24 buckets starting at 0, each instant incrementing the
      bucket of its hour. */
  method Buckets(ts: seq<Timestamp>) returns (buckets: array<nat>)
    ensures fresh(buckets) && buckets.Length == HoursPerDay
    ensures forall h :: 0 <= h < HoursPerDay ==> buckets[h] == Count(ts, h)
  {
    buckets := new nat[HoursPerDay](_ => 0);
    for i := 0 to |ts|
      invariant forall h :: 0 <= h < HoursPerDay ==> buckets[h] == Count(ts[..i], h)
    {
      assert ts[..i + 1][..i] == ts[..i];
      var hour := HourOf(ts[i]);
      buckets[hour] := buckets[hour] + 1;
    }
    assert ts[..|ts|] == ts;
  }

  // ---------------------------------------------------------------------
  // The printed lines
  // ---------------------------------------------------------------------

  /** `{:02}`: the numeral padded with zeros to at least two digits. */
  function Pad2(n: nat): (s: string)
    ensures AllDigits(s)
  {
    if n < 10 then "0" + NatToDecimal(n) else NatToDecimal(n)
  }

  /** An hour of the day is written as exactly two digits that read back as the hour. */
  lemma Pad2Hour(h: Hour)
    ensures |Pad2(h)| == 2 && DecimalValue(Pad2(h)) == h
  {
    DecimalRoundTrip(h);
    if h < 10 {
      assert Pad2(h) == ['0', DigitChar(h)];
      assert Pad2(h)[..1] == "0";
    } else {
      assert NatToDecimal(h) == NatToDecimal(h / 10) + [DigitChar(h % 10)];
    }
  }

  /** The line printed for one bucket. */
  function Line(h: nat, count: nat): string {
    Pad2(h) + ":00: " + NatToDecimal(count)
  }

  /** A line starts with the two-digit hour and `:00: `, and the rest reads back
      as the count. */
  lemma LineLayout(h: Hour, count: nat)
    ensures var line := Line(h, count);
            && |line| > 7 && line[2..7] == ":00: "
            && AllDigits(line[..2]) && DecimalValue(line[..2]) == h
            && AllDigits(line[7..]) && DecimalValue(line[7..]) == count
  {
    Pad2Hour(h);
    DecimalRoundTrip(count);
    var line := Line(h, count);
    assert line[..2] == Pad2(h);
    assert line[7..] == NatToDecimal(count);
  }

  /** The report for some instants: one line per hour, in hour order. */
  function Report(ts: seq<Timestamp>): (lines: seq<string>)
    ensures |lines| == HoursPerDay
  {
    seq(HoursPerDay, h requires 0 <= h < HoursPerDay => Line(h, Count(ts, h)))
  }

  /** The output loop over the enumerated buckets. */
  method OutputLines(buckets: array<nat>) returns (lines: seq<string>)
    requires buckets.Length == HoursPerDay
    ensures |lines| == HoursPerDay
    ensures forall h :: 0 <= h < HoursPerDay ==> lines[h] == Line(h, buckets[h])
  {
    lines := [];
    for h := 0 to buckets.Length
      invariant |lines| == h
      invariant forall k :: 0 <= k < h ==> lines[k] == Line(k, buckets[k])
    {
      lines := lines + [Line(h, buckets[h])];
    }
  }

  /** The whole report: collect, count, write. */
  method RouteSetTimes(gyms: seq<seq<GymSectorFull>>) returns (lines: seq<string>)
    ensures lines == Report(AllSetAt(gyms))
  {
    var all := CollectSetAt(gyms);
    var buckets := Buckets(all);
    lines := OutputLines(buckets);
  }
}
