/**
 * The Enexis flavour of the geo-data parser
 * (`EnexisGeoDataNetworkParser`), where medium/low-voltage stations are
 * shapes rather than points: the lines near a station, oriented by which
 * end touches it, one container per station, and the look-up at a point.
 */
module Enexis {
  import opened Wrappers
  import opened Geometry
  import opened LineIndex
  import GeoData

  /** A station's outline, by its coordinates (the shape and `points_to_polygon` of its coordinates are the same). */
  type Shape = seq<Point>

  /**
   * What the Enexis parser reads, with shapely's predicates as oracles:
   * the LV lines and their `dwithin` query around a shape, the stations,
   * the buildings and the buildings a shape meets, `overlaps` of a shape
   * and a square, the margin form of `polygon_touches_point`, and
   * `dwithin` between a shape and a point.
   */
  datatype EnexisData = EnexisData(
    lvLines: seq<Line>,
    linesNearShape: (Shape, real) -> seq<int>,
    stations: seq<Shape>,
    buildings: seq<GeoData.Building>,
    buildingsAtShape: Shape -> seq<int>,
    overlaps: (Shape, seq<Point>) -> bool,
    touchesWithMargin: (Point, Shape, real) -> bool,
    shapeWithin: (Shape, Point, real) -> bool)

  ghost predicate ValidEnexis(e: EnexisData)
  {
    && (forall s, r :: IndicesBelow(e.linesNearShape(s, r), |e.lvLines|))
    && (forall s :: IndicesBelow(e.buildingsAtShape(s), |e.buildings|))
  }

  /** `polygon_touches_point(point, polygon)`: the shape overlaps the small square around the point. */
  predicate PolygonTouchesPoint(e: EnexisData, p: Point, station: Shape)
  {
    e.overlaps(station, CreatePointBox(p))
  }

  /** `get_building_year_of_building_at_point` for a station shape: the first hit's year, else 1. */
  function BuildingYearAtShape(e: EnexisData, station: Shape): (year: int)
    requires ValidEnexis(e)
    ensures e.buildingsAtShape(station) == [] ==> year == GeoData.NoBuildingYear
    ensures e.buildingsAtShape(station) != [] ==> year == e.buildings[e.buildingsAtShape(station)[0]].buildingYear
  {
    var hits := e.buildingsAtShape(station);
    assert IndicesBelow(hits, |e.buildings|);
    if hits == [] then GeoData.NoBuildingYear else e.buildings[hits[0]].buildingYear
  }

  /**
   * The rule of `extract_lines_connected_to_2d_entity` for one line: taken
   * iff one of its ends touches the station, with the first coordinate as
   * the connected end iff it touches.
   */
  function OrientByStationTouch(line: Line, index: int, firstTouches: bool, lastTouches: bool): (r: Option<NavigationLine>)
    ensures r.Some? <==> firstTouches || lastTouches
    ensures r.Some? ==> r.value.line == line && r.value.index == index
    ensures r.Some? ==> ConnectedCoords(r.value) == (if firstTouches then line.first else line.last)
  {
    if firstTouches || lastTouches then Some(NavigationLine(line, !firstTouches, index)) else None
  }

  function TouchStationRule(e: EnexisData, station: Shape, margin: real): Rule
  {
    (l: Line, i: int) =>
      OrientByStationTouch(l, i, e.touchesWithMargin(l.first, station, margin), e.touchesWithMargin(l.last, station, margin))
  }

  function Candidates(e: EnexisData, station: Shape, margin: real): (ix: seq<int>)
    requires ValidEnexis(e)
    ensures IndicesBelow(ix, |e.lvLines|)
  {
    e.linesNearShape(station, margin)
  }

  /** The lines of `extract_lines_connected_to_2d_entity`. */
  function LinesConnectedToEntity(e: EnexisData, margin: real, station: Shape): seq<NavigationLine>
    requires ValidEnexis(e)
  {
    Collect(e.lvLines, Candidates(e, station, margin), TouchStationRule(e, station, margin))
  }

  /** `extract_lines_connected_to_2d_entity`. */
  method ExtractLinesConnectedToEntity(e: EnexisData, margin: real, station: Shape) returns (r: seq<NavigationLine>)
    requires ValidEnexis(e)
    ensures r == LinesConnectedToEntity(e, margin, station)
  {
    r := CollectLines(e.lvLines, Candidates(e, station, margin), TouchStationRule(e, station, margin));
  }

  /**
   * The extractor keeps exactly the queried lines with an end touching the
   * station, and makes a touching first coordinate the connected end.
   */
  lemma LinesConnectedToEntityExactly(e: EnexisData, margin: real, station: Shape)
    requires ValidEnexis(e)
    ensures forall n :: n in LinesConnectedToEntity(e, margin, station) ==>
      && n.index in Candidates(e, station, margin) && n.line == e.lvLines[n.index]
      && (e.touchesWithMargin(n.line.first, station, margin) || e.touchesWithMargin(n.line.last, station, margin))
      && (ConnectedCoords(n) == n.line.first <== e.touchesWithMargin(n.line.first, station, margin))
      && (n.firstPointEnd <==> !e.touchesWithMargin(n.line.first, station, margin))
    ensures forall m :: 0 <= m < |Candidates(e, station, margin)| ==>
      var i := Candidates(e, station, margin)[m];
      e.touchesWithMargin(e.lvLines[i].first, station, margin) || e.touchesWithMargin(e.lvLines[i].last, station, margin) ==>
        exists n :: n in LinesConnectedToEntity(e, margin, station) && n.index == i
  {
    var ix := Candidates(e, station, margin);
    var rule := TouchStationRule(e, station, margin);
    var r := LinesConnectedToEntity(e, margin, station);
    forall n | n in r
      ensures && n.index in ix && n.line == e.lvLines[n.index]
              && (e.touchesWithMargin(n.line.first, station, margin) || e.touchesWithMargin(n.line.last, station, margin))
              && (ConnectedCoords(n) == n.line.first <== e.touchesWithMargin(n.line.first, station, margin))
              && (n.firstPointEnd <==> !e.touchesWithMargin(n.line.first, station, margin))
    {
      var j :| 0 <= j < |r| && r[j] == n;
      CollectSound(e.lvLines, ix, rule, j);
      var m :| 0 <= m < |ix| && rule(e.lvLines[ix[m]], ix[m]) == Some(n);
      var l := e.lvLines[ix[m]];
      assert Some(n) == OrientByStationTouch(l, ix[m], e.touchesWithMargin(l.first, station, margin), e.touchesWithMargin(l.last, station, margin));
    }
    forall m | 0 <= m < |ix|
      ensures var i := ix[m];
        e.touchesWithMargin(e.lvLines[i].first, station, margin) || e.touchesWithMargin(e.lvLines[i].last, station, margin) ==>
          exists n :: n in r && n.index == i
    {
      var i := ix[m];
      if rule(e.lvLines[i], i).Some? {
        CollectComplete(e.lvLines, ix, rule, m);
      }
    }
  }

  /** The starting line made of the `k`-th line near the station: connected at its first coordinate iff that touches the station. */
  function StartingLine(e: EnexisData, station: Shape, ix: seq<int>, k: int): NavigationLine
    requires IndicesBelow(ix, |e.lvLines|) && 0 <= k < |ix|
  {
    NavigationLine(e.lvLines[ix[k]], !PolygonTouchesPoint(e, e.lvLines[ix[k]].first, station), ix[k])
  }

  /** The inner loop of `extract_lv_lines_connected_to_mv_lv_station` for one station. */
  method StartingLinesOfStation(e: EnexisData, station: Shape) returns (lines: seq<NavigationLine>)
    requires ValidEnexis(e)
    ensures var ix := Candidates(e, station, OverlapSquareSize);
      |lines| == |ix| && forall k :: 0 <= k < |ix| ==> lines[k] == StartingLine(e, station, ix, k)
  {
    var ix := Candidates(e, station, OverlapSquareSize);
    lines := [];
    for k := 0 to |ix|
      invariant |lines| == k
      invariant forall m :: 0 <= m < k ==> lines[m] == StartingLine(e, station, ix, m)
    {
      var line := e.lvLines[ix[k]];
      var touches := PolygonTouchesPoint(e, line.first, station);
      lines := lines + [NavigationLine(line, !touches, ix[k])];
    }
  }

  /**
   * `extract_lv_lines_connected_to_mv_lv_station`: one container per
   * station, in station order, holding every LV line within
   * `OVERLAP_SQUARE_SIZE` of the station, unfiltered and in query order, and
   * the building year at the station.
   */
  method ExtractLvLinesConnectedToMvLvStation(e: EnexisData) returns (r: seq<StationContainer>)
    requires ValidEnexis(e)
    ensures |r| == |e.stations|
    ensures forall s :: 0 <= s < |r| ==>
      var station := e.stations[s];
      var ix := Candidates(e, station, OverlapSquareSize);
      && r[s].buildingYear == BuildingYearAtShape(e, station)
      && |r[s].startingLines| == |ix|
      && forall k :: 0 <= k < |ix| ==> r[s].startingLines[k] == StartingLine(e, station, ix, k)
  {
    r := [];
    for s := 0 to |e.stations|
      invariant |r| == s
      invariant forall m :: 0 <= m < s ==>
        var station := e.stations[m];
        var ix := Candidates(e, station, OverlapSquareSize);
        && r[m].buildingYear == BuildingYearAtShape(e, station)
        && |r[m].startingLines| == |ix|
        && forall k :: 0 <= k < |ix| ==> r[m].startingLines[k] == StartingLine(e, station, ix, k)
    {
      var lines := StartingLinesOfStation(e, e.stations[s]);
      var year := BuildingYearAtShape(e, e.stations[s]);
      r := r + [StationContainer(lines, year)];
    }
  }

  /** The first station within `radius` of `p`, or -1. */
  function FirstStationWithin(e: EnexisData, p: Point, radius: real, from: nat): (k: int)
    requires from <= |e.stations|
    ensures k == -1 || from <= k < |e.stations|
    ensures k >= 0 ==> e.shapeWithin(e.stations[k], p, radius) && forall j :: from <= j < k ==> !e.shapeWithin(e.stations[j], p, radius)
    ensures k == -1 ==> forall j :: from <= j < |e.stations| ==> !e.shapeWithin(e.stations[j], p, radius)
    decreases |e.stations| - from
  {
    if from == |e.stations| then -1
    else if e.shapeWithin(e.stations[from], p, radius) then from
    else FirstStationWithin(e, p, radius, from + 1)
  }

  /** The lines of `extract_lv_lines_connected_to_mv_lv_station_at_point`. */
  function LvLinesAtMvLvStation(e: EnexisData, p: Point): seq<NavigationLine>
    requires ValidEnexis(e)
  {
    var k := FirstStationWithin(e, p, 0.1, 0);
    if k < 0 then [] else LinesConnectedToEntity(e, 0.1, e.stations[k])
  }

  /**
   * `extract_lv_lines_connected_to_mv_lv_station_at_point`: the lines of the
   * first station within 0.1 of the point, else none.
   */
  method ExtractLvLinesAtMvLvStation(e: EnexisData, p: Point) returns (r: seq<NavigationLine>)
    requires ValidEnexis(e)
    ensures r == LvLinesAtMvLvStation(e, p)
  {
    for k := 0 to |e.stations|
      invariant forall j :: 0 <= j < k ==> !e.shapeWithin(e.stations[j], p, 0.1)
    {
      if e.shapeWithin(e.stations[k], p, 0.1) {
        r := ExtractLinesConnectedToEntity(e, 0.1, e.stations[k]);
        return;
      }
    }
    r := [];
  }
}
