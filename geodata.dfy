/**
 * `GeoDataNetworkParser`: line de-duplication, the pass-wide connection
 * counter, the building-year lookups and the building-year categories.
 * The spatial indexes of the data frames are oracles (`GeoData`).
 */
module GeoData {
  import opened Wrappers
  import opened Geometry
  import Lists

  /** `GeneratorCableCase`. */
  datatype GeneratorCableCase = Thin | AvgCable | Thick

  /** `BuildingYearCategory`. */
  datatype BuildingYearCategory = Old | AvgYear | New

  /** A building of the BAG data: its `gebruiksdoel` (possibly missing) and `bouwjaar`. */
  datatype Building = Building(usage: Option<string>, buildingYear: int)

  /**
   * The data frames a parser holds, with their spatial queries as oracles:
   * buildings within 20.0 of a line, buildings at a point, the
   * medium/low-voltage stations and the high/medium-voltage stations (as
   * anchor points) within a distance of a point.
   */
  datatype GeoData = GeoData(
    buildings: seq<Building>,
    buildingsNearLine: Line -> seq<int>,
    buildingsAtPoint: Point -> seq<int>,
    stations: seq<Point>,
    stationsWithin: (Point, real) -> seq<int>,
    hvStations: seq<Point>,
    hvStationsWithin: (Point, real) -> seq<int>)

  predicate IndicesBelow(ix: seq<int>, n: int)
  {
    forall k :: 0 <= k < |ix| ==> 0 <= ix[k] < n
  }

  /** Every index an oracle returns names a row of its frame. */
  ghost predicate ValidData(d: GeoData)
  {
    && (forall l :: IndicesBelow(d.buildingsNearLine(l), |d.buildings|))
    && (forall p :: IndicesBelow(d.buildingsAtPoint(p), |d.buildings|))
    && (forall p, r :: IndicesBelow(d.stationsWithin(p, r), |d.stations|))
    && (forall p, r :: IndicesBelow(d.hvStationsWithin(p, r), |d.hvStations|))
  }

  // ---------------------------------------------------------------- lines

  /** `_add_line`'s test: both end points close, in the same or the reversed order. */
  predicate SimilarStartEnd(existing: Line, newLine: Line)
  {
    (PointsAreCloseDefault(existing.first, newLine.first) && PointsAreCloseDefault(existing.last, newLine.last))
    || (PointsAreCloseDefault(existing.first, newLine.last) && PointsAreCloseDefault(existing.last, newLine.first))
  }

  /** The `any(...)` of `_add_line`. */
  function HasSimilarLine(lines: seq<Line>, newLine: Line): (b: bool)
    ensures b <==> exists i :: 0 <= i < |lines| && SimilarStartEnd(lines[i], newLine)
  {
    if lines == [] then false
    else SimilarStartEnd(lines[0], newLine) || HasSimilarLine(lines[1..], newLine)
  }

  /** `_add_line`: appends `newLine` unless a line with similar end points is present. */
  function AddLine(lines: seq<Line>, newLine: Line): (r: seq<Line>)
    ensures (forall i :: 0 <= i < |lines| ==> !SimilarStartEnd(lines[i], newLine)) ==> r == lines + [newLine]
    ensures (exists i :: 0 <= i < |lines| && SimilarStartEnd(lines[i], newLine)) ==> r == lines
  {
    if HasSimilarLine(lines, newLine) then lines else lines + [newLine]
  }

  /** A geometry of a line frame row: a `LineString`, a `MultiLineString`, or anything else. */
  datatype FrameGeometry = LineGeometry(line: Line) | MultiLineGeometry(parts: seq<Line>) | OtherGeometry

  /** The lines a row offers to `_add_line`, in order. */
  function OfferedLines(g: FrameGeometry): seq<Line>
  {
    match g
    case LineGeometry(l) => [l]
    case MultiLineGeometry(parts) => parts
    case OtherGeometry => []
  }

  function AllOfferedLines(frame: seq<FrameGeometry>): seq<Line>
  {
    if frame == [] then [] else AllOfferedLines(frame[..|frame| - 1]) + OfferedLines(frame[|frame| - 1])
  }

  /** Offers `offered` to `_add_line` one by one, starting from `lines`. */
  function AddLines(lines: seq<Line>, offered: seq<Line>): seq<Line>
    decreases |offered|
  {
    if offered == [] then lines else AddLines(AddLine(lines, offered[0]), offered[1..])
  }

  lemma {:induction false} AddLinesAppend(lines: seq<Line>, a: seq<Line>, b: seq<Line>)
    ensures AddLines(lines, a + b) == AddLines(AddLines(lines, a), b)
    decreases |a|
  {
    if a == [] {
      assert a + b == b;
    } else {
      assert (a + b)[0] == a[0] && (a + b)[1..] == a[1..] + b;
      AddLinesAppend(AddLine(lines, a[0]), a[1..], b);
    }
  }

  /**
   * `_extract_network_lines`: every `LineString` row, and every part of a
   * `MultiLineString` row, is offered to `_add_line` in order.
   */
  method ExtractNetworkLines(frame: seq<FrameGeometry>) returns (allLines: seq<Line>)
    ensures allLines == AddLines([], AllOfferedLines(frame))
    ensures frame == [] ==> allLines == []
  {
    allLines := [];
    for i := 0 to |frame|
      invariant allLines == AddLines([], AllOfferedLines(frame[..i]))
    {
      assert frame[..i + 1][..i] == frame[..i];
      var parts := OfferedLines(frame[i]);
      ghost var before := allLines;
      for j := 0 to |parts|
        invariant allLines == AddLines(before, parts[..j])
      {
        AddLinesAppend(before, parts[..j], [parts[j]]);
        assert parts[..j + 1] == parts[..j] + [parts[j]];
        allLines := AddLine(allLines, parts[j]);
      }
      assert parts[..|parts|] == parts;
      AddLinesAppend([], AllOfferedLines(frame[..i]), parts);
    }
    assert frame[..|frame|] == frame;
  }

  /** No kept line is similar to a line kept after it. */
  ghost predicate NoSimilarPair(lines: seq<Line>)
  {
    forall i, j :: 0 <= i < j < |lines| ==> !SimilarStartEnd(lines[i], lines[j])
  }

  /** Every offered line is kept or has a similar kept line. */
  ghost predicate Represents(lines: seq<Line>, offered: seq<Line>)
  {
    forall k :: 0 <= k < |offered| ==> exists i :: 0 <= i < |lines| && SimilarStartEnd(lines[i], offered[k])
  }

  lemma SelfSimilar(l: Line)
    ensures SimilarStartEnd(l, l)
  {
    PointsAreCloseReflexive(l.first, CloseMargin);
    PointsAreCloseReflexive(l.last, CloseMargin);
  }

  /**
   * De-duplication: the lines kept by `AddLines` keep their order, are
   * pairwise dissimilar (later against earlier), and stand for every
   * offered line.
   */
  lemma {:induction false} AddLinesDeduplicates(lines: seq<Line>, offered: seq<Line>)
    requires NoSimilarPair(lines)
    ensures var r := AddLines(lines, offered);
      |lines| <= |r| && r[..|lines|] == lines && NoSimilarPair(r) && Represents(r, offered)
    decreases |offered|
  {
    if offered != [] {
      var next := AddLine(lines, offered[0]);
      assert NoSimilarPair(next);
      AddLinesDeduplicates(next, offered[1..]);
      var r := AddLines(next, offered[1..]);
      assert r[..|next|] == next;
      assert r[..|lines|] == lines by { assert next[..|lines|] == lines; }
      if HasSimilarLine(lines, offered[0]) {
        var i :| 0 <= i < |lines| && SimilarStartEnd(lines[i], offered[0]);
        assert r[i] == lines[i];
      } else {
        SelfSimilar(offered[0]);
        assert r[|lines|] == offered[0];
      }
      forall k | 0 <= k < |offered|
        ensures exists i :: 0 <= i < |r| && SimilarStartEnd(r[i], offered[k])
      {
        if k > 0 { assert offered[k] == offered[1..][k - 1]; }
      }
    }
  }

  /** A frame's extraction keeps pairwise-dissimilar lines that stand for every offered line. */
  lemma ExtractedLinesAreDeduplicated(frame: seq<FrameGeometry>)
    ensures NoSimilarPair(AddLines([], AllOfferedLines(frame)))
    ensures Represents(AddLines([], AllOfferedLines(frame)), AllOfferedLines(frame))
  {
    AddLinesDeduplicates([], AllOfferedLines(frame));
  }

  /** A line offered again right after itself is dropped by `_add_line`. */
  lemma RepeatedLineIsDropped(lines: seq<Line>, l: Line)
    ensures AddLine(AddLine(lines, l), l) == AddLine(lines, l)
  {
    SelfSimilar(l);
    var once := AddLine(lines, l);
    assert exists i :: 0 <= i < |once| && SimilarStartEnd(once[i], l) by {
      if !HasSimilarLine(lines, l) {
        assert once[|lines|] == l;
      }
    }
  }

  /**
   * `drop_duplicates` before extraction changes nothing: removing a later
   * exact repeat of an offered line leaves the extracted lines as they
   * were, so removing all of them does too.
   */
  lemma RepeatOfferIsDropped(xs: seq<Line>, l: Line, ys: seq<Line>)
    requires l in xs
    ensures AddLines([], xs + [l] + ys) == AddLines([], xs + ys)
  {
    AddLinesAppend([], xs + [l], ys);
    AddLinesAppend([], xs, [l]);
    AddLinesAppend([], xs, ys);
    var r := AddLines([], xs);
    AddLinesDeduplicates([], xs);
    var k :| 0 <= k < |xs| && xs[k] == l;
    assert exists i :: 0 <= i < |r| && SimilarStartEnd(r[i], xs[k]);
    assert [l][1..] == [];
    assert AddLines(r, [l]) == AddLine(r, l) == r;
  }

  // ------------------------------------------------------ building years

  /** `builidng_year_to_building_year_category`. */
  function BuildingYearToCategory(year: int): (c: BuildingYearCategory)
    ensures c == Old <==> year <= 1970
    ensures c == AvgYear <==> 1970 < year <= 2000
    ensures c == New <==> 2000 < year
  {
    if year <= 1970 then Old
    else if 1970 < year <= 2000 then AvgYear
    else New
  }

  function CategoryRank(c: BuildingYearCategory): nat
  {
    match c
    case Old => 0
    case AvgYear => 1
    case New => 2
  }

  /** A later building year never gives an older category. */
  lemma CategoryIsMonotone(y1: int, y2: int)
    requires y1 <= y2
    ensures CategoryRank(BuildingYearToCategory(y1)) <= CategoryRank(BuildingYearToCategory(y2))
  {
  }

  /** Year returned when no building is found. */
  const NoBuildingYear: int := 1

  /** `get_building_year_of_building_at_point`: the first hit's `bouwjaar`, else 1. */
  function BuildingYearAtPoint(d: GeoData, p: Point): (year: int)
    requires ValidData(d)
    ensures d.buildingsAtPoint(p) == [] ==> year == NoBuildingYear
    ensures d.buildingsAtPoint(p) != [] ==> year == d.buildings[d.buildingsAtPoint(p)[0]].buildingYear
  {
    var hits := d.buildingsAtPoint(p);
    assert IndicesBelow(hits, |d.buildings|);
    if hits == [] then NoBuildingYear else d.buildings[hits[0]].buildingYear
  }

  /**
   * `get_building_year_of_transformer_house_at_point`: the building year at
   * the first station within 3.0 of `p`, else 1.
   */
  function TransformerHouseYearAtPoint(d: GeoData, p: Point): (year: int)
    requires ValidData(d)
    ensures d.stationsWithin(p, 3.0) == [] ==> year == NoBuildingYear
    ensures d.stationsWithin(p, 3.0) != [] ==>
      year == BuildingYearAtPoint(d, d.stations[d.stationsWithin(p, 3.0)[0]])
  {
    var hits := d.stationsWithin(p, 3.0);
    assert IndicesBelow(hits, |d.stations|);
    if |hits| > 0 then BuildingYearAtPoint(d, d.stations[hits[0]]) else NoBuildingYear
  }

  // ------------------------------------------------ connection aggregator

  /** A residential building: its `gebruiksdoel` is present and mentions "woonfunctie". */
  predicate IsResidential(b: Building)
  {
    b.usage.Some? && Lists.HasSubstring(b.usage.value, "woonfunctie")
  }

  /** The residential buildings among `nearby` that are not counted yet. */
  function NewConnections(buildings: seq<Building>, nearby: seq<int>, counted: set<int>): (newlyCounted: set<int>)
    requires IndicesBelow(nearby, |buildings|)
    ensures newlyCounted !! counted
    ensures forall i :: i in newlyCounted ==> 0 <= i < |buildings| && IsResidential(buildings[i])
    ensures forall k :: 0 <= k < |nearby| && nearby[k] !in counted && IsResidential(buildings[nearby[k]]) ==> nearby[k] in newlyCounted
    ensures forall i :: i in newlyCounted ==> i in nearby
  {
    set k | 0 <= k < |nearby| && nearby[k] !in counted && IsResidential(buildings[nearby[k]]) :: nearby[k]
  }

  /**
   * Two successive counts never share a building: what the first call
   * counted is excluded from the second.
   */
  lemma CountedAtMostOnce(buildings: seq<Building>, first: seq<int>, second: seq<int>, counted: set<int>)
    requires IndicesBelow(first, |buildings|) && IndicesBelow(second, |buildings|)
    ensures NewConnections(buildings, first, counted)
            !! NewConnections(buildings, second, counted + NewConnections(buildings, first, counted))
  {
  }

  class GeoDataNetworkParser {
    const data: GeoData
    const cableCase: GeneratorCableCase
    /** `counted_connections_indices`: every building counted so far in this pass. */
    var countedConnections: set<int>

    constructor (data: GeoData, cableCase: GeneratorCableCase)
      ensures this.data == data && this.cableCase == cableCase && countedConnections == {}
    {
      this.data := data;
      this.cableCase := cableCase;
      countedConnections := {};
    }

    /**
     * `get_amount_of_connections_bordering_line`: counts the residential
     * buildings within 20.0 of the line that were not counted before, and
     * records them as counted.
     */
    method GetAmountOfConnectionsBorderingLine(line: Line) returns (amount: nat)
      requires ValidData(data)
      modifies this
      ensures data.buildings == [] ==> amount == 0 && countedConnections == old(countedConnections)
      ensures data.buildings != [] ==>
        var newlyCounted := NewConnections(data.buildings, data.buildingsNearLine(line), old(countedConnections));
        countedConnections == old(countedConnections) + newlyCounted && amount == |newlyCounted|
    {
      amount := 0;
      if data.buildings != [] {
        var nearby := data.buildingsNearLine(line);
        assert IndicesBelow(nearby, |data.buildings|);
        var newlyCounted := NewConnections(data.buildings, nearby, countedConnections);
        countedConnections := countedConnections + newlyCounted;
        amount := |newlyCounted|;
      }
    }
  }
}
