/**
 * The Alliander flavour of the geo-data parser
 * (`AllianderGeoDataNetworkParser`): which lines of a line index start at
 * a station, which of their ends is the connected one, the pruning of
 * candidates that run into each other, the widening retry, the look-ups
 * at a point and the cable-type table.
 */
module Alliander {
  import opened Wrappers
  import opened Geometry
  import opened Lists
  import opened LineIndex
  import GeoData

  // ------------------------------------------------------------ cable types

  /** `define_cable_type_based_on_year`'s table, keyed by case and year category. */
  function CableTable(cableCase: GeoData.GeneratorCableCase, category: GeoData.BuildingYearCategory): (cableType: string)
    ensures |cableType| >= 10
    ensures cableType[0] == (if category == GeoData.New then 'X' else 'G')
    ensures cableType[5] == (if category == GeoData.Old then 'C' else 'A')
  {
    match (cableCase, category)
    case (Thin, Old) => "GPLK-Cu-35"
    case (AvgCable, Old) => "GPLK-Cu-70"
    case (Thick, Old) => "GPLK-Cu-95"
    case (Thin, AvgYear) => "GPLK-Al-50"
    case (AvgCable, AvgYear) => "GPLK-Al-150"
    case (Thick, AvgYear) => "GPLK-Al-240"
    case (Thin, New) => "XLPE-Al-95"
    case (AvgCable, New) => "XLPE-Al-150"
    case (Thick, New) => "XLPE-Al-240"
  }

  /**
   * `define_cable_type_based_on_year`: the label for the parser's cable case
   * and the year's category: cross-linked polyethylene (XLPE) insulation
   * after 2000, paper (GPLK) before; copper (Cu) conductors up to 1970,
   * aluminium (Al) after.
   */
  function DefineCableType(cableCase: GeoData.GeneratorCableCase, year: int): (cableType: string)
    ensures |cableType| >= 10
    ensures cableType[0] == (if year > 2000 then 'X' else 'G')
    ensures cableType[5] == (if year <= 1970 then 'C' else 'A')
  {
    CableTable(cableCase, GeoData.BuildingYearToCategory(year))
  }

  /** The nine table entries are pairwise distinct. */
  lemma CableTableIsInjective(c1: GeoData.GeneratorCableCase, k1: GeoData.BuildingYearCategory,
                              c2: GeoData.GeneratorCableCase, k2: GeoData.BuildingYearCategory)
    requires (c1, k1) != (c2, k2)
    ensures CableTable(c1, k1) != CableTable(c2, k2)
  {
    var a, b := CableTable(c1, k1), CableTable(c2, k2);
    assert a[0] != b[0] || a[5] != b[5] || a[8] != b[8];
  }

  /** A cable of the average case in a house from 1984 is "GPLK-Al-150". */
  lemma AverageCableOf1984()
    ensures DefineCableType(GeoData.AvgCable, 1984) == "GPLK-Al-150"
  {
  }

  // ------------------------------------------------- orientation rules

  /**
   * The rule of `extract_lines_connected_to_2d_entity2` for one line: an end
   * close to the station (box test with the margin) is the connected end;
   * when both are, the one nearer the station in Euclidean distance is
   * (the first one on a tie); when neither is, the line is not taken.
   */
  function OrientByCloseness(line: Line, index: int, station: Point, margin: real): (r: Option<NavigationLine>)
    ensures r.Some? <==> PointsAreClose(line.first, station, margin) || PointsAreClose(line.last, station, margin)
    ensures r.Some? ==> r.value.line == line && r.value.index == index
    ensures r.Some? && !PointsAreClose(line.last, station, margin) ==> ConnectedCoords(r.value) == line.first
    ensures r.Some? && !PointsAreClose(line.first, station, margin) ==> ConnectedCoords(r.value) == line.last
    ensures r.Some? && PointsAreClose(line.first, station, margin) && PointsAreClose(line.last, station, margin) ==>
      DistSq(ConnectedCoords(r.value), station) <= DistSq(EndCoords(r.value), station)
  {
    var firstTouches := PointsAreClose(line.first, station, margin);
    var lastTouches := PointsAreClose(line.last, station, margin);
    if firstTouches && lastTouches then
      Some(NavigationLine(line, DistSq(line.first, station) > DistSq(line.last, station), index))
    else if firstTouches || lastTouches then
      Some(NavigationLine(line, !firstTouches, index))
    else None
  }

  /**
   * The rule of `extract_lines_connected_to_2d_entity_one_side_connected`,
   * given how many indexed lines touch the first (`c0`) and the last (`c1`)
   * coordinate: the line is taken unless both ends are shared by several
   * lines or both are touched by exactly one; the first coordinate is the
   * connected end iff exactly one line touches it.
   */
  function OrientByTouchCount(line: Line, index: int, c0: nat, c1: nat): (r: Option<NavigationLine>)
    ensures r.Some? <==> !(c0 > 1 && c1 > 1) && !(c0 == 1 && c1 == 1)
    ensures r.Some? ==> r.value.line == line && r.value.index == index
    ensures r.Some? ==> ConnectedCoords(r.value) == (if c0 == 1 then line.first else line.last)
  {
    if !(c0 > 1 && c1 > 1) && !(c0 == 1 && c1 == 1) then Some(NavigationLine(line, c0 != 1, index))
    else None
  }

  function CloseRule(station: Point, margin: real): Rule
  {
    (l: Line, i: int) => OrientByCloseness(l, i, station, margin)
  }

  function TouchRule(t: LineTable): Rule
  {
    (l: Line, i: int) => OrientByTouchCount(l, i, TouchCount(t, l.first), TouchCount(t, l.last))
  }

  /** The rule of `..._include_both_sides_disconnected`: the touch-count pruning, then the closeness rule. */
  function BothSidesRule(t: LineTable, station: Point, margin: real): Rule
  {
    (l: Line, i: int) =>
      if TouchCount(t, l.first) > 1 && TouchCount(t, l.last) > 1 then None
      else OrientByCloseness(l, i, station, margin)
  }

  /** The candidate lines: the index's `dwithin` query around the station. */
  function Candidates(t: LineTable, margin: real, station: Point): (ix: seq<int>)
    requires ValidTable(t)
    ensures LineIndex.IndicesBelow(ix, |t.lines|)
  {
    t.within(station, margin)
  }

  /** The lines `extract_lines_connected_to_2d_entity2` orients, before its pruning. */
  function LinesCloseToEntity(t: LineTable, margin: real, station: Point): seq<NavigationLine>
    requires ValidTable(t)
  {
    Collect(t.lines, Candidates(t, margin, station), CloseRule(station, margin))
  }

  /** `extract_lines_connected_to_2d_entity_one_side_connected`. */
  function OneSideConnected(t: LineTable, margin: real, station: Point): seq<NavigationLine>
    requires ValidTable(t)
  {
    Collect(t.lines, Candidates(t, margin, station), TouchRule(t))
  }

  /** `extract_lines_connected_to_2d_entity_include_both_sides_disconnected`. */
  function BothSidesDisconnected(t: LineTable, margin: real, station: Point): seq<NavigationLine>
    requires ValidTable(t)
  {
    Collect(t.lines, Candidates(t, margin, station), BothSidesRule(t, station, margin))
  }

  method ExtractLinesConnectedToEntityOneSideConnected(t: LineTable, margin: real, station: Point)
    returns (r: seq<NavigationLine>)
    requires ValidTable(t)
    ensures r == OneSideConnected(t, margin, station)
  {
    r := CollectLines(t.lines, Candidates(t, margin, station), TouchRule(t));
  }

  method ExtractLinesConnectedToEntityBothSidesDisconnected(t: LineTable, margin: real, station: Point)
    returns (r: seq<NavigationLine>)
    requires ValidTable(t)
    ensures r == BothSidesDisconnected(t, margin, station)
  {
    r := CollectLines(t.lines, Candidates(t, margin, station), BothSidesRule(t, station, margin));
  }

  /**
   * The one-side extractor returns exactly the queried lines whose two ends
   * are neither both shared nor both isolated, connected at the first
   * coordinate iff exactly one line touches it.
   */
  lemma OneSideConnectedExactly(t: LineTable, margin: real, station: Point)
    requires ValidTable(t)
    ensures forall n :: n in OneSideConnected(t, margin, station) ==>
      var c0, c1 := TouchCount(t, n.line.first), TouchCount(t, n.line.last);
      && n.index in Candidates(t, margin, station) && n.line == t.lines[n.index]
      && !(c0 > 1 && c1 > 1) && !(c0 == 1 && c1 == 1)
      && ConnectedCoords(n) == (if c0 == 1 then n.line.first else n.line.last)
    ensures forall m :: 0 <= m < |Candidates(t, margin, station)| ==>
      var i := Candidates(t, margin, station)[m];
      var c0, c1 := TouchCount(t, t.lines[i].first), TouchCount(t, t.lines[i].last);
      !(c0 > 1 && c1 > 1) && !(c0 == 1 && c1 == 1) ==>
        exists n :: n in OneSideConnected(t, margin, station) && n.index == i
  {
    var ix := Candidates(t, margin, station);
    var r := OneSideConnected(t, margin, station);
    forall n | n in r
      ensures var c0, c1 := TouchCount(t, n.line.first), TouchCount(t, n.line.last);
        && n.index in ix && n.line == t.lines[n.index]
        && !(c0 > 1 && c1 > 1) && !(c0 == 1 && c1 == 1)
        && ConnectedCoords(n) == (if c0 == 1 then n.line.first else n.line.last)
    {
      var j :| 0 <= j < |r| && r[j] == n;
      CollectSound(t.lines, ix, TouchRule(t), j);
    }
    forall m | 0 <= m < |ix|
      ensures var i := ix[m];
        var c0, c1 := TouchCount(t, t.lines[i].first), TouchCount(t, t.lines[i].last);
        !(c0 > 1 && c1 > 1) && !(c0 == 1 && c1 == 1) ==> exists n :: n in r && n.index == i
    {
      var i := ix[m];
      if TouchRule(t)(t.lines[i], i).Some? {
        CollectComplete(t.lines, ix, TouchRule(t), m);
      }
    }
  }

  /**
   * Neither the 2d_entity2 extractor nor the both-sides extractor returns a
   * line with no end close to the station; the latter never returns a line
   * whose two ends are both shared by several lines.
   */
  lemma ReturnedLinesAreCloseToStation(t: LineTable, margin: real, station: Point)
    requires ValidTable(t)
    ensures forall n :: n in LinesCloseToEntity(t, margin, station) ==>
      PointsAreClose(n.line.first, station, margin) || PointsAreClose(n.line.last, station, margin)
    ensures forall n :: n in BothSidesDisconnected(t, margin, station) ==>
      && (PointsAreClose(n.line.first, station, margin) || PointsAreClose(n.line.last, station, margin))
      && !(TouchCount(t, n.line.first) > 1 && TouchCount(t, n.line.last) > 1)
  {
    var ix := Candidates(t, margin, station);
    forall n | n in LinesCloseToEntity(t, margin, station)
      ensures PointsAreClose(n.line.first, station, margin) || PointsAreClose(n.line.last, station, margin)
    {
      var r := LinesCloseToEntity(t, margin, station);
      var j :| 0 <= j < |r| && r[j] == n;
      CollectSound(t.lines, ix, CloseRule(station, margin), j);
    }
    forall n | n in BothSidesDisconnected(t, margin, station)
      ensures && (PointsAreClose(n.line.first, station, margin) || PointsAreClose(n.line.last, station, margin))
              && !(TouchCount(t, n.line.first) > 1 && TouchCount(t, n.line.last) > 1)
    {
      var r := BothSidesDisconnected(t, margin, station);
      var j :| 0 <= j < |r| && r[j] == n;
      CollectSound(t.lines, ix, BothSidesRule(t, station, margin), j);
    }
  }

  // ---------------------------------- pruning lines that run into each other

  /**
   * Two candidates run into each other: the connected end of one touches
   * the open end of the other. `touches` is passed in; for two points
   * shapely's `touches` never holds.
   */
  predicate Conflict(a: NavigationLine, b: NavigationLine, touches: (Point, Point) -> bool)
  {
    touches(ConnectedCoords(a), EndCoords(b)) || touches(EndCoords(a), ConnectedCoords(b))
  }

  /** shapely's `touches` for two points: it never holds. */
  ghost predicate NeverTouches(touches: (Point, Point) -> bool)
  {
    forall p, q :: !touches(p, q)
  }

  /** The one of the pair to drop: `b` if `a`'s connected end is strictly nearer the station, else `a`. */
  function Loser(a: NavigationLine, b: NavigationLine, station: Point): (l: NavigationLine)
    ensures l == a || l == b
    ensures l == b <==> (DistSq(ConnectedCoords(a), station) < DistSq(ConnectedCoords(b), station) || a == b)
  {
    if DistSq(ConnectedCoords(a), station) < DistSq(ConnectedCoords(b), station) then b else a
  }

  /** Which of a pair to drop. */
  type Pick = (NavigationLine, NavigationLine) -> NavigationLine

  /** Whether a pair runs into each other. */
  type Clash = (NavigationLine, NavigationLine) -> bool

  /** The choice `remove_duplicate_and_non_connected_lines` makes, for a given station. */
  function LoserRule(station: Point): Pick
  {
    (a: NavigationLine, b: NavigationLine) => Loser(a, b, station)
  }

  /** The test `remove_duplicate_and_non_connected_lines` applies, for a given `touches`. */
  function ConflictRule(touches: (Point, Point) -> bool): Clash
  {
    (a: NavigationLine, b: NavigationLine) => Conflict(a, b, touches)
  }

  function PairItem(s: seq<NavigationLine>, i: int, j: int, clash: Clash, loser: Pick): seq<NavigationLine>
    requires 0 <= i < |s| && 0 <= j < |s|
  {
    if clash(s[i], s[j]) then [loser(s[i], s[j])] else []
  }

  /** What the inner loop schedules for row `i` over `j` in `[i, hi)`. */
  function Row(s: seq<NavigationLine>, i: int, hi: int, clash: Clash, loser: Pick): seq<NavigationLine>
    requires 0 <= i < |s| && i <= hi <= |s|
    decreases hi - i
  {
    if hi == i then [] else Row(s, i, hi - 1, clash, loser) + PairItem(s, i, hi - 1, clash, loser)
  }

  /** The rows the outer loop schedules for `i` in `[0, n)`. */
  function Rows(s: seq<NavigationLine>, n: int, clash: Clash, loser: Pick): seq<seq<NavigationLine>>
    requires 0 <= n <= |s|
  {
    seq(n, i requires 0 <= i < n => Row(s, i, |s|, clash, loser))
  }

  /** `to_clean`: the loser of every pair `i <= j` (the pair of a line with itself included) that runs into each other. */
  function ToClean(s: seq<NavigationLine>, station: Point, touches: (Point, Point) -> bool): seq<NavigationLine>
  {
    Flatten(Rows(s, |s|, ConflictRule(touches), LoserRule(station)))
  }

  /** The inner loop of `remove_duplicate_and_non_connected_lines` for line `i`. */
  method ScheduleRow(station: Point, lines: seq<NavigationLine>, i: int, touches: (Point, Point) -> bool)
    returns (row: seq<NavigationLine>)
    requires 0 <= i < |lines|
    ensures row == Row(lines, i, |lines|, ConflictRule(touches), LoserRule(station))
  {
    row := [];
    for j := i to |lines|
      invariant row == Row(lines, i, j, ConflictRule(touches), LoserRule(station))
    {
      var a, b := lines[i], lines[j];
      if touches(ConnectedCoords(a), EndCoords(b)) || touches(EndCoords(a), ConnectedCoords(b)) {
        if DistSq(ConnectedCoords(a), station) < DistSq(ConnectedCoords(b), station) {
          row := row + [b];
        } else {
          row := row + [a];
        }
      }
    }
  }

  /** `remove_duplicate_and_non_connected_lines`, on the list it edits in place. */
  method RemoveDuplicateAndNonConnectedLines(station: Point, lines: seq<NavigationLine>, touches: (Point, Point) -> bool)
    returns (r: seq<NavigationLine>)
    ensures r == RemoveEach(lines, ToClean(lines, station, touches))
  {
    var toClean: seq<NavigationLine> := [];
    ghost var clash, loser := ConflictRule(touches), LoserRule(station);
    for i := 0 to |lines|
      invariant toClean == Flatten(Rows(lines, i, clash, loser))
    {
      var row := ScheduleRow(station, lines, i, touches);
      assert Rows(lines, i + 1, clash, loser) == Rows(lines, i, clash, loser) + [row];
      FlattenSnoc(Rows(lines, i, clash, loser), row);
      toClean := toClean + row;
    }
    r := lines;
    for k := 0 to |toClean|
      invariant RemoveEach(r, toClean[k..]) == RemoveEach(lines, toClean)
    {
      assert toClean[k..][0] == toClean[k] && toClean[k..][1..] == toClean[k + 1..];
      if toClean[k] in r {
        r := RemoveFirst(r, toClean[k]);
      }
    }
  }

  lemma {:induction false} RowSchedulesConflict(s: seq<NavigationLine>, i: int, j: int, hi: int, clash: Clash, loser: Pick)
    requires 0 <= i <= j < hi <= |s|
    requires clash(s[i], s[j])
    ensures loser(s[i], s[j]) in Row(s, i, hi, clash, loser)
    decreases hi - i
  {
    if j < hi - 1 {
      RowSchedulesConflict(s, i, j, hi - 1, clash, loser);
    }
  }

  /** The loser of every pair that runs into each other is scheduled. */
  lemma ScheduleHoldsConflicts(s: seq<NavigationLine>, i: int, j: int, clash: Clash, loser: Pick)
    requires 0 <= i <= j < |s|
    requires clash(s[i], s[j])
    ensures loser(s[i], s[j]) in Flatten(Rows(s, |s|, clash, loser))
  {
    RowSchedulesConflict(s, i, j, |s|, clash, loser);
    InFlatten(Rows(s, |s|, clash, loser), i, loser(s[i], s[j]));
  }

  lemma {:induction false} RowItemsAreLosers(s: seq<NavigationLine>, i: int, hi: int, clash: Clash, loser: Pick, x: NavigationLine)
    requires 0 <= i < |s| && i <= hi <= |s|
    requires x in Row(s, i, hi, clash, loser)
    ensures exists j :: i <= j < hi && clash(s[i], s[j]) && x == loser(s[i], s[j])
    decreases hi - i
  {
    if x !in PairItem(s, i, hi - 1, clash, loser) {
      RowItemsAreLosers(s, i, hi - 1, clash, loser, x);
    }
  }

  /** Everything scheduled is the loser of a pair that runs into each other. */
  lemma ScheduledAreLosers(s: seq<NavigationLine>, clash: Clash, loser: Pick, x: NavigationLine)
    requires x in Flatten(Rows(s, |s|, clash, loser))
    ensures exists i, j :: 0 <= i <= j < |s| && clash(s[i], s[j]) && x == loser(s[i], s[j])
  {
    FlattenMember(Rows(s, |s|, clash, loser), x);
    var i :| 0 <= i < |s| && x in Rows(s, |s|, clash, loser)[i];
    RowItemsAreLosers(s, i, |s|, clash, loser, x);
  }

  /**
   * With shapely's point-to-point `touches`, which never holds, the pruning
   * removes nothing.
   */
  lemma NoTouchesRemovesNothing(lines: seq<NavigationLine>, station: Point, touches: (Point, Point) -> bool)
    requires NeverTouches(touches)
    ensures RemoveEach(lines, ToClean(lines, station, touches)) == lines
  {
    var items := ToClean(lines, station, touches);
    if items != [] {
      ScheduledAreLosers(lines, ConflictRule(touches), LoserRule(station), items[0]);
      assert false;
    }
  }

  /**
   * On a list without repeated entries the pruning keeps exactly the lines
   * that lose no pair: the loser of each pair `i <= j` that runs into each
   * other is gone, and a line that loses no such pair stays.
   */
  lemma PruningDropsExactlyLosers(lines: seq<NavigationLine>, station: Point, touches: (Point, Point) -> bool)
    requires NoDuplicates(lines)
    ensures forall i, j :: 0 <= i <= j < |lines| && Conflict(lines[i], lines[j], touches) ==>
      Loser(lines[i], lines[j], station) !in RemoveEach(lines, ToClean(lines, station, touches))
    ensures forall x :: x in lines && x !in RemoveEach(lines, ToClean(lines, station, touches)) ==>
      exists i, j :: 0 <= i <= j < |lines| && Conflict(lines[i], lines[j], touches) && x == Loser(lines[i], lines[j], station)
  {
    var clash, loser := ConflictRule(touches), LoserRule(station);
    var items := ToClean(lines, station, touches);
    forall i, j | 0 <= i <= j < |lines| && Conflict(lines[i], lines[j], touches)
      ensures Loser(lines[i], lines[j], station) !in RemoveEach(lines, items)
    {
      assert clash(lines[i], lines[j]);
      ScheduleHoldsConflicts(lines, i, j, clash, loser);
      RemoveEachRemovesItems(lines, items, loser(lines[i], lines[j]));
    }
    forall x | x in lines && x !in RemoveEach(lines, items)
      ensures exists i, j :: 0 <= i <= j < |lines| && Conflict(lines[i], lines[j], touches) && x == Loser(lines[i], lines[j], station)
    {
      if x !in items {
        RemoveEachKeepsOthers(lines, items, x);
      }
      ScheduledAreLosers(lines, clash, loser, x);
      var i, j :| 0 <= i <= j < |lines| && clash(lines[i], lines[j]) && x == loser(lines[i], lines[j]);
      assert Conflict(lines[i], lines[j], touches) && x == Loser(lines[i], lines[j], station);
    }
  }

  /** `extract_lines_connected_to_2d_entity2`: orient by closeness, then prune. */
  method ExtractLinesConnectedToEntity2(t: LineTable, margin: real, station: Point, touches: (Point, Point) -> bool)
    returns (r: seq<NavigationLine>)
    requires ValidTable(t)
    ensures var c := LinesCloseToEntity(t, margin, station); r == RemoveEach(c, ToClean(c, station, touches))
  {
    var c := CollectLines(t.lines, Candidates(t, margin, station), CloseRule(station, margin));
    r := RemoveDuplicateAndNonConnectedLines(station, c, touches);
  }

  // ------------------------------------------------------------ stations

  /** Everything the Alliander parser reads: the geo data, and the MV and LV line indices. */
  datatype Parser = Parser(data: GeoData.GeoData, mvTable: LineTable, lvTable: LineTable)

  ghost predicate ValidParser(a: Parser)
  {
    GeoData.ValidData(a.data) && ValidTable(a.mvTable) && ValidTable(a.lvTable)
  }

  /** `extract_lines_connected_to_stations_include_both_sides_disconnected`. */
  method ExtractLinesConnectedToStationsBothSides(d: GeoData.GeoData, stations: seq<Point>, t: LineTable, margin: real)
    returns (r: seq<StationContainer>)
    requires GeoData.ValidData(d) && ValidTable(t)
    ensures |r| == |stations|
    ensures forall k :: 0 <= k < |r| ==>
      r[k] == StationContainer(BothSidesDisconnected(t, margin, stations[k]), GeoData.BuildingYearAtPoint(d, stations[k]))
  {
    r := [];
    for k := 0 to |stations|
      invariant |r| == k
      invariant forall m :: 0 <= m < k ==>
        r[m] == StationContainer(BothSidesDisconnected(t, margin, stations[m]), GeoData.BuildingYearAtPoint(d, stations[m]))
    {
      var lines := ExtractLinesConnectedToEntityBothSidesDisconnected(t, margin, stations[k]);
      var year := GeoData.BuildingYearAtPoint(d, stations[k]);
      r := r + [StationContainer(lines, year)];
    }
  }

  /** The margin of the `i`-th attempt of the retry loop. */
  function RetryMargin(margin: real, i: nat): real
  {
    margin + (i as real) * 50.0
  }

  /** The retry from attempt `i` on: the first non-empty one-side result among attempts `i..4`, else `[]`. */
  function RetryFrom(t: LineTable, margin: real, station: Point, i: nat): (r: seq<NavigationLine>)
    requires ValidTable(t)
    decreases 5 - i
  {
    if i >= 5 then []
    else
      var lines := OneSideConnected(t, RetryMargin(margin, i), station);
      if lines != [] then lines else RetryFrom(t, margin, station, i + 1)
  }

  /**
   * The retry tries the margins `m`, `m + 50`, ..., `m + 200` in turn and
   * keeps the first non-empty result; it gives `[]` only when all five
   * attempts found nothing.
   */
  lemma {:induction false} RetryFromFindsFirstNonEmpty(t: LineTable, margin: real, station: Point, i: nat)
    requires ValidTable(t)
    ensures var r := RetryFrom(t, margin, station, i);
      && (r != [] ==> exists k :: i <= k < 5 && r == OneSideConnected(t, RetryMargin(margin, k), station) &&
                                   forall j :: i <= j < k ==> OneSideConnected(t, RetryMargin(margin, j), station) == [])
      && (r == [] ==> forall j :: i <= j < 5 ==> OneSideConnected(t, RetryMargin(margin, j), station) == [])
    decreases 5 - i
  {
    if i < 5 {
      var lines := OneSideConnected(t, RetryMargin(margin, i), station);
      if lines == [] {
        assert RetryFrom(t, margin, station, i) == RetryFrom(t, margin, station, i + 1);
        RetryFromFindsFirstNonEmpty(t, margin, station, i + 1);
        if RetryFrom(t, margin, station, i) != [] {
          var k :| i + 1 <= k < 5 && RetryFrom(t, margin, station, i) == OneSideConnected(t, RetryMargin(margin, k), station) &&
                   forall j :: i + 1 <= j < k ==> OneSideConnected(t, RetryMargin(margin, j), station) == [];
          assert i <= k;
        }
      } else {
        assert RetryFrom(t, margin, station, i) == lines;
      }
    }
  }

  /** The `while` loop of `extract_lines_connected_to_stations_include_one_side_connected` for one station. */
  method RetryWideningMargin(t: LineTable, margin: real, station: Point) returns (lines: seq<NavigationLine>, attempts: nat)
    requires ValidTable(t)
    ensures lines == RetryFrom(t, margin, station, 0)
    ensures 1 <= attempts <= 5
    ensures lines == [] ==> attempts == 5
  {
    lines := [];
    attempts := 0;
    while lines == [] && attempts < 5
      invariant attempts <= 5
      invariant lines == [] ==> RetryFrom(t, margin, station, 0) == RetryFrom(t, margin, station, attempts)
      invariant lines != [] ==> lines == RetryFrom(t, margin, station, 0) && attempts >= 1
      decreases 5 - attempts, if lines == [] then 1 else 0
    {
      lines := ExtractLinesConnectedToEntityOneSideConnected(t, RetryMargin(margin, attempts), station);
      attempts := attempts + 1;
    }
  }

  /** `extract_lines_connected_to_stations_include_one_side_connected`. */
  method ExtractLinesConnectedToStationsOneSide(d: GeoData.GeoData, stations: seq<Point>, t: LineTable, margin: real)
    returns (r: seq<StationContainer>)
    requires GeoData.ValidData(d) && ValidTable(t)
    ensures |r| == |stations|
    ensures forall k :: 0 <= k < |r| ==>
      r[k] == StationContainer(RetryFrom(t, margin, stations[k], 0), GeoData.BuildingYearAtPoint(d, stations[k]))
  {
    r := [];
    for k := 0 to |stations|
      invariant |r| == k
      invariant forall m :: 0 <= m < k ==>
        r[m] == StationContainer(RetryFrom(t, margin, stations[m], 0), GeoData.BuildingYearAtPoint(d, stations[m]))
    {
      var lines, _ := RetryWideningMargin(t, margin, stations[k]);
      var year := GeoData.BuildingYearAtPoint(d, stations[k]);
      r := r + [StationContainer(lines, year)];
    }
  }

  // --------------------------------------------------------------- at a point

  /** The first station within `radius` of `p`, or -1. */
  function FirstStationWithin(stations: seq<Point>, p: Point, radius: real): (k: int)
    ensures -1 <= k < |stations|
    ensures k >= 0 ==> PointWithin(stations[k], p, radius) && forall j :: 0 <= j < k ==> !PointWithin(stations[j], p, radius)
    ensures k == -1 ==> forall j :: 0 <= j < |stations| ==> !PointWithin(stations[j], p, radius)
  {
    if stations == [] then -1
    else if PointWithin(stations[0], p, radius) then 0
    else
      var k := FirstStationWithin(stations[1..], p, radius);
      if k == -1 then -1 else k + 1
  }

  /** The lines of `extract_mv_lines_connected_to_mv_lv_station_at_point`. */
  function MvLinesAtMvLvStation(a: Parser, p: Point): seq<NavigationLine>
    requires ValidParser(a)
  {
    var k := FirstStationWithin(a.data.stations, p, 3.0);
    if k < 0 then [] else OneSideConnected(a.mvTable, 3.0, a.data.stations[k])
  }

  /** The lines of `extract_lv_lines_connected_to_mv_lv_station_at_point`. */
  function LvLinesAtMvLvStation(a: Parser, p: Point): seq<NavigationLine>
    requires ValidParser(a)
  {
    var k := FirstStationWithin(a.data.stations, p, 10.0);
    if k < 0 then [] else BothSidesDisconnected(a.lvTable, 10.0, a.data.stations[k])
  }

  /** `extract_mv_lines_connected_to_mv_lv_station_at_point`: the loop with an early return. */
  method ExtractMvLinesAtMvLvStation(a: Parser, p: Point) returns (r: seq<NavigationLine>)
    requires ValidParser(a)
    ensures r == MvLinesAtMvLvStation(a, p)
  {
    var stations := a.data.stations;
    for k := 0 to |stations|
      invariant forall j :: 0 <= j < k ==> !PointWithin(stations[j], p, 3.0)
    {
      if PointWithin(stations[k], p, 3.0) {
        r := ExtractLinesConnectedToEntityOneSideConnected(a.mvTable, 3.0, stations[k]);
        return;
      }
    }
    r := [];
  }

  /** `extract_lv_lines_connected_to_mv_lv_station_at_point`: the loop with an early return. */
  method ExtractLvLinesAtMvLvStation(a: Parser, p: Point) returns (r: seq<NavigationLine>)
    requires ValidParser(a)
    ensures r == LvLinesAtMvLvStation(a, p)
  {
    var stations := a.data.stations;
    for k := 0 to |stations|
      invariant forall j :: 0 <= j < k ==> !PointWithin(stations[j], p, 10.0)
    {
      if PointWithin(stations[k], p, 10.0) {
        r := ExtractLinesConnectedToEntityBothSidesDisconnected(a.lvTable, 10.0, stations[k]);
        return;
      }
    }
    r := [];
  }

  /**
   * A point with a station within 3.0 gets the lines of the first such
   * station; a point with none gets no lines.
   */
  lemma MvLinesAtMvLvStationIsFirstHit(a: Parser, p: Point, k: int)
    requires ValidParser(a)
    requires 0 <= k < |a.data.stations| && PointWithin(a.data.stations[k], p, 3.0)
    requires forall j :: 0 <= j < k ==> !PointWithin(a.data.stations[j], p, 3.0)
    ensures MvLinesAtMvLvStation(a, p) == OneSideConnected(a.mvTable, 3.0, a.data.stations[k])
  {
    var f := FirstStationWithin(a.data.stations, p, 3.0);
    assert f != -1;
    assert !(f < k) && !(k < f);
  }

  /** `extract_mv_lines_that_are_connected_at_point`, and `extract_lv_lines_connected_at_point`, which also reads the MV index. */
  function MvLinesConnectedAtPoint(a: Parser, p: Point): seq<NavigationLine>
    requires ValidParser(a)
  {
    BothSidesDisconnected(a.mvTable, 3.0, p)
  }

  /** `extract_lv_lines_connected_to_mv_lv_station`: both-sides extraction at every station with margin 3.0. */
  method ExtractLvLinesConnectedToMvLvStation(a: Parser) returns (r: seq<StationContainer>)
    requires ValidParser(a)
    ensures |r| == |a.data.stations|
    ensures forall k :: 0 <= k < |r| ==>
      && r[k].startingLines == BothSidesDisconnected(a.lvTable, 3.0, a.data.stations[k])
      && r[k].buildingYear == GeoData.BuildingYearAtPoint(a.data, a.data.stations[k])
  {
    r := ExtractLinesConnectedToStationsBothSides(a.data, a.data.stations, a.lvTable, 3.0);
  }

  /**
   * `extract_mv_lines_connected_to_hv_mv_station_at_point`: the one-side
   * lines, with margin 20.0, of the first HV/MV station the index finds
   * within 20.0, else none.
   */
  function MvLinesAtHvMvStation(a: Parser, p: Point): (r: seq<NavigationLine>)
    requires ValidParser(a)
    ensures a.data.hvStationsWithin(p, 20.0) == [] ==> r == []
    ensures a.data.hvStationsWithin(p, 20.0) != [] ==>
      r == OneSideConnected(a.mvTable, 20.0, a.data.hvStations[a.data.hvStationsWithin(p, 20.0)[0]])
  {
    var hits := a.data.hvStationsWithin(p, 20.0);
    assert GeoData.IndicesBelow(hits, |a.data.hvStations|);
    if |hits| > 0 then OneSideConnected(a.mvTable, 20.0, a.data.hvStations[hits[0]]) else []
  }

  // ------------------------------------------------- in-place removals

  /** Neither end of the line has a building with a known year. */
  predicate NotConnectedToBuilding(d: GeoData.GeoData, n: NavigationLine)
    requires GeoData.ValidData(d)
  {
    GeoData.BuildingYearAtPoint(d, n.line.first) == GeoData.NoBuildingYear &&
    GeoData.BuildingYearAtPoint(d, n.line.last) == GeoData.NoBuildingYear
  }

  function NotConnectedToBuildingTest(d: GeoData.GeoData): NavigationLine -> bool
    requires GeoData.ValidData(d)
  {
    (n: NavigationLine) => NotConnectedToBuilding(d, n)
  }

  /** One of the line's ends has MV lines of an MV/LV station. */
  predicate ConnectedToMvStation(a: Parser, n: NavigationLine)
    requires ValidParser(a)
  {
    |MvLinesAtMvLvStation(a, ConnectedCoords(n))| > 0 || |MvLinesAtMvLvStation(a, EndCoords(n))| > 0
  }

  function ConnectedToMvStationTest(a: Parser): NavigationLine -> bool
    requires ValidParser(a)
  {
    (n: NavigationLine) => ConnectedToMvStation(a, n)
  }

  /** Removes, one by one and in place, every item of `items`. */
  method RemoveAll(lines: seq<NavigationLine>, items: seq<NavigationLine>) returns (r: seq<NavigationLine>)
    ensures r == RemoveEach(lines, items)
  {
    r := lines;
    for k := 0 to |items|
      invariant RemoveEach(r, items[k..]) == RemoveEach(lines, items)
    {
      assert items[k..][0] == items[k] && items[k..][1..] == items[k + 1..];
      r := RemoveFirst(r, items[k]);
    }
  }

  /**
   * `remove_navigation_line_strings_not_connected_to_building`: exactly the
   * lines with no building year at either end are removed, the others keep
   * their order.
   */
  method RemoveNotConnectedToBuilding(d: GeoData.GeoData, lines: seq<NavigationLine>) returns (r: seq<NavigationLine>)
    requires GeoData.ValidData(d)
    ensures r == Filter(lines, Negate(NotConnectedToBuildingTest(d)))
  {
    var items := Filter(lines, NotConnectedToBuildingTest(d));
    r := RemoveAll(lines, items);
    RemoveSelectedIsFilter(lines, NotConnectedToBuildingTest(d));
  }

  /**
   * `remove_navigation_line_strings_connected_to_mv_station`: exactly the
   * lines with an end at an MV/LV station's MV lines are removed, the
   * others keep their order.
   */
  method RemoveConnectedToMvStation(a: Parser, lines: seq<NavigationLine>) returns (r: seq<NavigationLine>)
    requires ValidParser(a)
    ensures r == Filter(lines, Negate(ConnectedToMvStationTest(a)))
  {
    var toRemove: seq<NavigationLine> := [];
    for k := 0 to |lines|
      invariant toRemove == Filter(lines[..k], ConnectedToMvStationTest(a))
    {
      var atConnected := ExtractMvLinesAtMvLvStation(a, ConnectedCoords(lines[k]));
      var atEnd := ExtractMvLinesAtMvLvStation(a, EndCoords(lines[k]));
      FilterSnoc(lines[..k], lines[k], ConnectedToMvStationTest(a));
      assert lines[..k + 1] == lines[..k] + [lines[k]];
      if |atConnected| > 0 || |atEnd| > 0 {
        toRemove := toRemove + [lines[k]];
      }
    }
    assert lines[..|lines|] == lines;
    r := RemoveAll(lines, toRemove);
    RemoveSelectedIsFilter(lines, ConnectedToMvStationTest(a));
  }

  /** Both removals of `extract_mv_lines_connected_to_hv_mv_station`, applied in turn. */
  function Cleaned(a: Parser, lines: seq<NavigationLine>): seq<NavigationLine>
    requires ValidParser(a)
  {
    Filter(Filter(lines, Negate(NotConnectedToBuildingTest(a.data))), Negate(ConnectedToMvStationTest(a)))
  }

  method CleanStartingLines(a: Parser, lines: seq<NavigationLine>) returns (kept: seq<NavigationLine>)
    requires ValidParser(a)
    ensures kept == Cleaned(a, lines)
  {
    kept := RemoveNotConnectedToBuilding(a.data, lines);
    kept := RemoveConnectedToMvStation(a, kept);
  }

  /** The starting lines kept for one HV/MV station: the widening retry with margin 50.0, then both removals. */
  function HvMvStartingLines(a: Parser, station: Point): seq<NavigationLine>
    requires ValidParser(a)
  {
    Cleaned(a, RetryFrom(a.mvTable, 50.0, station, 0))
  }

  function HvMvContainer(a: Parser, station: Point): StationContainer
    requires ValidParser(a)
  {
    StationContainer(HvMvStartingLines(a, station), GeoData.BuildingYearAtPoint(a.data, station))
  }

  /** The removals applied to the container found for `station`. */
  method CleanContainer(a: Parser, station: Point, found: StationContainer) returns (cleaned: StationContainer)
    requires ValidParser(a)
    requires found == StationContainer(RetryFrom(a.mvTable, 50.0, station, 0), GeoData.BuildingYearAtPoint(a.data, station))
    ensures cleaned == HvMvContainer(a, station)
  {
    var kept := CleanStartingLines(a, found.startingLines);
    cleaned := StationContainer(kept, found.buildingYear);
  }

  /** `extract_mv_lines_connected_to_hv_mv_station`: one container per HV/MV station, in order. */
  method ExtractMvLinesConnectedToHvMvStation(a: Parser) returns (r: seq<StationContainer>)
    requires ValidParser(a)
    ensures |r| == |a.data.hvStations|
    ensures forall k :: 0 <= k < |r| ==>
      r[k] == HvMvContainer(a, a.data.hvStations[k])
  {
    var found := ExtractLinesConnectedToStationsOneSide(a.data, a.data.hvStations, a.mvTable, 50.0);
    r := [];
    for k := 0 to |found|
      invariant |r| == k
      invariant forall m :: 0 <= m < k ==>
        r[m] == HvMvContainer(a, a.data.hvStations[m])
    {
      var station := a.data.hvStations[k];
      assert found[k] == StationContainer(RetryFrom(a.mvTable, 50.0, station, 0), GeoData.BuildingYearAtPoint(a.data, station));
      var cleaned := CleanContainer(a, station, found[k]);
      r := r + [cleaned];
      assert r[k] == HvMvContainer(a, station);
    }
  }
}
