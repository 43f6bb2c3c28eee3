/**
 * The spatial line index (shapely `STRtree` over the de-duplicated lines)
 * and the line navigator built on it (`_line_string_connected_to_point`,
 * `_get_next_lines`). The index queries are oracles.
 */
module LineIndex {
  import opened Wrappers
  import opened Geometry
  import Lists

  /**
   * A line index: the stored lines, `query(p, 'dwithin', r)` and
   * `query(p, 'touches')` (the lines having `p` on their boundary).
   */
  datatype LineTable = LineTable(
    lines: seq<Line>,
    within: (Point, real) -> seq<int>,
    touching: Point -> seq<int>)

  predicate IndicesBelow(ix: seq<int>, n: int)
  {
    forall k :: 0 <= k < |ix| ==> 0 <= ix[k] < n
  }

  predicate StrictlyIncreasing(ix: seq<int>)
  {
    forall a, b :: 0 <= a < b < |ix| ==> ix[a] < ix[b]
  }

  /**
   * Every index names a stored line; the `touches` query gives each line
   * once, in index order (the order `np.setdiff1d` leaves them in).
   */
  ghost predicate ValidTable(t: LineTable)
  {
    && (forall p, r :: IndicesBelow(t.within(p, r), |t.lines|))
    && (forall p :: IndicesBelow(t.touching(p), |t.lines|) && StrictlyIncreasing(t.touching(p)))
  }

  /** `query(Point(p), 'touches').size`: how many stored lines end at `p`. */
  function TouchCount(t: LineTable, p: Point): nat
  {
    |t.touching(p)|
  }

  /**
   * `_line_string_connected_to_point`: orients `line` so that its end that
   * covers `p` (for two points: equals it) is the connected end; the first
   * coordinate is tried first.
   */
  function LineConnectedToPoint(p: Point, line: Line, index: int): (r: Option<NavigationLine>)
    ensures line.first == p ==> r == Some(NavigationLine(line, false, index))
    ensures line.first != p && line.last == p ==> r == Some(NavigationLine(line, true, index))
    ensures r.Some? <==> (line.first == p || line.last == p)
    ensures r.Some? ==> ConnectedCoords(r.value) == p && r.value.index == index && r.value.line == line
  {
    if line.first == p then Some(NavigationLine(line, false, index))
    else if line.last == p then Some(NavigationLine(line, true, index))
    else None
  }

  /** Orients each candidate towards `p`, dropping those with no end at `p`. */
  function OrientCandidates(t: LineTable, p: Point, candidates: seq<int>): (r: seq<NavigationLine>)
    requires IndicesBelow(candidates, |t.lines|)
    ensures |r| <= |candidates|
    ensures forall k :: 0 <= k < |r| ==> r[k].index in candidates && 0 <= r[k].index < |t.lines|
    ensures forall k :: 0 <= k < |r| ==> ConnectedCoords(r[k]) == p && r[k].line == t.lines[r[k].index]
  {
    if candidates == [] then []
    else
      var rest := OrientCandidates(t, p, candidates[1..]);
      var head := LineConnectedToPoint(p, t.lines[candidates[0]], candidates[0]);
      if head.Some? then [head.value] + rest else rest
  }

  /** No candidate with an end at `p` is dropped. */
  lemma {:induction false} OrientCandidatesKeepsTouching(t: LineTable, p: Point, candidates: seq<int>, k: int)
    requires IndicesBelow(candidates, |t.lines|)
    requires 0 <= k < |candidates|
    requires t.lines[candidates[k]].first == p || t.lines[candidates[k]].last == p
    ensures exists j :: 0 <= j < |OrientCandidates(t, p, candidates)| && OrientCandidates(t, p, candidates)[j].index == candidates[k]
  {
    var r := OrientCandidates(t, p, candidates);
    var rest := OrientCandidates(t, p, candidates[1..]);
    var head := LineConnectedToPoint(p, t.lines[candidates[0]], candidates[0]);
    if k == 0 {
      assert r[0].index == candidates[0];
    } else {
      OrientCandidatesKeepsTouching(t, p, candidates[1..], k - 1);
      var j :| 0 <= j < |rest| && rest[j].index == candidates[1..][k - 1];
      var off := if head.Some? then 1 else 0;
      assert r[j + off] == rest[j];
    }
  }

  /**
   * `_get_next_lines`: the lines touching the open end of `n`, other than
   * `n`'s own line, each oriented so that its connected end is that point.
   */
  function GetNextLines(t: LineTable, n: NavigationLine): (r: seq<NavigationLine>)
    requires ValidTable(t)
    ensures forall k :: 0 <= k < |r| ==> r[k].index != n.index
    ensures forall k :: 0 <= k < |r| ==> ConnectedCoords(r[k]) == EndCoords(n)
    ensures forall k :: 0 <= k < |r| ==> 0 <= r[k].index < |t.lines| && r[k].line == t.lines[r[k].index]
    ensures forall k :: 0 <= k < |r| ==> r[k].index in t.touching(EndCoords(n))
  {
    var p := EndCoords(n);
    assert IndicesBelow(t.touching(p), |t.lines|);
    OrientCandidates(t, p, NextCandidates(t, n))
  }

  /** `np.setdiff1d(query(p, 'touches'), [n.index])` on the index-ordered query result. */
  function NextCandidates(t: LineTable, n: NavigationLine): (c: seq<int>)
  {
    Lists.Filter(t.touching(EndCoords(n)), (i: int) => i != n.index)
  }

  /** Every other line with an end at the open end, among those the index reports touching it, is returned. */
  lemma GetNextLinesComplete(t: LineTable, n: NavigationLine, i: int)
    requires ValidTable(t)
    requires i in t.touching(EndCoords(n)) && i != n.index
    requires 0 <= i < |t.lines| && (t.lines[i].first == EndCoords(n) || t.lines[i].last == EndCoords(n))
    ensures exists j :: 0 <= j < |GetNextLines(t, n)| && GetNextLines(t, n)[j].index == i
  {
    var p := EndCoords(n);
    assert IndicesBelow(t.touching(p), |t.lines|);
    var candidates := NextCandidates(t, n);
    var k0 :| 0 <= k0 < |t.touching(p)| && t.touching(p)[k0] == i;
    assert i in candidates;
    var k :| 0 <= k < |candidates| && candidates[k] == i;
    assert IndicesBelow(candidates, |t.lines|);
    OrientCandidatesKeepsTouching(t, p, candidates, k);
    assert GetNextLines(t, n) == OrientCandidates(t, p, candidates);
  }

  // ------------------------------------------- collecting oriented lines

  /** `StationStartingLinesContainer`: the starting lines of one station and its building year. */
  datatype StationContainer = StationContainer(startingLines: seq<NavigationLine>, buildingYear: int)

  /** What decides, per candidate line, whether and how it is taken. */
  type Rule = (Line, int) -> Option<NavigationLine>

  /** The lines the rule takes, in the order of the query result `ix`. */
  function Collect(lines: seq<Line>, ix: seq<int>, rule: Rule): (r: seq<NavigationLine>)
    requires IndicesBelow(ix, |lines|)
    ensures |r| <= |ix|
  {
    if ix == [] then []
    else
      var prev := Collect(lines, ix[..|ix| - 1], rule);
      var last := ix[|ix| - 1];
      match rule(lines[last], last)
      case Some(n) => prev + [n]
      case None => prev
  }

  /** Every collected line is what the rule made of one of the queried lines. */
  lemma {:induction false} CollectSound(lines: seq<Line>, ix: seq<int>, rule: Rule, j: int)
    requires IndicesBelow(ix, |lines|)
    requires 0 <= j < |Collect(lines, ix, rule)|
    ensures exists m :: 0 <= m < |ix| && rule(lines[ix[m]], ix[m]) == Some(Collect(lines, ix, rule)[j])
  {
    var prev := Collect(lines, ix[..|ix| - 1], rule);
    var last := ix[|ix| - 1];
    if j < |prev| {
      CollectSound(lines, ix[..|ix| - 1], rule, j);
      var m :| 0 <= m < |ix| - 1 && rule(lines[ix[..|ix| - 1][m]], ix[..|ix| - 1][m]) == Some(prev[j]);
      assert ix[..|ix| - 1][m] == ix[m];
      assert Collect(lines, ix, rule)[j] == prev[j];
    } else {
      assert rule(lines[ix[|ix| - 1]], ix[|ix| - 1]) == Some(Collect(lines, ix, rule)[j]);
    }
  }

  /** Every queried line the rule takes is collected. */
  lemma {:induction false} CollectComplete(lines: seq<Line>, ix: seq<int>, rule: Rule, m: int)
    requires IndicesBelow(ix, |lines|)
    requires 0 <= m < |ix| && rule(lines[ix[m]], ix[m]).Some?
    ensures rule(lines[ix[m]], ix[m]).value in Collect(lines, ix, rule)
  {
    var prev := Collect(lines, ix[..|ix| - 1], rule);
    if m < |ix| - 1 {
      assert ix[..|ix| - 1][m] == ix[m];
      CollectComplete(lines, ix[..|ix| - 1], rule, m);
      assert prev <= Collect(lines, ix, rule);
    }
  }

  /** The loop of the extractors that fills `ret_val` by appending each line the rule takes. */
  method CollectLines(lines: seq<Line>, ix: seq<int>, rule: Rule) returns (r: seq<NavigationLine>)
    requires IndicesBelow(ix, |lines|)
    ensures r == Collect(lines, ix, rule)
  {
    r := [];
    for k := 0 to |ix|
      invariant r == Collect(lines, ix[..k], rule)
    {
      assert ix[..k + 1][..k] == ix[..k];
      match rule(lines[ix[k]], ix[k]) {
        case Some(n) => r := r + [n];
        case None =>
      }
    }
    assert ix[..|ix|] == ix;
  }
}
