/**
 * The low-voltage topology builder (`LvNetworkBuilder`): starting from a
 * line at a station it follows the cables through the line index, merges
 * each branch-free run of lines into one edge, puts a node at every branch
 * point and dead end, and closes loops through a map from branch points to
 * nodes.
 */
module LvBuilder {
  import opened Geometry
  import opened LineIndex
  import opened Topology
  import Lists

  // ------------------------------------------------------------ the graph

  /** The node set is exactly `0..last`. */
  ghost predicate NodesUpTo(nodes: set<int>, last: int)
  {
    forall k :: k in nodes <==> 0 <= k <= last
  }

  /** Edge `e` joins node `k` to a node numbered below it. */
  predicate AttachesBelow(e: Edge, k: int)
  {
    (e.u == k && 0 <= e.v < k) || (e.v == k && 0 <= e.u < k)
  }

  ghost predicate AttachedBelow(g: Graph, k: int)
  {
    exists i :: 0 <= i < |g.edges| && AttachesBelow(g.edges[i], k)
  }

  /**
   * What the builder keeps true of its graph: the nodes are exactly
   * `0..last` (ids are handed out consecutively), every edge joins two of
   * them, and every node but 0 is joined to a node numbered below it, so
   * the graph is connected.
   */
  ghost predicate Sound(g: Graph, last: int)
  {
    && last >= 0
    && NodesUpTo(g.nodes, last)
    && (forall i :: 0 <= i < |g.edges| ==> 0 <= g.edges[i].u <= last && 0 <= g.edges[i].v <= last)
    && (forall k :: 0 < k <= last ==> AttachedBelow(g, k))
  }

  /** Adding an edge between existing nodes keeps the graph sound and loses no edge. */
  lemma AddEdgeKeepsSound(g: Graph, last: int, a: int, b: int, attrs: EdgeLabel)
    requires Sound(g, last) && 0 <= a <= last && 0 <= b <= last
    ensures Sound(AddEdge(g, a, b, attrs), last)
    ensures |AddEdge(g, a, b, attrs).edges| >= |g.edges|
  {
    var r := AddEdge(g, a, b, attrs);
    assert NodesUpTo(r.nodes, last);
    forall k | 0 < k <= last
      ensures AttachedBelow(r, k)
    {
      assert AttachedBelow(g, k);
      var i :| 0 <= i < |g.edges| && AttachesBelow(g.edges[i], k);
      assert Joins(r.edges[i], g.edges[i].u, g.edges[i].v);
      assert AttachesBelow(r.edges[i], k);
    }
  }

  /**
   * `_add_node_and_edge` on a sound graph: the node `last + 1` is new, so
   * the edge to it is appended, and the graph stays sound.
   */
  lemma AddNodeAndEdgeKeepsSound(g: Graph, last: int, fromNode: int, attrs: EdgeLabel)
    requires Sound(g, last) && 0 <= fromNode <= last
    ensures var r := AddEdge(AddNode(g, last + 1), fromNode, last + 1, attrs);
      Sound(r, last + 1) && r.edges == g.edges + [Edge(fromNode, last + 1, attrs)]
  {
    var g1 := AddNode(g, last + 1);
    assert FindEdge(g1.edges, fromNode, last + 1) == -1 by {
      forall i | 0 <= i < |g1.edges| ensures !Joins(g1.edges[i], fromNode, last + 1) {
      }
    }
    var r := AddEdge(g1, fromNode, last + 1, attrs);
    assert NodesUpTo(r.nodes, last + 1);
    forall k | 0 < k <= last + 1
      ensures AttachedBelow(r, k)
    {
      if k == last + 1 {
        assert AttachesBelow(r.edges[|g.edges|], k);
      } else {
        assert AttachedBelow(g, k);
        var i :| 0 <= i < |g.edges| && AttachesBelow(g.edges[i], k);
        assert r.edges[i] == g.edges[i];
      }
    }
  }

  // ----------------------------------------------------- branch-free runs

  /** The lines not visited yet; every step of the builder shrinks this set or ends. */
  function Unvisited(t: LineTable, visited: seq<int>): set<int>
  {
    set i | 0 <= i < |t.lines| && i !in visited
  }

  lemma VisitingShrinksUnvisited(t: LineTable, visited: seq<int>, more: seq<int>, i: int)
    requires 0 <= i < |t.lines| && i !in visited && i in more
    requires forall j :: j in visited ==> j in more
    ensures Unvisited(t, more) < Unvisited(t, visited)
  {
    assert i in Unvisited(t, visited);
  }

  lemma VisitingMore(t: LineTable, visited: seq<int>, more: seq<int>)
    requires visited <= more
    ensures Unvisited(t, more) <= Unvisited(t, visited)
  {
  }

  /** The lines a run consumed after its first line, and where it stopped. */
  datatype Run = Run(lines: seq<NavigationLine>, stop: seq<NavigationLine>)

  /** Every line of the index, entered from either of its ends. */
  function Oriented(t: LineTable): set<NavigationLine>
  {
    set i, b: bool | 0 <= i < |t.lines| :: NavigationLine(t.lines[i], b, i)
  }

  /** Entering an indexed line not entered before leaves fewer lines to enter. */
  lemma EnteringShrinks(t: LineTable, seen: set<NavigationLine>, n: NavigationLine)
    requires 0 <= n.index < |t.lines| && n.line == t.lines[n.index] && n !in seen
    ensures Oriented(t) - (seen + {n}) < Oriented(t) - seen
  {
    assert n == NavigationLine(t.lines[n.index], n.firstPointEnd, n.index);
    assert n in Oriented(t) - seen;
  }

  /**
   * Following single continuations from the continuation list `next`, as
   * the loop of `_build_lv_network_recursive` does, whether or not they
   * were visited: while there is exactly one continuation it joins the
   * run; the run stops at no continuation or at several (kept in `stop`).
   * `seen` holds the lines the run has entered; a single continuation
   * among them would send the loop round the same lines forever, and there
   * the run ends like a dead end instead (see the findings).
   */
  function RunOf(t: LineTable, seen: set<NavigationLine>, next: seq<NavigationLine>): (r: Run)
    requires ValidTable(t) && ValidPairs(t, next)
    decreases Oriented(t) - seen
  {
    if |next| == 1 then
      if next[0] in seen then Run([], [])
      else
        EnteringShrinks(t, seen, next[0]);
        var rest := RunOf(t, seen + {next[0]}, GetNextLines(t, next[0]));
        Run([next[0]] + rest.lines, rest.stop)
    else Run([], next)
  }

  /** The run that starts with line `n`. */
  function RunFrom(t: LineTable, n: NavigationLine): Run
    requires ValidTable(t)
  {
    RunOf(t, {n}, GetNextLines(t, n))
  }

  /**
   * The state of the run-following loop: `whole` is the run consumed so far
   * followed by the run from `next`, the consumed lines are appended to the
   * visited list, and the edge length is the first line's plus theirs.
   */
  ghost predicate RunSoFar(t: LineTable, whole: Run, visited0: seq<int>, firstLength: real,
                           consumed: seq<NavigationLine>, seen: set<NavigationLine>, visited: seq<int>,
                           next: seq<NavigationLine>, edgeLength: real)
  {
    && ValidTable(t)
    && LineIndex.IndicesBelow(visited, |t.lines|)
    && ValidPairs(t, next)
    && visited == visited0 + Indices(consumed)
    && edgeLength == firstLength + TotalLength(consumed)
    && whole == Run(consumed + RunOf(t, seen, next).lines, RunOf(t, seen, next).stop)
  }

  lemma RunStep(t: LineTable, whole: Run, visited0: seq<int>, firstLength: real,
                consumed: seq<NavigationLine>, seen: set<NavigationLine>, visited: seq<int>,
                next: seq<NavigationLine>, edgeLength: real)
    requires RunSoFar(t, whole, visited0, firstLength, consumed, seen, visited, next, edgeLength)
    requires |next| == 1 && next[0] !in seen
    ensures RunSoFar(t, whole, visited0, firstLength, consumed + [next[0]], seen + {next[0]},
                     visited + [next[0].index], GetNextLines(t, next[0]), edgeLength + next[0].line.length)
  {
    var n := next[0];
    var after := GetNextLines(t, n);
    var rest := RunOf(t, seen + {n}, after);
    assert RunOf(t, seen, next) == Run([n] + rest.lines, rest.stop);
    assert consumed + ([n] + rest.lines) == (consumed + [n]) + rest.lines;
    TotalLengthSnoc(consumed, n);
    IndicesSnoc(consumed, n);
    assert visited + [n.index] == visited0 + Indices(consumed + [n]);
    assert LineIndex.IndicesBelow(visited + [n.index], |t.lines|);
    assert ValidPairs(t, after);
  }

  function Indices(lines: seq<NavigationLine>): (ix: seq<int>)
    ensures |ix| == |lines| && forall k :: 0 <= k < |lines| ==> ix[k] == lines[k].index
  {
    if lines == [] then [] else [lines[0].index] + Indices(lines[1..])
  }

  lemma IndicesAppend(a: seq<NavigationLine>, b: seq<NavigationLine>)
    ensures Indices(a + b) == Indices(a) + Indices(b)
  {
    assert forall k :: 0 <= k < |a + b| ==> Indices(a + b)[k] == (Indices(a) + Indices(b))[k];
  }

  lemma IndicesSnoc(lines: seq<NavigationLine>, n: NavigationLine)
    ensures Indices(lines + [n]) == Indices(lines) + [n.index]
  {
  }

  function TotalLength(lines: seq<NavigationLine>): real
  {
    if lines == [] then 0.0 else lines[0].line.length + TotalLength(lines[1..])
  }

  lemma {:induction false} TotalLengthSnoc(lines: seq<NavigationLine>, n: NavigationLine)
    ensures TotalLength(lines + [n]) == TotalLength(lines) + n.line.length
  {
    if lines != [] {
      assert (lines + [n])[1..] == lines[1..] + [n];
      TotalLengthSnoc(lines[1..], n);
    }
  }

  /**
   * A run is a chain: its first line continues at the open end it started
   * from, each later line at the open end of the one before, and it stops
   * at no continuation or at a branch point.
   */
  lemma {:induction false} RunIsChain(t: LineTable, seen: set<NavigationLine>, from: Point, next: seq<NavigationLine>)
    requires ValidTable(t) && ValidPairs(t, next)
    requires forall k :: 0 <= k < |next| ==> ConnectedCoords(next[k]) == from
    ensures var r := RunOf(t, seen, next);
      && |r.stop| != 1
      && (r.lines != [] ==> ConnectedCoords(r.lines[0]) == from)
      && (forall k :: 0 < k < |r.lines| ==> ConnectedCoords(r.lines[k]) == EndCoords(r.lines[k - 1]))
    decreases Oriented(t) - seen
  {
    if |next| == 1 && next[0] !in seen {
      EnteringShrinks(t, seen, next[0]);
      var nextLines := GetNextLines(t, next[0]);
      RunIsChain(t, seen + {next[0]}, EndCoords(next[0]), nextLines);
      var rest := RunOf(t, seen + {next[0]}, nextLines);
      var r := RunOf(t, seen, next);
      assert r.lines == [next[0]] + rest.lines;
      assert forall k :: 0 < k < |r.lines| ==> r.lines[k] == rest.lines[k - 1];
    }
  }

  /** A run enters no line it entered before, and none twice. */
  lemma {:induction false} RunNeverRepeats(t: LineTable, seen: set<NavigationLine>, next: seq<NavigationLine>)
    requires ValidTable(t) && ValidPairs(t, next)
    ensures var r := RunOf(t, seen, next);
      && (forall k :: 0 <= k < |r.lines| ==> r.lines[k] !in seen)
      && Lists.NoDuplicates(r.lines)
    decreases Oriented(t) - seen
  {
    if |next| == 1 && next[0] !in seen {
      EnteringShrinks(t, seen, next[0]);
      var nextLines := GetNextLines(t, next[0]);
      RunNeverRepeats(t, seen + {next[0]}, nextLines);
      var rest := RunOf(t, seen + {next[0]}, nextLines);
      var r := RunOf(t, seen, next);
      assert r.lines == [next[0]] + rest.lines;
      Lists.NoDuplicatesAppend([next[0]], rest.lines);
    }
  }

  /**
   * The loop of `_build_lv_network_recursive` as written: the continuation
   * list after `k` more passes, each single continuation replaced by its
   * own continuations with no visited check; a list of any other length
   * leaves the loop.
   */
  function AsWrittenAfter(t: LineTable, next: seq<NavigationLine>, k: nat): seq<NavigationLine>
    requires ValidTable(t) && ValidPairs(t, next)
    decreases k
  {
    if k == 0 || |next| != 1 then next
    else AsWrittenAfter(t, GetNextLines(t, next[0]), k - 1)
  }

  lemma AsWrittenAfterSingle(t: LineTable, next: seq<NavigationLine>, k: nat)
    requires ValidTable(t) && ValidPairs(t, next) && |next| == 1 && k > 0
    ensures AsWrittenAfter(t, next, k) == AsWrittenAfter(t, GetNextLines(t, next[0]), k - 1)
  {
  }

  /**
   * The run agrees with the loop as written: its `j`-th line is the single
   * continuation after `j` passes, and after all its lines the loop holds
   * the run's stop, unless the run ended on a single continuation it had
   * already entered, where the loop as written goes round again.
   */
  lemma {:induction false} RunAgreesWithLoop(t: LineTable, seen: set<NavigationLine>, next: seq<NavigationLine>)
    requires ValidTable(t) && ValidPairs(t, next)
    ensures var r := RunOf(t, seen, next);
      && (forall j :: 0 <= j < |r.lines| ==> AsWrittenAfter(t, next, j) == [r.lines[j]])
      && var w := AsWrittenAfter(t, next, |r.lines|);
         w == r.stop || (r.stop == [] && |w| == 1 && (w[0] in seen || w[0] in r.lines))
    decreases Oriented(t) - seen
  {
    if |next| == 1 && next[0] !in seen {
      EnteringShrinks(t, seen, next[0]);
      var nextLines := GetNextLines(t, next[0]);
      RunAgreesWithLoop(t, seen + {next[0]}, nextLines);
      var rest := RunOf(t, seen + {next[0]}, nextLines);
      var r := RunOf(t, seen, next);
      assert r.lines == [next[0]] + rest.lines;
      forall j | 0 <= j < |r.lines| ensures AsWrittenAfter(t, next, j) == [r.lines[j]] {
        if j > 0 {
          AsWrittenAfterSingle(t, next, j);
          assert r.lines[j] == rest.lines[j - 1];
        }
      }
      AsWrittenAfterSingle(t, next, |r.lines|);
    }
  }

  // ------------------------------------------------- the breadth sweep

  /** Every continuation names its line in the index. */
  predicate ValidPairs(t: LineTable, next: seq<NavigationLine>)
  {
    forall k :: 0 <= k < |next| ==> 0 <= next[k].index < |t.lines| && next[k].line == t.lines[next[k].index]
  }

  function LinesOf(pairs: seq<NavigationLine>): (lines: seq<Line>)
    ensures |lines| == |pairs| && forall k :: 0 <= k < |pairs| ==> lines[k] == pairs[k].line
  {
    seq(|pairs|, k requires 0 <= k < |pairs| => pairs[k].line)
  }

  lemma ValidPairsAppend(t: LineTable, a: seq<NavigationLine>, b: seq<NavigationLine>)
    requires ValidPairs(t, a) && ValidPairs(t, b)
    ensures ValidPairs(t, a + b)
  {
    forall k | 0 <= k < |a + b| ensures 0 <= (a + b)[k].index < |t.lines| && (a + b)[k].line == t.lines[(a + b)[k].index] {
      if k < |a| {
        assert (a + b)[k] == a[k];
      } else {
        assert (a + b)[k] == b[k - |a|];
      }
    }
  }

  /**
   * The state of a sweep round after the first `k` continuations: those
   * are visited, the listed ones were unvisited before the round and are
   * listed once, and continuations were gathered only from listed lines.
   */
  ghost predicate FrontierSoFar(t: LineTable, next: seq<NavigationLine>, k: int, visited0: seq<int>,
                                found: seq<NavigationLine>, newPairs: seq<NavigationLine>, after: seq<int>)
  {
    && 0 <= k <= |next|
    && after == visited0 + Indices(next[..k])
    && Lists.NoDuplicates(Indices(found))
    && ValidPairs(t, found)
    && (forall j :: 0 <= j < |found| ==> found[j].index !in visited0 && found[j].index in after)
    && (newPairs != [] ==> found != [])
    && ValidPairs(t, newPairs)
  }

  /** A continuation already visited is only marked visited again. */
  lemma FrontierSkip(t: LineTable, next: seq<NavigationLine>, k: int, visited0: seq<int>,
                     found: seq<NavigationLine>, newPairs: seq<NavigationLine>, after: seq<int>)
    requires FrontierSoFar(t, next, k, visited0, found, newPairs, after) && k < |next|
    ensures FrontierSoFar(t, next, k + 1, visited0, found, newPairs, after + [next[k].index])
  {
    PrefixIndicesSnoc(next, k);
  }

  /** A continuation not yet visited is listed and its own continuations gathered. */
  lemma FrontierTake(t: LineTable, next: seq<NavigationLine>, k: int, visited0: seq<int>,
                     found: seq<NavigationLine>, newPairs: seq<NavigationLine>, after: seq<int>)
    requires FrontierSoFar(t, next, k, visited0, found, newPairs, after)
    requires ValidTable(t) && ValidPairs(t, next) && k < |next| && next[k].index !in after
    ensures FrontierSoFar(t, next, k + 1, visited0, found + [next[k]],
                          newPairs + GetNextLines(t, next[k]), after + [next[k].index])
  {
    var pair := next[k];
    PrefixIndicesSnoc(next, k);
    IndicesSnoc(found, pair);
    assert pair.index !in Indices(found);
    Lists.NoDuplicatesAppend(Indices(found), [pair.index]);
    ValidPairsAppend(t, found, [pair]);
    ValidPairsAppend(t, newPairs, GetNextLines(t, pair));
  }

  lemma PrefixIndicesSnoc(next: seq<NavigationLine>, k: int)
    requires 0 <= k < |next|
    ensures Indices(next[..k + 1]) == Indices(next[..k]) + [next[k].index]
  {
    assert next[..k + 1] == next[..k] + [next[k]];
    IndicesSnoc(next[..k], next[k]);
  }

  /**
   * The sweep's listing: `lines` are the indexed lines `ix`, each listed
   * once, all among the visited indices.
   */
  ghost predicate Listing(t: LineTable, lines: seq<Line>, ix: seq<int>, visited: seq<int>)
  {
    && |ix| == |lines| && Lists.NoDuplicates(ix)
    && LineIndex.IndicesBelow(visited, |t.lines|)
    && forall k :: 0 <= k < |ix| ==> ix[k] in visited && 0 <= ix[k] < |t.lines| && lines[k] == t.lines[ix[k]]
  }

  /** Two listings over disjoint indices (one inside `v0`, the other outside it) concatenate to a listing. */
  lemma ListingAppend(t: LineTable, l1: seq<Line>, i1: seq<int>, l2: seq<Line>, i2: seq<int>, v0: seq<int>, after: seq<int>)
    requires Listing(t, l1, i1, after) && Listing(t, l2, i2, after)
    requires forall k :: 0 <= k < |i1| ==> i1[k] in v0
    requires forall k :: 0 <= k < |i2| ==> i2[k] !in v0
    ensures Listing(t, l1 + l2, i1 + i2, after)
  {
    forall a, b | 0 <= a < |i1| && 0 <= b < |i2| ensures i1[a] != i2[b] {
      assert i1[a] in v0;
    }
    Lists.NoDuplicatesAppend(i1, i2);
    var ls, allIx := l1 + l2, i1 + i2;
    forall k | 0 <= k < |allIx| ensures allIx[k] in after && 0 <= allIx[k] < |t.lines| && ls[k] == t.lines[allIx[k]] {
      if k < |i1| {
        assert allIx[k] == i1[k] && ls[k] == l1[k];
      } else {
        assert allIx[k] == i2[k - |i1|] && ls[k] == l2[k - |i1|];
      }
    }
  }

  /**
   * What the sweep keeps true: the pending continuations name indexed
   * lines reached from the start line, and the lines listed so far are
   * reached lines, each index once, all visited.
   */
  ghost predicate SweepState(t: LineTable, start: NavigationLine, next: seq<NavigationLine>, lines: seq<Line>,
                             listed: seq<NavigationLine>, visited: seq<int>)
  {
    && ValidPairs(t, next) && AllReached(t, start, next)
    && Listing(t, lines, Indices(listed), visited) && AllReached(t, start, listed)
  }

  /**
   * One round of the sweep keeps the listing of reached lines and either
   * visits a line not visited before or ends the sweep.
   */
  lemma SweepRound(t: LineTable, start: NavigationLine, next: seq<NavigationLine>, lines: seq<Line>,
                   listed: seq<NavigationLine>, visited: seq<int>,
                   found: seq<NavigationLine>, newPairs: seq<NavigationLine>, after: seq<int>)
    requires SweepState(t, start, next, lines, listed, visited)
    requires after == visited + Indices(next)
    requires Lists.NoDuplicates(Indices(found)) && ValidPairs(t, found)
    requires forall k :: 0 <= k < |found| ==> found[k].index !in visited && found[k].index in after
    requires newPairs != [] ==> found != []
    requires AllReached(t, start, found) && ValidPairs(t, newPairs) && AllReached(t, start, newPairs)
    ensures SweepState(t, start, newPairs, lines + LinesOf(found), listed + found, after)
    ensures Unvisited(t, after) <= Unvisited(t, visited)
    ensures newPairs != [] ==> Unvisited(t, after) < Unvisited(t, visited)
  {
    assert LineIndex.IndicesBelow(after, |t.lines|) by {
      forall k | 0 <= k < |next| ensures 0 <= Indices(next)[k] < |t.lines| {
      }
    }
    ListingGrows(t, lines, Indices(listed), visited, found, after);
    IndicesAppend(listed, found);
    AllReachedAppend(t, start, listed, found);
    VisitingMore(t, visited, after);
    if found != [] {
      VisitingShrinksUnvisited(t, visited, after, found[0].index);
    }
  }

  /** A listing of reached lines, in the form `build_lv_network` promises it. */
  lemma ListingReached(t: LineTable, start: NavigationLine, lines: seq<Line>, listed: seq<NavigationLine>, visited: seq<int>)
    requires Listing(t, lines, Indices(listed), visited) && AllReached(t, start, listed)
    ensures var out := lines + [start.line];
      && |out| >= 1 && out[|out| - 1] == start.line
      && exists found: seq<NavigationLine> ::
        && |found| == |out| - 1 && Lists.NoDuplicates(Indices(found))
        && forall k :: 0 <= k < |found| ==>
             && Reaches(t, start, found[k])
             && 0 <= found[k].index < |t.lines| && out[k] == t.lines[found[k].index]
  {
    var out := lines + [start.line];
    forall k | 0 <= k < |listed| ensures Reaches(t, start, listed[k]) && out[k] == lines[k] {
      AllReachedAt(t, start, listed, k);
    }
  }

  /** A round that lists only unvisited lines keeps the listing free of repeats. */
  lemma ListingGrows(t: LineTable, lines: seq<Line>, ix: seq<int>, visited: seq<int>,
                     found: seq<NavigationLine>, after: seq<int>)
    requires Listing(t, lines, ix, visited) && ValidPairs(t, found)
    requires visited <= after && LineIndex.IndicesBelow(after, |t.lines|)
    requires Lists.NoDuplicates(Indices(found))
    requires forall k :: 0 <= k < |found| ==> found[k].index !in visited && found[k].index in after
    ensures Listing(t, lines + LinesOf(found), ix + Indices(found), after)
  {
    assert Listing(t, lines, ix, after);
    assert Listing(t, LinesOf(found), Indices(found), after);
    ListingAppend(t, lines, ix, LinesOf(found), Indices(found), visited, after);
  }

  /**
   * `y` continues `x`: it is another indexed line that touches the open
   * end of `x`, entered from that end.
   */
  predicate Continues(t: LineTable, x: NavigationLine, y: NavigationLine)
  {
    && 0 <= y.index < |t.lines| && y.line == t.lines[y.index]
    && y.index != x.index
    && y.index in t.touching(EndCoords(x))
    && ConnectedCoords(y) == EndCoords(x)
  }

  /** Every line `GetNextLines` returns continues the line it was asked about. */
  lemma NextLinesContinue(t: LineTable, x: NavigationLine)
    requires ValidTable(t)
    ensures forall k :: 0 <= k < |GetNextLines(t, x)| ==> Continues(t, x, GetNextLines(t, x)[k])
  {
  }

  /**
   * `p` is a walk from `start`: each of its lines continues the one before
   * it, the first continuing `start`.
   */
  ghost predicate IsWalk(t: LineTable, start: NavigationLine, p: seq<NavigationLine>)
    decreases |p|
  {
    if |p| <= 1 then |p| == 1 && Continues(t, start, p[0])
    else IsWalk(t, start, p[..|p| - 1]) && Continues(t, p[|p| - 2], p[|p| - 1])
  }

  /** Line `x` is reached from `start` by a walk. */
  ghost predicate Reaches(t: LineTable, start: NavigationLine, x: NavigationLine)
  {
    exists p :: IsWalk(t, start, p) && p[|p| - 1] == x
  }

  /** A line that continues a reached line is reached. */
  lemma ReachesStep(t: LineTable, start: NavigationLine, x: NavigationLine, y: NavigationLine)
    requires Reaches(t, start, x) && Continues(t, x, y)
    ensures Reaches(t, start, y)
  {
    var p :| IsWalk(t, start, p) && p[|p| - 1] == x;
    var q := p + [y];
    assert q[..|q| - 1] == p;
    assert IsWalk(t, start, q) && q[|q| - 1] == y;
  }

  /** Every line of `s` is reached from `start`. */
  ghost predicate AllReached(t: LineTable, start: NavigationLine, s: seq<NavigationLine>)
    decreases |s|
  {
    s == [] || (Reaches(t, start, s[0]) && AllReached(t, start, s[1..]))
  }

  lemma {:induction false} AllReachedAt(t: LineTable, start: NavigationLine, s: seq<NavigationLine>, k: int)
    requires AllReached(t, start, s) && 0 <= k < |s|
    ensures Reaches(t, start, s[k])
    decreases |s|
  {
    if k > 0 {
      AllReachedAt(t, start, s[1..], k - 1);
    }
  }

  lemma {:induction false} AllReachedAppend(t: LineTable, start: NavigationLine, a: seq<NavigationLine>, b: seq<NavigationLine>)
    requires AllReached(t, start, a) && AllReached(t, start, b)
    ensures AllReached(t, start, a + b)
    decreases |a|
  {
    if a != [] {
      assert (a + b)[1..] == a[1..] + b;
      AllReachedAppend(t, start, a[1..], b);
      assert (a + b)[0] == a[0];
    } else {
      assert a + b == b;
    }
  }

  /** The lines `GetNextLines` returns for a reached line are reached. */
  lemma {:induction false} NextLinesReached(t: LineTable, start: NavigationLine, x: NavigationLine, k: int)
    requires ValidTable(t) && (x == start || Reaches(t, start, x))
    requires 0 <= k <= |GetNextLines(t, x)|
    ensures AllReached(t, start, GetNextLines(t, x)[k..])
    decreases |GetNextLines(t, x)| - k
  {
    var next := GetNextLines(t, x);
    if k < |next| {
      NextLinesReached(t, start, x, k + 1);
      NextLinesContinue(t, x);
      if x == start {
        ReachesFirst(t, start, next[k]);
      } else {
        ReachesStep(t, start, x, next[k]);
      }
      assert next[k..][1..] == next[k + 1..];
    }
  }

  /** Taking a reached pair keeps the found lines and the new pairs reached. */
  lemma TakeReached(t: LineTable, start: NavigationLine, next: seq<NavigationLine>, k: int,
                    found: seq<NavigationLine>, newPairs: seq<NavigationLine>)
    requires ValidTable(t) && AllReached(t, start, next) && 0 <= k < |next|
    requires AllReached(t, start, found) && AllReached(t, start, newPairs)
    ensures AllReached(t, start, found + [next[k]])
    ensures AllReached(t, start, newPairs + GetNextLines(t, next[k]))
  {
    AllReachedAt(t, start, next, k);
    NextLinesReached(t, start, next[k], 0);
    AllReachedAppend(t, start, found, [next[k]]);
    assert GetNextLines(t, next[k])[0..] == GetNextLines(t, next[k]);
    AllReachedAppend(t, start, newPairs, GetNextLines(t, next[k]));
  }

  /** The lines that continue the start line are reached. */
  lemma ReachesFirst(t: LineTable, start: NavigationLine, y: NavigationLine)
    requires Continues(t, start, y)
    ensures Reaches(t, start, y)
  {
    assert IsWalk(t, start, [y]);
  }

  // ---------------------------------------------------------- the builder

  class LvNetworkBuilder {
    /** `str_tree_lines`: the index over the de-duplicated LV lines. */
    const table: LineTable
    /**
     * `_extract_common_point`: the point the continuations of a branch
     * share (`np.intersect1d` over flattened coordinates; in practice the
     * open end the branch starts from).
     */
    const commonPoint: seq<NavigationLine> -> Point
    /** `network_graph`. */
    var graph: Graph
    /** `visited_lines`. */
    var visited: seq<int>
    /** `loops_mapping`: branch point to the node made for it. */
    var loops: map<Point, int>

    constructor (table: LineTable, commonPoint: seq<NavigationLine> -> Point)
      ensures this.table == table && this.commonPoint == commonPoint
      ensures graph == Graph({}, []) && visited == [] && loops == map[]
    {
      this.table := table;
      this.commonPoint := commonPoint;
      graph := Graph({}, []);
      visited := [];
      loops := map[];
    }

    /** The state of a pass with nodes `0..last`: a sound graph, loop targets among its nodes, visited lines in the index. */
    ghost predicate Consistent(last: int)
      reads this
    {
      && ValidTable(table)
      && Sound(graph, last)
      && (forall p :: p in loops ==> 0 <= loops[p] <= last)
      && LineIndex.IndicesBelow(visited, |table.lines|)
    }

    /** `_add_node_and_edge`. */
    method AddNodeAndEdge(fromNode: int, last: int, edgeLength: real) returns (newLast: int)
      modifies this
      ensures newLast == last + 1
      ensures graph == AddEdge(AddNode(old(graph), newLast), fromNode, newLast, EdgeLabel(edgeLength, 0))
      ensures visited == old(visited) && loops == old(loops)
    {
      newLast := last + 1;
      graph := AddNode(graph, newLast);
      graph := AddEdge(graph, fromNode, newLast, EdgeLabel(edgeLength, 0));
    }

    /**
     * The single-continuation case of `_build_lv_network_recursive`'s loop:
     * follows the run from `n`, marking its lines visited and adding their
     * lengths to the edge being built, whether or not they were visited
     * before. A single continuation the run already entered ends it (see
     * the findings).
     */
    method FollowRun(n: NavigationLine) returns (edgeLength: real, next: seq<NavigationLine>)
      requires ValidTable(table) && LineIndex.IndicesBelow(visited, |table.lines|)
      modifies this
      ensures var r := RunFrom(table, n);
        && visited == old(visited) + Indices(r.lines)
        && edgeLength == n.line.length + TotalLength(r.lines)
        && next == r.stop
      ensures LineIndex.IndicesBelow(visited, |table.lines|)
      ensures ValidPairs(table, next)
      ensures graph == old(graph) && loops == old(loops)
    {
      edgeLength := n.line.length;
      next := GetNextLines(table, n);
      var seen := {n};
      ghost var consumed: seq<NavigationLine> := [];
      ghost var whole := RunFrom(table, n);
      while |next| == 1
        invariant RunSoFar(table, whole, old(visited), n.line.length, consumed, seen, visited, next, edgeLength)
        invariant graph == old(graph) && loops == old(loops)
        decreases Oriented(table) - seen, |next|
      {
        var single := next[0];
        if single in seen {
          next := [];
        } else {
          RunStep(table, whole, old(visited), n.line.length, consumed, seen, visited, next, edgeLength);
          EnteringShrinks(table, seen, single);
          visited := visited + [single.index];
          edgeLength := edgeLength + single.line.length;
          seen := seen + {single};
          consumed := consumed + [single];
          next := GetNextLines(table, single);
        }
      }
      assert consumed + [] == consumed;
    }

    /**
     * The branch case of `_build_lv_network_recursive`, before recursing: a
     * branch point already in the loop map gets an edge to its node and no
     * new node; otherwise, when none of the continuations is visited, a new
     * node and edge are made and the point is mapped to the new node;
     * otherwise nothing changes.
     */
    method HandleBranchPoint(fromNode: int, last: int, edgeLength: real, next: seq<NavigationLine>)
      returns (from: int, newLast: int)
      requires Consistent(last) && 0 <= fromNode <= last
      modifies this
      ensures visited == old(visited)
      ensures var p := commonPoint(next);
        && (p in old(loops) ==>
              && graph == AddEdge(old(graph), fromNode, old(loops)[p], EdgeLabel(edgeLength, 0))
              && from == fromNode && newLast == last && loops == old(loops))
        && (p !in old(loops) && (forall k :: 0 <= k < |next| ==> next[k].index !in old(visited)) ==>
              && newLast == last + 1 && from == newLast
              && graph == AddEdge(AddNode(old(graph), newLast), fromNode, newLast, EdgeLabel(edgeLength, 0))
              && loops == old(loops)[p := newLast])
        && (p !in old(loops) && !(forall k :: 0 <= k < |next| ==> next[k].index !in old(visited)) ==>
              from == fromNode && newLast == last && graph == old(graph) && loops == old(loops))
      ensures Consistent(newLast) && 0 <= from <= newLast && last <= newLast
      ensures forall q :: q in old(loops) ==> q in loops && loops[q] == old(loops)[q]
    {
      var p := commonPoint(next);
      from, newLast := fromNode, last;
      if p in loops {
        AddEdgeKeepsSound(graph, last, fromNode, loops[p], EdgeLabel(edgeLength, 0));
        graph := AddEdge(graph, fromNode, loops[p], EdgeLabel(edgeLength, 0));
      } else if forall k :: 0 <= k < |next| ==> next[k].index !in visited {
        AddNodeAndEdgeKeepsSound(graph, last, fromNode, EdgeLabel(edgeLength, 0));
        newLast := AddNodeAndEdge(fromNode, last, edgeLength);
        from := newLast;
        loops := loops[p := from];
      }
    }

    /**
     * `_build_lv_network_recursive`, with the run-following corrected (see
     * `RunOf`): a visited line changes nothing; any other line is built from.
     */
    method BuildRecursive(n: NavigationLine, last: int, fromNode: int) returns (newLast: int)
      requires Consistent(last) && 0 <= fromNode <= last && 0 <= n.index < |table.lines|
      modifies this
      decreases Unvisited(table, visited), 3
      ensures Consistent(newLast) && last <= newLast
      ensures n.index in visited
      ensures forall i :: i in old(visited) ==> i in visited
      ensures forall p :: p in old(loops) ==> p in loops && loops[p] == old(loops)[p]
      ensures old(n.index in visited) ==>
        newLast == last && graph == old(graph) && visited == old(visited) && loops == old(loops)
      ensures n.index !in old(visited) && RunFrom(table, n).stop == [] ==>
        var run := RunFrom(table, n).lines;
        && newLast == last + 1 && loops == old(loops)
        && graph == AddEdge(AddNode(old(graph), last + 1), fromNode, last + 1, EdgeLabel(n.line.length + TotalLength(run), 0))
    {
      if n.index in visited {
        return last;
      }
      newLast := BuildUnvisited(n, last, fromNode);
    }

    /** Visits `n` and follows the run that starts after it: the first half of the unvisited case. */
    method StartRun(n: NavigationLine, ghost last: int) returns (edgeLength: real, next: seq<NavigationLine>)
      requires Consistent(last) && 0 <= n.index < |table.lines| && n.index !in visited
      modifies this
      ensures Consistent(last)
      ensures var r := RunFrom(table, n);
        && visited == old(visited) + [n.index] + Indices(r.lines)
        && edgeLength == n.line.length + TotalLength(r.lines)
        && next == r.stop
      ensures Unvisited(table, visited) < Unvisited(table, old(visited))
      ensures forall k :: 0 <= k < |next| ==> 0 <= next[k].index < |table.lines|
      ensures graph == old(graph) && loops == old(loops)
    {
      visited := visited + [n.index];
      VisitingShrinksUnvisited(table, old(visited), visited, n.index);
      ghost var before := visited;
      edgeLength, next := FollowRun(n);
      VisitingMore(table, before, visited);
    }

    /**
     * The body of `_build_lv_network_recursive` for a line not visited yet:
     * the line and its run are visited, and the run ends either at a dead
     * end, which gets one new node and one edge as long as the whole run,
     * or at a branch point, which is handled and then each continuation is
     * built from it.
     */
    method BuildUnvisited(n: NavigationLine, last: int, fromNode: int) returns (newLast: int)
      requires Consistent(last) && 0 <= fromNode <= last && 0 <= n.index < |table.lines|
      requires n.index !in visited
      modifies this
      decreases Unvisited(table, visited), 2
      ensures Consistent(newLast) && last <= newLast
      ensures n.index in visited
      ensures forall i :: i in old(visited) ==> i in visited
      ensures forall p :: p in old(loops) ==> p in loops && loops[p] == old(loops)[p]
      ensures RunFrom(table, n).stop == [] ==>
        var run := RunFrom(table, n).lines;
        && newLast == last + 1 && loops == old(loops)
        && graph == AddEdge(AddNode(old(graph), last + 1), fromNode, last + 1, EdgeLabel(n.line.length + TotalLength(run), 0))
    {
      ghost var bound := Unvisited(table, visited);
      var edgeLength, next := StartRun(n, last);
      ghost var g0, run := graph, RunFrom(table, n);
      assert edgeLength == n.line.length + TotalLength(run.lines) && next == run.stop;
      newLast := EndRun(fromNode, last, edgeLength, next, bound);
    }

    /** Where a run stops: a branch point is handled and built from, a dead end gets its node and edge. */
    method EndRun(fromNode: int, last: int, edgeLength: real, next: seq<NavigationLine>, ghost bound: set<int>)
      returns (newLast: int)
      requires Consistent(last) && 0 <= fromNode <= last
      requires forall k :: 0 <= k < |next| ==> 0 <= next[k].index < |table.lines|
      requires Unvisited(table, visited) < bound
      modifies this
      decreases bound, 1
      ensures Consistent(newLast) && last <= newLast
      ensures forall i :: i in old(visited) ==> i in visited
      ensures forall p :: p in old(loops) ==> p in loops && loops[p] == old(loops)[p]
      ensures next == [] ==>
        && newLast == last + 1 && loops == old(loops)
        && graph == AddEdge(AddNode(old(graph), last + 1), fromNode, last + 1, EdgeLabel(edgeLength, 0))
    {
      if |next| > 1 {
        var from;
        from, newLast := HandleBranchPoint(fromNode, last, edgeLength, next);
        newLast := BuildBranches(next, newLast, from, bound);
      } else {
        AddNodeAndEdgeKeepsSound(graph, last, fromNode, EdgeLabel(edgeLength, 0));
        newLast := AddNodeAndEdge(fromNode, last, edgeLength);
      }
    }

    /** The `for` loop of the branch case: each continuation is built from the branch node, in order. */
    method BuildBranches(next: seq<NavigationLine>, last: int, from: int, ghost bound: set<int>) returns (newLast: int)
      requires Consistent(last) && 0 <= from <= last
      requires forall k :: 0 <= k < |next| ==> 0 <= next[k].index < |table.lines|
      requires Unvisited(table, visited) < bound
      modifies this
      decreases bound, 0
      ensures Consistent(newLast) && last <= newLast
      ensures forall k :: 0 <= k < |next| ==> next[k].index in visited
      ensures forall i :: i in old(visited) ==> i in visited
      ensures forall p :: p in old(loops) ==> p in loops && loops[p] == old(loops)[p]
    {
      newLast := last;
      for k := 0 to |next|
        invariant Consistent(newLast) && last <= newLast
        invariant forall j :: 0 <= j < k ==> next[j].index in visited
        invariant forall i :: i in old(visited) ==> i in visited
        invariant forall p :: p in old(loops) ==> p in loops && loops[p] == old(loops)[p]
      {
        assert Unvisited(table, visited) <= Unvisited(table, old(visited));
        newLast := BuildRecursive(next[k], newLast, from);
      }
    }

    /**
     * `compute_lv_network_topology_from_lv_mv_station`: a graph with node 0,
     * built from the starting line with a fresh visited list and loop map.
     */
    method ComputeLvNetworkTopology(start: NavigationLine) returns (g: Graph)
      requires ValidTable(table) && 0 <= start.index < |table.lines|
      modifies this
      ensures exists last :: Sound(g, last)
      ensures 0 in g.nodes && start.index in visited
    {
      graph := Graph({0}, []);
      visited := [];
      loops := map[];
      assert NodesUpTo(graph.nodes, 0);
      var last := BuildRecursive(start, 0, 0);
      g := graph;
    }

    /**
     * One round of `build_lv_network`'s sweep: every continuation not yet
     * visited is listed (`found`) and its own continuations gathered; every
     * continuation is then marked visited.
     */
    method VisitFrontier(next: seq<NavigationLine>, visitedIndices: seq<int>, ghost start: NavigationLine)
      returns (found: seq<NavigationLine>, newPairs: seq<NavigationLine>, visitedAfter: seq<int>)
      requires ValidTable(table)
      requires ValidPairs(table, next)
      requires AllReached(table, start, next)
      ensures visitedAfter == visitedIndices + Indices(next)
      ensures Lists.NoDuplicates(Indices(found)) && ValidPairs(table, found)
      ensures forall k :: 0 <= k < |found| ==> found[k].index !in visitedIndices && found[k].index in visitedAfter
      ensures newPairs != [] ==> found != []
      ensures ValidPairs(table, newPairs)
      ensures AllReached(table, start, found) && AllReached(table, start, newPairs)
    {
      found, newPairs, visitedAfter := [], [], visitedIndices;
      for k := 0 to |next|
        invariant FrontierSoFar(table, next, k, visitedIndices, found, newPairs, visitedAfter)
        invariant AllReached(table, start, found) && AllReached(table, start, newPairs)
      {
        var pair := next[k];
        if pair.index !in visitedAfter {
          FrontierTake(table, next, k, visitedIndices, found, newPairs, visitedAfter);
          TakeReached(table, start, next, k, found, newPairs);
          found := found + [pair];
          newPairs := newPairs + GetNextLines(table, pair);
        } else {
          FrontierSkip(table, next, k, visitedIndices, found, newPairs, visitedAfter);
        }
        visitedAfter := visitedAfter + [pair.index];
      }
      assert next[..|next|] == next;
    }

    /**
     * `build_lv_network`: a breadth-first sweep over the continuations from
     * the starting line that lists lines reached from it, each index once,
     * then the starting line itself.
     */
    method BuildLvNetwork(start: NavigationLine) returns (lines: seq<Line>)
      requires ValidTable(table)
      ensures |lines| >= 1 && lines[|lines| - 1] == start.line
      ensures exists listed: seq<NavigationLine> ::
        && |listed| == |lines| - 1 && Lists.NoDuplicates(Indices(listed))
        && forall k :: 0 <= k < |listed| ==>
             && Reaches(table, start, listed[k])
             && 0 <= listed[k].index < |table.lines| && lines[k] == table.lines[listed[k].index]
    {
      ghost var listed, visitedIndices;
      lines, listed, visitedIndices := Sweep(start);
      ListingReached(table, start, lines, listed, visitedIndices);
      lines := lines + [start.line];
    }

    /** The `while` loop of `build_lv_network`: the lines it lists, the pairs they come from, and the indices it visits. */
    method Sweep(start: NavigationLine) returns (lines: seq<Line>, ghost listed: seq<NavigationLine>, ghost visited: seq<int>)
      requires ValidTable(table)
      ensures Listing(table, lines, Indices(listed), visited) && AllReached(table, start, listed)
    {
      var visitedIndices: seq<int> := [];
      var next := GetNextLines(table, start);
      lines, listed := [], [];
      NextLinesReached(table, start, start, 0);
      assert next[0..] == next;
      while |next| > 0
        invariant SweepState(table, start, next, lines, listed, visitedIndices)
        decreases Unvisited(table, visitedIndices), |next|
      {
        var found, newPairs, after := VisitFrontier(next, visitedIndices, start);
        SweepRound(table, start, next, lines, listed, visitedIndices, found, newPairs, after);
        lines := lines + LinesOf(found);
        listed := listed + found;
        visitedIndices := after;
        next := newPairs;
      }
      visited := visitedIndices;
    }
  }

  // -------------------------------------- a ring without branch points

  /** Three unit-scale lines forming a triangle, each ending where the next begins. */
  const P0: Point := Point(0.0, 0.0)
  const P1: Point := Point(1.0, 0.0)
  const P2: Point := Point(0.0, 1.0)

  function RingTable(): LineTable
  {
    LineTable(
      [Line(P0, P1, 1.0), Line(P1, P2, 1.5), Line(P2, P0, 1.0)],
      (p: Point, r: real) => [],
      (p: Point) => if p == P0 then [0, 2] else if p == P1 then [0, 1] else if p == P2 then [1, 2] else [])
  }

  function RingLine(k: nat): NavigationLine
    requires k < 3
  {
    NavigationLine(RingTable().lines[k], false, k)
  }

  /** The position of the ring line that follows line `k`. */
  function RingSucc(k: nat): nat
  {
    if k == 2 then 0 else k + 1
  }

  lemma RingTableIsValid()
    ensures ValidTable(RingTable())
  {
    var t := RingTable();
    forall p ensures LineIndex.IndicesBelow(t.touching(p), |t.lines|) && StrictlyIncreasing(t.touching(p)) {
    }
  }

  lemma FilterPair(x: int, y: int, p: int -> bool)
    ensures Lists.Filter([x, y], p) == (if p(x) then [x] else []) + (if p(y) then [y] else [])
  {
    assert [x, y][1..] == [y];
    assert [y][1..] == [];
  }

  /** In the ring every line has exactly one continuation: the next line of the ring. */
  lemma RingContinuations(k: nat)
    requires k < 3
    ensures ValidTable(RingTable())
    ensures GetNextLines(RingTable(), RingLine(k)) == [RingLine(RingSucc(k))]
  {
    RingTableIsValid();
    var t := RingTable();
    var n := RingLine(k);
    var p := EndCoords(n);
    var m := RingSucc(k);
    if k == 0 {
      assert p == P1 && t.touching(p) == [0, 1];
      FilterPair(0, 1, (i: int) => i != n.index);
    } else if k == 1 {
      assert p == P2 && t.touching(p) == [1, 2];
      FilterPair(1, 2, (i: int) => i != n.index);
    } else {
      assert p == P0 && t.touching(p) == [0, 2];
      FilterPair(0, 2, (i: int) => i != n.index);
    }
    assert NextCandidates(t, n) == [m];
    assert [m][1..] == [];
    assert t.lines[m].first == p;
  }

  /** The ring's lines in order. */
  function RingLines(): (c: seq<NavigationLine>)
    ensures |c| == 3 && forall k :: 0 <= k < 3 ==> c[k] == RingLine(k)
  {
    [RingLine(0), RingLine(1), RingLine(2)]
  }

  /** The ring's lines continue into each other in a cycle. */
  lemma RingIsCycle()
    ensures ValidTable(RingTable()) && ValidPairs(RingTable(), RingLines())
    ensures forall i :: 0 <= i < 3 ==> GetNextLines(RingTable(), RingLines()[i]) == [RingLines()[RingSucc(i)]]
  {
    RingContinuations(0);
    RingContinuations(1);
    RingContinuations(2);
  }

  /**
   * On the ring, the loop as written still holds exactly one continuation
   * after any number of passes, so `while len(next_line_string_end_pairs) >
   * 0` never ends.
   */
  lemma {:induction false} AsWrittenRingNeverEnds(k: nat)
    ensures ValidTable(RingTable())
    ensures AsWrittenAfter(RingTable(), GetNextLines(RingTable(), RingLine(0)), k) == [RingLine(RingSucc(k % 3))]
  {
    RingIsCycle();
    var c := RingLines();
    assert GetNextLines(RingTable(), RingLine(0)) == [c[1]];
    AsWrittenCycleNeverEnds(RingTable(), c, 1, k);
    PhaseIsRemainder(1, k);
    SuccOfRemainder(k);
  }

  lemma SuccOfRemainder(k: nat)
    ensures RingSucc(k % 3) == (1 + k) % 3
  {
    var q := k / 3;
    assert k == 3 * q + k % 3;
    if k % 3 == 2 {
      assert 1 + k == 3 * (q + 1);
    } else {
      assert 1 + k == 3 * q + (k % 3 + 1);
    }
  }

  /** The position in a cycle of three reached from `j` after `k` steps. */
  function Phase(j: nat, k: nat): (p: nat)
    requires j < 3
    ensures p < 3
    decreases k
  {
    if k == 0 then j else Phase(RingSucc(j), k - 1)
  }

  lemma {:induction false} PhaseIsRemainder(j: nat, k: nat)
    requires j < 3
    ensures Phase(j, k) == (j + k) % 3
    decreases k
  {
    if k > 0 {
      PhaseIsRemainder(RingSucc(j), k - 1);
      if j == 2 {
        assert j + k == (k - 1) + 3;
      }
    }
  }

  /** The same for any three lines that continue into each other in a cycle. */
  lemma {:induction false} AsWrittenCycleNeverEnds(t: LineTable, c: seq<NavigationLine>, j: nat, k: nat)
    requires ValidTable(t) && |c| == 3 && j < 3 && ValidPairs(t, c)
    requires forall i :: 0 <= i < 3 ==> GetNextLines(t, c[i]) == [c[RingSucc(i)]]
    ensures AsWrittenAfter(t, [c[j]], k) == [c[Phase(j, k)]]
    decreases k
  {
    if k > 0 {
      AsWrittenCycleNeverEnds(t, c, RingSucc(j), k - 1);
    }
  }

  /**
   * With the repeat check the run from the first ring line consumes the
   * other two and stops where it would enter the first again, so the
   * builder gives the ring one node and one edge of its whole length.
   */
  lemma CorrectedRingRunEnds()
    ensures ValidTable(RingTable())
    ensures RunFrom(RingTable(), RingLine(0)) == Run([RingLine(1), RingLine(2)], [])
  {
    RingContinuations(0);
    RingContinuations(1);
    RingContinuations(2);
    var t := RingTable();
    assert RunOf(t, {RingLine(0), RingLine(1), RingLine(2)}, [RingLine(0)]) == Run([], []);
    assert RunOf(t, {RingLine(0), RingLine(1)}, [RingLine(2)]) == Run([RingLine(2)], []);
    assert RunOf(t, {RingLine(0)}, [RingLine(1)]) == Run([RingLine(1), RingLine(2)], []);
  }
}
