/**
 * The topology matcher (`TopologyAnalyzer`): the edit costs handed to the
 * graph edit distance, the maxima they are normalised by, and the choice of
 * the reference network closest to a generated one. The edit distance
 * itself is a parameter.
 */
module Analyzer {
  import opened Wrappers
  import opened Geometry
  import opened Topology

  datatype AnalyzerError =
    | NoEdges      // `max([])` on a reference network without edges: ValueError
    | NoNetworks   // `networks_to_match_against[0]` on an empty list: IndexError

  // ------------------------------------------------------------ maxima

  /** `_get_max_length_of_network_topology`: the longest edge; `None` for a graph without edges. */
  function MaxEdgeLength(edges: seq<Edge>): (r: Option<real>)
    ensures r.None? <==> edges == []
    ensures r.Some? ==> forall i :: 0 <= i < |edges| ==> edges[i].attrs.length <= r.value
    ensures r.Some? ==> exists i :: 0 <= i < |edges| && edges[i].attrs.length == r.value
  {
    if edges == [] then None
    else
      var init := MaxEdgeLength(edges[..|edges| - 1]);
      var last := edges[|edges| - 1].attrs.length;
      if init.Some? && last <= init.value then
        assert forall i :: 0 <= i < |edges| - 1 ==> edges[..|edges| - 1][i] == edges[i];
        init
      else
        assert forall i :: 0 <= i < |edges| - 1 ==> edges[..|edges| - 1][i] == edges[i];
        Some(last)
  }

  /** `_get_max_amount_of_connections_of_network_topology`: the most connections on an edge; `None` without edges. */
  function MaxEdgeConnections(edges: seq<Edge>): (r: Option<int>)
    ensures r.None? <==> edges == []
    ensures r.Some? ==> forall i :: 0 <= i < |edges| ==> edges[i].attrs.amountOfConnections <= r.value
    ensures r.Some? ==> exists i :: 0 <= i < |edges| && edges[i].attrs.amountOfConnections == r.value
  {
    if edges == [] then None
    else
      var init := MaxEdgeConnections(edges[..|edges| - 1]);
      var last := edges[|edges| - 1].attrs.amountOfConnections;
      if init.Some? && last <= init.value then
        assert forall i :: 0 <= i < |edges| - 1 ==> edges[..|edges| - 1][i] == edges[i];
        init
      else
        assert forall i :: 0 <= i < |edges| - 1 ==> edges[..|edges| - 1][i] == edges[i];
        Some(last)
  }

  predicate HasEdges(n: NetworkTopologyInfo)
  {
    n.networkTopology.edges != []
  }

  /**
   * The running maximum `_get_max_length_of_network_cables` computes: from
   * 0, raised to each network's longest edge; `None` when some network has
   * no edges.
   */
  function LengthCeiling(networks: seq<NetworkTopologyInfo>): (r: Option<real>)
    ensures r.None? <==> exists k :: 0 <= k < |networks| && !HasEdges(networks[k])
    ensures r.Some? ==> 0.0 <= r.value
    ensures r.Some? ==> forall k :: 0 <= k < |networks| ==> MaxEdgeLength(networks[k].networkTopology.edges).value <= r.value
    ensures r.Some? && r.value != 0.0 ==>
      exists k :: 0 <= k < |networks| && MaxEdgeLength(networks[k].networkTopology.edges).value == r.value
  {
    if networks == [] then Some(0.0)
    else
      var init := networks[..|networks| - 1];
      assert forall k :: 0 <= k < |init| ==> init[k] == networks[k];
      var prev := LengthCeiling(init);
      var peak := MaxEdgeLength(networks[|networks| - 1].networkTopology.edges);
      if prev.None? || peak.None? then None
      else if prev.value < peak.value then Some(peak.value)
      else prev
  }

  /** The running maximum `_get_max_amount_of_connections` computes, from 0; `None` when some network has no edges. */
  function ConnectionsCeiling(networks: seq<NetworkTopologyInfo>): (r: Option<int>)
    ensures r.None? <==> exists k :: 0 <= k < |networks| && !HasEdges(networks[k])
    ensures r.Some? ==> 0 <= r.value
    ensures r.Some? ==> forall k :: 0 <= k < |networks| ==> MaxEdgeConnections(networks[k].networkTopology.edges).value <= r.value
    ensures r.Some? && r.value != 0 ==>
      exists k :: 0 <= k < |networks| && MaxEdgeConnections(networks[k].networkTopology.edges).value == r.value
  {
    if networks == [] then Some(0)
    else
      var init := networks[..|networks| - 1];
      assert forall k :: 0 <= k < |init| ==> init[k] == networks[k];
      var prev := ConnectionsCeiling(init);
      var peak := MaxEdgeConnections(networks[|networks| - 1].networkTopology.edges);
      if prev.None? || peak.None? then None
      else if prev.value < peak.value then Some(peak.value)
      else prev
  }

  /** `_get_max_length_of_network_cables`: the loop that raises a running maximum. */
  method GetMaxLengthOfNetworkCables(networks: seq<NetworkTopologyInfo>) returns (r: Option<real>)
    ensures r == LengthCeiling(networks)
  {
    var maxCableLength := 0.0;
    for k := 0 to |networks|
      invariant LengthCeiling(networks[..k]) == Some(maxCableLength)
    {
      assert networks[..k + 1][..k] == networks[..k];
      var newMaxCableLength := MaxEdgeLength(networks[k].networkTopology.edges);
      if newMaxCableLength.None? {
        assert !HasEdges(networks[k]);
        return None;
      }
      if maxCableLength < newMaxCableLength.value {
        maxCableLength := newMaxCableLength.value;
      }
    }
    assert networks[..|networks|] == networks;
    r := Some(maxCableLength);
  }

  /** `_get_max_amount_of_connections`: the loop that raises a running maximum. */
  method GetMaxAmountOfConnections(networks: seq<NetworkTopologyInfo>) returns (r: Option<int>)
    ensures r == ConnectionsCeiling(networks)
  {
    var maxAmountOfConnections := 0;
    for k := 0 to |networks|
      invariant ConnectionsCeiling(networks[..k]) == Some(maxAmountOfConnections)
    {
      assert networks[..k + 1][..k] == networks[..k];
      var newMax := MaxEdgeConnections(networks[k].networkTopology.edges);
      if newMax.None? {
        assert !HasEdges(networks[k]);
        return None;
      }
      if maxAmountOfConnections < newMax.value {
        maxAmountOfConnections := newMax.value;
      }
    }
    assert networks[..|networks|] == networks;
    r := Some(maxAmountOfConnections);
  }

  /** The reference networks and the two maxima the edge costs are normalised by. */
  datatype TopologyAnalyzer = TopologyAnalyzer(
    networksToMatchAgainst: seq<NetworkTopologyInfo>, maxCableLength: real, maxAmountOfConnections: int)

  /** `TopologyAnalyzer.__init__`: both maxima over the reference networks; it fails as `max([])` does. */
  method NewTopologyAnalyzer(networks: seq<NetworkTopologyInfo>) returns (r: Result<TopologyAnalyzer, AnalyzerError>)
    ensures r.Err? <==> exists k :: 0 <= k < |networks| && !HasEdges(networks[k])
    ensures r.Err? ==> r.error == NoEdges
    ensures r.Ok? ==> r.value == TopologyAnalyzer(networks, LengthCeiling(networks).value, ConnectionsCeiling(networks).value)
  {
    var maxCableLength := GetMaxLengthOfNetworkCables(networks);
    if maxCableLength.None? {
      return Err(NoEdges);
    }
    var maxAmountOfConnections := GetMaxAmountOfConnections(networks);
    r := Ok(TopologyAnalyzer(networks, maxCableLength.value, maxAmountOfConnections.value));
  }

  // ------------------------------------------------------- edit costs

  /** Both maxima are positive: the edge costs divide by them. */
  predicate Normalisable(a: TopologyAnalyzer)
  {
    a.maxCableLength > 0.0 && a.maxAmountOfConnections > 0
  }

  /** `node_del_cost` and `node_ins_cost`: nodes are free to add or drop. */
  function NodeCost(): real
  {
    0.0
  }

  /** `edge_del_cost`: the edge's length and connections, each as a fraction of its maximum. */
  function EdgeDelCost(a: TopologyAnalyzer, e: EdgeLabel): real
    requires a.maxCableLength != 0.0 && a.maxAmountOfConnections != 0
  {
    e.length / a.maxCableLength + e.amountOfConnections as real / a.maxAmountOfConnections as real
  }

  /** `edge_ins_cost`: the same sum as deleting the edge. */
  function EdgeInsCost(a: TopologyAnalyzer, e: EdgeLabel): real
    requires a.maxCableLength != 0.0 && a.maxAmountOfConnections != 0
  {
    e.length / a.maxCableLength + e.amountOfConnections as real / a.maxAmountOfConnections as real
  }

  /** An edge no longer and no busier than the maxima costs between 0 and 2 to insert or delete, the same either way. */
  lemma EdgeInsDelCostBounds(a: TopologyAnalyzer, e: EdgeLabel)
    requires Normalisable(a)
    requires 0.0 <= e.length <= a.maxCableLength && 0 <= e.amountOfConnections <= a.maxAmountOfConnections
    ensures EdgeInsCost(a, e) == EdgeDelCost(a, e)
    ensures 0.0 <= EdgeDelCost(a, e) <= 2.0
  {
    var lengthPart := e.length / a.maxCableLength;
    var connectionPart := e.amountOfConnections as real / a.maxAmountOfConnections as real;
    FractionBounds(e.length, a.maxCableLength);
    FractionBounds(e.amountOfConnections as real, a.maxAmountOfConnections as real);
  }

  lemma FractionBounds(x: real, m: real)
    requires 0.0 <= x <= m && 0.0 < m
    ensures 0.0 <= x / m <= 1.0
  {
    assert x / m * m == x;
  }

  function MinReal(x: real, y: real): real
  {
    if x <= y then x else y
  }

  /**
   * `edge_subst_cost`: the relative length difference, plus 1 when either
   * edge has no connections, else plus the relative difference of the
   * connection counts.
   */
  function EdgeSubstCost(e1: EdgeLabel, e2: EdgeLabel): real
    requires MinReal(e1.length, e2.length) != 0.0
  {
    var minConnections := if e1.amountOfConnections <= e2.amountOfConnections then e1.amountOfConnections else e2.amountOfConnections;
    var score := Abs(e2.length - e1.length) / MinReal(e1.length, e2.length);
    if minConnections == 0 then score + 1.0
    else score + Abs((e1.amountOfConnections - e2.amountOfConnections) as real) / minConnections as real
  }

  /** Substituting one edge for another costs what substituting back does. */
  lemma EdgeSubstCostSymmetric(e1: EdgeLabel, e2: EdgeLabel)
    requires MinReal(e1.length, e2.length) != 0.0
    ensures MinReal(e2.length, e1.length) != 0.0
    ensures EdgeSubstCost(e1, e2) == EdgeSubstCost(e2, e1)
  {
    assert MinReal(e1.length, e2.length) == MinReal(e2.length, e1.length);
    assert Abs(e2.length - e1.length) == Abs(e1.length - e2.length);
    assert Abs((e1.amountOfConnections - e2.amountOfConnections) as real) == Abs((e2.amountOfConnections - e1.amountOfConnections) as real);
  }

  /**
   * Between edges of positive length, substitution costs nothing exactly
   * when lengths and connection counts agree and the counts are positive;
   * a count of 0 always costs at least 1.
   */
  lemma EdgeSubstCostZero(e1: EdgeLabel, e2: EdgeLabel)
    requires e1.length > 0.0 && e2.length > 0.0
    requires e1.amountOfConnections >= 0 && e2.amountOfConnections >= 0
    ensures EdgeSubstCost(e1, e2) >= 0.0
    ensures EdgeSubstCost(e1, e2) == 0.0 <==>
      e1.length == e2.length && e1.amountOfConnections == e2.amountOfConnections && e1.amountOfConnections > 0
    ensures e1.amountOfConnections == 0 || e2.amountOfConnections == 0 ==> EdgeSubstCost(e1, e2) >= 1.0
  {
    var m := MinReal(e1.length, e2.length);
    var d := Abs(e2.length - e1.length);
    NonNegativeQuotient(d, m);
    assert d / m == 0.0 <==> d == 0.0 by {
      if d / m == 0.0 {
        assert d == d / m * m;
      }
    }
    var minConnections := if e1.amountOfConnections <= e2.amountOfConnections then e1.amountOfConnections else e2.amountOfConnections;
    if minConnections > 0 {
      var c := Abs((e1.amountOfConnections - e2.amountOfConnections) as real);
      NonNegativeQuotient(c, minConnections as real);
      assert c / minConnections as real == 0.0 <==> c == 0.0 by {
        if c / minConnections as real == 0.0 {
          assert c == c / minConnections as real * minConnections as real;
        }
      }
    }
  }

  lemma NonNegativeQuotient(x: real, m: real)
    requires 0.0 <= x && 0.0 < m
    ensures 0.0 <= x / m
  {
  }

  // ------------------------------------------------------- selection

  /** The sentinel distance before any reference network is scored. */
  const Sentinel: real := 500000000.0

  /** Only reference networks with fewer edges than this are scored. */
  const EdgeCeiling: int := 20

  /**
   * The connection-count term of the score: the plain difference when
   * either total is 0, else the difference relative to the smaller total.
   */
  function ConnectionDistance(toMatch: int, toTest: int): (d: real)
    ensures d >= 0.0
  {
    var plain := Abs((toMatch - toTest) as real);
    if toTest > 0 && toMatch > 0 then
      if toMatch <= toTest then (toTest - toMatch) as real / toMatch as real
      else (toMatch - toTest) as real / toTest as real
    else plain
  }

  /** The connection term is symmetric, and 0 exactly for equal totals. */
  lemma ConnectionDistanceProperties(a: int, b: int)
    ensures ConnectionDistance(a, b) == ConnectionDistance(b, a)
    ensures ConnectionDistance(a, b) == 0.0 <==> a == b
  {
    if a > 0 && b > 0 && a != b {
      var smaller := if a <= b then a else b;
      var larger := if a <= b then b else a;
      var q := (larger - smaller) as real / smaller as real;
      assert ConnectionDistance(a, b) == q;
      assert q * smaller as real == (larger - smaller) as real;
    }
  }

  predicate Scored(n: NetworkTopologyInfo)
  {
    |n.networkTopology.edges| < EdgeCeiling
  }

  /**
   * A reference network's score against the network under test: the edit
   * distance between the two graphs plus the connection-count term.
   */
  function Score(ged: (Graph, Graph) -> real, toTest: NetworkTopologyInfo, candidate: NetworkTopologyInfo): real
  {
    ged(candidate.networkTopology, toTest.networkTopology)
      + ConnectionDistance(candidate.amountOfConnections, toTest.amountOfConnections)
  }

  /** The selection so far: the smallest distance and the position of its network, -1 while none is taken. */
  datatype Choice = Choice(distance: real, index: int)

  /**
   * The loop of `find_best_matching_network` over the first networks: a
   * scored network whose score is at most the current distance is taken,
   * so the chosen one is the last of the lowest, and nothing is taken that
   * does not beat the sentinel or tie with it.
   */
  function Best(ged: (Graph, Graph) -> real, toTest: NetworkTopologyInfo, networks: seq<NetworkTopologyInfo>): (c: Choice)
    ensures -1 <= c.index < |networks|
  {
    if networks == [] then Choice(Sentinel, -1)
    else
      var prev := Best(ged, toTest, networks[..|networks| - 1]);
      var last := networks[|networks| - 1];
      if Scored(last) && Score(ged, toTest, last) <= prev.distance then Choice(Score(ged, toTest, last), |networks| - 1)
      else prev
  }

  /**
   * The selection is the lowest score among the scored networks and never
   * above the sentinel; a taken network is scored, has that score, and no
   * later scored network ties with it; with none taken, every scored
   * network is above the sentinel.
   */
  lemma {:induction false} BestIsLastLowest(ged: (Graph, Graph) -> real, toTest: NetworkTopologyInfo, networks: seq<NetworkTopologyInfo>)
    ensures Best(ged, toTest, networks).distance <= Sentinel
    ensures forall k :: 0 <= k < |networks| && Scored(networks[k]) ==>
      Best(ged, toTest, networks).distance <= Score(ged, toTest, networks[k])
    ensures Best(ged, toTest, networks).index == -1 ==>
      && Best(ged, toTest, networks).distance == Sentinel
      && forall k :: 0 <= k < |networks| && Scored(networks[k]) ==> Score(ged, toTest, networks[k]) > Sentinel
    ensures var c := Best(ged, toTest, networks);
      c.index >= 0 ==>
        && Scored(networks[c.index]) && c.distance == Score(ged, toTest, networks[c.index])
        && forall k :: c.index < k < |networks| && Scored(networks[k]) ==> Score(ged, toTest, networks[k]) > c.distance
  {
    if networks != [] {
      var init := networks[..|networks| - 1];
      assert forall k :: 0 <= k < |init| ==> init[k] == networks[k];
      BestIsLastLowest(ged, toTest, init);
    }
  }

  /**
   * `find_best_matching_network`: scores every reference network with
   * fewer than 20 edges and returns the lowest distance with its network,
   * the later one on ties; with nothing scored, the sentinel with the first
   * network. The edit distance `ged` stands for networkx's
   * `graph_edit_distance` under this analyzer's costs.
   */
  method FindBestMatchingNetwork(a: TopologyAnalyzer, toTest: NetworkTopologyInfo, ged: (Graph, Graph) -> real)
    returns (r: Result<(real, NetworkTopologyInfo), AnalyzerError>)
    ensures a.networksToMatchAgainst == [] ==> r == Err(NoNetworks)
    ensures a.networksToMatchAgainst != [] ==>
      var c := Best(ged, toTest, a.networksToMatchAgainst);
      r == Ok((c.distance, a.networksToMatchAgainst[if c.index < 0 then 0 else c.index]))
  {
    var networks := a.networksToMatchAgainst;
    if |networks| == 0 {
      return Err(NoNetworks);
    }
    var networkWithMinDistance := networks[0];
    var minDistance := Sentinel;
    ghost var chosen := -1;
    var amountOfConnectionsToTest := toTest.amountOfConnections;
    for k := 0 to |networks|
      invariant Best(ged, toTest, networks[..k]) == Choice(minDistance, chosen)
      invariant networkWithMinDistance == networks[if chosen < 0 then 0 else chosen]
    {
      assert networks[..k + 1][..k] == networks[..k];
      var candidate := networks[k];
      if |candidate.networkTopology.edges| < EdgeCeiling {
        var distance := ged(candidate.networkTopology, toTest.networkTopology);
        var amountOfConnectionsToMatch := candidate.amountOfConnections;
        var distanceAmountOfConnections := ConnectionDistance(amountOfConnectionsToMatch, amountOfConnectionsToTest);
        distance := distance + distanceAmountOfConnections;
        if distance <= minDistance {
          minDistance := distance;
          networkWithMinDistance := candidate;
          chosen := k;
        }
      }
    }
    assert networks[..|networks|] == networks;
    r := Ok((minDistance, networkWithMinDistance));
  }

  /** With no reference network under the edge ceiling, the sentinel and the first network are returned. */
  lemma {:induction false} NothingScoredGivesSentinel(ged: (Graph, Graph) -> real, toTest: NetworkTopologyInfo, networks: seq<NetworkTopologyInfo>)
    requires forall k :: 0 <= k < |networks| ==> !Scored(networks[k])
    ensures Best(ged, toTest, networks) == Choice(Sentinel, -1)
  {
    BestIsLastLowest(ged, toTest, networks);
  }
}
