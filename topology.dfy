/**
 * The result records of an extraction pass (`dataclasses.py`): edge labels,
 * the undirected network graph, and the topology bundle with its totals.
 */
module Topology {
  import opened Geometry
  import opened Esdl

  /** `EdgeLabel`: the attributes an edge carries. */
  datatype EdgeLabel = EdgeLabel(length: real, amountOfConnections: int)

  datatype Edge = Edge(u: int, v: int, attrs: EdgeLabel)

  /**
   * An undirected simple graph, as `networkx.Graph`: a node set and the
   * edges in insertion order; at most one edge joins two nodes.
   */
  datatype Graph = Graph(nodes: set<int>, edges: seq<Edge>)

  predicate Joins(e: Edge, a: int, b: int)
  {
    (e.u == a && e.v == b) || (e.u == b && e.v == a)
  }

  /** Position of the edge joining `a` and `b`, or -1 when there is none. */
  function FindEdge(edges: seq<Edge>, a: int, b: int): (k: int)
    ensures -1 <= k < |edges|
    ensures k >= 0 ==> Joins(edges[k], a, b)
    ensures k == -1 ==> forall i :: 0 <= i < |edges| ==> !Joins(edges[i], a, b)
  {
    if edges == [] then -1
    else
      var k := FindEdge(edges[..|edges| - 1], a, b);
      if k >= 0 then k
      else if Joins(edges[|edges| - 1], a, b) then |edges| - 1
      else -1
  }

  function AddNode(g: Graph, n: int): (r: Graph)
    ensures r.nodes == g.nodes + {n} && r.edges == g.edges
  {
    Graph(g.nodes + {n}, g.edges)
  }

  /**
   * `add_edge(a, b, attrs)`: adds both nodes; when `a` and `b` are already
   * joined the existing edge keeps its place and takes the new label,
   * otherwise the edge is appended.
   */
  function AddEdge(g: Graph, a: int, b: int, attrs: EdgeLabel): (r: Graph)
    ensures r.nodes == g.nodes + {a, b}
    ensures FindEdge(g.edges, a, b) == -1 ==> r.edges == g.edges + [Edge(a, b, attrs)]
    ensures FindEdge(g.edges, a, b) >= 0 ==>
      |r.edges| == |g.edges| &&
      Joins(r.edges[FindEdge(g.edges, a, b)], a, b) && r.edges[FindEdge(g.edges, a, b)].attrs == attrs &&
      forall i :: 0 <= i < |g.edges| && i != FindEdge(g.edges, a, b) ==> r.edges[i] == g.edges[i]
    ensures forall i :: 0 <= i < |g.edges| ==> Joins(r.edges[i], g.edges[i].u, g.edges[i].v)
  {
    var k := FindEdge(g.edges, a, b);
    if k == -1 then Graph(g.nodes + {a, b}, g.edges + [Edge(a, b, attrs)])
    else Graph(g.nodes + {a, b}, g.edges[k := Edge(g.edges[k].u, g.edges[k].v, attrs)])
  }

  function SumOfConnections(edges: seq<Edge>): int
  {
    if edges == [] then 0 else SumOfConnections(edges[..|edges| - 1]) + edges[|edges| - 1].attrs.amountOfConnections
  }

  function SumOfLengths(edges: seq<Edge>): real
  {
    if edges == [] then 0.0 else SumOfLengths(edges[..|edges| - 1]) + edges[|edges| - 1].attrs.length
  }

  /**
   * `NetworkTopologyInfo`: the consumed lines, the graph, the starting line
   * and the two totals computed once by the constructor.
   */
  datatype NetworkTopologyInfo = NetworkTopologyInfo(
    networkLines: seq<Line>, networkTopology: Graph, startingLine: NavigationLine,
    amountOfConnections: int, totalLength: real)

  /** The constructor of `NetworkTopologyInfo`. */
  function MakeTopologyInfo(lines: seq<Line>, g: Graph, start: NavigationLine): NetworkTopologyInfo
  {
    NetworkTopologyInfo(lines, g, start, SumOfConnections(g.edges), SumOfLengths(g.edges))
  }

  /**
   * `EsdlNetworkTopology`: a `NetworkTopologyInfo` built by the same
   * constructor, plus the emitted assets, the starting transformer and the
   * starting cable.
   */
  datatype EsdlNetworkTopology = EsdlNetworkTopology(
    info: NetworkTopologyInfo, networkAssets: seq<Asset>, startingTransformer: Asset, startingCable: Asset)

  function MakeEsdlTopology(lines: seq<Line>, g: Graph, start: NavigationLine,
                            assets: seq<Asset>, transformer: Asset, cable: Asset): (t: EsdlNetworkTopology)
    ensures t.info == MakeTopologyInfo(lines, g, start)
    ensures t.networkAssets == assets && t.startingTransformer == transformer && t.startingCable == cable
  {
    EsdlNetworkTopology(MakeTopologyInfo(lines, g, start), assets, transformer, cable)
  }

  /** A topology without edges has both totals 0. */
  lemma EmptyTopologyTotals(lines: seq<Line>, nodes: set<int>, start: NavigationLine)
    ensures MakeTopologyInfo(lines, Graph(nodes, []), start).amountOfConnections == 0
    ensures MakeTopologyInfo(lines, Graph(nodes, []), start).totalLength == 0.0
  {
  }

  /** The totals are sums over the edges: they add up over a split of the edge list. */
  lemma {:induction false} SumsOfConcatenation(a: seq<Edge>, b: seq<Edge>)
    ensures SumOfConnections(a + b) == SumOfConnections(a) + SumOfConnections(b)
    ensures SumOfLengths(a + b) == SumOfLengths(a) + SumOfLengths(b)
    decreases |b|
  {
    if b == [] {
      assert a + b == a;
    } else {
      var b' := b[..|b| - 1];
      assert (a + b)[..|a + b| - 1] == a + b';
      SumsOfConcatenation(a, b');
    }
  }

  /** With non-negative lengths, every edge's length is at most the total length. */
  lemma {:induction false} EdgeLengthAtMostTotal(edges: seq<Edge>, i: int)
    requires 0 <= i < |edges|
    requires forall j :: 0 <= j < |edges| ==> edges[j].attrs.length >= 0.0
    ensures edges[i].attrs.length <= SumOfLengths(edges)
  {
    var n := |edges| - 1;
    SumOfLengthsNonNegative(edges[..n]);
    if i < n {
      EdgeLengthAtMostTotal(edges[..n], i);
    }
  }

  lemma {:induction false} SumOfLengthsNonNegative(edges: seq<Edge>)
    requires forall j :: 0 <= j < |edges| ==> edges[j].attrs.length >= 0.0
    ensures SumOfLengths(edges) >= 0.0
  {
    if edges != [] {
      SumOfLengthsNonNegative(edges[..|edges| - 1]);
    }
  }

  /** Appending an edge to a graph adds its label to both totals. */
  lemma AppendedEdgeTotals(edges: seq<Edge>, e: Edge)
    ensures SumOfConnections(edges + [e]) == SumOfConnections(edges) + e.attrs.amountOfConnections
    ensures SumOfLengths(edges + [e]) == SumOfLengths(edges) + e.attrs.length
  {
    assert (edges + [e])[..|edges|] == edges;
  }
}
