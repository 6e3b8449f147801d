/**
 * A player's road network, src/Game/RoadNetwork.py: a graph whose edges are
 * the player's roads.
 *
 * As written, `addRoad` reads the slot's intersections from an attribute
 * the board's edge record does not have, so every call raises before the
 * network changes (`AddRoadAsWritten`). With the evidently intended lookup
 * (`AddRoad`), each road added brings two new graph nodes (tagged with the
 * board intersections it joins) and one edge between them, so no two roads
 * ever share a graph node, and the longest road in the network is one edge
 * long whatever roads are built.
 */
module RoadNetwork {
  import opened Wrappers
  import G = Graph
  import B = Board

  /** Road k of the network joins graph nodes 2k and 2k+1. */
  ghost predicate Paired(edges: seq<G.Pair>) {
    forall k :: 0 <= k < |edges| ==> edges[k] == G.Pair(2 * k, 2 * k + 1)
  }

  /** The other end of the road through graph node i. */
  function Partner(i: nat): nat {
    if i % 2 == 0 then i + 1 else i - 1
  }

  /** With paired roads the endpoints are exactly the node indices below twice the road count. */
  lemma PairedEndpoints(edges: seq<G.Pair>)
    requires Paired(edges)
    ensures G.Endpoints(edges) == G.Range(2 * |edges|)
    ensures |G.Endpoints(edges)| == 2 * |edges|
    ensures G.WellIndexed(edges)
  {
    var n := |edges|;
    G.RangeMembers(2 * n);
    forall x: nat | x in G.Endpoints(edges) ensures x < 2 * n {
    }
    forall x: nat | x < 2 * n ensures x in G.Endpoints(edges) {
      var k := x / 2;
      assert edges[k] == G.Pair(2 * k, 2 * k + 1);
      if x % 2 == 0 {
        assert x == edges[k].first;
      } else {
        assert x == edges[k].second;
      }
    }
    assert G.Endpoints(edges) == G.Range(2 * n);
    G.RangeCard(2 * n);
  }

  /** With paired roads two graph nodes are joined exactly when each is the other's partner. */
  lemma PairedJoined(edges: seq<G.Pair>, i: nat, j: nat)
    requires Paired(edges)
    ensures G.Joined(edges, i, j) <==> i < 2 * |edges| && j == Partner(i)
  {
    if G.Joined(edges, i, j) {
      var k :| 0 <= k < |edges| && (edges[k] == G.Pair(i, j) || edges[k] == G.Pair(j, i));
      assert edges[k] == G.Pair(2 * k, 2 * k + 1);
    }
    if i < 2 * |edges| && j == Partner(i) {
      var k := i / 2;
      assert edges[k] == G.Pair(2 * k, 2 * k + 1);
    }
  }

  /** A two-step walk in a network of paired roads comes straight back along the same road. */
  lemma TwoStepsTurnBack(m: G.Matrix, edges: seq<G.Pair>, a: G.Pair, b: G.Pair)
    requires Paired(edges) && G.IsMatrixOf(m, edges)
    requires G.InMatrix(m, a) && G.InMatrix(m, b) && a.second == b.first
    ensures b == a.Reversed()
  {
    PairedEndpoints(edges);
    assert m[a.first][a.second] == 1 && m[b.first][b.second] == 1;
    assert G.Joined(edges, a.first, a.second) && G.Joined(edges, b.first, b.second);
    PairedJoined(edges, a.first, a.second);
    PairedJoined(edges, b.first, b.second);
    PartnerInvolutive(a.first);
  }

  lemma PartnerInvolutive(i: nat)
    ensures Partner(Partner(i)) == i
  {
  }

  /** In a network of paired roads every trail has at most one step. */
  lemma TrailsAreSingleRoads(m: G.Matrix, edges: seq<G.Pair>, p: seq<G.Pair>)
    requires Paired(edges) && G.IsMatrixOf(m, edges) && G.IsTrail(m, p)
    ensures |p| <= 1
  {
    if |p| >= 2 {
      TwoStepsTurnBack(m, edges, p[0], p[1]);
      assert false;
    }
  }

  /** The first road, walked from its first node, is a trail of one step. */
  lemma FirstRoadIsTrail(m: G.Matrix, edges: seq<G.Pair>)
    requires Paired(edges) && G.IsMatrixOf(m, edges) && edges != []
    ensures G.IsTrail(m, [G.Pair(0, 1)])
  {
    PairedEndpoints(edges);
    PairedJoined(edges, 0, 1);
  }

  /**
   * The graph holds exactly the roads listed: road k is graph edge k, tagged
   * with its board edge index, between graph nodes 2k and 2k+1, which are
   * tagged with that board edge's two intersections.
   */
  ghost predicate RoadsOk(nodes: seq<G.Node>, edges: seq<G.Edge>, roads: seq<nat>, boardEdges: seq<B.Edge>) {
    && |edges| == |roads|
    && |nodes| == 2 * |roads|
    && forall k :: 0 <= k < |roads| ==>
         && edges[k] == G.Edge(G.Pair(2 * k, 2 * k + 1), map["edge_index" := roads[k]])
         && roads[k] < |boardEdges|
         && nodes[2 * k] == G.Node(map["board_index" := boardEdges[roads[k]].node1])
         && nodes[2 * k + 1] == G.Node(map["board_index" := boardEdges[roads[k]].node2])
  }

  lemma RoadsOkPaired(nodes: seq<G.Node>, edges: seq<G.Edge>, roads: seq<nat>, boardEdges: seq<B.Edge>)
    requires RoadsOk(nodes, edges, roads, boardEdges)
    ensures Paired(G.EdgeNodes(edges))
  {
  }

  /** Adding one road's two nodes and its edge keeps the graph in step with the road list. */
  lemma RoadsOkSnoc(nodes: seq<G.Node>, edges: seq<G.Edge>, roads: seq<nat>, boardEdges: seq<B.Edge>, e: nat)
    requires RoadsOk(nodes, edges, roads, boardEdges) && e < |boardEdges|
    ensures RoadsOk(nodes + [G.Node(map["board_index" := boardEdges[e].node1]), G.Node(map["board_index" := boardEdges[e].node2])],
                    edges + [G.Edge(G.Pair(|nodes|, |nodes| + 1), map["edge_index" := e])],
                    roads + [e], boardEdges)
  {
  }

  // ---------------------------------------------------------------------
  // Looking up a board slot's intersections
  // ---------------------------------------------------------------------

  /** The exceptions `addRoad` can raise before the network changes. */
  datatype RoadError = IndexError | AttributeError

  /** A board slot's two intersections, or the exception raised looking them up. */
  datatype Lookup = Found(node1: nat, node2: nat) | Raised(error: RoadError)

  /** Python list indexing accepts -n <= i < n; a negative index counts from the end. */
  predicate InPythonRange(n: nat, i: int) {
    -(n as int) <= i < n
  }

  /**
   * `self.game_board.edges[edge_index].nodes` as written: indexing the slots
   * comes first and raises `IndexError` out of range; then the attribute
   * `nodes` is read, which the board's edge record does not have (it has
   * `node_1` and `node_2`), so no lookup ever yields intersections.
   */
  function SlotNodesAsWritten(boardEdges: seq<B.Edge>, edgeIndex: int): (r: Lookup)
    ensures r.Raised?
  {
    if InPythonRange(|boardEdges|, edgeIndex) then Raised(AttributeError) else Raised(IndexError)
  }

  /** The evidently intended lookup: the slot's `node_1` and `node_2`, Python indexing included. */
  function SlotNodes(boardEdges: seq<B.Edge>, edgeIndex: int): (r: Lookup)
    ensures r.Found? <==> InPythonRange(|boardEdges|, edgeIndex)
    ensures r.Raised? ==> r.error == IndexError
    ensures 0 <= edgeIndex < |boardEdges| ==> r == Found(boardEdges[edgeIndex].node1, boardEdges[edgeIndex].node2)
  {
    if 0 <= edgeIndex < |boardEdges| then Found(boardEdges[edgeIndex].node1, boardEdges[edgeIndex].node2)
    else if InPythonRange(|boardEdges|, edgeIndex) then
      Found(boardEdges[|boardEdges| + edgeIndex].node1, boardEdges[|boardEdges| + edgeIndex].node2)
    else Raised(IndexError)
  }

  /**
   * The written lookup raises `AttributeError` exactly on the slots where the
   * intended one finds intersections; on the others both raise `IndexError`.
   */
  lemma AsWrittenRaises(boardEdges: seq<B.Edge>, edgeIndex: int)
    ensures SlotNodes(boardEdges, edgeIndex).Found? <==> SlotNodesAsWritten(boardEdges, edgeIndex) == Raised(AttributeError)
    ensures SlotNodes(boardEdges, edgeIndex).Raised? ==> SlotNodesAsWritten(boardEdges, edgeIndex) == SlotNodes(boardEdges, edgeIndex)
  {
  }

  /**
   * The repository's road-network test first adds slot 14 of a new board,
   * which joins intersections 11 and 12: as written that call raises.
   */
  lemma SlotFourteenRaises(boardEdges: seq<B.Edge>, numberOfPlayers: nat)
    requires B.EdgesOk(boardEdges, numberOfPlayers)
    ensures SlotNodes(boardEdges, 14) == Found(11, 12)
    ensures SlotNodesAsWritten(boardEdges, 14) == Raised(AttributeError)
  {
  }

  /** `RoadNetwork(game_board)`: a graph of one player's roads on the given board. */
  class RoadNetwork {
    const gameBoard: B.Board
    const graph: G.Graph
    /** The board edge index of every road, in the order built. */
    ghost var roads: seq<nat>

    ghost predicate Valid()
      reads this`roads, graph, gameBoard
    {
      && graph.Valid()
      && RoadsOk(graph.nodes, graph.edges, roads, gameBoard.edges)
      && G.IsMatrixOf(graph.nodeConnectivity, G.EdgeNodes(graph.edges))
    }

    /** No roads yet: an empty graph. */
    constructor (gameBoard: B.Board)
      ensures Valid() && fresh(graph)
      ensures this.gameBoard == gameBoard && roads == []
    {
      this.gameBoard := gameBoard;
      graph := new G.Graph();
      roads := [];
      new;
      assert G.Endpoints([]) == {};
    }

    /**
     * `addRoad` as written: the slot's intersections are read from an
     * attribute the board's edge record lacks, so every call raises and the
     * network is left as it was.
     */
    method AddRoadAsWritten(edgeIndex: int) returns (error: RoadError)
      requires Valid()
      ensures Raised(error) == SlotNodesAsWritten(gameBoard.edges, edgeIndex)
      ensures error == AttributeError <==> InPythonRange(|gameBoard.edges|, edgeIndex)
    {
      var lookup := SlotNodesAsWritten(gameBoard.edges, edgeIndex);
      error := lookup.error;
    }

    /**
     * `addRoad` with the evidently intended lookup of the slot's `node_1` and
     * `node_2`: two new graph nodes tagged with the board intersections of
     * edge `edgeIndex`, then one graph edge between them tagged with
     * `edgeIndex`. The matrix rebuild always succeeds.
     */
    method AddRoad(edgeIndex: nat)
      requires Valid() && edgeIndex < |gameBoard.edges|
      modifies this`roads, graph
      ensures Valid()
      ensures roads == old(roads) + [edgeIndex]
      ensures graph.nodes == old(graph.nodes) + [G.Node(map["board_index" := gameBoard.edges[edgeIndex].node1]),
                                                 G.Node(map["board_index" := gameBoard.edges[edgeIndex].node2])]
      ensures graph.edges == old(graph.edges) + [G.Edge(G.Pair(2 * |old(roads)|, 2 * |old(roads)| + 1), map["edge_index" := edgeIndex])]
    {
      RoadsOkSnoc(graph.nodes, graph.edges, roads, gameBoard.edges, edgeIndex);
      var edge := gameBoard.edges[edgeIndex];
      var node0, node1 := G.Node(map["board_index" := edge.node1]), G.Node(map["board_index" := edge.node2]);
      assert graph.nodes + [node0] + [node1] == graph.nodes + [node0, node1];
      var index0 := graph.AppendNodeToGraph(map["board_index" := edge.node1]);
      var index1 := graph.AppendNodeToGraph(map["board_index" := edge.node2]);
      var added := graph.AppendEdgeToGraph(G.Pair(index0, index1), map["edge_index" := edgeIndex]);
      roads := roads + [edgeIndex];
      RoadsOkPaired(graph.nodes, graph.edges, roads, gameBoard.edges);
      PairedEndpoints(G.EdgeNodes(graph.edges));
    }

    /** `breakRoadAtNode`: not implemented by the source; nothing changes. */
    method BreakRoadAtNode(nodeIndex: nat)
      requires Valid()
      ensures Valid() && unchanged(this, graph)
    {
    }

    /**
     * `longestContinousPath`, inherited from the graph: with no roads the
     * longest road is empty; otherwise it is exactly one road long.
     */
    method LongestContinuousPath() returns (length: nat, path: seq<G.Pair>)
      requires Valid()
      ensures length == |path| == if roads == [] then 0 else 1
      ensures G.IsTrail(graph.nodeConnectivity, path)
    {
      var paired := G.EdgeNodes(graph.edges);
      RoadsOkPaired(graph.nodes, graph.edges, roads, gameBoard.edges);
      PairedEndpoints(paired);
      var r := graph.LongestContinuousPath();
      length, path := r.value.0, r.value.1;
      TrailsAreSingleRoads(graph.nodeConnectivity, paired, path);
      if roads != [] {
        FirstRoadIsTrail(graph.nodeConnectivity, paired);
        assert G.StartsBelow([G.Pair(0, 1)], |graph.nodes|);
      }
    }
  }
}
