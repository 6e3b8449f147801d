/**
 * The generic graph of src/Game/Graph.py: nodes and edges carrying payload
 * dictionaries, the 0/1 connectivity matrix derived from the edge list, and
 * the exhaustive search for the longest trail (a walk that never uses the
 * same unordered edge twice).
 */
module Graph {
  import opened Wrappers

  /** A two-element list `[a, b]` of node indices: the nodes an edge joins,
      or one traversal step of a path, from `first` to `second`. */
  datatype Pair = Pair(first: nat, second: nat) {
    /** `pair[::-1]` */
    function Reversed(): Pair { Pair(second, first) }
  }

  /** A node or edge payload dictionary. */
  type Variables = map<string, int>

  datatype Node = Node(variables: Variables)

  datatype Edge = Edge(nodes: Pair, variables: Variables)

  type Matrix = seq<seq<int>>

  // ---------------------------------------------------------------------
  // Specification of the connectivity matrix
  // ---------------------------------------------------------------------

  /** Every node index that appears in the edge list. */
  ghost function Endpoints(edges: seq<Pair>): set<nat> {
    (set k | 0 <= k < |edges| :: edges[k].first) + (set k | 0 <= k < |edges| :: edges[k].second)
  }

  /** Some edge joins `i` and `j`, in either orientation. */
  ghost predicate Joined(edges: seq<Pair>, i: nat, j: nat) {
    exists k :: 0 <= k < |edges| && (edges[k] == Pair(i, j) || edges[k] == Pair(j, i))
  }

  /** Every endpoint can index a matrix whose side is the number of distinct endpoints. */
  ghost predicate WellIndexed(edges: seq<Pair>) {
    forall k :: 0 <= k < |edges| ==> edges[k].first < |Endpoints(edges)| && edges[k].second < |Endpoints(edges)|
  }

  /** `m` is square, with one row per distinct endpoint, and holds 1 exactly where an edge joins. */
  ghost predicate IsMatrixOf(m: Matrix, edges: seq<Pair>) {
    && |m| == |Endpoints(edges)|
    && (forall i :: 0 <= i < |m| ==> |m[i]| == |m|)
    && (forall i, j :: 0 <= i < |m| && 0 <= j < |m| ==> m[i][j] == if Joined(edges, i, j) then 1 else 0)
  }

  /** The shape the path search relies on: square, 0/1 and symmetric. */
  ghost predicate IsConnectivity(m: Matrix) {
    && (forall i :: 0 <= i < |m| ==> |m[i]| == |m|)
    && (forall i, j :: 0 <= i < |m| && 0 <= j < |m| ==> m[i][j] == m[j][i])
    && (forall i, j :: 0 <= i < |m| && 0 <= j < |m| ==> m[i][j] == 0 || m[i][j] == 1)
  }

  ghost predicate Distinct(s: seq<nat>) {
    forall i, j :: 0 <= i < j < |s| ==> s[i] != s[j]
  }

  /** The node indices 0 .. n-1. */
  ghost function Range(n: nat): set<nat> {
    if n == 0 then {} else Range(n - 1) + {n - 1}
  }

  lemma {:induction false} RangeMembers(n: nat)
    ensures forall x: nat :: x in Range(n) <==> x < n
  {
    if n > 0 {
      RangeMembers(n - 1);
    }
  }

  ghost function Elements(s: seq<nat>): set<nat> {
    set x | x in s
  }

  lemma {:induction false} DistinctCard(s: seq<nat>)
    requires Distinct(s)
    ensures |Elements(s)| == |s|
  {
    if s == [] {
      assert Elements(s) == {};
    } else {
      var t := s[..|s| - 1];
      assert s == t + [s[|s| - 1]];
      assert Distinct(t);
      DistinctCard(t);
      assert Elements(s) == Elements(t) + {s[|s| - 1]};
      assert s[|s| - 1] !in Elements(t);
    }
  }

  lemma {:induction false} RangeCard(n: nat)
    ensures |Range(n)| == n
  {
    if n > 0 {
      RangeCard(n - 1);
      RangeMembers(n - 1);
      assert n - 1 !in Range(n - 1);
    }
  }

  lemma EndpointsStep(edges: seq<Pair>, k: nat)
    requires k < |edges|
    ensures Endpoints(edges[..k + 1]) == Endpoints(edges[..k]) + {edges[k].first, edges[k].second}
  {
    var a, b := edges[..k + 1], edges[..k];
    forall x | x in Endpoints(a) ensures x in Endpoints(b) + {edges[k].first, edges[k].second} {
      var i :| 0 <= i < |a| && (a[i].first == x || a[i].second == x);
      if i < k { assert b[i] == a[i]; }
    }
    forall x | x in Endpoints(b) ensures x in Endpoints(a) {
      var i :| 0 <= i < |b| && (b[i].first == x || b[i].second == x);
      assert a[i] == b[i];
    }
  }

  lemma JoinedStep(edges: seq<Pair>, k: nat)
    requires k < |edges|
    ensures forall i: nat, j: nat :: Joined(edges[..k + 1], i, j) <==>
              Joined(edges[..k], i, j) || Pair(i, j) == edges[k] || Pair(j, i) == edges[k]
  {
    forall i: nat, j: nat
      ensures Joined(edges[..k + 1], i, j) <==> Joined(edges[..k], i, j) || Pair(i, j) == edges[k] || Pair(j, i) == edges[k]
    {
      if Joined(edges[..k + 1], i, j) {
        var x :| 0 <= x < k + 1 && (edges[..k + 1][x] == Pair(i, j) || edges[..k + 1][x] == Pair(j, i));
        if x < k { assert edges[..k][x] == edges[..k + 1][x]; }
      }
      if Joined(edges[..k], i, j) {
        var x :| 0 <= x < k && (edges[..k][x] == Pair(i, j) || edges[..k][x] == Pair(j, i));
        assert edges[..k + 1][x] == edges[..k][x];
      }
      if Pair(i, j) == edges[k] || Pair(j, i) == edges[k] {
        assert edges[..k + 1][k] == edges[k];
      }
    }
  }

  /** Writing [a][b] and [b][a] for edge k extends the matrix from the first k edges to the first k+1. */
  lemma MarkStep(before: Matrix, after: Matrix, edges: seq<Pair>, k: nat)
    requires k < |edges|
    requires edges[k].first < |before| && edges[k].second < |before|
    requires forall i :: 0 <= i < |before| ==> |before[i]| == |before|
    requires forall i, j :: 0 <= i < |before| && 0 <= j < |before| ==>
               before[i][j] == if Joined(edges[..k], i, j) then 1 else 0
    requires after == (var b1 := before[edges[k].first := before[edges[k].first][edges[k].second := 1]];
                       b1[edges[k].second := b1[edges[k].second][edges[k].first := 1]])
    ensures |after| == |before| && forall i :: 0 <= i < |after| ==> |after[i]| == |after|
    ensures forall i, j :: 0 <= i < |after| && 0 <= j < |after| ==>
              after[i][j] == if Joined(edges[..k + 1], i, j) then 1 else 0
  {
    JoinedStep(edges, k);
  }

  lemma JoinedMatrixIsConnectivity(m: Matrix, edges: seq<Pair>)
    requires forall i :: 0 <= i < |m| ==> |m[i]| == |m|
    requires forall i, j :: 0 <= i < |m| && 0 <= j < |m| ==> m[i][j] == if Joined(edges, i, j) then 1 else 0
    ensures IsConnectivity(m)
  {
    forall i, j | 0 <= i < |m| && 0 <= j < |m| ensures m[i][j] == m[j][i] {
      if Joined(edges, i, j) {
        var x :| 0 <= x < |edges| && (edges[x] == Pair(i, j) || edges[x] == Pair(j, i));
        assert Joined(edges, j, i);
      }
    }
  }

  /**
   * The matrix is well defined exactly when the endpoints are the indices
   * 0 .. k-1 with no gap, k being the number of distinct endpoints.
   */
  lemma WellIndexedIsDenseRange(edges: seq<Pair>)
    ensures WellIndexed(edges) <==> Endpoints(edges) == Range(|Endpoints(edges)|)
  {
    var e := Endpoints(edges);
    var n := |e|;
    RangeMembers(n);
    if WellIndexed(edges) {
      assert e <= Range(n) by {
        forall x | x in e ensures x in Range(n) {
          var k :| 0 <= k < |edges| && (edges[k].first == x || edges[k].second == x);
        }
      }
      RangeCard(n);
      assert |Range(n) - e| == |Range(n)| - |e|;
      assert Range(n) - e == {};
    } else {
      var k :| 0 <= k < |edges| && !(edges[k].first < n && edges[k].second < n);
      if edges[k].first >= n {
        assert edges[k].first in e && edges[k].first !in Range(n);
      } else {
        assert edges[k].second in e && edges[k].second !in Range(n);
      }
    }
  }

  /**
   * `constructNodeConnectivityMatrix`: collects the distinct endpoints, builds
   * a square zero matrix of that side and sets both [a][b] and [b][a] for
   * every edge. Python raises IndexError when an endpoint does not fit the
   * matrix: that is the `None` result.
   */
  method ConstructNodeConnectivityMatrix(edges: seq<Pair>) returns (r: Option<Matrix>)
    ensures r.Some? <==> WellIndexed(edges)
    ensures r.Some? ==> IsMatrixOf(r.value, edges) && IsConnectivity(r.value)
  {
    // The distinct endpoints, in first-seen order, give the matrix size.
    var nodes := CollectNodes(edges);
    DistinctCard(nodes);
    var n := |nodes|;
    // An n-by-n matrix of zeros.
    var matrix := ZeroMatrix(n);
    // Mark both orientations of every edge.
    r := MarkEdges(edges, matrix);
  }

  /** The distinct endpoints of `edges`, in order of first appearance. */
  method CollectNodes(edges: seq<Pair>) returns (nodes: seq<nat>)
    ensures Distinct(nodes)
    ensures Elements(nodes) == Endpoints(edges)
  {
    nodes := [];
    var k := 0;
    while k < |edges|
      invariant 0 <= k <= |edges|
      invariant Distinct(nodes)
      invariant Elements(nodes) == Endpoints(edges[..k])
    {
      EndpointsStep(edges, k);
      var edge := edges[k];
      if edge.first !in nodes {
        nodes := nodes + [edge.first];
      }
      if edge.second !in nodes {
        nodes := nodes + [edge.second];
      }
      k := k + 1;
    }
    assert edges[..k] == edges;
  }

  /** An n by n matrix of zeros. */
  method ZeroMatrix(n: nat) returns (matrix: Matrix)
    ensures |matrix| == n && forall i :: 0 <= i < n ==> matrix[i] == Zeros(n)
  {
    matrix := [];
    var row := 0;
    while row < n
      invariant 0 <= row <= n && |matrix| == row
      invariant forall i :: 0 <= i < row ==> matrix[i] == Zeros(n)
    {
      matrix := matrix + [Zeros(n)];
      row := row + 1;
    }
  }

  /**
   * Sets [a][b] and [b][a] of a zero matrix for every edge; `None` as soon as
   * an endpoint falls outside the matrix.
   */
  method MarkEdges(edges: seq<Pair>, zero: Matrix) returns (r: Option<Matrix>)
    requires forall i :: 0 <= i < |zero| ==> zero[i] == Zeros(|zero|)
    requires |zero| == |Endpoints(edges)|
    ensures r.Some? <==> WellIndexed(edges)
    ensures r.Some? ==> IsMatrixOf(r.value, edges) && IsConnectivity(r.value)
  {
    var n := |zero|;
    var matrix := zero;
    var k := 0;
    while k < |edges|
      invariant 0 <= k <= |edges|
      invariant |matrix| == n && forall i :: 0 <= i < n ==> |matrix[i]| == n
      invariant forall i :: 0 <= i < k ==> edges[i].first < n && edges[i].second < n
      invariant forall i, j :: 0 <= i < n && 0 <= j < n ==> matrix[i][j] == if Joined(edges[..k], i, j) then 1 else 0
    {
      var edge := edges[k];
      if edge.first >= n || edge.second >= n {
        assert !WellIndexed(edges);
        return None;
      }
      ghost var before := matrix;
      matrix := matrix[edge.first := matrix[edge.first][edge.second := 1]];
      matrix := matrix[edge.second := matrix[edge.second][edge.first := 1]];
      MarkStep(before, matrix, edges, k);
      k := k + 1;
    }
    assert edges[..k] == edges;
    JoinedMatrixIsConnectivity(matrix, edges);
    r := Some(matrix);
  }

  // ---------------------------------------------------------------------
  // Trails and the longest-path search
  // ---------------------------------------------------------------------

  /** The step runs along a 1 of the matrix. */
  ghost predicate InMatrix(m: Matrix, e: Pair) {
    e.first < |m| && e.second < |m[e.first]| && m[e.first][e.second] == 1
  }

  /** Two steps use the same unordered edge. */
  predicate SameEdge(a: Pair, b: Pair) {
    a == b || a == b.Reversed()
  }

  /** `edge in visited_edges or edge[::-1] in visited_edges` */
  predicate Used(visited: seq<Pair>, e: Pair) {
    e in visited || e.Reversed() in visited
  }

  /** A walk along the matrix whose steps chain and never reuse an unordered edge. */
  ghost predicate IsTrail(m: Matrix, p: seq<Pair>) {
    && (forall i :: 0 <= i < |p| ==> InMatrix(m, p[i]))
    && (forall i :: 0 <= i < |p| - 1 ==> p[i].second == p[i + 1].first)
    && (forall i, j :: 0 <= i < j < |p| ==> !SameEdge(p[i], p[j]))
  }

  /** The ordered pairs of indices below n that the walk has not traversed. */
  ghost function Unvisited(n: nat, visited: seq<Pair>): set<Pair> {
    set i: nat, j: nat | i < n && j < n && Pair(i, j) !in visited :: Pair(i, j)
  }

  lemma UnvisitedShrinks(n: nat, visited: seq<Pair>, e: Pair)
    requires e.first < n && e.second < n && e !in visited
    ensures Unvisited(n, visited + [e]) < Unvisited(n, visited)
  {
    assert e in Unvisited(n, visited);
    assert e !in Unvisited(n, visited + [e]);
  }

  /** Appending a fresh matrix step at the walk's end keeps it a trail. */
  lemma TrailSnoc(m: Matrix, visited: seq<Pair>, e: Pair)
    requires IsTrail(m, visited) && InMatrix(m, e) && !Used(visited, e)
    requires visited != [] ==> visited[|visited| - 1].second == e.first
    ensures IsTrail(m, visited + [e])
  {
    var p := visited + [e];
    forall i, j | 0 <= i < j < |p| ensures !SameEdge(p[i], p[j]) {
      if j == |visited| {
        assert p[i] == visited[i];
        assert p[i] != e && p[i] != e.Reversed();
      }
    }
  }

  /** The first step of a trail's extension is a fresh matrix step that chains. */
  lemma TrailHead(m: Matrix, visited: seq<Pair>, t: seq<Pair>)
    requires IsTrail(m, visited + t) && t != []
    ensures InMatrix(m, t[0]) && !Used(visited, t[0])
    ensures visited != [] ==> visited[|visited| - 1].second == t[0].first
  {
    var p := visited + t;
    assert p[|visited|] == t[0];
    forall i | 0 <= i < |visited| ensures visited[i] != t[0] && visited[i] != t[0].Reversed() {
      assert p[i] == visited[i];
      assert !SameEdge(p[i], p[|visited|]);
    }
    if visited != [] {
      assert p[|visited| - 1] == visited[|visited| - 1];
    }
  }

  lemma TrailPrefix(m: Matrix, p: seq<Pair>, k: nat)
    requires IsTrail(m, p) && k <= |p|
    ensures IsTrail(m, p[..k])
  {
  }

  /**
   * `_recursivePathLength`: lists the matrix neighbours of `currentNode` as
   * steps `[currentNode, index]`, then walks every step not used yet and, on
   * meeting a used one (at the latest the step just taken, seen backwards),
   * records the walk so far when it is strictly longer than the best.
   * The result is a trail, never shorter than the best passed in, replaced
   * only by a strictly longer walk that starts with `visited`, and at least as
   * long as every trail that extends `visited` from `currentNode`.
   */
  method RecursivePathLength(m: Matrix, currentNode: nat, visited: seq<Pair>, currentLongestPath: seq<Pair>)
    returns (r: seq<Pair>)
    requires IsConnectivity(m) && currentNode < |m|
    requires IsTrail(m, visited) && (visited != [] ==> visited[|visited| - 1].second == currentNode)
    requires IsTrail(m, currentLongestPath)
    ensures IsTrail(m, r)
    ensures |currentLongestPath| <= |r|
    ensures r != currentLongestPath ==> |currentLongestPath| < |r| && visited <= r
    ensures r != currentLongestPath && visited == [] ==> |r| > 0 && r[0].first == currentNode
    ensures forall t: seq<Pair> :: IsTrail(m, visited + t) && (t != [] ==> t[0].first == currentNode) ==> |visited + t| <= |r|
    decreases Unvisited(|m|, visited)
  {
    // The matrix steps leaving the current node.
    var connectedEdges := ConnectedEdges(m, currentNode);

    // Extend the walk along each step not yet used.
    r := currentLongestPath;
    var k := 0;
    while k < |connectedEdges|
      invariant k <= |connectedEdges|
      invariant IsTrail(m, r)
      invariant |currentLongestPath| <= |r|
      invariant r != currentLongestPath ==> |currentLongestPath| < |r| && visited <= r
      invariant r != currentLongestPath && visited == [] ==> |r| > 0 && r[0].first == currentNode
      invariant forall t: seq<Pair> :: IsTrail(m, visited + t) && t != [] && t[0] in connectedEdges[..k] ==> |visited + t| <= |r|
      invariant visited != [] && visited[|visited| - 1].Reversed() in connectedEdges[..k] ==> |visited| <= |r|
    {
      var edge := connectedEdges[k];
      assert connectedEdges[..k + 1] == connectedEdges[..k] + [edge];
      if !Used(visited, edge) {
        TrailSnoc(m, visited, edge);
        UnvisitedShrinks(|m|, visited, edge);
        var longer := RecursivePathLength(m, edge.second, visited + [edge], r);
        ExtensionBound(m, visited, edge, longer);
        if visited != [] {
          assert visited[|visited| - 1] in visited;
        }
        r := longer;
      } else {
        NoExtensionThrough(m, visited, edge);
        if |visited| > |r| {
          r := visited;
        }
      }
      k := k + 1;
    }
    CoverAllExtensions(m, currentNode, visited, connectedEdges, r);
  }

  /** The steps `[currentNode, index]` along every 1 in the row of `currentNode`. */
  method ConnectedEdges(m: Matrix, currentNode: nat) returns (connectedEdges: seq<Pair>)
    requires currentNode < |m|
    ensures forall k :: 0 <= k < |connectedEdges| ==>
              connectedEdges[k].first == currentNode && InMatrix(m, connectedEdges[k])
    ensures forall j :: 0 <= j < |m[currentNode]| && m[currentNode][j] == 1 ==> Pair(currentNode, j) in connectedEdges
  {
    var connectedNodes := m[currentNode];
    connectedEdges := [];
    var index := 0;
    while index < |connectedNodes|
      invariant index <= |connectedNodes|
      invariant forall k :: 0 <= k < |connectedEdges| ==>
                  connectedEdges[k].first == currentNode && InMatrix(m, connectedEdges[k])
      invariant forall j :: 0 <= j < index && connectedNodes[j] == 1 ==> Pair(currentNode, j) in connectedEdges
    {
      if connectedNodes[index] == 1 {
        connectedEdges := connectedEdges + [Pair(currentNode, index)];
      }
      index := index + 1;
    }
  }

  /** What the recursive call on `visited + [edge]` promises, restated for extensions of `visited`. */
  lemma ExtensionBound(m: Matrix, visited: seq<Pair>, edge: Pair, r: seq<Pair>)
    requires forall t: seq<Pair> :: IsTrail(m, (visited + [edge]) + t) && (t != [] ==> t[0].first == edge.second) ==>
               |(visited + [edge]) + t| <= |r|
    ensures forall t: seq<Pair> :: IsTrail(m, visited + t) && t != [] && t[0] == edge ==> |visited + t| <= |r|
  {
    forall t: seq<Pair> | IsTrail(m, visited + t) && t != [] && t[0] == edge ensures |visited + t| <= |r| {
      var rest := t[1..];
      assert (visited + [edge]) + rest == visited + t;
      if rest != [] {
        assert (visited + t)[|visited|] == edge;
        assert (visited + t)[|visited| + 1] == rest[0];
      }
    }
  }

  /** A step already used cannot start an extension of `visited`. */
  lemma NoExtensionThrough(m: Matrix, visited: seq<Pair>, edge: Pair)
    requires Used(visited, edge)
    ensures forall t: seq<Pair> :: IsTrail(m, visited + t) && t != [] ==> t[0] != edge
  {
    forall t: seq<Pair> | IsTrail(m, visited + t) && t != [] ensures t[0] != edge {
      TrailHead(m, visited, t);
    }
  }

  /** Every extension of `visited` from `currentNode` starts with a listed neighbour step. */
  lemma CoverAllExtensions(m: Matrix, currentNode: nat, visited: seq<Pair>, connectedEdges: seq<Pair>, r: seq<Pair>)
    requires IsConnectivity(m) && currentNode < |m|
    requires IsTrail(m, visited) && (visited != [] ==> visited[|visited| - 1].second == currentNode)
    requires forall j :: 0 <= j < |m| && m[currentNode][j] == 1 ==> Pair(currentNode, j) in connectedEdges
    requires forall t: seq<Pair> :: IsTrail(m, visited + t) && t != [] && t[0] in connectedEdges ==> |visited + t| <= |r|
    requires visited != [] && visited[|visited| - 1].Reversed() in connectedEdges ==> |visited| <= |r|
    ensures forall t: seq<Pair> :: IsTrail(m, visited + t) && (t != [] ==> t[0].first == currentNode) ==> |visited + t| <= |r|
  {
    forall t: seq<Pair> | IsTrail(m, visited + t) && (t != [] ==> t[0].first == currentNode)
      ensures |visited + t| <= |r|
    {
      if t == [] {
        assert visited + t == visited;
        if visited != [] {
          var last := visited[|visited| - 1];
          assert InMatrix(m, last);
          assert m[currentNode][last.first] == 1;
          assert last.Reversed() == Pair(currentNode, last.first);
        }
      } else {
        TrailHead(m, visited, t);
        assert t[0] == Pair(currentNode, t[0].second);
      }
    }
  }

  // ---------------------------------------------------------------------
  // The triangle
  // ---------------------------------------------------------------------

  /** Three nodes, pairwise joined. */
  const Triangle: seq<Pair> := [Pair(0, 1), Pair(1, 2), Pair(0, 2)]

  /** The triangle's endpoints are 0, 1 and 2. */
  lemma TriangleEndpoints()
    ensures Endpoints(Triangle) == {0, 1, 2}
  {
    var firsts := set k | 0 <= k < |Triangle| :: Triangle[k].first;
    var seconds := set k | 0 <= k < |Triangle| :: Triangle[k].second;
    assert Triangle[0].first == 0 && Triangle[1].first == 1 && Triangle[0].second == 1 && Triangle[1].second == 2;
    assert firsts == {0, 1} by {
      forall x | x in firsts ensures x in {0, 1} {
        var k :| 0 <= k < 3 && Triangle[k].first == x;
      }
    }
    assert seconds == {1, 2} by {
      forall x | x in seconds ensures x in {1, 2} {
        var k :| 0 <= k < 3 && Triangle[k].second == x;
      }
    }
  }

  /** So its matrix exists, three by three. */
  lemma TriangleWellIndexed()
    ensures WellIndexed(Triangle) && |Endpoints(Triangle)| == 3
  {
    TriangleEndpoints();
  }

  /** Every matrix step of the triangle joins two different nodes below 3. */
  lemma TriangleStep(m: Matrix, e: Pair)
    requires IsMatrixOf(m, Triangle) && InMatrix(m, e)
    ensures e.first < 3 && e.second < 3 && e.first != e.second
  {
    TriangleEndpoints();
    assert Joined(Triangle, e.first, e.second);
  }

  /** A step between different nodes below 3 is named by the node it misses: equal names mean the same edge. */
  lemma MissingNode(a: Pair, b: Pair)
    requires a.first < 3 && a.second < 3 && a.first != a.second
    requires b.first < 3 && b.second < 3 && b.first != b.second
    ensures 0 <= 3 - a.first - a.second <= 2
    ensures 3 - a.first - a.second == 3 - b.first - b.second ==> SameEdge(a, b)
  {
  }

  /** Four steps between different nodes below 3 cannot all use different unordered edges. */
  lemma FourStepsRepeat(a: Pair, b: Pair, c: Pair, d: Pair)
    requires a.first < 3 && a.second < 3 && a.first != a.second
    requires b.first < 3 && b.second < 3 && b.first != b.second
    requires c.first < 3 && c.second < 3 && c.first != c.second
    requires d.first < 3 && d.second < 3 && d.first != d.second
    ensures SameEdge(a, b) || SameEdge(a, c) || SameEdge(a, d) || SameEdge(b, c) || SameEdge(b, d) || SameEdge(c, d)
  {
    MissingNode(a, b);
    MissingNode(a, c);
    MissingNode(a, d);
    MissingNode(b, c);
    MissingNode(b, d);
    MissingNode(c, d);
  }

  /**
   * On the triangle's matrix the longest trail goes once round: three steps
   * from node 0 form a trail, and no trail is longer, because a trail never
   * repeats one of the three unordered edges.
   */
  lemma TriangleTrails(m: Matrix)
    requires IsMatrixOf(m, Triangle)
    ensures IsTrail(m, [Pair(0, 1), Pair(1, 2), Pair(2, 0)])
    ensures forall p: seq<Pair> :: IsTrail(m, p) ==> |p| <= 3
  {
    TriangleEndpoints();
    assert Triangle[0] == Pair(0, 1) && Triangle[1] == Pair(1, 2) && Triangle[2] == Pair(0, 2);
    assert Joined(Triangle, 0, 1) && Joined(Triangle, 1, 2) && Joined(Triangle, 2, 0);
    forall p: seq<Pair> | IsTrail(m, p) ensures |p| <= 3 {
      if |p| > 3 {
        TriangleStep(m, p[0]);
        TriangleStep(m, p[1]);
        TriangleStep(m, p[2]);
        TriangleStep(m, p[3]);
        FourStepsRepeat(p[0], p[1], p[2], p[3]);
        assert false;
      }
    }
  }

  // ---------------------------------------------------------------------
  // The graph object
  // ---------------------------------------------------------------------

  /** The node pair of every edge, in edge order. */
  function EdgeNodes(edges: seq<Edge>): seq<Pair> {
    seq(|edges|, k requires 0 <= k < |edges| => edges[k].nodes)
  }

  /** Trails whose first step leaves one of the first `count` nodes. */
  ghost predicate StartsBelow(p: seq<Pair>, count: nat) {
    p != [] && p[0].first < count
  }

  /** The best walk from `start` together with the bound below `start` bounds every walk starting below `start + 1`. */
  lemma NextStartBound(m: Matrix, start: nat, bound: nat, best: seq<Pair>)
    requires forall p: seq<Pair> :: IsTrail(m, p) && StartsBelow(p, start) ==> |p| <= bound
    requires forall t: seq<Pair> :: IsTrail(m, [] + t) && (t != [] ==> t[0].first == start) ==> |[] + t| <= |best|
    ensures forall p: seq<Pair> :: IsTrail(m, p) && StartsBelow(p, start + 1) ==> |p| <= bound || |p| <= |best|
  {
    forall p: seq<Pair> | IsTrail(m, p) && StartsBelow(p, start + 1) ensures |p| <= bound || |p| <= |best| {
      assert [] + p == p;
    }
  }

  class Graph {
    var nodes: seq<Node>
    var edges: seq<Edge>
    var nodeConnectivity: Matrix

    ghost predicate Valid()
      reads this
    {
      IsConnectivity(nodeConnectivity)
    }

    /**
     * `Graph()`: no nodes, no edges and the matrix built from the empty edge
     * list. Each graph gets its own fresh lists.
     */
    constructor ()
      ensures Valid()
      ensures nodes == [] && edges == [] && nodeConnectivity == []
    {
      nodes := [];
      edges := [];
      var m := ConstructNodeConnectivityMatrix([]);
      assert WellIndexed([]);
      assert Endpoints([]) == {};
      nodeConnectivity := m.value;
    }

    /** Appends one node; its index is the old node count. Edges and matrix are untouched. */
    method AppendNodeToGraph(variables: Variables) returns (index: nat)
      modifies this
      ensures index == |old(nodes)|
      ensures nodes == old(nodes) + [Node(variables)]
      ensures edges == old(edges) && nodeConnectivity == old(nodeConnectivity)
    {
      index := |nodes|;
      nodes := nodes + [Node(variables)];
    }

    /**
     * Appends one edge and rebuilds the matrix from the full edge list. The
     * edge is appended before the rebuild, so when the rebuild raises
     * (`None`) the edge stays and the old matrix is kept.
     */
    method AppendEdgeToGraph(ends: Pair, variables: Variables) returns (index: Option<nat>)
      requires Valid()
      modifies this
      ensures Valid()
      ensures nodes == old(nodes)
      ensures edges == old(edges) + [Edge(ends, variables)]
      ensures index.Some? <==> WellIndexed(EdgeNodes(edges))
      ensures index.Some? ==> index.value == |old(edges)| && IsMatrixOf(nodeConnectivity, EdgeNodes(edges))
      ensures index.None? ==> nodeConnectivity == old(nodeConnectivity)
    {
      var i := |edges|;
      edges := edges + [Edge(ends, variables)];
      var list := ListEdgeNodeIndices();
      var m := ConstructNodeConnectivityMatrix(list);
      if m.None? {
        return None;
      }
      nodeConnectivity := m.value;
      index := Some(i);
    }

    /** `listEdgeNodeIndices`: the node pair of each edge, in edge order. */
    method ListEdgeNodeIndices() returns (edgeNodeList: seq<Pair>)
      ensures |edgeNodeList| == |edges|
      ensures forall k :: 0 <= k < |edges| ==> edgeNodeList[k] == edges[k].nodes
      ensures edgeNodeList == EdgeNodes(edges)
    {
      edgeNodeList := [];
      var k := 0;
      while k < |edges|
        invariant k <= |edges| && |edgeNodeList| == k
        invariant forall j :: 0 <= j < k ==> edgeNodeList[j] == edges[j].nodes
      {
        edgeNodeList := edgeNodeList + [edges[k].nodes];
        k := k + 1;
      }
    }

    /**
     * `longestContinousPath`: runs the search from every node index below
     * the node count and keeps the first strictly longest result, so no
     * trail from an earlier start node is as long as the one returned. Python
     * raises IndexError when a node has no matrix row (`None`). The length
     * is the returned trail's length and is the longest of all trails that
     * start at a node of the graph.
     */
    method LongestContinuousPath() returns (r: Option<(nat, seq<Pair>)>)
      requires Valid()
      ensures r.None? <==> |nodes| > |nodeConnectivity|
      ensures r.Some? ==> r.value.0 == |r.value.1| && IsTrail(nodeConnectivity, r.value.1)
      ensures r.Some? && r.value.1 != [] ==> StartsBelow(r.value.1, |nodes|)
      ensures r.Some? ==> forall p: seq<Pair> :: IsTrail(nodeConnectivity, p) && StartsBelow(p, |nodes|) ==> |p| <= r.value.0
      ensures r.Some? && r.value.1 != [] ==>
                forall p: seq<Pair> :: IsTrail(nodeConnectivity, p) && StartsBelow(p, r.value.1[0].first) ==> |p| < r.value.0
      ensures |nodes| == 0 ==> r == Some((0, []))
    {
      var m := nodeConnectivity;
      var maxLength := 0;
      var maxPath: seq<Pair> := [];
      var startingNode := 0;
      while startingNode < |nodes|
        invariant startingNode <= |nodes|
        invariant startingNode <= |m|
        invariant maxLength == |maxPath| && IsTrail(m, maxPath)
        invariant maxPath != [] ==> StartsBelow(maxPath, startingNode)
        invariant forall p: seq<Pair> :: IsTrail(m, p) && StartsBelow(p, startingNode) ==> |p| <= maxLength
        invariant maxPath != [] ==> forall p: seq<Pair> :: IsTrail(m, p) && StartsBelow(p, maxPath[0].first) ==> |p| < maxLength
      {
        if startingNode >= |m| {
          return None;
        }
        var path := RecursivePathLength(m, startingNode, [], []);
        NextStartBound(m, startingNode, maxLength, path);
        if |path| > maxLength {
          maxLength := |path|;
          maxPath := path;
        }
        startingNode := startingNode + 1;
      }
      r := Some((maxLength, maxPath));
    }
  }

  /** The three edges the fixture appends, read back as node pairs. */
  lemma TriangleEdgeNodes(edges: seq<Edge>)
    requires edges == [Edge(Pair(0, 1), map[]), Edge(Pair(1, 2), map[]), Edge(Pair(0, 2), map[])]
    ensures EdgeNodes(edges) == Triangle
  {
  }

  /** The repository's triangle fixture, built through the graph object: three nodes, then its three edges. */
  method BuildTriangle() returns (g: Graph)
    ensures fresh(g) && g.Valid() && |g.nodes| == 3
    ensures IsMatrixOf(g.nodeConnectivity, Triangle)
  {
    g := new Graph();
    var n0 := g.AppendNodeToGraph(map[]);
    var n1 := g.AppendNodeToGraph(map[]);
    var n2 := g.AppendNodeToGraph(map[]);
    ghost var e0, e1, e2 := Edge(Pair(0, 1), map[]), Edge(Pair(1, 2), map[]), Edge(Pair(0, 2), map[]);
    var i0 := g.AppendEdgeToGraph(Pair(n0, n1), map[]);
    assert g.edges == [e0];
    var i1 := g.AppendEdgeToGraph(Pair(n1, n2), map[]);
    assert g.edges == [e0, e1];
    var i2 := g.AppendEdgeToGraph(Pair(n0, n2), map[]);
    assert g.edges == [e0, e1, e2];
    TriangleEdgeNodes(g.edges);
    TriangleWellIndexed();
  }

  /** On the triangle fixture the longest continuous path goes once round: length 3. */
  method TriangleLongestPath() returns (length: nat)
    ensures length == 3
  {
    var g := BuildTriangle();
    TriangleWellIndexed();
    TriangleTrails(g.nodeConnectivity);
    var r := g.LongestContinuousPath();
    assert StartsBelow([Pair(0, 1), Pair(1, 2), Pair(2, 0)], |g.nodes|);
    length := r.value.0;
  }
}
