/**
 * The board of src/Game/Board.py: 54 intersections, 72 road slots and 19
 * hexes of 6 intersections each, the resource/dice-roll weighting written
 * onto the intersections when the board is generated, and the flat input
 * vector handed to the agent.
 *
 * Probabilities are kept as numerators over 36 (the source uses floats).
 */
module Board {

  import opened Wrappers

  const NumberOfNodes: nat := 54
  const NumberOfResources: nat := 5
  const NumberOfPorts: nat := 6
  /** Resource index of the desert hex. */
  const Desert: int := -1

  /** The 72 road slots as (node_1, node_2); the slot's ID is its index. */
  const EdgePairs: seq<(nat, nat)> :=
    [(0, 1), (1, 2), (2, 3), (3, 4), (4, 5), (5, 6)] +
    [(0, 8), (2, 10), (4, 12), (6, 14)] +
    [(7, 8), (8, 9), (9, 10), (10, 11), (11, 12), (12, 13), (13, 14), (14, 15)] +
    [(7, 17), (9, 19), (11, 21), (13, 23), (15, 25)] +
    [(16, 17), (17, 18), (18, 19), (19, 20), (20, 21), (21, 22), (22, 23), (23, 24), (24, 25), (25, 26)] +
    [(16, 27), (18, 29), (20, 31), (22, 33), (24, 35), (26, 37)] +
    [(27, 28), (28, 29), (29, 30), (30, 31), (31, 32), (32, 33), (33, 34), (34, 35), (35, 36), (36, 37)] +
    [(28, 38), (30, 40), (32, 42), (34, 44), (36, 46)] +
    [(38, 39), (39, 40), (40, 41), (41, 42), (42, 43), (43, 44), (44, 45), (45, 46)] +
    [(39, 47), (41, 49), (43, 51), (45, 53)] +
    [(47, 48), (48, 49), (49, 50), (50, 51), (51, 52), (52, 53)]

  /** For each of the 19 hex slots, the six intersections it touches. */
  const HexNodeConnectivity: seq<seq<nat>> := [
    [0, 1, 2, 8, 9, 10],
    [2, 3, 4, 10, 11, 12],
    [4, 5, 6, 12, 13, 14],
    [7, 8, 9, 17, 18, 19],
    [9, 10, 11, 19, 20, 21],
    [11, 12, 13, 21, 22, 23],
    [13, 14, 15, 23, 24, 25],
    [16, 17, 18, 27, 28, 29],
    [18, 19, 20, 29, 30, 31],
    [20, 21, 22, 31, 32, 33],
    [22, 23, 24, 33, 34, 35],
    [24, 25, 26, 35, 36, 37],
    [28, 29, 30, 38, 39, 40],
    [30, 31, 32, 40, 41, 42],
    [32, 33, 34, 42, 43, 44],
    [34, 35, 36, 44, 45, 46],
    [39, 40, 41, 47, 48, 49],
    [41, 42, 43, 49, 50, 51],
    [43, 44, 45, 51, 52, 53]]

  /** The hexes before shuffling: 4 wheat, 3 stone, 3 brick, 4 sheep, 4 wood, 1 desert. */
  const HexResources: seq<int> := [0, 0, 0, 0, 1, 1, 1, 2, 2, 2, 3, 3, 3, 3, 4, 4, 4, 4, Desert]

  /** The number markers before shuffling, as the source lists them. */
  const NumberMarkers: seq<nat> := [2, 5, 4, 6, 3, 9, 8, 11, 11, 10, 6, 3, 8, 4, 8, 10, 11, 12]

  /**
   * An intersection. Resource lists are ordered [wheat, stone, brick, sheep,
   * wood]; settlement and city hold one 0/1 flag per player; ports are
   * [3:1, 2:1 wheat, 2:1 stone, 2:1 brick, 2:1 sheep, 2:1 wood].
   */
  datatype Node = Node(
    id: nat,
    resourceProbabilities: seq<int>,
    resourceDiceRolls: seq<seq<nat>>,
    settlement: seq<int>,
    city: seq<int>,
    ports: seq<int>)

  /** A road slot between two intersections, with one 0/1 road flag per player. */
  datatype Edge = Edge(id: nat, node1: nat, node2: nat, road: seq<int>)

  /** A resource tile; the desert keeps roll and probability 0. */
  datatype Hex = Hex(resourceIndex: int, diceRoll: nat, probability: nat)

  /** `Node(ID, number_of_players)` */
  function NewNode(id: nat, numberOfPlayers: nat): Node {
    Node(id, Zeros(NumberOfResources), [[], [], [], [], []], Zeros(numberOfPlayers), Zeros(numberOfPlayers), Zeros(NumberOfPorts))
  }

  // ---------------------------------------------------------------------
  // Dice weights
  // ---------------------------------------------------------------------

  function Abs(x: int): nat { if x < 0 then -x else x }

  /**
   * `probabilityOfRoll`: the number of two-dice outcomes (out of 36) that sum
   * to `number`; 0 for the unused table entries 0 and 1.
   */
  function ProbabilityOfRoll(number: nat): (weight: nat)
    requires number < 13
    ensures weight == if number < 2 then 0 else 6 - Abs(number - 7)
    ensures weight <= 6
  {
    [0, 0, 1, 2, 3, 4, 5, 6, 5, 4, 3, 2, 1][number]
  }

  /** The weight table is symmetric about 7. */
  lemma ProbabilitySymmetric(number: nat)
    requires 2 <= number <= 12
    ensures ProbabilityOfRoll(number) == ProbabilityOfRoll(14 - number)
  {
  }

  /** Sum of the weights of the rolls 2 .. n-1. */
  function WeightsBelow(n: nat): nat
    requires n <= 13
  {
    if n <= 2 then 0 else WeightsBelow(n - 1) + ProbabilityOfRoll(n - 1)
  }

  /** The weights of the rolls 2 .. 12 add up to 36/36. */
  lemma WeightsTotal()
    ensures WeightsBelow(13) == 36
  {
  }

  // ---------------------------------------------------------------------
  // Node queries
  // ---------------------------------------------------------------------

  /** No player holds a settlement or a city here (over the players the city list covers). */
  predicate Vacant(node: Node) {
    forall i :: 0 <= i < |node.city| ==> i < |node.settlement| && node.settlement[i] != 1 && node.city[i] != 1
  }

  /** `Node.isEmpty`: scans the players and stops at the first settlement or city flag. */
  method IsEmpty(node: Node) returns (empty: bool)
    requires |node.settlement| >= |node.city|
    ensures empty <==> Vacant(node)
  {
    var i := 0;
    while i < |node.city|
      invariant i <= |node.city|
      invariant forall j :: 0 <= j < i ==> node.settlement[j] != 1 && node.city[j] != 1
    {
      if node.settlement[i] == 1 || node.city[i] == 1 {
        return false;
      }
      i := i + 1;
    }
    return true;
  }

  // ---------------------------------------------------------------------
  // Node well-formedness and the probability invariant
  // ---------------------------------------------------------------------

  function SumWeights(rolls: seq<nat>): int
    requires forall i :: 0 <= i < |rolls| ==> rolls[i] < 13
  {
    if rolls == [] then 0 else SumWeights(rolls[..|rolls| - 1]) + ProbabilityOfRoll(rolls[|rolls| - 1])
  }

  predicate NoDuplicates(s: seq<nat>) {
    forall i, j :: 0 <= i < j < |s| ==> s[i] != s[j]
  }

  /** Each resource probability is the summed weight of the distinct rolls recorded for it. */
  predicate ProbabilitiesMatchRolls(node: Node)
    requires |node.resourceProbabilities| == NumberOfResources && |node.resourceDiceRolls| == NumberOfResources
  {
    forall r :: 0 <= r < NumberOfResources ==>
      && (forall i :: 0 <= i < |node.resourceDiceRolls[r]| ==> node.resourceDiceRolls[r][i] < 13)
      && NoDuplicates(node.resourceDiceRolls[r])
      && node.resourceProbabilities[r] == SumWeights(node.resourceDiceRolls[r])
  }

  predicate WellFormedNode(node: Node, numberOfPlayers: nat) {
    && |node.resourceProbabilities| == NumberOfResources
    && |node.resourceDiceRolls| == NumberOfResources
    && |node.settlement| == numberOfPlayers
    && |node.city| == numberOfPlayers
    && |node.ports| == NumberOfPorts
    && ProbabilitiesMatchRolls(node)
  }

  /** With one flag per player, `Vacant` is: no player index has a settlement or a city flag. */
  lemma VacantIffNoBuilding(node: Node, numberOfPlayers: nat)
    requires WellFormedNode(node, numberOfPlayers)
    ensures Vacant(node) <==> !exists i :: 0 <= i < numberOfPlayers && (node.settlement[i] == 1 || node.city[i] == 1)
  {
  }

  /** A fresh node is well formed, vacant, and has no recorded roll. */
  lemma NewNodeWellFormed(id: nat, numberOfPlayers: nat)
    ensures WellFormedNode(NewNode(id, numberOfPlayers), numberOfPlayers)
    ensures Vacant(NewNode(id, numberOfPlayers))
  {
    var n := NewNode(id, numberOfPlayers);
    forall r | 0 <= r < NumberOfResources ensures n.resourceDiceRolls[r] == [] {
    }
  }

  // ---------------------------------------------------------------------
  // Board generation, as functions
  // ---------------------------------------------------------------------

  /**
   * Records `roll` for resource `kind` on the node unless it is already
   * recorded there, adding its weight only in that case.
   */
  function AddRoll(node: Node, kind: nat, roll: nat): Node
    requires kind < |node.resourceDiceRolls| && kind < |node.resourceProbabilities| && roll < 13
  {
    if roll in node.resourceDiceRolls[kind] then node
    else node.(
      resourceDiceRolls := node.resourceDiceRolls[kind := node.resourceDiceRolls[kind] + [roll]],
      resourceProbabilities := node.resourceProbabilities[kind := node.resourceProbabilities[kind] + ProbabilityOfRoll(roll)])
  }

  lemma AddRollPreserves(node: Node, numberOfPlayers: nat, kind: nat, roll: nat)
    requires WellFormedNode(node, numberOfPlayers) && kind < NumberOfResources && roll < 13
    ensures WellFormedNode(AddRoll(node, kind, roll), numberOfPlayers)
    ensures AddRoll(node, kind, roll).id == node.id
    ensures AddRoll(node, kind, roll).settlement == node.settlement
    ensures AddRoll(node, kind, roll).city == node.city
    ensures AddRoll(node, kind, roll).ports == node.ports
  {
    var n := AddRoll(node, kind, roll);
    if roll !in node.resourceDiceRolls[kind] {
      var rolls := node.resourceDiceRolls[kind] + [roll];
      assert rolls[..|rolls| - 1] == node.resourceDiceRolls[kind];
      assert n.resourceDiceRolls[kind] == rolls;
    }
  }

  /** The 54 intersections of a new board, numbered in order: all well formed and vacant. */
  function FreshNodes(numberOfPlayers: nat): (r: seq<Node>)
    ensures AllNodesOk(r, numberOfPlayers)
    ensures forall i :: 0 <= i < |r| ==> r[i].id == i && Vacant(r[i])
  {
    NewNodesWellFormed(numberOfPlayers);
    seq(NumberOfNodes, i requires 0 <= i => NewNode(i, numberOfPlayers))
  }

  lemma NewNodesWellFormed(numberOfPlayers: nat)
    ensures forall i: nat :: WellFormedNode(NewNode(i, numberOfPlayers), numberOfPlayers) && Vacant(NewNode(i, numberOfPlayers))
  {
    forall i: nat ensures WellFormedNode(NewNode(i, numberOfPlayers), numberOfPlayers) && Vacant(NewNode(i, numberOfPlayers)) {
      NewNodeWellFormed(i, numberOfPlayers);
    }
  }

  /** The board's 54 intersections, each well formed. */
  predicate AllNodesOk(nodes: seq<Node>, numberOfPlayers: nat) {
    |nodes| == NumberOfNodes && forall i :: 0 <= i < |nodes| ==> WellFormedNode(nodes[i], numberOfPlayers)
  }

  /** The nodes after one hex with resource `kind` and roll `roll` updated the intersections of `row`. */
  function ApplyToRow(nodes: seq<Node>, numberOfPlayers: nat, row: seq<nat>, kind: nat, roll: nat): (r: seq<Node>)
    requires AllNodesOk(nodes, numberOfPlayers) && kind < NumberOfResources && roll < 13
    requires forall i :: 0 <= i < |row| ==> row[i] < NumberOfNodes
    ensures AllNodesOk(r, numberOfPlayers)
    decreases |row|
  {
    if row == [] then nodes
    else
      var before := ApplyToRow(nodes, numberOfPlayers, row[..|row| - 1], kind, roll);
      var v := row[|row| - 1];
      AddRollPreserves(before[v], numberOfPlayers, kind, roll);
      before[v := AddRoll(before[v], kind, roll)]
  }

  /** The resource kinds of the production hexes, in shuffled order (the desert dropped). */
  function ProductionKinds(order: seq<int>): seq<int> {
    if order == [] then []
    else if order[|order| - 1] == Desert then ProductionKinds(order[..|order| - 1])
    else ProductionKinds(order[..|order| - 1]) + [order[|order| - 1]]
  }

  predicate ValidKinds(kinds: seq<int>) {
    forall i :: 0 <= i < |kinds| ==> 0 <= kinds[i] < NumberOfResources
  }

  predicate ValidMarkers(markers: seq<nat>) {
    forall i :: 0 <= i < |markers| ==> 2 <= markers[i] <= 12
  }

  /** A hex table whose rows name intersections of the board. */
  predicate RowsOnBoard(rows: seq<seq<nat>>) {
    forall k, i :: 0 <= k < |rows| && 0 <= i < |rows[k]| ==> rows[k][i] < NumberOfNodes
  }

  /**
   * The nodes after the k-th production hex (for every k below |kinds|) has
   * taken marker k and updated the intersections of row k of the hex table.
   */
  function ApplyHexes(nodes: seq<Node>, numberOfPlayers: nat, rows: seq<seq<nat>>, kinds: seq<int>, markers: seq<nat>): (r: seq<Node>)
    requires AllNodesOk(nodes, numberOfPlayers) && RowsOnBoard(rows) && ValidKinds(kinds) && ValidMarkers(markers)
    requires |kinds| <= |markers| && |kinds| <= |rows|
    ensures AllNodesOk(r, numberOfPlayers)
    decreases |kinds|
  {
    if kinds == [] then nodes
    else
      var k := |kinds| - 1;
      var before := ApplyHexes(nodes, numberOfPlayers, rows, kinds[..k], markers);
      ApplyToRow(before, numberOfPlayers, rows[k], kinds[k], markers[k])
  }

  // ---------------------------------------------------------------------
  // Facts about the fixed tables and the shuffled inputs
  // ---------------------------------------------------------------------

  /** 72 road slots, each joining two distinct intersections, the lower one first. */
  lemma EdgeTableShape()
    ensures |EdgePairs| == 72
    ensures forall k :: 0 <= k < |EdgePairs| ==> EdgePairs[k].0 < EdgePairs[k].1 < NumberOfNodes
  {
  }

  /** 19 hexes of six intersections each, all on the board. */
  lemma HexTableShape()
    ensures |HexNodeConnectivity| == 19 && RowsOnBoard(HexNodeConnectivity)
    ensures forall k :: 0 <= k < |HexNodeConnectivity| ==> |HexNodeConnectivity[k]| == 6
  {
  }

  /** Intersections 52 and 53 belong to the last hex row only. */
  lemma LastRowOnlyNodes()
    ensures forall k :: 0 <= k < 18 ==> 52 !in HexNodeConnectivity[k] && 53 !in HexNodeConnectivity[k]
    ensures 52 in HexNodeConnectivity[18] && 53 in HexNodeConnectivity[18]
  {
  }

  lemma {:induction false} ProductionKindsSpec(order: seq<int>)
    ensures |ProductionKinds(order)| == |order| - multiset(order)[Desert]
    ensures forall x :: x in ProductionKinds(order) ==> x in order && x != Desert
  {
    if order != [] {
      var front := order[..|order| - 1];
      assert order == front + [order[|order| - 1]];
      assert multiset(order) == multiset(front) + multiset{order[|order| - 1]};
      ProductionKindsSpec(front);
    }
  }

  lemma ProductionKindsStep(order: seq<int>, i: nat)
    requires i < |order|
    ensures ProductionKinds(order[..i + 1]) ==
              if order[i] == Desert then ProductionKinds(order[..i]) else ProductionKinds(order[..i]) + [order[i]]
  {
    assert order[..i + 1][..i] == order[..i];
  }

  lemma {:induction false} ProductionKindsPrefix(order: seq<int>, i: nat)
    requires i <= |order|
    ensures |ProductionKinds(order[..i])| <= |ProductionKinds(order)|
    decreases |order| - i
  {
    if i < |order| {
      ProductionKindsStep(order, i);
      ProductionKindsPrefix(order, i + 1);
    } else {
      assert order[..i] == order;
    }
  }

  /** The unshuffled hexes: 19 of them, one of them the desert. */
  lemma HexResourcesCount()
    ensures |HexResources| == 19 && multiset(HexResources)[Desert] == 1
  {
  }

  /** Every unshuffled hex but the desert has a real resource kind. */
  lemma HexResourcesKinds()
    ensures forall x :: x in HexResources && x != Desert ==> 0 <= x < NumberOfResources
  {
  }

  /** The unshuffled markers: 18 of them, each a roll between 2 and 12. */
  lemma NumberMarkersFacts()
    ensures |NumberMarkers| == 18
    ensures forall x :: x in NumberMarkers ==> 2 <= x <= 12
  {
  }

  /** How many times `x` occurs in `s`. */
  function Occurrences<T(==)>(s: seq<T>, x: T): nat {
    if s == [] then 0 else Occurrences(s[..|s| - 1], x) + (if s[|s| - 1] == x then 1 else 0)
  }

  /** `a` is a reordering of `b` (what `random.shuffle` produces): every value occurs as often in both. */
  ghost predicate IsShuffleOf<T(!new)>(a: seq<T>, b: seq<T>) {
    forall x :: Occurrences(a, x) == Occurrences(b, x)
  }

  lemma {:induction false} OccurrencesCount<T>(s: seq<T>, x: T)
    ensures Occurrences(s, x) == multiset(s)[x]
  {
    if s != [] {
      OccurrencesCount(s[..|s| - 1], x);
      assert s == s[..|s| - 1] + [s[|s| - 1]];
    }
  }

  /** A reordering holds the same multiset of values. */
  lemma ShuffleMultiset<T(!new)>(a: seq<T>, b: seq<T>)
    requires IsShuffleOf(a, b)
    ensures multiset(a) == multiset(b)
  {
    forall x ensures multiset(a)[x] == multiset(b)[x] {
      OccurrencesCount(a, x);
      OccurrencesCount(b, x);
    }
  }

  /** Two sequences holding the same multiset have the same length and the same members. */
  lemma SameMultiset<T>(a: seq<T>, b: seq<T>)
    requires multiset(a) == multiset(b)
    ensures |a| == |b| && forall x :: x in a <==> x in b
  {
    assert |a| == |multiset(a)|;
    assert |b| == |multiset(b)|;
    forall x ensures x in a <==> x in b {
      assert x in a <==> x in multiset(a);
      assert x in b <==> x in multiset(b);
    }
  }

  /** Nineteen hexes, all but one of a real resource kind. */
  predicate HexOrder(order: seq<int>) {
    && |order| == 19
    && |ProductionKinds(order)| == 18
    && forall i :: 0 <= i < |order| && order[i] != Desert ==> 0 <= order[i] < NumberOfResources
  }

  /** A shuffle of the 19 hexes has 18 production hexes, all of a real resource kind. */
  lemma ShuffledHexes(order: seq<int>)
    requires multiset(order) == multiset(HexResources)
    ensures HexOrder(order)
    ensures ValidKinds(ProductionKinds(order))
  {
    HexResourcesCount();
    HexResourcesKinds();
    SameMultiset(order, HexResources);
    ProductionKindsSpec(order);
    var kinds := ProductionKinds(order);
    forall i | 0 <= i < |kinds| ensures 0 <= kinds[i] < NumberOfResources {
      assert kinds[i] in kinds;
    }
    forall i | 0 <= i < |order| && order[i] != Desert ensures 0 <= order[i] < NumberOfResources {
      assert order[i] in order;
    }
  }

  /** A shuffle of the 18 markers holds rolls between 2 and 12 only. */
  lemma ShuffledMarkers(markers: seq<nat>)
    requires multiset(markers) == multiset(NumberMarkers)
    ensures |markers| == 18 && ValidMarkers(markers)
  {
    NumberMarkersFacts();
    SameMultiset(markers, NumberMarkers);
    forall i | 0 <= i < |markers| ensures 2 <= markers[i] <= 12 {
      assert markers[i] in markers;
    }
  }

  // ---------------------------------------------------------------------
  // What board generation records
  // ---------------------------------------------------------------------

  /** One hex records `roll` for `kind` exactly on the intersections of its row. */
  lemma {:induction false} RowRolls(nodes: seq<Node>, numberOfPlayers: nat, row: seq<nat>, kind: nat, roll: nat, v: nat, c: nat, x: nat)
    requires AllNodesOk(nodes, numberOfPlayers) && kind < NumberOfResources && roll < 13
    requires forall i :: 0 <= i < |row| ==> row[i] < NumberOfNodes
    requires v < NumberOfNodes && c < NumberOfResources
    ensures x in ApplyToRow(nodes, numberOfPlayers, row, kind, roll)[v].resourceDiceRolls[c] <==>
              x in nodes[v].resourceDiceRolls[c] || (c == kind && x == roll && v in row)
    ensures v !in row ==> ApplyToRow(nodes, numberOfPlayers, row, kind, roll)[v] == nodes[v]
    ensures ApplyToRow(nodes, numberOfPlayers, row, kind, roll)[v].settlement == nodes[v].settlement
    ensures ApplyToRow(nodes, numberOfPlayers, row, kind, roll)[v].city == nodes[v].city
    decreases |row|
  {
    if row != [] {
      var front := row[..|row| - 1];
      RowRolls(nodes, numberOfPlayers, front, kind, roll, v, c, x);
      assert v in row <==> v in front || v == row[|row| - 1];
    }
  }

  /** Some production hex below |kinds| of resource c took marker x and touches intersection v. */
  predicate HexRecords(rows: seq<seq<nat>>, kinds: seq<int>, markers: seq<nat>, v: nat, c: nat, x: nat)
    requires |kinds| <= |markers| && |kinds| <= |rows|
  {
    exists k :: 0 <= k < |kinds| && kinds[k] == c && markers[k] == x && v in rows[k]
  }

  lemma HexRecordsStep(rows: seq<seq<nat>>, kinds: seq<int>, markers: seq<nat>, v: nat, c: nat, x: nat)
    requires 0 < |kinds| <= |markers| && |kinds| <= |rows|
    ensures var k := |kinds| - 1;
      HexRecords(rows, kinds, markers, v, c, x) <==>
        HexRecords(rows, kinds[..k], markers, v, c, x) || (kinds[k] == c && markers[k] == x && v in rows[k])
  {
    var k := |kinds| - 1;
    var front := kinds[..k];
    if HexRecords(rows, kinds, markers, v, c, x) {
      var j :| 0 <= j < |kinds| && kinds[j] == c && markers[j] == x && v in rows[j];
      if j < k { assert front[j] == kinds[j]; }
    }
    if HexRecords(rows, front, markers, v, c, x) {
      var j :| 0 <= j < |front| && front[j] == c && markers[j] == x && v in rows[j];
      assert kinds[j] == front[j];
    }
  }

  /**
   * After the production hexes, roll x is recorded for resource c on
   * intersection v exactly when it was already there or some production
   * hex k of that resource took marker x and touches v through row k.
   */
  lemma {:induction false} HexesRolls(nodes: seq<Node>, numberOfPlayers: nat, rows: seq<seq<nat>>, kinds: seq<int>, markers: seq<nat>, v: nat, c: nat, x: nat)
    requires AllNodesOk(nodes, numberOfPlayers) && RowsOnBoard(rows) && ValidKinds(kinds) && ValidMarkers(markers)
    requires |kinds| <= |markers| && |kinds| <= |rows|
    requires v < NumberOfNodes && c < NumberOfResources
    ensures x in ApplyHexes(nodes, numberOfPlayers, rows, kinds, markers)[v].resourceDiceRolls[c] <==>
              x in nodes[v].resourceDiceRolls[c] || HexRecords(rows, kinds, markers, v, c, x)
    decreases |kinds|
  {
    if kinds != [] {
      var k := |kinds| - 1;
      var front := kinds[..k];
      HexesRolls(nodes, numberOfPlayers, rows, front, markers, v, c, x);
      var before := ApplyHexes(nodes, numberOfPlayers, rows, front, markers);
      RowRolls(before, numberOfPlayers, rows[k], kinds[k], markers[k], v, c, x);
      HexRecordsStep(rows, kinds, markers, v, c, x);
    }
  }

  /** An intersection no production hex touches is left exactly as it was. */
  lemma {:induction false} HexesUntouched(nodes: seq<Node>, numberOfPlayers: nat, rows: seq<seq<nat>>, kinds: seq<int>, markers: seq<nat>, v: nat)
    requires AllNodesOk(nodes, numberOfPlayers) && RowsOnBoard(rows) && ValidKinds(kinds) && ValidMarkers(markers)
    requires |kinds| <= |markers| && |kinds| <= |rows|
    requires v < NumberOfNodes
    requires forall k :: 0 <= k < |kinds| ==> v !in rows[k]
    ensures ApplyHexes(nodes, numberOfPlayers, rows, kinds, markers)[v] == nodes[v]
    decreases |kinds|
  {
    if kinds != [] {
      var k := |kinds| - 1;
      var front := kinds[..k];
      HexesUntouched(nodes, numberOfPlayers, rows, front, markers, v);
      var before := ApplyHexes(nodes, numberOfPlayers, rows, front, markers);
      RowRolls(before, numberOfPlayers, rows[k], kinds[k], markers[k], v, 0, 0);
    }
  }

  /** Board generation places no settlement and no city. */
  lemma {:induction false} HexesKeepBuildings(nodes: seq<Node>, numberOfPlayers: nat, rows: seq<seq<nat>>, kinds: seq<int>, markers: seq<nat>, v: nat)
    requires AllNodesOk(nodes, numberOfPlayers) && RowsOnBoard(rows) && ValidKinds(kinds) && ValidMarkers(markers)
    requires |kinds| <= |markers| && |kinds| <= |rows|
    requires v < NumberOfNodes
    ensures ApplyHexes(nodes, numberOfPlayers, rows, kinds, markers)[v].settlement == nodes[v].settlement
    ensures ApplyHexes(nodes, numberOfPlayers, rows, kinds, markers)[v].city == nodes[v].city
    decreases |kinds|
  {
    if kinds != [] {
      var k := |kinds| - 1;
      var front := kinds[..k];
      HexesKeepBuildings(nodes, numberOfPlayers, rows, front, markers, v);
      var before := ApplyHexes(nodes, numberOfPlayers, rows, front, markers);
      RowRolls(before, numberOfPlayers, rows[k], kinds[k], markers[k], v, 0, 0);
    }
  }

  /**
   * On the board's hex table, intersections 52 and 53 never receive a roll:
   * the 18 production hexes use rows 0 to 17 only.
   */
  lemma GeneratedCornerBarren(nodes: seq<Node>, numberOfPlayers: nat, kinds: seq<int>, markers: seq<nat>)
    requires AllNodesOk(nodes, numberOfPlayers) && ValidKinds(kinds) && ValidMarkers(markers)
    requires |kinds| == |markers| == 18
    ensures RowsOnBoard(HexNodeConnectivity) && |HexNodeConnectivity| == 19
    ensures ApplyHexes(nodes, numberOfPlayers, HexNodeConnectivity, kinds, markers)[52] == nodes[52]
    ensures ApplyHexes(nodes, numberOfPlayers, HexNodeConnectivity, kinds, markers)[53] == nodes[53]
  {
    HexTableShape();
    LastRowOnlyNodes();
    HexesUntouched(nodes, numberOfPlayers, HexNodeConnectivity, kinds, markers, 52);
    HexesUntouched(nodes, numberOfPlayers, HexNodeConnectivity, kinds, markers, 53);
  }

  /** The production kinds of any prefix of a valid hex order are real resource kinds, at most 18 of them. */
  lemma PrefixKinds(order: seq<int>, i: nat)
    requires HexOrder(order) && i <= |order|
    ensures ValidKinds(ProductionKinds(order[..i])) && |ProductionKinds(order[..i])| <= 18
  {
    ProductionKindsPrefix(order, i);
    ProductionKindsSpec(order[..i]);
    var kinds := ProductionKinds(order[..i]);
    forall j | 0 <= j < |kinds| ensures 0 <= kinds[j] < NumberOfResources {
      var x := kinds[j];
      assert x in kinds;
      assert x in order[..i] && x != Desert;
      var m :| 0 <= m < i && order[..i][m] == x;
      assert order[m] == x;
    }
  }

  lemma ValidKindsSnoc(kinds: seq<int>, kind: nat)
    requires ValidKinds(kinds) && kind < NumberOfResources
    ensures ValidKinds(kinds + [kind])
  {
    var longer := kinds + [kind];
    assert longer[..|kinds|] == kinds;
    assert longer[|kinds|] == kind;
  }

  /** One more production hex updates the row numbered by how many came before it. */
  lemma ApplyHexesSnoc(nodes: seq<Node>, numberOfPlayers: nat, rows: seq<seq<nat>>, kinds: seq<int>, kind: nat, markers: seq<nat>)
    requires AllNodesOk(nodes, numberOfPlayers) && RowsOnBoard(rows) && ValidKinds(kinds) && ValidKinds(kinds + [kind]) && ValidMarkers(markers)
    requires |kinds| < |markers| && |kinds| < |rows| && kind < NumberOfResources
    ensures ApplyHexes(nodes, numberOfPlayers, rows, kinds + [kind], markers) ==
              ApplyToRow(ApplyHexes(nodes, numberOfPlayers, rows, kinds, markers), numberOfPlayers, rows[|kinds|], kind, markers[|kinds|])
  {
    assert (kinds + [kind])[..|kinds|] == kinds;
  }

  /** `Board.generateBoard`'s list of hexes before shuffling: four wheat, three stone, three brick, four sheep, four wood, then the desert. */
  method InitialHexResources() returns (resources: seq<int>)
    ensures resources == HexResources
  {
    var numberOfResource := [4, 3, 3, 4, 4];
    var offsets := [0, 4, 7, 10, 14, 18];
    resources := [];
    for resourceType := 0 to |numberOfResource|
      invariant resources == HexResources[..offsets[resourceType]]
    {
      for i := 0 to numberOfResource[resourceType]
        invariant resources == HexResources[..offsets[resourceType] + i]
      {
        assert HexResources[offsets[resourceType] + i] == resourceType;
        resources := resources + [resourceType];
      }
    }
    resources := resources + [Desert];
  }

  // ---------------------------------------------------------------------
  // The input vector
  // ---------------------------------------------------------------------

  /** The per-intersection lists the input vector concatenates, in its order. */
  datatype NodeField = Probabilities | Settlements | Cities | Ports

  function FieldOf(node: Node, field: NodeField): seq<int> {
    match field
    case Probabilities => node.resourceProbabilities
    case Settlements => node.settlement
    case Cities => node.city
    case Ports => node.ports
  }

  /** The rows one after the other. */
  function Concat(rows: seq<seq<int>>): seq<int> {
    if rows == [] then [] else Concat(rows[..|rows| - 1]) + rows[|rows| - 1]
  }

  function NodeRows(nodes: seq<Node>, field: NodeField): (rows: seq<seq<int>>)
    ensures |rows| == |nodes| && forall i :: 0 <= i < |nodes| ==> rows[i] == FieldOf(nodes[i], field)
  {
    seq(|nodes|, i requires 0 <= i < |nodes| => FieldOf(nodes[i], field))
  }

  function RoadRows(edges: seq<Edge>): (rows: seq<seq<int>>)
    ensures |rows| == |edges| && forall k :: 0 <= k < |edges| ==> rows[k] == edges[k].road
  {
    seq(|edges|, k requires 0 <= k < |edges| => edges[k].road)
  }

  /** Resource probabilities, then settlements, cities and ports of every intersection, then every road flag. */
  function InputVector(nodes: seq<Node>, edges: seq<Edge>): seq<int> {
    Concat(NodeRows(nodes, Probabilities)) + Concat(NodeRows(nodes, Settlements)) +
    Concat(NodeRows(nodes, Cities)) + Concat(NodeRows(nodes, Ports)) + Concat(RoadRows(edges))
  }

  lemma ConcatSnoc(rows: seq<seq<int>>, row: seq<int>)
    ensures Concat(rows + [row]) == Concat(rows) + row
  {
    assert (rows + [row])[..|rows|] == rows;
  }

  lemma MulMonotone(a: nat, b: nat, width: nat)
    requires a <= b
    ensures a * width <= b * width
  {
  }

  lemma {:induction false} ConcatLength(rows: seq<seq<int>>, width: nat)
    requires forall i :: 0 <= i < |rows| ==> |rows[i]| == width
    ensures |Concat(rows)| == |rows| * width
  {
    if rows != [] {
      var n := |rows| - 1;
      ConcatLength(rows[..n], width);
      assert |rows| * width == n * width + width;
    }
  }

  /** Rows of equal width lie side by side: entry j of row v sits at v * width + j. */
  lemma {:induction false} ConcatAt(rows: seq<seq<int>>, width: nat, v: nat, j: nat)
    requires forall i :: 0 <= i < |rows| ==> |rows[i]| == width
    requires v < |rows| && j < width
    ensures |Concat(rows)| == |rows| * width && v * width + j < |rows| * width
    ensures Concat(rows)[v * width + j] == rows[v][j]
  {
    var n := |rows| - 1;
    var front := rows[..n];
    ConcatLength(rows, width);
    ConcatLength(front, width);
    assert |rows| * width == n * width + width;
    if v < n {
      MulMonotone(v + 1, n, width);
      ConcatAt(front, width, v, j);
      assert front[v] == rows[v];
    } else {
      assert v * width == n * width;
    }
  }

  /**
   * The blocks of the input vector of a board with `numberOfPlayers` players:
   * 594 + 180 * numberOfPlayers values in all.
   */
  lemma InputVectorLayout(nodes: seq<Node>, edges: seq<Edge>, numberOfPlayers: nat)
    requires AllNodesOk(nodes, numberOfPlayers) && EdgesOk(edges, numberOfPlayers)
    ensures |InputVector(nodes, edges)| == 594 + 180 * numberOfPlayers
    ensures InputVector(nodes, edges)[..270] == Concat(NodeRows(nodes, Probabilities))
    ensures InputVector(nodes, edges)[270..270 + 54 * numberOfPlayers] == Concat(NodeRows(nodes, Settlements))
    ensures InputVector(nodes, edges)[270 + 54 * numberOfPlayers..270 + 108 * numberOfPlayers] == Concat(NodeRows(nodes, Cities))
    ensures InputVector(nodes, edges)[270 + 108 * numberOfPlayers..594 + 108 * numberOfPlayers] == Concat(NodeRows(nodes, Ports))
    ensures InputVector(nodes, edges)[594 + 108 * numberOfPlayers..] == Concat(RoadRows(edges))
  {
    var p := numberOfPlayers;
    var probabilities := Concat(NodeRows(nodes, Probabilities));
    var settlements := Concat(NodeRows(nodes, Settlements));
    var cities := Concat(NodeRows(nodes, Cities));
    var ports := Concat(NodeRows(nodes, Ports));
    var roads := Concat(RoadRows(edges));
    assert |edges| == 72 by { EdgeTableShape(); }
    ConcatLength(NodeRows(nodes, Probabilities), 5);
    ConcatLength(NodeRows(nodes, Settlements), p);
    ConcatLength(NodeRows(nodes, Cities), p);
    ConcatLength(NodeRows(nodes, Ports), 6);
    ConcatLength(RoadRows(edges), p);
    var vector := InputVector(nodes, edges);
    assert vector == probabilities + settlements + cities + ports + roads;
    assert vector[..270] == probabilities;
    assert vector[270..270 + 54 * p] == settlements;
    assert vector[270 + 54 * p..270 + 108 * p] == cities;
    assert vector[270 + 108 * p..594 + 108 * p] == ports;
    assert vector[594 + 108 * p..] == roads;
  }

  /** The 72 road slots of the board, in table order, with one road flag per player. */
  predicate EdgesOk(edges: seq<Edge>, numberOfPlayers: nat) {
    && |edges| == |EdgePairs|
    && forall k :: 0 <= k < |edges| ==>
         edges[k].id == k && (edges[k].node1, edges[k].node2) == EdgePairs[k] && |edges[k].road| == numberOfPlayers
  }

  /** What one more hex of the shuffled order does to the generated nodes. */
  lemma GenerateStep(nodes: seq<Node>, numberOfPlayers: nat, rows: seq<seq<nat>>, resources: seq<int>, markers: seq<nat>, i: nat)
    requires AllNodesOk(nodes, numberOfPlayers) && RowsOnBoard(rows) && |rows| == 19
    requires HexOrder(resources) && |markers| == 18 && ValidMarkers(markers) && i < |resources|
    ensures ValidKinds(ProductionKinds(resources[..i])) && |ProductionKinds(resources[..i])| <= 18
    ensures ProductionKinds(resources[..i + 1]) ==
              if resources[i] == Desert then ProductionKinds(resources[..i]) else ProductionKinds(resources[..i]) + [resources[i]]
    ensures ValidKinds(ProductionKinds(resources[..i + 1])) && |ProductionKinds(resources[..i + 1])| <= 18
    ensures resources[i] != Desert ==>
              && 0 <= resources[i] < NumberOfResources
              && ApplyHexes(nodes, numberOfPlayers, rows, ProductionKinds(resources[..i + 1]), markers) ==
                 ApplyToRow(ApplyHexes(nodes, numberOfPlayers, rows, ProductionKinds(resources[..i]), markers), numberOfPlayers,
                            rows[|ProductionKinds(resources[..i])|], resources[i], markers[|ProductionKinds(resources[..i])|])
  {
    ProductionKindsStep(resources, i);
    PrefixKinds(resources, i);
    PrefixKinds(resources, i + 1);
    if resources[i] != Desert {
      var kind: nat := resources[i];
      ValidKindsSnoc(ProductionKinds(resources[..i]), kind);
      ApplyHexesSnoc(nodes, numberOfPlayers, rows, ProductionKinds(resources[..i]), kind, markers);
    }
  }

  /** Appending the hex placed at position i keeps every earlier hex placed. */
  lemma PlacedSnoc(hexes: seq<Hex>, hex: Hex, resources: seq<int>, markers: seq<nat>)
    requires forall j :: 0 <= j < |hexes| ==> HexPlaced(hexes[j], resources, markers, j)
    requires HexPlaced(hex, resources, markers, |hexes|)
    ensures forall j :: 0 <= j < |hexes| + 1 ==> HexPlaced((hexes + [hex])[j], resources, markers, j)
  {
    forall j | 0 <= j < |hexes| + 1 ensures HexPlaced((hexes + [hex])[j], resources, markers, j) {
      if j < |hexes| {
        assert (hexes + [hex])[j] == hexes[j];
      }
    }
  }

  /** The hex the loop of `generateBoard` builds at position i is placed as `HexPlaced` says. */
  lemma PlacedStep(hex: Hex, resources: seq<int>, markers: seq<nat>, i: nat, k: nat)
    requires i < |resources| && k == |ProductionKinds(resources[..i])| && ValidMarkers(markers)
    requires hex.resourceIndex == resources[i]
    requires resources[i] == Desert ==> hex.diceRoll == 0 && hex.probability == 0
    requires resources[i] != Desert ==>
               k < |markers| && hex.diceRoll == markers[k] && hex.probability == ProbabilityOfRoll(markers[k])
    ensures HexPlaced(hex, resources, markers, i)
  {
  }

  /**
   * Hex j of the shuffled order as generation leaves it: its resource, and
   * for a production hex the marker numbered by how many production hexes
   * precede it, with that roll's weight; the desert keeps roll and weight 0.
   */
  predicate HexPlaced(hex: Hex, resources: seq<int>, markers: seq<nat>, j: nat) {
    && j < |resources|
    && hex.resourceIndex == resources[j]
    && if resources[j] == Desert then hex.diceRoll == 0 && hex.probability == 0
       else
         var m := |ProductionKinds(resources[..j])|;
         && m < |markers| && markers[m] < 13
         && hex.diceRoll == markers[m] && hex.probability == ProbabilityOfRoll(markers[m])
  }

  // ---------------------------------------------------------------------
  // The board
  // ---------------------------------------------------------------------

  /** `Board`: the intersections and road slots of one game, updated in place. */
  class Board {
    const numberOfPlayers: nat
    var nodes: seq<Node>
    var edges: seq<Edge>
    var hexNodeConnectivity: seq<seq<nat>>

    ghost predicate Valid()
      reads this`nodes, this`edges, this`hexNodeConnectivity
    {
      AllNodesOk(nodes, numberOfPlayers) && Layout()
    }

    /** The road slots and the hex-to-intersection table, which building on a node leaves alone. */
    ghost predicate Layout()
      reads this`edges, this`hexNodeConnectivity
    {
      && EdgesOk(edges, numberOfPlayers)
      && |hexNodeConnectivity| == 19 && RowsOnBoard(hexNodeConnectivity)
    }

    /** A board with 54 empty intersections and 72 road slots without roads. */
    constructor(numberOfPlayers: nat)
      ensures Valid() && this.numberOfPlayers == numberOfPlayers
      ensures nodes == FreshNodes(numberOfPlayers)
      ensures forall k :: 0 <= k < |edges| ==> edges[k].road == Zeros(numberOfPlayers)
      ensures hexNodeConnectivity == HexNodeConnectivity
    {
      this.numberOfPlayers := numberOfPlayers;
      var newNodes: seq<Node> := [];
      for nodeId := 0 to NumberOfNodes
        invariant |newNodes| == nodeId
        invariant forall i :: 0 <= i < nodeId ==> newNodes[i] == NewNode(i, numberOfPlayers)
      {
        newNodes := newNodes + [NewNode(nodeId, numberOfPlayers)];
      }
      var newEdges: seq<Edge> := [];
      for edgeId := 0 to |EdgePairs|
        invariant |newEdges| == edgeId
        invariant forall k :: 0 <= k < edgeId ==>
                    newEdges[k] == Edge(k, EdgePairs[k].0, EdgePairs[k].1, Zeros(numberOfPlayers))
      {
        newEdges := newEdges + [Edge(edgeId, EdgePairs[edgeId].0, EdgePairs[edgeId].1, Zeros(numberOfPlayers))];
      }
      forall i | 0 <= i < NumberOfNodes ensures WellFormedNode(newNodes[i], numberOfPlayers) {
        NewNodeWellFormed(i, numberOfPlayers);
      }
      HexTableShape();
      nodes := newNodes;
      edges := newEdges;
      hexNodeConnectivity := HexNodeConnectivity;
    }

    /**
     * `generateBoard`, with the two shuffles given as inputs: any shuffle of
     * the 19 hexes and of the 18 markers is handed to `DistributeResources`.
     * The source drops its list of placed hexes when it returns; here that
     * list is a ghost result, so the contract can say what each hex took.
     */
    method GenerateBoard(resources: seq<int>, markers: seq<nat>) returns (ghost hexes: seq<Hex>)
      requires Valid()
      requires IsShuffleOf(resources, HexResources) && IsShuffleOf(markers, NumberMarkers)
      modifies this`nodes
      ensures Valid()
      ensures edges == old(edges) && hexNodeConnectivity == old(hexNodeConnectivity)
      ensures HexOrder(resources) && ValidKinds(ProductionKinds(resources)) && |markers| == 18 && ValidMarkers(markers)
      ensures nodes == ApplyHexes(old(nodes), numberOfPlayers, hexNodeConnectivity, ProductionKinds(resources), markers)
      ensures |hexes| == |resources| == 19
      ensures forall i :: 0 <= i < |hexes| ==> HexPlaced(hexes[i], resources, markers, i)
    {
      ShuffleMultiset(resources, HexResources);
      ShuffleMultiset(markers, NumberMarkers);
      ShuffledHexes(resources);
      ShuffledMarkers(markers);
      hexes := DistributeResources(resources, markers);
    }

    /**
     * The loop of `generateBoard` over the shuffled hexes: each production
     * hex, in order, takes the next marker and records its roll on the
     * intersections of the hex row numbered like that marker.
     */
    method DistributeResources(resources: seq<int>, markers: seq<nat>) returns (hexes: seq<Hex>)
      requires Valid()
      requires HexOrder(resources) && ValidKinds(ProductionKinds(resources)) && |markers| == 18 && ValidMarkers(markers)
      modifies this`nodes
      ensures Valid()
      ensures edges == old(edges) && hexNodeConnectivity == old(hexNodeConnectivity)
      ensures nodes == ApplyHexes(old(nodes), numberOfPlayers, hexNodeConnectivity, ProductionKinds(resources), markers)
      ensures |hexes| == |resources| == 19
      ensures forall i :: 0 <= i < |hexes| ==> HexPlaced(hexes[i], resources, markers, i)
    {
      var hexIndex := 0;
      hexes := [];
      ghost var kinds: seq<int> := [];
      assert resources[..0] == [];
      for i := 0 to |resources|
        invariant kinds == ProductionKinds(resources[..i])
        invariant hexIndex == |kinds| <= 18 && ValidKinds(kinds)
        invariant AllNodesOk(nodes, numberOfPlayers)
        invariant nodes == ApplyHexes(old(nodes), numberOfPlayers, hexNodeConnectivity, kinds, markers)
        invariant |hexes| == i
        invariant forall j :: 0 <= j < i ==> HexPlaced(hexes[j], resources, markers, j)
      {
        GenerateStep(old(nodes), numberOfPlayers, hexNodeConnectivity, resources, markers, i);
        var hexagon := Hex(resources[i], 0, 0);
        if hexagon.resourceIndex != Desert {
          hexagon := PlaceHex(hexagon, hexIndex, markers);
          PlacedStep(hexagon, resources, markers, i, hexIndex);
          hexIndex := hexIndex + 1;
          kinds := kinds + [resources[i]];
        } else {
          PlacedStep(hexagon, resources, markers, i, hexIndex);
        }
        PlacedSnoc(hexes, hexagon, resources, markers);
        hexes := hexes + [hexagon];
      }
      assert resources[..|resources|] == resources;
    }

    /**
     * One production hex: it takes marker `hexIndex` and that roll's weight,
     * and records them on the intersections of hex row `hexIndex` (the inner
     * loop of `generateBoard`).
     */
    method PlaceHex(hexagon: Hex, hexIndex: nat, markers: seq<nat>) returns (placed: Hex)
      requires AllNodesOk(nodes, numberOfPlayers) && RowsOnBoard(hexNodeConnectivity)
      requires hexIndex < |hexNodeConnectivity| && hexIndex < |markers| && ValidMarkers(markers)
      requires 0 <= hexagon.resourceIndex < NumberOfResources
      modifies this`nodes
      ensures edges == old(edges) && hexNodeConnectivity == old(hexNodeConnectivity)
      ensures placed == Hex(hexagon.resourceIndex, markers[hexIndex], ProbabilityOfRoll(markers[hexIndex]))
      ensures nodes == ApplyToRow(old(nodes), numberOfPlayers, hexNodeConnectivity[hexIndex], hexagon.resourceIndex, markers[hexIndex])
      ensures AllNodesOk(nodes, numberOfPlayers)
    {
      var roll := markers[hexIndex];
      placed := hexagon.(diceRoll := roll, probability := ProbabilityOfRoll(roll));
      RecordHex(hexNodeConnectivity[hexIndex], placed.resourceIndex, roll);
    }

    /** The inner loop of `generateBoard`: one hex updates the intersections of its row. */
    method RecordHex(row: seq<nat>, kind: nat, roll: nat)
      requires AllNodesOk(nodes, numberOfPlayers) && kind < NumberOfResources && roll < 13
      requires forall i :: 0 <= i < |row| ==> row[i] < NumberOfNodes
      modifies this`nodes
      ensures nodes == ApplyToRow(old(nodes), numberOfPlayers, row, kind, roll)
      ensures AllNodesOk(nodes, numberOfPlayers)
      ensures edges == old(edges) && hexNodeConnectivity == old(hexNodeConnectivity)
    {
      for j := 0 to |row|
        invariant nodes == ApplyToRow(old(nodes), numberOfPlayers, row[..j], kind, roll)
        invariant edges == old(edges) && hexNodeConnectivity == old(hexNodeConnectivity)
      {
        var v := row[j];
        assert row[..j + 1][..j] == row[..j];
        var node := nodes[v];
        if roll !in node.resourceDiceRolls[kind] {
          nodes := nodes[v := node.(
            resourceDiceRolls := node.resourceDiceRolls[kind := node.resourceDiceRolls[kind] + [roll]],
            resourceProbabilities := node.resourceProbabilities[kind := node.resourceProbabilities[kind] + ProbabilityOfRoll(roll)])];
        }
      }
      assert row[..|row|] == row;
    }

    /** `getInputValues`: the board's state flattened for the agent. */
    method GetInputValues() returns (values: seq<int>)
      ensures values == InputVector(nodes, edges)
    {
      var resourceProbabilities, settlements, cities, ports := NodeValues(nodes);
      var roads := RoadValues(edges);
      values := resourceProbabilities + settlements + cities + ports + roads;
    }
  }

  /** The loop of `getInputValues` over the intersections: each field's lists, joined in node order. */
  method NodeValues(nodes: seq<Node>) returns (resourceProbabilities: seq<int>, settlements: seq<int>, cities: seq<int>, ports: seq<int>)
    ensures resourceProbabilities == Concat(NodeRows(nodes, Probabilities))
    ensures settlements == Concat(NodeRows(nodes, Settlements))
    ensures cities == Concat(NodeRows(nodes, Cities))
    ensures ports == Concat(NodeRows(nodes, Ports))
  {
    resourceProbabilities, settlements, cities, ports := [], [], [], [];
    for i := 0 to |nodes|
      invariant resourceProbabilities == Concat(NodeRows(nodes[..i], Probabilities))
      invariant settlements == Concat(NodeRows(nodes[..i], Settlements))
      invariant cities == Concat(NodeRows(nodes[..i], Cities))
      invariant ports == Concat(NodeRows(nodes[..i], Ports))
    {
      NodeRowsStep(nodes, i);
      resourceProbabilities := resourceProbabilities + nodes[i].resourceProbabilities;
      settlements := settlements + nodes[i].settlement;
      cities := cities + nodes[i].city;
      ports := ports + nodes[i].ports;
    }
    assert nodes[..|nodes|] == nodes;
  }

  /** The loop of `getInputValues` over the road slots: the players' road flags, slot by slot. */
  method RoadValues(edges: seq<Edge>) returns (roads: seq<int>)
    ensures roads == Concat(RoadRows(edges))
  {
    roads := [];
    for k := 0 to |edges|
      invariant roads == Concat(RoadRows(edges[..k]))
    {
      assert RoadRows(edges[..k + 1]) == RoadRows(edges[..k]) + [edges[k].road];
      ConcatSnoc(RoadRows(edges[..k]), edges[k].road);
      roads := roads + edges[k].road;
    }
    assert edges[..|edges|] == edges;
  }

  lemma NodeRowsStep(nodes: seq<Node>, i: nat)
    requires i < |nodes|
    ensures forall field :: Concat(NodeRows(nodes[..i + 1], field)) == Concat(NodeRows(nodes[..i], field)) + FieldOf(nodes[i], field)
  {
    forall field ensures Concat(NodeRows(nodes[..i + 1], field)) == Concat(NodeRows(nodes[..i], field)) + FieldOf(nodes[i], field) {
      assert NodeRows(nodes[..i + 1], field) == NodeRows(nodes[..i], field) + [FieldOf(nodes[i], field)];
      ConcatSnoc(NodeRows(nodes[..i], field), FieldOf(nodes[i], field));
    }
  }
}
