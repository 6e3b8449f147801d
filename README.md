# Catan rules engine: board, road networks and game manager

A Dafny model of the rules core of a Python Settlers-of-Catan engine (`src/Game/`):

- `graph.dfy` (module `Graph`). This models `Graph.py`, the generic graph. It has a node list, an edge list and a 0/1 connectivity matrix rebuilt from the edge list. It also has the depth-first longest-trail search. The model proves the search returns a trail (a walk that never reuses an unordered edge). It proves no trail starting at one of the graph's nodes is longer.
- `board.dfy` (module `Board`). This models `Board.py`:
  - the 54 intersections and the 72 road slots;
  - the 19-hex to intersection table;
  - `generateBoard`, which writes the dice rolls and their weights onto the intersections of each production hex;
  - `isEmpty`;
  - the flat input vector given to the agent.
- `roadnetwork.dfy` (module `RoadNetwork`). This models `RoadNetwork.py`, a player's road graph. As written, `addRoad` always raises before it changes anything (see Findings). With the evidently intended slot lookup, every road adds two fresh graph nodes and one edge. So roads never share a node, and the longest trail is 0 or 1 roads long.
- `game.dfy` (module `Game`). This models `GameManager.py` and `Player.py`:
  - the looping player iterator;
  - the snake set-up order;
  - `buildSettlement`;
  - the player's set-up loop over the network's scores;
  - the recursive turn loop;
  - `endTurn`;
  - the constructor that builds the whole game.

Both files are in one module because a player calls back into its game manager. Dafny modules may not import each other cyclically.

Modelling choices:

- Probabilities are whole numbers of two-dice outcomes out of 36, not floats.
- Objects the source mutates in place are classes: the graph, the board, the road network, a player and the game manager. Nodes, edges and hexes are datatype values inside them.
- A Python result that is `False` or `None` is an `Option<bool>`. `None` is `None` and `Some(false)` is `False`.
- A Python exception (an `IndexError`) is `None` of an `Option` result.
- The two `shuffle` calls of `generateBoard` are inputs. The predicate `IsShuffleOf` requires each input to be a reordering of the source's list.
- `random.randrange(0, 3)` in `setup_players` is an input too, limited to 0, 1 or 2 as in the source.
- The agent (`move_function`, reached through `evaluateNetwork`) is not modelled. The "Settlements" score list it returns to each `setup` call is an input to the set-up loop.

Observations the proofs make precise (the model follows the code, except for the one repair listed under Findings):

- `buildSettlement` never returns `True`. On success it falls off the end and returns `None`. `Player.setup` therefore never sees a success. During turn 0 it settles every vacant intersection it tries, for all 53 tries, and each settlement stays to the end of the call (`SetupSettlesEveryVacantChoice`). In particular the top two choices are both settled when vacant (`SetupSettlesTwice`).
- `count_points` returns the turn counter. After set-up, the game plays exactly 10 turns. The first player scored, player 0, reaches 10 points and ends the game (`PlayEnds`).
- `endTurn` adds 1 to `player_turn` without wrapping round the table.
- As written, `RoadNetwork.addRoad` raises on every call, so a road network never holds a road (`RoadNetwork.RoadNetwork.AddRoadAsWritten`).
- Repaired to read the slot's `node_1` and `node_2`, `addRoad` never reuses a graph node, so `longestContinousPath` is at most 1 (`RoadNetwork.TrailsAreSingleRoads`). The repository's road-network test expects lengths 2 and 3 after connected roads. Neither the code as written nor the repaired code can produce those lengths.
- Intersections 52 and 53 appear only in the last row of the hex table. `generateBoard` gives that row to no hex: it has 19 rows, the 18 production hexes use rows 0 to 17, and the desert takes none. So those two intersections are never touched (`Board.GeneratedCornerBarren`).
- `Graph` builds its matrix with one row per distinct endpoint. It raises `IndexError` as soon as an endpoint is not below that count (`Graph.ConstructNodeConnectivityMatrix`).

## Model

| member | source | states |
|---|---|---|
| Graph.ConstructNodeConnectivityMatrix | src/Game/Graph.py:137-162 | fails (the `IndexError`) exactly when some endpoint is not below the number of distinct endpoints; otherwise the matrix is square with one row per distinct endpoint, holds 1 exactly where some edge joins the two indices in either orientation, and is symmetric 0/1 |
| Graph.WellIndexedIsDenseRange | src/Game/Graph.py:144-155 | the edges can index the matrix if and only if their endpoints are exactly 0 .. n-1 |
| Graph.JoinedMatrixIsConnectivity | src/Game/Graph.py:157-160 | a matrix marked from both ends of every edge is square, symmetric and 0/1 |
| Graph.DistinctCard | src/Game/Graph.py:144-149 | the first-seen list of endpoints has as many entries as there are distinct endpoints |
| Graph.TrailSnoc | src/Game/Graph.py:124-127 | stepping along an unused matrix edge from the walk's last node keeps it a trail |
| Graph.TrailPrefix | src/Game/Graph.py:130-132 | every prefix of a trail is a trail |
| Graph.UnvisitedShrinks | src/Game/Graph.py:125-127 | each recursive call has strictly fewer untraversed pairs, so the search ends |
| Graph.CoverAllExtensions | src/Game/Graph.py:116-132 | every edge that leaves the current node is in the connected-edge list, so the best over that list bounds every extension of the walk |
| Graph.RecursivePathLength | src/Game/Graph.py:107-134 | returns a trail at least as long as the best path so far; a result other than that path extends the visited walk and is strictly longer; it is at least as long as every trail extending the visited walk from the current node |
| Graph.TriangleTrails | src/Game/Tests/testGraph.py:12-15 | on the triangle's matrix, going once round is a trail and no trail is longer than three steps |
| Graph.TriangleLongestPath | src/Game/Tests/testGraph.py:12-15 | the triangle built with the graph's own append methods has a matrix, and its longest continuous path is 3 |
| Graph.Graph.constructor | src/Game/Graph.py:20-31 | a new graph has no nodes, no edges and the empty matrix, which is a valid connectivity matrix |
| Graph.Graph.AppendNodeToGraph | src/Game/Graph.py:36-50 | appends one node with the given variables and returns the old node count; edges and matrix are unchanged |
| Graph.Graph.AppendEdgeToGraph | src/Game/Graph.py:52-74 | always appends the edge; the returned index is the old edge count exactly when the rebuilt matrix exists, and then the matrix is the one of the new edge list; when the rebuild fails, the old matrix stays |
| Graph.Graph.ListEdgeNodeIndices | src/Game/Graph.py:76-85 | the k-th entry is the endpoint pair of the k-th edge |
| Graph.Graph.LongestContinuousPath | src/Game/Graph.py:87-105 | fails (the `IndexError`) exactly when there are more nodes than matrix rows; otherwise returns a trail and its length, the trail starts at one of the graph's nodes, no trail starting at one of them is longer, no trail from an earlier start node is as long (the first longest is kept), and an empty graph gives (0, []) |
| RoadNetwork.PairedEndpoints | src/Game/RoadNetwork.py:25-29 | when road k joins graph nodes 2k and 2k+1, the endpoints are exactly 0 .. 2n-1, so the matrix rebuild after every road succeeds |
| RoadNetwork.PairedJoined | src/Game/RoadNetwork.py:25-29 | in such a network, two graph nodes are joined if and only if they are the two ends of the same road |
| RoadNetwork.TwoStepsTurnBack | src/Game/RoadNetwork.py:25-29 | any two chained steps in such a network are the same road back and forth |
| RoadNetwork.TrailsAreSingleRoads | src/Game/RoadNetwork.py:25-29 | no trail in such a network is longer than one road |
| RoadNetwork.FirstRoadIsTrail | src/Game/RoadNetwork.py:25-29 | once one road exists, the walk along it is a trail |
| RoadNetwork.RoadsOkSnoc | src/Game/RoadNetwork.py:20-29 | adding a road keeps the graph's nodes and edges in step with the board slots of the player's roads |
| RoadNetwork.RoadNetwork.constructor | src/Game/RoadNetwork.py:4-10 | a new network refers to its board, has no roads and owns a fresh empty graph |
| RoadNetwork.SlotNodesAsWritten | src/Game/RoadNetwork.py:20 | reading `nodes` off the board slot never yields intersections: the board's edge record has no such attribute |
| RoadNetwork.SlotNodes | src/Game/RoadNetwork.py:20-23 | the intended lookup finds the slot's two intersections exactly for the indices Python accepts (negative ones count from the end) and raises `IndexError` otherwise |
| RoadNetwork.AsWrittenRaises | src/Game/RoadNetwork.py:20 | the written lookup raises `AttributeError` exactly where the intended one succeeds, and the same `IndexError` elsewhere |
| RoadNetwork.SlotFourteenRaises | src/Game/Tests/testRoadNetwork.py:17-18 | the test's first road, slot 14 joining intersections 11 and 12, raises as written |
| RoadNetwork.RoadNetwork.AddRoadAsWritten | src/Game/RoadNetwork.py:13-20 | every call raises before anything changes: `AttributeError` for a slot index Python accepts, `IndexError` otherwise |
| RoadNetwork.RoadNetwork.AddRoad | src/Game/RoadNetwork.py:13-29 | with the slot's `node_1` and `node_2` read, appends two graph nodes tagged with the slot's two intersections and one edge between them tagged with the slot; the network stays valid |
| RoadNetwork.RoadNetwork.BreakRoadAtNode | src/Game/RoadNetwork.py:31-36 | changes nothing |
| RoadNetwork.RoadNetwork.LongestContinuousPath | src/Game/RoadNetwork.py:13-29 | returns a trail whose length is 0 with no roads and 1 otherwise |
| Board.ProbabilityOfRoll | src/Game/Board.py:191-193 | the weight of a roll is 6 minus its distance from 7, and 0 for the table's entries 0 and 1 |
| Board.ProbabilitySymmetric | src/Game/Board.py:191-193 | rolls n and 14-n have the same weight |
| Board.WeightsTotal | src/Game/Board.py:191-193 | the weights of all rolls add up to the 36 outcomes of two dice |
| Board.IsEmpty | src/Game/Board.py:37-46 | true if and only if no player has a settlement or a city flag on the intersection |
| Board.VacantIffNoBuilding | src/Game/Board.py:42-46 | with one flag per player, an intersection is vacant exactly when no player index has a building there |
| Board.NewNodeWellFormed | src/Game/Board.py:5-35 | a new intersection has five zero probabilities, five empty roll lists, one zero flag per player for settlements and cities, six zero ports, and is vacant |
| Board.FreshNodes | src/Game/Board.py:84-88 | the 54 new intersections are numbered in order, well formed and vacant |
| Board.AddRollPreserves | src/Game/Board.py:155-157 | recording a roll keeps an intersection well formed (each probability is the weight of its distinct rolls) and leaves its id, buildings and ports alone |
| Board.ApplyToRow | src/Game/Board.py:154-157 | updating a hex's intersections keeps every intersection well formed |
| Board.ApplyHexes | src/Game/Board.py:147-158 | placing the production hexes in order keeps every intersection well formed |
| Board.RowRolls | src/Game/Board.py:154-157 | after one hex, a roll is listed for a resource at an intersection if and only if it was before or the hex has that resource and roll and touches the intersection; intersections it does not touch are unchanged, and no building flag changes |
| Board.HexesRolls | src/Game/Board.py:147-158 | after all hexes, a roll is listed for a resource at an intersection if and only if it was before or some production hex of that resource with that marker touches the intersection |
| Board.HexesUntouched | src/Game/Board.py:147-158 | an intersection that no production hex touches is unchanged |
| Board.HexesKeepBuildings | src/Game/Board.py:147-158 | generating the board never changes a settlement or city flag |
| Board.GeneratedCornerBarren | src/Game/Board.py:109-158 | with 18 production hexes on the 19-row table, intersections 52 and 53 are never touched |
| Board.EdgeTableShape | src/Game/Board.py:91-101 | there are 72 road slots, each joining a lower-numbered to a higher-numbered intersection below 54 |
| Board.HexTableShape | src/Game/Board.py:109-127 | there are 19 hex rows of 6 intersections each, all below 54 |
| Board.LastRowOnlyNodes | src/Game/Board.py:109-127 | intersections 52 and 53 appear in the last hex row only |
| Board.ProductionKindsSpec | src/Game/Board.py:147-149 | the hexes that take a marker are the non-desert ones: as many as the order has non-desert entries, each taken from the order |
| Board.ProductionKindsPrefix | src/Game/Board.py:147-158 | the marker counter never exceeds the final number of production hexes |
| Board.HexResourcesCount | src/Game/Board.py:134-139 | the unshuffled list has 19 hexes, exactly one of them the desert |
| Board.HexResourcesKinds | src/Game/Board.py:134-139 | every non-desert hex is one of the five resources |
| Board.NumberMarkersFacts | src/Game/Board.py:145 | there are 18 markers, each from 2 to 12 |
| Board.ShuffleMultiset | src/Game/Board.py:142-146 | a reordering holds the same multiset of values as the list it came from |
| Board.ShuffledHexes | src/Game/Board.py:134-142 | any shuffle of the hexes has 19 entries, 18 production hexes, each of a real resource |
| Board.ShuffledMarkers | src/Game/Board.py:145-146 | any shuffle of the markers has 18 entries, each from 2 to 12 |
| Board.InitialHexResources | src/Game/Board.py:134-139 | the nested loop builds 4 wheat, 3 stone, 3 brick, 4 sheep, 4 wood and a desert, in that order |
| Board.ConcatLength | src/Game/Board.py:171-180 | joining rows of equal width gives rows times width entries |
| Board.ConcatAt | src/Game/Board.py:171-180 | entry v*width+j of the joined rows is entry j of row v |
| Board.InputVectorLayout | src/Game/Board.py:160-182 | the board vector has 594 + 180 * players entries: probabilities at 0..270, then settlements, cities, ports and roads in fixed blocks |
| Board.Board.constructor | src/Game/Board.py:78-127 | a new board has the 54 fresh intersections, the 72 slots with their endpoints and one zero road flag per player, and the hex table |
| Board.Board.GenerateBoard | src/Game/Board.py:129-158 | for any shuffle of hexes and markers, the k-th production hex takes the k-th marker and its weight, the desert keeps 0, every intersection becomes what placing the hexes in order makes it, and slots and hex table are unchanged |
| Board.Board.DistributeResources | src/Game/Board.py:147-158 | the loop over the hexes does that placement, hex by hex |
| Board.Board.PlaceHex | src/Game/Board.py:149-158 | one production hex takes its marker and weight and updates its row of intersections |
| Board.Board.RecordHex | src/Game/Board.py:154-157 | the loop over a hex's intersections records the roll once per resource and adds its weight |
| Board.Board.GetInputValues | src/Game/Board.py:160-182 | returns the board's input vector |
| Board.NodeValues | src/Game/Board.py:166-175 | the loop over the intersections yields, per field, every intersection's list joined in intersection order |
| Board.RoadValues | src/Game/Board.py:178-180 | the loop over the road slots yields every slot's road flags joined in slot order |
| Game.LoopingIterator | src/Game/GameManager.py:170-190 | for an index in range, the next index is in range and is one up or one down modulo the player count |
| Game.LoopingIteratorInverse | src/Game/GameManager.py:170-190 | stepping up then down, or down then up, returns to the start |
| Game.StepsUpWrap | src/Game/GameManager.py:170-183 | k steps up from c land on (c + k) mod 4, so four steps come home |
| Game.SnakeOrderPalindrome | src/Game/GameManager.py:55-60 | the set-up order reads the same backwards and begins and ends with the starting player |
| Game.SnakeOrderSteps | src/Game/GameManager.py:55-60 | the order goes up by the looping iterator three times, repeats the fourth player, then goes down three times |
| Game.SnakeOrderFair | src/Game/GameManager.py:55-60 | the first four places are four different players, and every player is among them |
| Game.SetupOrder | src/Game/GameManager.py:55-60 | the loops build exactly the snake order |
| Game.Pay | src/Game/GameManager.py:150-154 | paying for a settlement takes one wheat, brick, sheep and wood and leaves the stone |
| Game.BuildOutcome | src/Game/GameManager.py:116-156 | never reports True; reports None (success) if and only if the intersection is vacant and it is turn 0 or the hand holds wheat, brick, sheep and wood; on success only that intersection changes, the player's flag is set there and the hand pays outside turn 0; on False nothing changes |
| Game.BuildKeepsBoard | src/Game/GameManager.py:133-154 | a build keeps every intersection well formed and the hand at five kinds |
| Game.BuildOccupies | src/Game/GameManager.py:133-147 | after a successful build the intersection is occupied, so any later build there is refused |
| Game.BuildKeepsHandSolvent | src/Game/GameManager.py:137-154 | a build never drives a card count below zero |
| Game.FirstMaxIndex | src/Game/Player.py:48 | `index(max(...))`: the first position holding the largest score |
| Game.SetupAttempt | src/Game/Player.py:47-52 | one pass of the set-up loop keeps the board well formed and the score list's length |
| Game.SetupRun | src/Game/Player.py:44-55 | any number of passes keeps the board well formed and the score list's length |
| Game.SetupNeverSeesSuccess | src/Game/Player.py:49-50 | because a successful build answers None, the loop never records a success |
| Game.SetupIsFree | src/Game/GameManager.py:138-154 | in turn 0 the set-up loop never changes the hand |
| Game.AttemptIgnoresHand | src/Game/GameManager.py:137-147 | in turn 0 one pass builds the same whatever the hand holds, and keeps the hand |
| Game.RunStepOnlySettles | src/Game/Player.py:47-52 | one pass changes an intersection only by setting this player's settlement flag |
| Game.SetupOnlySettles | src/Game/Player.py:44-55 | over any stretch of passes, intersections change only by this player's settlement flag being set |
| Game.SetupSettlesTopChoice | src/Game/Player.py:46-52 | in turn 0 the top-scored intersection, if vacant, gets the player's settlement |
| Game.AttemptSettles | src/Game/Player.py:48-49 | in turn 0 a pass whose choice is vacant puts the player's settlement there |
| Game.SetupSettlesEveryVacantChoice | src/Game/Player.py:44-55 | in turn 0 every pass whose choice is vacant settles it, and the settlement is still there after any later pass, the 53rd included |
| Game.SetupSettlesTwice | src/Game/Player.py:46-55 | in turn 0 the loop goes on past a successful build and also settles the second-best vacant intersection |
| Game.SetupPhase | src/Game/GameManager.py:62-63 | the whole set-up round, each player running its loop with its own hand, keeps every intersection well formed |
| Game.SetupPhaseStep | src/Game/GameManager.py:62-63 | the round is each player's set-up loop in turn, with that player's hand, applied to the board the previous one left |
| Game.SetupPhaseKeepsBuildings | src/Game/GameManager.py:62-63 | the set-up round changes only settlement flags, and never clears one |
| Game.Play | src/Game/GameManager.py:68-97 | the turn loop ends at turn counter 10 with player 0 scored 10 |
| Game.PlayEnds | src/Game/GameManager.py:68-100 | from any turn state the game ends at counter 10, the turn passed on once for every turn but the last, and scores of 10 for player 0 and 9 for the others (or only player 0 rescored when one turn was left) |
| Game.GeneratedBoard | src/Game/GameManager.py:12-14 | a fresh four-player board, generated from the two shuffles |
| Game.Player.constructor | src/Game/Player.py:2-31 | a new player has index 0, no game, and zero counts of every kind |
| Game.Player.AssembleInputVector | src/Game/Player.py:81-88 | the board vector followed by the player's four card lists: 1330 entries, the settlements at 270..486 and the player's resource cards last |
| Game.Player.Setup | src/Game/Player.py:33-55 | tries exactly 53 intersections and leaves the board and the hand as 53 passes of the set-up loop make them |
| Game.GameManager.constructor | src/Game/GameManager.py:10-35 | builds a fresh generated board with the hex table and empty road slots, numbers the players, runs the snake set-up round on the generated intersections with each player's own hand, leaves every hand as it was, and plays the turns to the end |
| Game.GameManager.Start | src/Game/GameManager.py:28-35 | numbers the players, runs the set-up round and plays the turns; of each player only the index, the game and the hand may change, and the hand does not |
| Game.GameManager.JoinPlayers | src/Game/GameManager.py:28-30 | player i gets index i and this game |
| Game.GameManager.SetupPlayers | src/Game/GameManager.py:37-66 | records the starting player, runs the snake set-up round, and plays the turns from the starting player |
| Game.GameManager.SetupRound | src/Game/GameManager.py:62-63 | runs every player's set-up loop in the given order, each with its own hand; no hand changes |
| Game.GameManager.FirstTurn | src/Game/GameManager.py:65-66 | the starting player moves first and the turns are played to the end |
| Game.GameManager.CountPoints | src/Game/GameManager.py:99-100 | a player's score is the turn counter, whichever player is asked |
| Game.GameManager.Turn | src/Game/GameManager.py:68-97 | leaves turn counter, player to move and scores as the turn loop specifies |
| Game.GameManager.EndTurn | src/Game/GameManager.py:103-114 | passes if and only if it is not turn 0, and then moves the turn on by one |
| Game.GameManager.BuildSettlement | src/Game/GameManager.py:116-156 | answers, changes the board and charges the hand exactly as the settlement rule specifies |

## Left out

- Printing (`print` in every file), and the `__main__` blocks of `GameManager.py` and `RoadNetwork.py`: output only.
- `Player.action`, `Player.evaluateNetwork` and the `move_function` agent are not modelled: the agent is code the model cannot see. The set-up loop takes the agent's "Settlements" scores as an input. The model leaves out that the loop zeroes entries of the agent's own list.
- `Player.endGame`, `Player.updateOtherPlayers`, `GameManager.isMoveValid` and `GameManager.updateBoard` are empty (`pass`) and have no effect to model. `RoadNetwork.breakRoadAtNode` is empty too; it is modelled as a no-op because the road network's own operations are all modelled.
- The unused `number_of_power_cards` local in the `GameManager` constructor does not appear in the model.
- `random.shuffle` and `random.randrange` are inputs, limited to the values they can produce.
- Graph.ConstructNodeConnectivityMatrix: endpoints are natural numbers (`Graph.Pair` has `nat` fields). A negative endpoint in Python indexes the matrix from the end instead of raising; that case is not modelled, and no caller builds one.
- Board.ProbabilityOfRoll: requires a roll from 0 to 12, the table's length. Python raises `IndexError` for a larger roll and reads from the end for a negative one; only the markers 2 to 12 ever reach it.
- RoadNetwork.RoadNetwork.AddRoad: the repaired road takes a slot index from 0 to 71 only. A negative index Python accepts, and the `IndexError` of an index out of range, are covered by `RoadNetwork.SlotNodes` and `RoadNetwork.RoadNetwork.AddRoadAsWritten` but not by this method.
- Graph.Graph.constructor: models `Graph()` called without arguments only, as every caller does. In the source the default lists `nodes=[]` and `edges=[]` belong to the function. So every graph built without arguments, every road network among them, shares one node list and one edge list. The model gives each graph its own lists and does not capture that sharing.
- Node and edge variable dictionaries are maps from names to integers. Road-network nodes carry `board_index` and edges carry `edge_index`. Nothing reads them back.
- Game.GameManager.Turn: requires a turn counter below 10. With a counter of 10 or more on entry, no score equals 10 again, so the source keeps recursing until Python raises `RecursionError` at its recursion limit; that failure is not modelled.
- Game.GameManager.constructor: requires exactly four distinct players, as the source's four-player board and `setup_players` indexing need. It requires one non-empty score list of at most 54 entries per set-up call. With an empty list the source's `max` raises `ValueError`, and a longer one could name a missing intersection. The source's behaviour with other player lists (an `IndexError`, or aliased players) is not modelled.
- Game.Player.AssembleInputVector and Game.Player.Setup: require the player to belong to a game (`game_manager` not `None`). The source fails with an `AttributeError` otherwise.
- Game.GameManager.BuildSettlement and Game.Player.Setup: require a node index below 54 and a player index below 4. The source relies on callers for both.
- Player cards and hands are integer lists; Python's arbitrary-precision integers need no wrap-around.
- Game.Play: the returned scores follow `count_points`, which returns the turn counter. Settlements, cities and longest road do not count.
- Game.GameManager.EndTurn: moves the turn on by one without wrapping, exactly as the source does. No rotation property is claimed.

## Findings

| source | as written | input that shows it | evidently intended | confidence | as-written member | corrected member |
|---|---|---|---|---|---|---|
| src/Game/RoadNetwork.py:20 | reads `self.game_board.edges[edge_index].nodes`, but the board's `Edge` has only `node_1` and `node_2` (src/Game/Board.py:50-63), so every call raises `AttributeError` before adding anything | `addRoad(14)` on `Board(4)`, the test's first road (`RoadNetwork.SlotFourteenRaises`) | read `node_1` and `node_2` of the slot | high; not executed | RoadNetwork.RoadNetwork.AddRoadAsWritten | RoadNetwork.RoadNetwork.AddRoad |
