/**
 * The rules of one game, src/Game/GameManager.py and src/Game/Player.py: the
 * turn order, the set-up round in which every player places settlements,
 * the settlement rule, and the turn loop that ends the game.
 *
 * `GameManager.buildSettlement` answers `False` when it refuses and falls off
 * its end (Python's `None`) when it builds, so `Player.setup` never sees a
 * success: in the set-up round it settles every vacant node it tries, until
 * its 53 attempts are spent. The model keeps that behaviour and proves it
 * (`SetupSettlesTwice`).
 */
module Game {
  import opened Wrappers
  import B = Board

  const NumberOfPlayers: nat := 4
  /** The attempts `Player.setup` makes before it gives up. */
  const SetupAttempts: nat := 53
  /** The score that ends the game. */
  const WinningPoints: int := 10

  // ---------------------------------------------------------------------
  // Turn order
  // ---------------------------------------------------------------------

  /** `loopingIterator`: the next player index up (or down), wrapping round at `players`. */
  function LoopingIterator(currentIndex: int, increment: bool, players: int): (next: int)
    ensures 0 <= currentIndex < players ==> 0 <= next < players
    ensures 0 <= currentIndex < players ==>
              next == if increment then (currentIndex + 1) % players else (currentIndex - 1) % players
  {
    WrapStep(currentIndex, players);
    if increment then
      var nextValue := currentIndex + 1;
      if nextValue == players then 0 else nextValue
    else
      var nextValue := currentIndex - 1;
      if nextValue == -1 then players - 1 else nextValue
  }

  /** Wrapping at the ends of the table is arithmetic modulo the number of players. */
  lemma WrapStep(currentIndex: int, players: int)
    ensures 0 <= currentIndex < players ==>
              (currentIndex + 1) % players == (if currentIndex + 1 == players then 0 else currentIndex + 1)
    ensures 0 <= currentIndex < players ==>
              (currentIndex - 1) % players == (if currentIndex == 0 then players - 1 else currentIndex - 1)
  {
    if 0 <= currentIndex < players {
      if currentIndex + 1 == players {
        assert (currentIndex + 1) % players == 0;
      }
      if currentIndex == 0 {
        assert -1 == (-1) * players + (players - 1);
      }
    }
  }

  /** One more step up adds one modulo four. */
  lemma SuccMod(a: int)
    ensures (a % NumberOfPlayers + 1) % NumberOfPlayers == (a + 1) % NumberOfPlayers
  {
    var q := a / NumberOfPlayers;
    assert a == NumberOfPlayers * q + a % NumberOfPlayers;
    if a % NumberOfPlayers == 3 {
      assert a + 1 == NumberOfPlayers * (q + 1);
    } else {
      assert a + 1 == NumberOfPlayers * q + (a % NumberOfPlayers + 1);
    }
  }

  /** Stepping down undoes stepping up, and the other way round. */
  lemma LoopingIteratorInverse(currentIndex: int, players: int)
    requires 0 <= currentIndex < players
    ensures LoopingIterator(LoopingIterator(currentIndex, true, players), false, players) == currentIndex
    ensures LoopingIterator(LoopingIterator(currentIndex, false, players), true, players) == currentIndex
  {
  }

  /** `k` steps up the table of four players from `currentIndex`. */
  function StepsUp(currentIndex: int, k: nat): int {
    if k == 0 then currentIndex else LoopingIterator(StepsUp(currentIndex, k - 1), true, NumberOfPlayers)
  }

  /** `k` steps up land on `currentIndex + k` modulo 4, so four steps come home. */
  lemma {:induction false} StepsUpWrap(currentIndex: int, k: nat)
    requires 0 <= currentIndex < NumberOfPlayers
    ensures StepsUp(currentIndex, k) == (currentIndex + k) % NumberOfPlayers
  {
    if k > 0 {
      StepsUpWrap(currentIndex, k - 1);
      SuccMod(currentIndex + k - 1);
    }
  }

  /**
   * The order of the set-up round: the starting player and the next three
   * going round the table, then the same four coming back.
   */
  function SnakeOrder(startingPlayer: int): seq<int> {
    var s := startingPlayer;
    [s, (s + 1) % 4, (s + 2) % 4, (s + 3) % 4, (s + 3) % 4, (s + 2) % 4, (s + 1) % 4, s]
  }

  /** The set-up round reads the same backwards, and begins and ends with the starting player. */
  lemma SnakeOrderPalindrome(startingPlayer: int)
    requires 0 <= startingPlayer < NumberOfPlayers
    ensures |SnakeOrder(startingPlayer)| == 8
    ensures forall i :: 0 <= i < 8 ==> SnakeOrder(startingPlayer)[i] == SnakeOrder(startingPlayer)[7 - i]
    ensures SnakeOrder(startingPlayer)[0] == SnakeOrder(startingPlayer)[7] == startingPlayer
  {
  }

  /**
   * The set-up order goes up the table from the starting player for four
   * places, repeats the fourth, and comes back down.
   */
  lemma SnakeOrderSteps(startingPlayer: int)
    requires 0 <= startingPlayer < NumberOfPlayers
    ensures |SnakeOrder(startingPlayer)| == 8 && SnakeOrder(startingPlayer)[0] == startingPlayer
    ensures forall i :: 0 <= i < 3 ==>
              SnakeOrder(startingPlayer)[i + 1] == LoopingIterator(SnakeOrder(startingPlayer)[i], true, NumberOfPlayers)
    ensures SnakeOrder(startingPlayer)[4] == SnakeOrder(startingPlayer)[3]
    ensures forall i :: 4 <= i < 7 ==>
              SnakeOrder(startingPlayer)[i + 1] == LoopingIterator(SnakeOrder(startingPlayer)[i], false, NumberOfPlayers)
  {
  }

  /**
   * Every player places exactly once on the way out (and so, the order
   * being a palindrome, exactly once on the way back).
   */
  lemma SnakeOrderFair(startingPlayer: int)
    requires 0 <= startingPlayer < NumberOfPlayers
    ensures |SnakeOrder(startingPlayer)| == 8
    ensures forall i, j :: 0 <= i < j < 4 ==> SnakeOrder(startingPlayer)[i] != SnakeOrder(startingPlayer)[j]
    ensures forall player :: 0 <= player < NumberOfPlayers ==> player in SnakeOrder(startingPlayer)[..4]
  {
    var order := SnakeOrder(startingPlayer);
    forall player | 0 <= player < NumberOfPlayers ensures player in order[..4] {
      assert order[(player - startingPlayer) % 4] == player;
    }
  }

  /** `setup_players`, lines 55-60: the set-up order built with `loopingIterator`. */
  method SetupOrder(startingPlayer: int) returns (setupOrder: seq<int>)
    requires 0 <= startingPlayer < NumberOfPlayers
    ensures setupOrder == SnakeOrder(startingPlayer)
  {
    ghost var snake := SnakeOrder(startingPlayer);
    SnakeOrderSteps(startingPlayer);
    setupOrder := seq(8, _ => startingPlayer);
    for i := 0 to 3
      invariant |setupOrder| == 8
      invariant forall j :: 0 <= j <= i ==> setupOrder[j] == snake[j]
    {
      setupOrder := setupOrder[i + 1 := LoopingIterator(setupOrder[i], true, NumberOfPlayers)];
    }
    setupOrder := setupOrder[4 := setupOrder[3]];
    for i := 0 to 3
      invariant |setupOrder| == 8
      invariant forall j :: 0 <= j <= i + 4 ==> setupOrder[j] == snake[j]
    {
      setupOrder := setupOrder[i + 5 := LoopingIterator(setupOrder[i + 4], false, NumberOfPlayers)];
    }
  }

  // ---------------------------------------------------------------------
  // The settlement rule
  // ---------------------------------------------------------------------

  /** A settlement costs one wheat, brick, sheep and wood (cards 0, 2, 3 and 4); stone is not needed. */
  predicate CanAfford(cards: seq<int>)
    requires |cards| == B.NumberOfResources
  {
    cards[0] > 0 && cards[2] > 0 && cards[3] > 0 && cards[4] > 0
  }

  /** The hand after paying for a settlement. */
  function Pay(cards: seq<int>): (paid: seq<int>)
    requires |cards| == B.NumberOfResources
    ensures |paid| == |cards| && paid[1] == cards[1]
    ensures forall r :: 0 <= r < |cards| && r != 1 ==> paid[r] == cards[r] - 1
  {
    cards[0 := cards[0] - 1][2 := cards[2] - 1][3 := cards[3] - 1][4 := cards[4] - 1]
  }

  /** The intersection with the settlement flag of `playerIndex` raised. */
  function Settle(node: B.Node, playerIndex: nat): B.Node
    requires playerIndex < |node.settlement|
  {
    node.(settlement := node.settlement[playerIndex := 1])
  }

  /**
   * What `buildSettlement` answers, and the intersections and hand after it:
   * `Some(false)` for Python's `False`, `None` for the `None` it returns
   * after building.
   */
  datatype Outcome = Outcome(result: Option<bool>, nodes: seq<B.Node>, cards: seq<int>)

  /**
   * `buildSettlement`: refused on an occupied intersection, and outside the
   * set-up round (turn 0) when the hand cannot pay; otherwise the player's
   * settlement flag is raised and, outside the set-up round, the hand pays.
   */
  function BuildOutcome(nodes: seq<B.Node>, cards: seq<int>, turnCounter: int, playerIndex: nat, nodeIndex: nat): (r: Outcome)
    requires nodeIndex < |nodes| && |cards| == B.NumberOfResources
    requires playerIndex < |nodes[nodeIndex].settlement| && |nodes[nodeIndex].city| <= |nodes[nodeIndex].settlement|
    ensures r.result != Some(true)
    ensures r.result == None <==> B.Vacant(nodes[nodeIndex]) && (turnCounter == 0 || CanAfford(cards))
    ensures |r.nodes| == |nodes| && forall v :: 0 <= v < |nodes| && v != nodeIndex ==> r.nodes[v] == nodes[v]
    ensures r.result == None ==> r.nodes[nodeIndex] == Settle(nodes[nodeIndex], playerIndex)
    ensures r.result == None ==> r.cards == if turnCounter == 0 then cards else Pay(cards)
    ensures r.result != None ==> r.nodes == nodes && r.cards == cards
  {
    if !B.Vacant(nodes[nodeIndex]) then Outcome(Some(false), nodes, cards)
    else if turnCounter != 0 && !CanAfford(cards) then Outcome(Some(false), nodes, cards)
    else
      var settled := nodes[nodeIndex := Settle(nodes[nodeIndex], playerIndex)];
      Outcome(None, settled, if turnCounter != 0 then Pay(cards) else cards)
  }

  /** Building keeps every intersection well formed and the hand five cards long. */
  lemma BuildKeepsBoard(nodes: seq<B.Node>, cards: seq<int>, turnCounter: int, playerIndex: nat, nodeIndex: nat)
    requires B.AllNodesOk(nodes, NumberOfPlayers) && nodeIndex < |nodes| && playerIndex < NumberOfPlayers
    requires |cards| == B.NumberOfResources
    ensures B.AllNodesOk(BuildOutcome(nodes, cards, turnCounter, playerIndex, nodeIndex).nodes, NumberOfPlayers)
    ensures |BuildOutcome(nodes, cards, turnCounter, playerIndex, nodeIndex).cards| == B.NumberOfResources
  {
    var node := nodes[nodeIndex];
    assert B.WellFormedNode(node, NumberOfPlayers);
    var settled := Settle(node, playerIndex);
    assert B.ProbabilitiesMatchRolls(settled) == B.ProbabilitiesMatchRolls(node);
  }

  /** A settlement just built occupies its intersection, so a second build there is refused. */
  lemma BuildOccupies(nodes: seq<B.Node>, cards: seq<int>, turnCounter: int, playerIndex: nat, nodeIndex: nat,
                      cards2: seq<int>, turnCounter2: int, playerIndex2: nat)
    requires B.AllNodesOk(nodes, NumberOfPlayers) && nodeIndex < |nodes| && |cards| == |cards2| == B.NumberOfResources
    requires playerIndex < NumberOfPlayers && playerIndex2 < NumberOfPlayers
    requires BuildOutcome(nodes, cards, turnCounter, playerIndex, nodeIndex).result == None
    ensures !B.Vacant(BuildOutcome(nodes, cards, turnCounter, playerIndex, nodeIndex).nodes[nodeIndex])
    ensures BuildOutcome(BuildOutcome(nodes, cards, turnCounter, playerIndex, nodeIndex).nodes,
                         cards2, turnCounter2, playerIndex2, nodeIndex).result == Some(false)
  {
    var after := BuildOutcome(nodes, cards, turnCounter, playerIndex, nodeIndex).nodes;
    assert B.WellFormedNode(nodes[nodeIndex], NumberOfPlayers);
    assert after[nodeIndex].settlement[playerIndex] == 1;
    assert playerIndex < |after[nodeIndex].city|;
  }

  /** A hand without debts never goes into debt by building. */
  lemma BuildKeepsHandSolvent(nodes: seq<B.Node>, cards: seq<int>, turnCounter: int, playerIndex: nat, nodeIndex: nat)
    requires B.AllNodesOk(nodes, NumberOfPlayers) && nodeIndex < |nodes| && playerIndex < NumberOfPlayers
    requires |cards| == B.NumberOfResources && forall r :: 0 <= r < |cards| ==> cards[r] >= 0
    ensures var after := BuildOutcome(nodes, cards, turnCounter, playerIndex, nodeIndex).cards;
            forall r :: 0 <= r < |after| ==> after[r] >= 0
  {
  }

  // ---------------------------------------------------------------------
  // The set-up round of one player
  // ---------------------------------------------------------------------

  /** `settlements_vector.index(max(settlements_vector))`: the first position of the largest score. */
  function FirstMaxIndex(v: seq<int>): (i: nat)
    requires |v| > 0
    ensures i < |v|
    ensures forall j :: 0 <= j < |v| ==> v[j] <= v[i]
    ensures forall j :: 0 <= j < i ==> v[j] < v[i]
  {
    if |v| == 1 then 0
    else
      var k := FirstMaxIndex(v[..|v| - 1]);
      if v[|v| - 1] > v[k] then |v| - 1 else k
  }

  /** The state of the loop in `Player.setup`: the board, the hand, the remaining scores and the flag. */
  datatype SetupState = SetupState(nodes: seq<B.Node>, cards: seq<int>, vector: seq<int>, built: bool)

  predicate SetupStateOk(s: SetupState, playerIndex: nat) {
    && B.AllNodesOk(s.nodes, NumberOfPlayers)
    && |s.cards| == B.NumberOfResources
    && 0 < |s.vector| <= B.NumberOfNodes
    && playerIndex < NumberOfPlayers
  }

  /** One pass of the loop: try the best-scored node; on a falsy answer its score drops to 0. */
  function SetupAttempt(s: SetupState, turnCounter: int, playerIndex: nat): (r: SetupState)
    requires SetupStateOk(s, playerIndex)
    ensures SetupStateOk(r, playerIndex) && |r.vector| == |s.vector|
  {
    var desired := FirstMaxIndex(s.vector);
    BuildKeepsBoard(s.nodes, s.cards, turnCounter, playerIndex, desired);
    var o := BuildOutcome(s.nodes, s.cards, turnCounter, playerIndex, desired);
    var built := o.result == Some(true);
    SetupState(o.nodes, o.cards, if built then s.vector else s.vector[desired := 0], built)
  }

  /** The state after `k` passes of the loop, stopping early once a build is reported. */
  function SetupRun(s: SetupState, turnCounter: int, playerIndex: nat, k: nat): (r: SetupState)
    requires SetupStateOk(s, playerIndex)
    ensures SetupStateOk(r, playerIndex) && |r.vector| == |s.vector|
  {
    if k == 0 then s
    else
      var before := SetupRun(s, turnCounter, playerIndex, k - 1);
      if before.built then before else SetupAttempt(before, turnCounter, playerIndex)
  }

  /** `buildSettlement` never answers truthily, so the loop never sees a settlement built. */
  lemma {:induction false} SetupNeverSeesSuccess(s: SetupState, turnCounter: int, playerIndex: nat, k: nat)
    requires SetupStateOk(s, playerIndex) && !s.built
    ensures !SetupRun(s, turnCounter, playerIndex, k).built
  {
    if k > 0 {
      SetupNeverSeesSuccess(s, turnCounter, playerIndex, k - 1);
    }
  }

  /** In the set-up round (turn 0) building is free: the hand is untouched. */
  lemma {:induction false} SetupIsFree(s: SetupState, playerIndex: nat, k: nat)
    requires SetupStateOk(s, playerIndex)
    ensures SetupRun(s, 0, playerIndex, k).cards == s.cards
  {
    if k > 0 {
      SetupIsFree(s, playerIndex, k - 1);
    }
  }

  /** In the set-up round a pass does the same whatever the hand holds, and keeps the hand. */
  lemma AttemptIgnoresHand(s: SetupState, cards: seq<int>, playerIndex: nat)
    requires SetupStateOk(s, playerIndex) && |cards| == B.NumberOfResources
    ensures SetupAttempt(s.(cards := cards), 0, playerIndex) == SetupAttempt(s, 0, playerIndex).(cards := cards)
  {
    var desired := FirstMaxIndex(s.vector);
    var o1 := BuildOutcome(s.nodes, cards, 0, playerIndex, desired);
    var o2 := BuildOutcome(s.nodes, s.cards, 0, playerIndex, desired);
    assert o1.nodes == o2.nodes;
  }

  /**
   * `after` is `before` with, at most, the settlement flag of `playerIndex`
   * raised: every other flag and field is kept, and a raised flag stays raised.
   */
  predicate OnlySettled(before: B.Node, after: B.Node, playerIndex: nat) {
    && after == before.(settlement := after.settlement)
    && |after.settlement| == |before.settlement|
    && (forall q :: 0 <= q < |before.settlement| && q != playerIndex ==> after.settlement[q] == before.settlement[q])
    && (playerIndex < |before.settlement| && before.settlement[playerIndex] == 1 ==> after.settlement[playerIndex] == 1)
  }

  /** Two stretches that only raise this player's settlement flag make one such stretch. */
  lemma OnlySettledTrans(a: B.Node, b: B.Node, c: B.Node, playerIndex: nat)
    requires OnlySettled(a, b, playerIndex) && OnlySettled(b, c, playerIndex)
    ensures OnlySettled(a, c, playerIndex)
  {
  }

  /** One pass of the loop changes an intersection only by raising this player's settlement flag. */
  lemma RunStepOnlySettles(s: SetupState, turnCounter: int, playerIndex: nat, k: nat, v: nat)
    requires SetupStateOk(s, playerIndex) && k > 0 && v < B.NumberOfNodes
    ensures OnlySettled(SetupRun(s, turnCounter, playerIndex, k - 1).nodes[v], SetupRun(s, turnCounter, playerIndex, k).nodes[v], playerIndex)
  {
    var middle := SetupRun(s, turnCounter, playerIndex, k - 1);
    if !middle.built {
      var desired := FirstMaxIndex(middle.vector);
      assert B.WellFormedNode(middle.nodes[desired], NumberOfPlayers);
    }
  }

  /**
   * Between any two points of the loop, only this player's settlement flags
   * change, and a raised flag stays raised.
   */
  lemma {:induction false} SetupOnlySettles(s: SetupState, turnCounter: int, playerIndex: nat, j: nat, k: nat, v: nat)
    requires SetupStateOk(s, playerIndex) && j <= k && v < B.NumberOfNodes
    ensures OnlySettled(SetupRun(s, turnCounter, playerIndex, j).nodes[v], SetupRun(s, turnCounter, playerIndex, k).nodes[v], playerIndex)
  {
    if j < k {
      SetupOnlySettles(s, turnCounter, playerIndex, j, k - 1, v);
      RunStepOnlySettles(s, turnCounter, playerIndex, k, v);
      var first := SetupRun(s, turnCounter, playerIndex, j).nodes[v];
      var before := SetupRun(s, turnCounter, playerIndex, k - 1).nodes[v];
      var after := SetupRun(s, turnCounter, playerIndex, k).nodes[v];
      OnlySettledTrans(first, before, after, playerIndex);
    }
  }

  /** In the set-up round, a vacant top choice is settled by the first attempt and stays settled. */
  lemma SetupSettlesTopChoice(s: SetupState, playerIndex: nat, k: nat)
    requires SetupStateOk(s, playerIndex) && !s.built && k >= 1
    requires B.Vacant(s.nodes[FirstMaxIndex(s.vector)])
    ensures SetupRun(s, 0, playerIndex, k).nodes[FirstMaxIndex(s.vector)].settlement[playerIndex] == 1
  {
    var top := FirstMaxIndex(s.vector);
    assert SetupRun(s, 0, playerIndex, 1).nodes[top].settlement[playerIndex] == 1;
    SetupOnlySettles(s, 0, playerIndex, 1, k, top);
  }

  /** In the set-up round a pass whose choice is vacant puts this player's settlement there. */
  lemma AttemptSettles(s: SetupState, playerIndex: nat)
    requires SetupStateOk(s, playerIndex) && B.Vacant(s.nodes[FirstMaxIndex(s.vector)])
    ensures SetupAttempt(s, 0, playerIndex).nodes[FirstMaxIndex(s.vector)].settlement[playerIndex] == 1
  {
  }

  /** So pass j + 1 settles the choice of pass j when it is vacant. */
  lemma RunSettles(s: SetupState, playerIndex: nat, j: nat)
    requires SetupStateOk(s, playerIndex) && !s.built
    requires B.Vacant(SetupRun(s, 0, playerIndex, j).nodes[FirstMaxIndex(SetupRun(s, 0, playerIndex, j).vector)])
    ensures SetupRun(s, 0, playerIndex, j + 1).nodes[FirstMaxIndex(SetupRun(s, 0, playerIndex, j).vector)].settlement[playerIndex] == 1
  {
    var before := SetupRun(s, 0, playerIndex, j);
    SetupNeverSeesSuccess(s, 0, playerIndex, j);
    AttemptSettles(before, playerIndex);
  }

  /**
   * In the set-up round every pass whose choice is vacant settles it, and the
   * settlement survives every later pass: after pass j the choice is
   * `FirstMaxIndex` of the scores left, and at any k > j it is still held.
   */
  lemma SetupSettlesEveryVacantChoice(s: SetupState, playerIndex: nat, j: nat, k: nat)
    requires SetupStateOk(s, playerIndex) && !s.built && j < k
    requires B.Vacant(SetupRun(s, 0, playerIndex, j).nodes[FirstMaxIndex(SetupRun(s, 0, playerIndex, j).vector)])
    ensures SetupRun(s, 0, playerIndex, k).nodes[FirstMaxIndex(SetupRun(s, 0, playerIndex, j).vector)].settlement[playerIndex] == 1
  {
    RunSettles(s, playerIndex, j);
    SetupOnlySettles(s, 0, playerIndex, j + 1, k, FirstMaxIndex(SetupRun(s, 0, playerIndex, j).vector));
  }

  /**
   * Because the loop never sees a success, one set-up call settles the second
   * choice as well when it is vacant: the player ends the call with
   * settlements on both intersections.
   */
  lemma SetupSettlesTwice(s: SetupState, playerIndex: nat, k: nat)
    requires SetupStateOk(s, playerIndex) && !s.built && k >= 2
    requires B.Vacant(s.nodes[FirstMaxIndex(s.vector)])
    requires var second := FirstMaxIndex(s.vector[FirstMaxIndex(s.vector) := 0]);
             second != FirstMaxIndex(s.vector) && B.Vacant(s.nodes[second])
    ensures var top := FirstMaxIndex(s.vector);
            var second := FirstMaxIndex(s.vector[top := 0]);
            var after := SetupRun(s, 0, playerIndex, k).nodes;
            after[top].settlement[playerIndex] == 1 && after[second].settlement[playerIndex] == 1
  {
    var top := FirstMaxIndex(s.vector);
    var second := FirstMaxIndex(s.vector[top := 0]);
    assert SetupRun(s, 0, playerIndex, 0) == s;
    var one := SetupRun(s, 0, playerIndex, 1);
    assert one == SetupAttempt(s, 0, playerIndex);
    assert one.vector == s.vector[top := 0] && !one.built;
    assert one.nodes[second] == s.nodes[second];
    assert SetupRun(s, 0, playerIndex, 2).nodes[second].settlement[playerIndex] == 1;
    SetupSettlesTopChoice(s, playerIndex, k);
    SetupOnlySettles(s, 0, playerIndex, 2, k, second);
  }

  // ---------------------------------------------------------------------
  // The whole set-up round
  // ---------------------------------------------------------------------

  predicate VectorsOk(order: seq<int>, vectors: seq<seq<int>>) {
    && |vectors| == |order|
    && forall i :: 0 <= i < |order| ==> 0 <= order[i] < NumberOfPlayers && 0 < |vectors[i]| <= B.NumberOfNodes
  }

  /** One hand of five resource counts per player. */
  predicate HandsOk(hands: seq<seq<int>>) {
    |hands| == NumberOfPlayers && forall p :: 0 <= p < |hands| ==> |hands[p]| == B.NumberOfResources
  }

  /**
   * The intersections after the players of `order` each ran the set-up
   * loop in turn 0, the i-th with the scores `vectors[i]` and its own hand.
   */
  function SetupPhase(nodes: seq<B.Node>, order: seq<int>, vectors: seq<seq<int>>, hands: seq<seq<int>>): (r: seq<B.Node>)
    requires B.AllNodesOk(nodes, NumberOfPlayers) && VectorsOk(order, vectors) && HandsOk(hands)
    ensures B.AllNodesOk(r, NumberOfPlayers)
  {
    if order == [] then nodes
    else
      var n := |order| - 1;
      var before := SetupPhase(nodes, order[..n], vectors[..n], hands);
      SetupRun(SetupState(before, hands[order[n]], vectors[n], false), 0, order[n], SetupAttempts).nodes
  }

  /** One more player of the order runs its set-up loop. */
  lemma SetupPhaseStep(nodes: seq<B.Node>, order: seq<int>, vectors: seq<seq<int>>, hands: seq<seq<int>>, i: nat)
    requires B.AllNodesOk(nodes, NumberOfPlayers) && VectorsOk(order, vectors) && HandsOk(hands) && i < |order|
    ensures VectorsOk(order[..i], vectors[..i]) && VectorsOk(order[..i + 1], vectors[..i + 1])
    ensures SetupPhase(nodes, order[..i + 1], vectors[..i + 1], hands)
            == SetupRun(SetupState(SetupPhase(nodes, order[..i], vectors[..i], hands), hands[order[i]], vectors[i], false),
                        0, order[i], SetupAttempts).nodes
  {
    assert order[..i + 1][..i] == order[..i];
    assert vectors[..i + 1][..i] == vectors[..i];
  }

  /** Across the set-up round no settlement flag is ever lowered, and no city or roll changes. */
  lemma {:induction false} SetupPhaseKeepsBuildings(nodes: seq<B.Node>, order: seq<int>, vectors: seq<seq<int>>, hands: seq<seq<int>>, v: nat, q: nat)
    requires B.AllNodesOk(nodes, NumberOfPlayers) && VectorsOk(order, vectors) && HandsOk(hands)
    requires v < B.NumberOfNodes && q < NumberOfPlayers
    ensures SetupPhase(nodes, order, vectors, hands)[v] == nodes[v].(settlement := SetupPhase(nodes, order, vectors, hands)[v].settlement)
    ensures nodes[v].settlement[q] == 1 ==> SetupPhase(nodes, order, vectors, hands)[v].settlement[q] == 1
  {
    if order != [] {
      var n := |order| - 1;
      SetupPhaseKeepsBuildings(nodes, order[..n], vectors[..n], hands, v, q);
      var before := SetupPhase(nodes, order[..n], vectors[..n], hands);
      var s := SetupState(before, hands[order[n]], vectors[n], false);
      SetupOnlySettles(s, 0, order[n], 0, SetupAttempts, v);
    }
  }

  // ---------------------------------------------------------------------
  // The turn loop
  // ---------------------------------------------------------------------

  /** The turn counter, whose player moves, and the points of the four players. */
  datatype TurnState = TurnState(turnCounter: int, playerTurn: int, points: seq<int>)

  predicate TurnStateOk(t: TurnState) {
    0 <= t.turnCounter < WinningPoints && 0 <= t.playerTurn < NumberOfPlayers && |t.points| == NumberOfPlayers
  }

  /**
   * `turn`, from the given state until it returns: each turn counts up, every
   * player is scored with the turn counter (`count_points`), and the turn
   * passes on, until a score reaches 10.
   */
  function Play(t: TurnState): (r: TurnState)
    requires TurnStateOk(t)
    ensures |r.points| == NumberOfPlayers && 0 <= r.playerTurn < NumberOfPlayers
    ensures r.turnCounter == WinningPoints && r.points[0] == WinningPoints
    decreases WinningPoints - t.turnCounter
  {
    var turnCounter := t.turnCounter + 1;
    if turnCounter == WinningPoints then TurnState(turnCounter, t.playerTurn, t.points[0 := turnCounter])
    else Play(TurnState(turnCounter, if t.playerTurn != 3 then t.playerTurn + 1 else 0, seq(NumberOfPlayers, _ => turnCounter)))
  }

  /**
   * Player 0 always wins, at turn 10: it is scored first and its score is
   * the turn counter. The others hold 9 unless the game was already at turn
   * 9, and the turn has moved on once per turn but the last.
   */
  lemma {:induction false} PlayEnds(t: TurnState)
    requires TurnStateOk(t)
    ensures Play(t) == TurnState(WinningPoints, (t.playerTurn + 9 - t.turnCounter) % NumberOfPlayers,
                                 if t.turnCounter == 9 then t.points[0 := WinningPoints] else [10, 9, 9, 9])
    decreases WinningPoints - t.turnCounter
  {
    var turnCounter := t.turnCounter + 1;
    if turnCounter != WinningPoints {
      var next := TurnState(turnCounter, if t.playerTurn != 3 then t.playerTurn + 1 else 0, seq(NumberOfPlayers, _ => turnCounter));
      PlayEnds(next);
      if turnCounter == 9 {
        assert next.points[0 := WinningPoints] == [10, 9, 9, 9];
      }
    }
  }

  /** The hands of resource cards of `players`, in order. */
  ghost function HandsOf(players: seq<Player>): (hands: seq<seq<int>>)
    reads players
    ensures |hands| == |players| && forall p :: 0 <= p < |players| ==> hands[p] == players[p].resourceCards
  {
    seq(|players|, p requires 0 <= p < |players| reads players => players[p].resourceCards)
  }

  /** `Board(4)` then `generateBoard`, with the two shuffles as inputs. */
  method GeneratedBoard(resources: seq<int>, markers: seq<nat>) returns (board: B.Board)
    requires B.IsShuffleOf(resources, B.HexResources) && B.IsShuffleOf(markers, B.NumberMarkers)
    ensures fresh(board) && board.Valid() && board.numberOfPlayers == NumberOfPlayers
    ensures board.hexNodeConnectivity == B.HexNodeConnectivity
    ensures forall k :: 0 <= k < |board.edges| ==> board.edges[k].road == Zeros(NumberOfPlayers)
    ensures B.HexOrder(resources) && B.ValidKinds(B.ProductionKinds(resources)) && |markers| == 18 && B.ValidMarkers(markers)
    ensures board.nodes == B.ApplyHexes(B.FreshNodes(NumberOfPlayers), NumberOfPlayers, board.hexNodeConnectivity,
                                        B.ProductionKinds(resources), markers)
  {
    board := new B.Board(NumberOfPlayers);
    ghost var hexes := board.GenerateBoard(resources, markers);
  }

  // ---------------------------------------------------------------------
  // Players and the game manager
  // ---------------------------------------------------------------------

  /** `Player`: its index, its game, and what it knows about cards. */
  class Player {
    var playerIndex: nat
    var gameManager: GameManager?
    var numberOfResourceCards: seq<int>
    var numberOfPowerCards: seq<int>
    /** [knight, take 2 resources, construct 2 roads, monopoly, victory point] */
    var powerCards: seq<int>
    /** [wheat, stone, brick, sheep, wood] */
    var resourceCards: seq<int>

    ghost predicate Ok()
      reads this
    {
      && |numberOfResourceCards| == 3 && |numberOfPowerCards| == 3
      && |powerCards| == 5 && |resourceCards| == B.NumberOfResources
    }

    /** A player with index 0, no game and no cards. */
    constructor()
      ensures Ok() && playerIndex == 0 && gameManager == null
      ensures numberOfResourceCards == Zeros(3) && numberOfPowerCards == Zeros(3)
      ensures powerCards == Zeros(5) && resourceCards == Zeros(B.NumberOfResources)
    {
      playerIndex := 0;
      gameManager := null;
      numberOfResourceCards := [0, 0, 0];
      numberOfPowerCards := [0, 0, 0];
      powerCards := Zeros(5);
      resourceCards := Zeros(B.NumberOfResources);
    }

    /**
     * `assembleInputVector`: the board's input vector followed by the four
     * card lists, 1330 values for four players, with the settlement flags at
     * 270 .. 485 and the player's own hand last.
     */
    method AssembleInputVector() returns (values: seq<int>)
      requires gameManager != null && gameManager.Valid() && Ok()
      ensures values == B.InputVector(gameManager.gameBoard.nodes, gameManager.gameBoard.edges)
                        + numberOfResourceCards + numberOfPowerCards + powerCards + resourceCards
      ensures |values| == 1330
      ensures values[270..486] == B.Concat(B.NodeRows(gameManager.gameBoard.nodes, B.Settlements))
      ensures values[1325..] == resourceCards
    {
      var board := gameManager.gameBoard;
      var boardVector := board.GetInputValues();
      B.InputVectorLayout(board.nodes, board.edges, NumberOfPlayers);
      values := boardVector + numberOfResourceCards + numberOfPowerCards + powerCards + resourceCards;
      assert values[..1314] == boardVector;
      assert values[270..486] == boardVector[270..486];
    }

    /**
     * `setup`, given the network's settlement scores: up to 53 times, try
     * to build on the best-scored node and, on a falsy answer, zero its score.
     */
    method Setup(settlementsVector: seq<int>) returns (nodesTested: nat)
      requires gameManager != null && gameManager.Valid() && Ok() && playerIndex < NumberOfPlayers
      requires 0 < |settlementsVector| <= B.NumberOfNodes
      modifies gameManager.gameBoard`nodes, this`resourceCards
      ensures gameManager.Valid() && Ok()
      ensures nodesTested == SetupAttempts
      ensures var final := SetupRun(SetupState(old(gameManager.gameBoard.nodes), old(resourceCards), settlementsVector, false),
                                    gameManager.turnCounter, playerIndex, SetupAttempts);
              gameManager.gameBoard.nodes == final.nodes && resourceCards == final.cards
    {
      ghost var start := SetupState(gameManager.gameBoard.nodes, resourceCards, settlementsVector, false);
      var vector := settlementsVector;
      var settlementBuilt := false;
      nodesTested := 0;
      while !settlementBuilt
        invariant gameManager.Valid() && Ok()
        invariant 0 <= nodesTested < SetupAttempts && !settlementBuilt
        invariant SetupRun(start, gameManager.turnCounter, playerIndex, nodesTested)
                  == SetupState(gameManager.gameBoard.nodes, resourceCards, vector, settlementBuilt)
        decreases SetupAttempts - nodesTested
      {
        nodesTested := nodesTested + 1;
        var desiredNode := FirstMaxIndex(vector);
        var built := gameManager.BuildSettlement(this, desiredNode);
        if built == Some(true) {
          settlementBuilt := true;
        } else {
          vector := vector[desiredNode := 0];
        }
        if nodesTested == SetupAttempts {
          break;
        }
      }
    }
  }

  /** `GameManager`: the board, the players, whose turn it is and the score. */
  class GameManager {
    const gameBoard: B.Board
    var players: seq<Player>
    var playerTurn: int
    var startingPlayer: int
    var points: seq<int>
    var turnCounter: int

    ghost predicate Valid()
      reads gameBoard`nodes, gameBoard`edges, gameBoard`hexNodeConnectivity
    {
      gameBoard.Valid() && gameBoard.numberOfPlayers == NumberOfPlayers
    }

    /** Four players, player i at index i, each pointing back at this game. */
    ghost predicate PlayersJoined()
      reads this`players, players
    {
      && |players| == NumberOfPlayers
      && forall i :: 0 <= i < |players| ==>
           players[i].playerIndex == i && players[i].gameManager == this && players[i].Ok()
    }

    /**
     * `GameManager(players)`, with the two board shuffles, the starting
     * player and the network's eight set-up score lists as inputs: build and
     * generate the board, number the players, run the set-up round and then
     * the turns until the game ends.
     */
    constructor(players: seq<Player>, resources: seq<int>, markers: seq<nat>, startingPlayer: int, vectors: seq<seq<int>>)
      requires |players| == NumberOfPlayers && forall i :: 0 <= i < |players| ==> players[i].Ok()
      requires forall i, j :: 0 <= i < j < |players| ==> players[i] != players[j]
      requires B.IsShuffleOf(resources, B.HexResources) && B.IsShuffleOf(markers, B.NumberMarkers)
      requires 0 <= startingPlayer < 3 && VectorsOk(SnakeOrder(startingPlayer), vectors)
      modifies (set p | p in players)`playerIndex, (set p | p in players)`gameManager, (set p | p in players)`resourceCards
      ensures fresh(gameBoard) && Valid() && this.players == players && PlayersJoined()
      ensures gameBoard.hexNodeConnectivity == B.HexNodeConnectivity
      ensures forall k :: 0 <= k < |gameBoard.edges| ==> gameBoard.edges[k].road == Zeros(NumberOfPlayers)
      ensures B.HexOrder(resources) && B.ValidKinds(B.ProductionKinds(resources)) && |markers| == 18 && B.ValidMarkers(markers)
      ensures gameBoard.nodes == SetupPhase(B.ApplyHexes(B.FreshNodes(NumberOfPlayers), NumberOfPlayers, gameBoard.hexNodeConnectivity,
                                                         B.ProductionKinds(resources), markers),
                                            SnakeOrder(startingPlayer), vectors, HandsOf(players))
      ensures forall i :: 0 <= i < |players| ==> players[i].resourceCards == old(players[i].resourceCards)
      ensures this.startingPlayer == startingPlayer
      ensures TurnState(turnCounter, playerTurn, points) == Play(TurnState(0, startingPlayer, [0, 0, 0, 0]))
    {
      var board := GeneratedBoard(resources, markers);
      gameBoard := board;
      this.players := players;
      playerTurn := 0;
      this.startingPlayer := 0;
      points := [0, 0, 0, 0];
      turnCounter := 0;
      new;
      Start(startingPlayer, vectors);
    }

    /** The constructor's work once the game exists: number the players, then set up and play. */
    method Start(startingPlayer: int, vectors: seq<seq<int>>)
      requires Valid() && |players| == NumberOfPlayers && forall i :: 0 <= i < |players| ==> players[i].Ok()
      requires forall i, j :: 0 <= i < j < |players| ==> players[i] != players[j]
      requires points == [0, 0, 0, 0] && turnCounter == 0
      requires 0 <= startingPlayer < 3 && VectorsOk(SnakeOrder(startingPlayer), vectors)
      modifies this`startingPlayer, this`playerTurn, this`turnCounter, this`points
      modifies gameBoard`nodes, (set p | p in players)`playerIndex, (set p | p in players)`gameManager, (set p | p in players)`resourceCards
      ensures Valid() && PlayersJoined() && players == old(players)
      ensures gameBoard.nodes == SetupPhase(old(gameBoard.nodes), SnakeOrder(startingPlayer), vectors, HandsOf(players))
      ensures forall i :: 0 <= i < |players| ==> players[i].resourceCards == old(players[i].resourceCards)
      ensures this.startingPlayer == startingPlayer
      ensures TurnState(turnCounter, playerTurn, points) == Play(TurnState(0, startingPlayer, [0, 0, 0, 0]))
    {
      JoinPlayers();
      SetupPlayers(startingPlayer, vectors);
    }

    /** The loop of the constructor over the players: player i gets index i and this game. */
    method JoinPlayers()
      requires |players| == NumberOfPlayers && forall i :: 0 <= i < |players| ==> players[i].Ok()
      requires forall i, j :: 0 <= i < j < |players| ==> players[i] != players[j]
      modifies (set p | p in players)`playerIndex, (set p | p in players)`gameManager
      ensures PlayersJoined()
    {
      for index := 0 to |players|
        invariant forall i :: 0 <= i < index ==> players[i].playerIndex == i && players[i].gameManager == this
      {
        players[index].playerIndex := index;
        players[index].gameManager := this;
      }
    }

    /**
     * `setup_players`, with the random starting player as an input: every
     * player of the set-up order runs its set-up loop, then the starting
     * player takes the first turn.
     */
    method SetupPlayers(startingPlayer: int, vectors: seq<seq<int>>)
      requires Valid() && PlayersJoined() && |points| == NumberOfPlayers && turnCounter == 0
      requires 0 <= startingPlayer < 3 && VectorsOk(SnakeOrder(startingPlayer), vectors)
      modifies this`startingPlayer, this`playerTurn, this`turnCounter, this`points
      modifies gameBoard`nodes, (set p | p in players)`resourceCards
      ensures Valid() && PlayersJoined()
      ensures this.startingPlayer == startingPlayer
      ensures gameBoard.nodes == SetupPhase(old(gameBoard.nodes), SnakeOrder(startingPlayer), vectors, HandsOf(players))
      ensures forall i :: 0 <= i < |players| ==> players[i].resourceCards == old(players[i].resourceCards)
      ensures TurnState(turnCounter, playerTurn, points) == Play(TurnState(0, startingPlayer, old(points)))
    {
      this.startingPlayer := startingPlayer;
      var setupOrder := SetupOrder(startingPlayer);
      SetupRound(setupOrder, vectors);
      FirstTurn(startingPlayer);
    }

    /** The end of `setup_players`: the starting player takes the first turn. */
    method FirstTurn(startingPlayer: int)
      requires |players| == NumberOfPlayers && |points| == NumberOfPlayers && turnCounter == 0
      requires 0 <= startingPlayer < NumberOfPlayers
      modifies this`playerTurn, this`turnCounter, this`points
      ensures TurnState(turnCounter, playerTurn, points) == Play(TurnState(0, startingPlayer, old(points)))
    {
      playerTurn := startingPlayer;
      Turn();
    }

    /** The loop of `setup_players` over the set-up order: each player in turn runs its set-up loop. */
    method SetupRound(setupOrder: seq<int>, vectors: seq<seq<int>>)
      requires Valid() && PlayersJoined() && turnCounter == 0 && VectorsOk(setupOrder, vectors)
      modifies gameBoard`nodes, (set p | p in players)`resourceCards
      ensures Valid() && PlayersJoined()
      ensures forall q :: 0 <= q < |players| ==> players[q].resourceCards == old(players[q].resourceCards)
      ensures gameBoard.nodes == SetupPhase(old(gameBoard.nodes), setupOrder, vectors, HandsOf(players))
    {
      ghost var nodes := gameBoard.nodes;
      ghost var hands := HandsOf(players);
      assert setupOrder[..0] == [] && vectors[..0] == [];
      for i := 0 to |setupOrder|
        invariant Valid() && PlayersJoined()
        invariant forall q :: 0 <= q < |players| ==> players[q].resourceCards == hands[q]
        invariant gameBoard.nodes == SetupPhase(nodes, setupOrder[..i], vectors[..i], hands)
      {
        var player := players[setupOrder[i]];
        ghost var before := gameBoard.nodes;
        var nodesTested := player.Setup(vectors[i]);
        SetupIsFree(SetupState(before, hands[setupOrder[i]], vectors[i], false), setupOrder[i], SetupAttempts);
        SetupPhaseStep(nodes, setupOrder, vectors, hands, i);
      }
      assert setupOrder[..|setupOrder|] == setupOrder && vectors[..|vectors|] == vectors;
      assert HandsOf(players) == hands;
    }

    /** `count_points`: a player's score is the turn counter. */
    function CountPoints(player: Player): (score: int)
      reads this
      ensures score == turnCounter
    {
      turnCounter
    }

    /**
     * `turn`: the player to move acts, the turn counter goes up, every player
     * is scored in index order, and the game ends as soon as a score is 10;
     * otherwise the turn passes round the table and the next turn starts.
     */
    method Turn()
      requires |players| == NumberOfPlayers && TurnStateOk(TurnState(turnCounter, playerTurn, points))
      modifies this`turnCounter, this`points, this`playerTurn
      ensures TurnState(turnCounter, playerTurn, points) == Play(old(TurnState(turnCounter, playerTurn, points)))
      decreases WinningPoints - turnCounter
    {
      turnCounter := turnCounter + 1;
      for index := 0 to |players|
        invariant |points| == NumberOfPlayers && turnCounter == old(turnCounter) + 1 && playerTurn == old(playerTurn)
        invariant forall j :: 0 <= j < index ==> points[j] == turnCounter
        invariant forall j :: index <= j < NumberOfPlayers ==> points[j] == old(points[j])
        invariant index > 0 ==> turnCounter != WinningPoints
      {
        points := points[index := CountPoints(players[index])];
        if points[index] == WinningPoints {
          return;
        }
      }
      var counter := turnCounter;
      assert points == seq(NumberOfPlayers, _ => counter);
      if playerTurn != 3 {
        playerTurn := playerTurn + 1;
      } else {
        playerTurn := 0;
      }
      Turn();
    }

    /** `endTurn`: outside the set-up round the turn passes (without wrapping round) and the answer is true. */
    method EndTurn() returns (passed: bool)
      modifies this`playerTurn
      ensures passed <==> turnCounter != 0
      ensures playerTurn == if passed then old(playerTurn) + 1 else old(playerTurn)
    {
      if turnCounter != 0 {
        playerTurn := playerTurn + 1;
        return true;
      } else {
        return false;
      }
    }

    /** `buildSettlement`: the answer, intersections and hand are those of `BuildOutcome`. */
    method BuildSettlement(player: Player, nodeIndex: nat) returns (built: Option<bool>)
      requires Valid() && player.Ok() && player.playerIndex < NumberOfPlayers && nodeIndex < B.NumberOfNodes
      modifies gameBoard`nodes, player`resourceCards
      ensures Valid() && player.Ok()
      ensures var o := BuildOutcome(old(gameBoard.nodes), old(player.resourceCards), turnCounter, player.playerIndex, nodeIndex);
              built == o.result && gameBoard.nodes == o.nodes && player.resourceCards == o.cards
    {
      BuildKeepsBoard(gameBoard.nodes, player.resourceCards, turnCounter, player.playerIndex, nodeIndex);
      var empty := B.IsEmpty(gameBoard.nodes[nodeIndex]);
      if !empty {
        return Some(false);
      }
      if turnCounter != 0 {
        var cards := player.resourceCards;
        if !(cards[0] > 0 && cards[2] > 0 && cards[3] > 0 && cards[4] > 0) {
          return Some(false);
        }
      }
      var node := gameBoard.nodes[nodeIndex];
      gameBoard.nodes := gameBoard.nodes[nodeIndex := node.(settlement := node.settlement[player.playerIndex := 1])];
      if turnCounter != 0 {
        var cards := player.resourceCards;
        cards := cards[0 := cards[0] - 1];
        cards := cards[2 := cards[2] - 1];
        cards := cards[3 := cards[3] - 1];
        cards := cards[4 := cards[4] - 1];
        player.resourceCards := cards;
      }
      return None;
    }
  }
}
