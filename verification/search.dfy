/** The machine's search: successor boards, the depth-bounded game tree and the move choice. */
module Search {
  import opened Players
  import opened Layout
  import opened Boards
  import opened Sowing
  import opened Evaluation
  import opened ScoreTree
  import opened GameTree

  /** The non-empty pits among the n pits from first on, in ascending order. */
  function Playable(b: Board, first: int, n: nat): (r: seq<int>)
    requires Valid(b) && 1 <= first && first + n <= Cells(b.pitsPerPlayer) + 1
    ensures forall j :: 0 <= j < |r| ==> first <= r[j] < first + n && Seeds(b, r[j]) > 0
    decreases n
  {
    if n == 0 then []
    else
      var rest := Playable(b, first + 1, n - 1);
      if Seeds(b, first) > 0 then [first] + rest else rest
  }

  /** Playable lists its pits in strictly ascending order. */
  lemma {:induction false} PlayableAscending(b: Board, first: int, n: nat)
    requires Valid(b) && 1 <= first && first + n <= Cells(b.pitsPerPlayer) + 1
    ensures forall i, j :: 0 <= i < j < |Playable(b, first, n)| ==> Playable(b, first, n)[i] < Playable(b, first, n)[j]
    decreases n
  {
    if n > 0 {
      PlayableAscending(b, first + 1, n - 1);
    }
  }

  /** Playable misses no non-empty pit of its range. */
  lemma {:induction false} PlayableCovers(b: Board, first: int, n: nat)
    requires Valid(b) && 1 <= first && first + n <= Cells(b.pitsPerPlayer) + 1
    ensures forall k :: first <= k < first + n && Seeds(b, k) > 0 ==> k in Playable(b, first, n)
    decreases n
  {
    if n > 0 {
      PlayableCovers(b, first + 1, n - 1);
    }
  }

  /** Where every pit of a run holds seeds, Playable lists the whole run. */
  lemma {:induction false} PlayableOfFullRun(b: Board, first: int, n: nat)
    requires Valid(b) && 1 <= first && first + n <= Cells(b.pitsPerPlayer) + 1
    requires forall k :: first <= k < first + n ==> Seeds(b, k) > 0
    ensures |Playable(b, first, n)| == n
    ensures forall j :: 0 <= j < n ==> Playable(b, first, n)[j] == first + j
    decreases n
  {
    if n > 0 {
      PlayableOfFullRun(b, first + 1, n - 1);
    }
  }

  /** The pits a player may sow on this board: the non-empty ones of the player's row. */
  function Choices(b: Board, player: Player): (r: seq<int>)
    requires Valid(b)
    ensures forall j :: 0 <= j < |r| ==>
      OnGrid(b.pitsPerPlayer, r[j]) && Seeds(b, r[j]) > 0 && InRow(b.pitsPerPlayer, player, r[j])
  {
    Playable(b, RowStart(b.pitsPerPlayer, player), b.pitsPerPlayer)
  }

  /** The choices ascend, and every non-empty pit of the player's row is among them. */
  lemma ChoicesOrdered(b: Board, player: Player)
    requires Valid(b)
    ensures forall i, j :: 0 <= i < j < |Choices(b, player)| ==> Choices(b, player)[i] < Choices(b, player)[j]
    ensures forall k :: InRow(b.pitsPerPlayer, player, k) && Seeds(b, k) > 0 ==> k in Choices(b, player)
  {
    PlayableAscending(b, RowStart(b.pitsPerPlayer, player), b.pitsPerPlayer);
    PlayableCovers(b, RowStart(b.pitsPerPlayer, player), b.pitsPerPlayer);
  }

  /** Over a run of consecutive pits, the landing pits are those of the pits Playable lists, in
      the same order: each such pit plus its seeds. */
  lemma {:induction false} ReachOfRun(b: Board, pits: seq<int>, first: int, n: nat)
    requires Valid(b) && 1 <= first && first + n <= Cells(b.pitsPerPlayer) + 1
    requires |pits| == n && forall i :: 0 <= i < n ==> pits[i] == first + i
    ensures |Reach(b, pits)| == |Playable(b, first, n)|
    ensures forall j :: 0 <= j < |Reach(b, pits)| ==>
      Reach(b, pits)[j] == Playable(b, first, n)[j] + Seeds(b, Playable(b, first, n)[j])
    decreases n
  {
    if n > 0 {
      ReachOfRun(b, pits[1..], first + 1, n - 1);
    }
  }

  /** The landing pits the evaluation considers for a player are, position by position, each of
      the player's choices plus the seeds in it. */
  lemma RawTargetsFollowChoices(b: Board, player: Player)
    requires Valid(b)
    ensures |RawTargets(b, player)| == |Choices(b, player)|
    ensures forall j :: 0 <= j < |Choices(b, player)| ==>
      RawTargets(b, player)[j] == Choices(b, player)[j] + Seeds(b, Choices(b, player)[j])
  {
    ReachOfRun(b, PlayerPits(b.pitsPerPlayer, player), RowStart(b.pitsPerPlayer, player), b.pitsPerPlayer);
  }

  /** One ply from each pit of a list, in list order. */
  function Plies(b: Board, pits: seq<int>): (r: seq<Board>)
    requires Valid(b)
    requires forall i :: 0 <= i < |pits| ==> OnGrid(b.pitsPerPlayer, pits[i]) && Seeds(b, pits[i]) > 0
    ensures |r| == |pits|
    ensures forall i :: 0 <= i < |r| ==>
      Valid(r[i]) && r[i].level == b.level && r[i].pitsPerPlayer == b.pitsPerPlayer && r[i].source == pits[i]
    decreases |pits|
  {
    if |pits| == 0 then []
    else
      assert Seeds(b, pits[0]) > 0;
      [Ply(b, pits[0])] + Plies(b, pits[1..])
  }

  /** The entry of Plies at a position is the ply from the pit at that position. */
  lemma {:induction false} PlyAt(b: Board, pits: seq<int>, i: nat)
    requires Valid(b)
    requires forall i :: 0 <= i < |pits| ==> OnGrid(b.pitsPerPlayer, pits[i]) && Seeds(b, pits[i]) > 0
    requires i < |pits|
    ensures Plies(b, pits)[i] == Ply(b, pits[i])
    decreases i
  {
    if i > 0 {
      PlyAt(b, pits[1..], i - 1);
    }
  }

  /** The successor boards for a player's pits, in ascending pit order: for each non-empty pit
      the board is copied, the pit sown for the player to move and the turn passed on, without
      the guards of the human move. */
  function PossibleGameStates(b: Board, player: Player): (r: seq<Board>)
    requires Valid(b)
    ensures |r| == |Choices(b, player)|
    ensures forall i :: 0 <= i < |r| ==>
      && Valid(r[i]) && r[i].level == b.level && r[i].pitsPerPlayer == b.pitsPerPlayer
      && r[i].source == Choices(b, player)[i]
  {
    Plies(b, Choices(b, player))
  }

  /** The successor at a position is the ply from a non-empty pit of the player's row. */
  lemma SuccessorAt(b: Board, player: Player, i: nat)
    requires Valid(b) && i < |PossibleGameStates(b, player)|
    ensures var s := PossibleGameStates(b, player)[i];
      && InRow(b.pitsPerPlayer, player, s.source) && OnGrid(b.pitsPerPlayer, s.source)
      && Seeds(b, s.source) > 0 && s == Ply(b, s.source)
  {
    PlyAt(b, Choices(b, player), i);
  }

  /** Every successor is the ply of a non-empty pit of the player's row; their pits ascend, and
      every non-empty pit of the row has its successor. */
  lemma PossibleGameStatesComplete(b: Board, player: Player)
    requires Valid(b)
    ensures forall i :: 0 <= i < |PossibleGameStates(b, player)| ==>
      var s := PossibleGameStates(b, player)[i];
      && InRow(b.pitsPerPlayer, player, s.source) && OnGrid(b.pitsPerPlayer, s.source)
      && Seeds(b, s.source) > 0 && s == Ply(b, s.source)
    ensures forall i, j :: 0 <= i < j < |PossibleGameStates(b, player)| ==>
      PossibleGameStates(b, player)[i].source < PossibleGameStates(b, player)[j].source
    ensures forall k :: InRow(b.pitsPerPlayer, player, k) && Seeds(b, k) > 0 ==>
      exists i :: 0 <= i < |PossibleGameStates(b, player)| && PossibleGameStates(b, player)[i].source == k
  {
    var ps, r := Choices(b, player), PossibleGameStates(b, player);
    ChoicesOrdered(b, player);
    forall i | 0 <= i < |r| {
      SuccessorAt(b, player, i);
    }
    forall k | InRow(b.pitsPerPlayer, player, k) && Seeds(b, k) > 0
      ensures exists i :: 0 <= i < |r| && r[i].source == k
    {
      var i :| 0 <= i < |ps| && ps[i] == k;
      assert r[i].source == k;
    }
  }

  /** While the game is on, the machine has a successor. */
  lemma MachineHasSuccessor(b: Board)
    requires Valid(b) && !IsGameOver(b)
    ensures |PossibleGameStates(b, Machine)| > 0
  {
    var P := b.pitsPerPlayer;
    GameOverIffNoPlayablePit(b);
    ChoicesOrdered(b, Machine);
    var i :| 0 <= i < P && b.cells[PlayerPits(P, Machine)[i] - 1] != 0;
    assert InRow(P, Machine, PlayerPits(P, Machine)[i]);
  }

  /** The successor list as written: each choice goes through the guarded human move. */
  function PossibleGameStatesAsWritten(b: Board, player: Player): (r: seq<MoveResult>)
    requires Valid(b)
    ensures |r| == |Choices(b, player)|
    ensures forall i :: 0 <= i < |r| ==> r[i] == Move(b, Choices(b, player)[i])
  {
    var ps := Choices(b, player);
    seq(|ps|, i requires 0 <= i < |ps| => Move(b, ps[i]))
  }

  /** As written, no machine pit ever yields a board: on the machine's turn the move is refused
      as not the human's turn, and on the human's turn a machine pit is someone else's. */
  lemma MachineSuccessorsAsWrittenNeverMoved(b: Board)
    requires Valid(b) && !IsGameOver(b)
    ensures |PossibleGameStatesAsWritten(b, Machine)| > 0
    ensures forall i :: 0 <= i < |PossibleGameStatesAsWritten(b, Machine)| ==>
      PossibleGameStatesAsWritten(b, Machine)[i] == (if b.opening == Human then NoBoard else NotYourTurn)
  {
    MachineHasSuccessor(b);
    var P := b.pitsPerPlayer;
    forall i | 0 <= i < |Choices(b, Machine)|
      ensures OwnerOf(P, Choices(b, Machine)[i]) == Machine
    {
      assert InRow(P, Machine, Choices(b, Machine)[i]);
    }
  }

  /** Sown for the human, the last machine pit of the 6-pit, 4-seed opening passes over the
      machine's store and drops its four seeds into the human's pits 1 to 4. */
  lemma HumanSowsMachinePit()
    ensures var r := Ply(NewBoard(Human, 6, 4, 2), 13);
      && r.cells == [5, 5, 5, 5, 4, 4, 0, 4, 4, 4, 4, 4, 0, 0]
      && r.target == 4 && r.opening == Machine
  {
    var b := NewBoard(Human, 6, 4, 2);
    StandardOpening(Human, 2);
    var e := b.cells[12 := 0];
    assert e == [4, 4, 4, 4, 4, 4, 0, 4, 4, 4, 4, 4, 0, 0];
    assert Skips(6, Human, 14);
    DistributeStraight(6, Human, e, 1, 4);
    var after := [5, 5, 5, 5, 4, 4, 0, 4, 4, 4, 4, 4, 0, 0];
    assert Distribute(6, Human, e, 1, 4).cells == after;
    assert Distribute(6, Human, e, 14, 4) == Distribute(6, Human, e, 1, 4);
    assert !CaptureApplies(6, after, 4);
  }

  /**
   * The successors sow the machine's pits for whoever is to move. On the opening with the human
   * to move, the last successor is the human sowing the machine's pit 13, after which the
   * machine is to move.
   */
  lemma HumanTurnSowsMachinePitForHuman()
    ensures var b := NewBoard(Human, 6, 4, 2);
      && |Successors(b)| == 6
      && Successors(b)[5].source == 13
      && Successors(b)[5].target == 4
      && Successors(b)[5].cells == [5, 5, 5, 5, 4, 4, 0, 4, 4, 4, 4, 4, 0, 0]
      && Successors(b)[5].opening == Machine
  {
    var b := NewBoard(Human, 6, 4, 2);
    forall k | 8 <= k < 14
      ensures Seeds(b, k) > 0
    {
      assert OnGrid(6, k) && !IsStoreNum(6, k);
    }
    PlayableOfFullRun(b, 8, 6);
    var gs := PossibleGameStates(b, Machine);
    assert Successors(b) == gs;
    assert gs[5].source == 13;
    SuccessorAt(b, Machine, 5);
    HumanSowsMachinePit();
  }

  /** Where a node of the search stops: at the search level or on a finished game. */
  predicate StopsAt(b: Board, depth: int)
    requires Valid(b)
  {
    depth == b.level || IsGameOver(b)
  }

  /** The machine's successors of any board; a malformed board has none. */
  function Successors(b: Board): (r: seq<Board>)
  {
    if Valid(b) then PossibleGameStates(b, Machine) else []
  }

  /** The finished-game test of any board; a malformed board is not finished. */
  predicate Over(b: Board)
  {
    Valid(b) && IsGameOver(b)
  }

  /** The board evaluation extended to every board and depth: where it would divide by a zero
      depth, or the board is malformed, it gives 0. */
  function Rate(b: Board, depth: int): real
  {
    if Valid(b) && (depth == 0 ==> !Decided(b)) then Score(b, depth) else 0.0
  }

  /** The game as the machine's search sees it. */
  const SearchRules: Rules := Rules(Successors, Over, Rate)

  /** The machine's successors keep a board well-formed and keep its search level. */
  lemma SearchRulesClosed()
    ensures Closed(SearchRules)
  {
    forall b: Board | Valid(b)
      ensures forall i :: 0 <= i < |Successors(b)| ==> Valid(Successors(b)[i]) && Successors(b)[i].level == b.level
    {
    }
  }

  /** Where the scored tree may be built: at the root the depth is 0, so a decided board there
      would be scored by dividing by zero. */
  predicate ScoreArgs(b: Board, depth: int)
  {
    TreeArgs(b, depth) && (depth == 0 ==> !Decided(b))
  }

  /** The tree as written: every node scored at its depth, leaves holding copies of their boards. */
  function ConstructTreeAsWritten(b: Board, depth: int): (n: Node)
    requires ScoreArgs(b, depth)
    ensures n.depth == depth && n.localScore == Score(b, depth) && n.score == n.localScore
    ensures n.board == (if StopsAt(b, depth) then Clone(b) else b)
  {
    SearchRulesClosed();
    Build(SearchRules, b, depth, true)
  }

  /** The tree with every node holding its own board. */
  function ConstructTree(b: Board, depth: int): (n: Node)
    requires ScoreArgs(b, depth)
    ensures n.depth == depth && n.localScore == Score(b, depth) && n.score == n.localScore && n.board == b
  {
    SearchRulesClosed();
    Build(SearchRules, b, depth, false)
  }

  /** A node of the search is a leaf exactly at the search level or on a finished game; every
      other node has one child per machine successor, in ascending pit order, each the tree of
      that successor one level deeper. */
  lemma ConstructTreeChildren(b: Board, depth: int)
    requires ScoreArgs(b, depth)
    ensures |ConstructTree(b, depth).children| == 0 <==> StopsAt(b, depth)
    ensures !StopsAt(b, depth) ==>
      var succ := PossibleGameStates(b, Machine);
      && |ConstructTree(b, depth).children| == |succ|
      && forall i :: 0 <= i < |succ| ==>
           ScoreArgs(succ[i], depth + 1) && ConstructTree(b, depth).children[i] == ConstructTree(succ[i], depth + 1)
  {
    SearchRulesClosed();
    BuildChildren(SearchRules, b, depth, false);
    if !StopsAt(b, depth) {
      MachineHasSuccessor(b);
    }
  }

  /** The tree as written has the same shape: the copies sit only at its leaves. */
  lemma ConstructTreeAsWrittenChildren(b: Board, depth: int)
    requires ScoreArgs(b, depth)
    ensures |ConstructTreeAsWritten(b, depth).children| == 0 <==> StopsAt(b, depth)
    ensures !StopsAt(b, depth) ==>
      var succ := PossibleGameStates(b, Machine);
      && |ConstructTreeAsWritten(b, depth).children| == |succ|
      && forall i :: 0 <= i < |succ| ==>
           && ScoreArgs(succ[i], depth + 1)
           && ConstructTreeAsWritten(b, depth).children[i] == ConstructTreeAsWritten(succ[i], depth + 1)
  {
    SearchRulesClosed();
    BuildChildren(SearchRules, b, depth, true);
    if !StopsAt(b, depth) {
      MachineHasSuccessor(b);
    }
  }

  /** The tree from the root reaches no deeper than the board's search level, and every total
      in it still equals its local score. */
  lemma ConstructTreeShape(b: Board, depth: int)
    requires ScoreArgs(b, depth)
    ensures HeightAtMost(ConstructTree(b, depth), b.level - depth) && Fresh(ConstructTree(b, depth))
    ensures HeightAtMost(ConstructTreeAsWritten(b, depth), b.level - depth) && Fresh(ConstructTreeAsWritten(b, depth))
  {
    SearchRulesClosed();
    BuildIsBounded(SearchRules, b, depth, false);
    BuildIsBounded(SearchRules, b, depth, true);
    BuildIsFresh(SearchRules, b, depth, false);
    BuildIsFresh(SearchRules, b, depth, true);
  }

  /** Where the machine may search: a well-formed board on which the game goes on, searched at
      least one ply deep. */
  predicate CanSearch(b: Board)
  {
    Valid(b) && b.level >= 1 && !IsGameOver(b)
  }

  /** On such a board the search has a root to score and a successor to choose, and the
      successors the tree builder sees are the machine's. */
  lemma SearchCanChoose(b: Board)
    requires CanSearch(b)
    ensures ScoreArgs(b, 0) && Closed(SearchRules) && CanChoose(SearchRules, b)
    ensures SearchRules.successors(b) == PossibleGameStates(b, Machine)
  {
    SearchRulesClosed();
    MachineHasSuccessor(b);
  }

  /** The machine's move: the tree is built from the board, backed up, and the board of the
      root's best child is the new board, which is the ply from one of the machine's non-empty
      pits. */
  function MachineMove(b: Board): (r: Board)
    requires CanSearch(b)
    ensures InRow(b.pitsPerPlayer, Machine, r.source) && OnGrid(b.pitsPerPlayer, r.source)
    ensures Seeds(b, r.source) > 0 && r == Ply(b, r.source)
  {
    SearchCanChoose(b);
    SuccessorAt(b, Machine, ChosenIndex(SearchRules, b, false));
    Choose(SearchRules, b, false)
  }

  /** The machine's move is the successor at the position the search chooses. */
  lemma MachineMoveIsChosen(b: Board)
    requires CanSearch(b)
    ensures Closed(SearchRules) && CanChoose(SearchRules, b)
    ensures ChosenIndex(SearchRules, b, false) < |PossibleGameStates(b, Machine)|
    ensures MachineMove(b) == PossibleGameStates(b, Machine)[ChosenIndex(SearchRules, b, false)]
  {
    SearchCanChoose(b);
  }

  /** The subtree of the successor at the chosen position has the highest minimax value, and
      every earlier successor's a strictly lower one. */
  lemma ChosenSubtreeIsBest(b: Board)
    requires CanSearch(b)
    ensures Closed(SearchRules) && CanChoose(SearchRules, b)
    ensures var succ, j := PossibleGameStates(b, Machine), ChosenIndex(SearchRules, b, false);
      && j < |succ|
      && (forall i :: 0 <= i < |succ| ==> ScoreArgs(succ[i], 1))
      && (forall i :: 0 <= i < |succ| ==> Minimax(ConstructTree(succ[i], 1)) <= Minimax(ConstructTree(succ[j], 1)))
      && (forall i :: 0 <= i < j ==> Minimax(ConstructTree(succ[i], 1)) < Minimax(ConstructTree(succ[j], 1)))
  {
    SearchCanChoose(b);
    ChosenIndexMaximises(SearchRules, b, false);
  }

  /** The move chosen is the successor whose subtree has the highest minimax value, the first
      in ascending pit order among equals. */
  lemma MachineMoveMaximisesMinimax(b: Board)
    requires CanSearch(b)
    ensures forall i :: 0 <= i < |PossibleGameStates(b, Machine)| ==> ScoreArgs(PossibleGameStates(b, Machine)[i], 1)
    ensures var succ := PossibleGameStates(b, Machine);
      exists j :: 0 <= j < |succ| && MachineMove(b) == succ[j]
        && (forall i :: 0 <= i < |succ| ==> Minimax(ConstructTree(succ[i], 1)) <= Minimax(ConstructTree(succ[j], 1)))
        && (forall i :: 0 <= i < j ==> Minimax(ConstructTree(succ[i], 1)) < Minimax(ConstructTree(succ[j], 1)))
  {
    MachineMoveIsChosen(b);
    ChosenSubtreeIsBest(b);
  }

  /** The machine's move with Findings A to C repaired but the leaf copies of line 200 kept:
      leaves hold copies of their boards, so the board returned has the seeds of the chosen successor. */
  function MachineMoveAsWritten(b: Board): (r: Board)
    requires CanSearch(b)
    ensures Valid(r) && r.cells == MachineMove(b).cells && r.level == b.level
  {
    SearchCanChoose(b);
    ChooseWithCopies(SearchRules, b);
    Choose(SearchRules, b, true)
  }

  /** With Findings A to C repaired, the board of the chosen successor comes back as a copy whenever that successor
      ends the search, which at a search level of one is always: the copy keeps the seeds but
      records no pit sown and no last landing pit. */
  lemma MachineMoveAsWrittenForgetsSource(b: Board)
    requires CanSearch(b)
    ensures Valid(MachineMove(b))
    ensures MachineMoveAsWritten(b) == (if StopsAt(MachineMove(b), 1) then Clone(MachineMove(b)) else MachineMove(b))
    ensures b.level == 1 ==> MachineMoveAsWritten(b).source == 0 && MachineMove(b).source != 0
  {
    SearchCanChoose(b);
    ChooseWithCopies(SearchRules, b);
  }
}
