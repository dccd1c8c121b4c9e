/** The depth-bounded game tree, built from what the search needs of the game: the boards one
    ply ahead, the test for a finished game, and the board evaluation. */
module GameTree {
  import opened Boards
  import opened ScoreTree

  /** The game as the tree builder sees it. */
  datatype Rules = Rules(successors: Board -> seq<Board>, over: Board -> bool, eval: (Board, int) -> real)

  /** The successors of a well-formed board are well-formed and keep its search level. */
  ghost predicate Closed(rules: Rules)
  {
    forall b: Board :: Valid(b) ==>
      forall i :: 0 <= i < |rules.successors(b)| ==>
        Valid(rules.successors(b)[i]) && rules.successors(b)[i].level == b.level
  }

  /** Where a tree may be built: a well-formed board with a depth no deeper than its search level. */
  predicate TreeArgs(b: Board, depth: int)
  {
    Valid(b) && 0 <= depth <= b.level
  }

  /** Where a node stops: at the search level or on a finished game. */
  predicate Stops(rules: Rules, b: Board, depth: int)
  {
    depth == b.level || rules.over(b)
  }

  /** The tree below a board: a leaf at the search level or on a finished game, otherwise a node
      with one subtree per successor, in successor order; every node is scored by the evaluation
      at its depth. A leaf holds a copy of its board when copyLeaves is set, which resets the
      copy's last move, and the board itself otherwise. */
  function Build(rules: Rules, b: Board, depth: int, copyLeaves: bool): (n: Node)
    requires Closed(rules) && TreeArgs(b, depth)
    ensures n.depth == depth && n.localScore == rules.eval(b, depth) && n.score == n.localScore
    ensures n.board == (if copyLeaves && Stops(rules, b, depth) then Clone(b) else b)
    decreases b.level - depth, 0, 0
  {
    if Stops(rules, b, depth) then
      NewLeaf(if copyLeaves then Clone(b) else b, rules.eval(b, depth), depth)
    else
      NewNode(b, BuildAll(rules, rules.successors(b), b.level, depth + 1, copyLeaves), rules.eval(b, depth), depth)
  }

  /** The trees of a list of boards, all searched to the same level. */
  function BuildAll(rules: Rules, bs: seq<Board>, level: int, depth: int, copyLeaves: bool): (r: seq<Node>)
    requires Closed(rules) && 0 <= depth <= level
    requires forall i :: 0 <= i < |bs| ==> Valid(bs[i]) && bs[i].level == level
    ensures |r| == |bs|
    ensures forall i :: 0 <= i < |bs| ==> r[i] == Build(rules, bs[i], depth, copyLeaves)
    decreases level - depth, 1, |bs|
  {
    if |bs| == 0 then []
    else
      assert forall i :: 1 <= i < |bs| ==> bs[i] == bs[1..][i - 1];
      [Build(rules, bs[0], depth, copyLeaves)] + BuildAll(rules, bs[1..], level, depth, copyLeaves)
  }

  /** A node's children are the trees of the given boards, one level deeper. */
  ghost predicate Expands(rules: Rules, n: Node, succ: seq<Board>, level: int, depth: int, copyLeaves: bool)
  {
    && Closed(rules) && 0 <= depth <= level
    && |n.children| == |succ|
    && forall i :: 0 <= i < |succ| ==>
         Valid(succ[i]) && succ[i].level == level && n.children[i] == Build(rules, succ[i], depth, copyLeaves)
  }

  /** A node is a leaf exactly when it stops or its board has no successor; otherwise it has one
      child per successor, each the tree of that successor one level deeper. */
  lemma BuildChildren(rules: Rules, b: Board, depth: int, copyLeaves: bool)
    requires Closed(rules) && TreeArgs(b, depth)
    ensures |Build(rules, b, depth, copyLeaves).children| == 0 <==>
      Stops(rules, b, depth) || |rules.successors(b)| == 0
    ensures !Stops(rules, b, depth) ==>
      Expands(rules, Build(rules, b, depth, copyLeaves), rules.successors(b), b.level, depth + 1, copyLeaves)
  {
  }

  /** The depth bound: no path of the tree below depth is longer than level - depth edges. */
  lemma {:induction false} BuildIsBounded(rules: Rules, b: Board, depth: int, copyLeaves: bool)
    requires Closed(rules) && TreeArgs(b, depth)
    ensures HeightAtMost(Build(rules, b, depth, copyLeaves), b.level - depth)
    decreases b.level - depth, 0
  {
    if !Stops(rules, b, depth) {
      BuildChildren(rules, b, depth, copyLeaves);
      ChildrenBounded(rules, Build(rules, b, depth, copyLeaves), rules.successors(b), b.level, depth + 1, copyLeaves);
    }
  }

  /** The depth bound for the children of a node. */
  lemma {:induction false} ChildrenBounded(rules: Rules, n: Node, succ: seq<Board>, level: int, depth: int,
                                           copyLeaves: bool)
    requires Expands(rules, n, succ, level, depth, copyLeaves)
    ensures HeightAtMost(n, level - depth + 1)
    decreases level - depth, 1
  {
    forall i | 0 <= i < |succ| ensures HeightAtMost(n.children[i], level - depth) {
      BuildIsBounded(rules, succ[i], depth, copyLeaves);
    }
  }

  /** A tree just built is fresh: every total still equals its local score. */
  lemma {:induction false} BuildIsFresh(rules: Rules, b: Board, depth: int, copyLeaves: bool)
    requires Closed(rules) && TreeArgs(b, depth)
    ensures Fresh(Build(rules, b, depth, copyLeaves))
    decreases b.level - depth, 0
  {
    if !Stops(rules, b, depth) {
      BuildChildren(rules, b, depth, copyLeaves);
      ChildrenFresh(rules, Build(rules, b, depth, copyLeaves), rules.successors(b), b.level, depth + 1, copyLeaves);
    }
  }

  /** Freshness for the children of a node. */
  lemma {:induction false} ChildrenFresh(rules: Rules, n: Node, succ: seq<Board>, level: int, depth: int,
                                         copyLeaves: bool)
    requires n.score == n.localScore && Expands(rules, n, succ, level, depth, copyLeaves)
    ensures Fresh(n)
    decreases level - depth, 1
  {
    forall i | 0 <= i < |succ| ensures Fresh(n.children[i]) {
      BuildIsFresh(rules, succ[i], depth, copyLeaves);
    }
  }

  /** The copy flag changes only the boards leaves hold, never a minimax value: a copy keeps the
      player to move, and the scores come from the original boards. */
  lemma {:induction false} CopyKeepsMinimax(rules: Rules, b: Board, depth: int)
    requires Closed(rules) && TreeArgs(b, depth)
    ensures Minimax(Build(rules, b, depth, true)) == Minimax(Build(rules, b, depth, false))
    decreases b.level - depth, 0
  {
    var copied, own := Build(rules, b, depth, true), Build(rules, b, depth, false);
    if !Stops(rules, b, depth) {
      BuildChildren(rules, b, depth, true);
      BuildChildren(rules, b, depth, false);
      ChildrenCopyKeepMinimax(rules, copied, own, rules.successors(b), b.level, depth + 1);
    }
    MinimaxDependsOnValues(copied, own);
  }

  /** The same for the children of two nodes built from the same boards. */
  lemma {:induction false} ChildrenCopyKeepMinimax(rules: Rules, copied: Node, own: Node, succ: seq<Board>,
                                                   level: int, depth: int)
    requires Expands(rules, copied, succ, level, depth, true) && Expands(rules, own, succ, level, depth, false)
    ensures MinimaxAll(copied.children) == MinimaxAll(own.children)
    decreases level - depth, 1
  {
    forall i | 0 <= i < |succ| ensures Minimax(copied.children[i]) == Minimax(own.children[i]) {
      CopyKeepsMinimax(rules, succ[i], depth);
    }
  }

  /** Where the search can choose a move: a well-formed board searched at least one ply deep,
      with the game going on and a successor to choose. */
  predicate CanChoose(rules: Rules, b: Board)
  {
    Valid(b) && b.level >= 1 && !rules.over(b) && |rules.successors(b)| > 0
  }

  /** After the backup, the root has one child per successor, the backed-up tree of that
      successor one level deeper, whose total is the subtree's minimax value. */
  lemma RootChildren(rules: Rules, b: Board, copyLeaves: bool)
    requires Closed(rules) && CanChoose(rules, b)
    ensures |UpdateScore(Build(rules, b, 0, copyLeaves)).children| == |rules.successors(b)|
    ensures forall i :: 0 <= i < |rules.successors(b)| ==>
      && TreeArgs(rules.successors(b)[i], 1)
      && UpdateScore(Build(rules, b, 0, copyLeaves)).children[i] == UpdateScore(Build(rules, rules.successors(b)[i], 1, copyLeaves))
      && UpdateScore(Build(rules, b, 0, copyLeaves)).children[i].score == Minimax(Build(rules, rules.successors(b)[i], 1, copyLeaves))
  {
    var succ := rules.successors(b);
    BuildChildren(rules, b, 0, copyLeaves);
    var tree := Build(rules, b, 0, copyLeaves);
    assert UpdateScore(tree).children == UpdateAll(tree.children);
    forall i | 0 <= i < |succ|
      ensures UpdateScore(tree).children[i].score == Minimax(Build(rules, succ[i], 1, copyLeaves))
    {
      BuildIsFresh(rules, succ[i], 1, copyLeaves);
      UpdateScoreComputesMinimax(Build(rules, succ[i], 1, copyLeaves));
    }
  }

  /** The position of the root's best child after the backup, the first on ties. */
  function ChosenIndex(rules: Rules, b: Board, copyLeaves: bool): (j: nat)
    requires Closed(rules) && CanChoose(rules, b)
    ensures j < |rules.successors(b)|
  {
    RootChildren(rules, b, copyLeaves);
    ArgMax(UpdateScore(Build(rules, b, 0, copyLeaves)).children)
  }

  /** The chosen position holds the successor whose subtree has the highest minimax value, and
      is the first position to reach it: every earlier subtree's value is strictly lower. */
  lemma ChosenIndexMaximises(rules: Rules, b: Board, copyLeaves: bool)
    requires Closed(rules) && CanChoose(rules, b)
    ensures forall i :: 0 <= i < |rules.successors(b)| ==> TreeArgs(rules.successors(b)[i], 1)
    ensures var succ, j := rules.successors(b), ChosenIndex(rules, b, copyLeaves);
      && (forall i :: 0 <= i < |succ| ==> Minimax(Build(rules, succ[i], 1, copyLeaves)) <= Minimax(Build(rules, succ[j], 1, copyLeaves)))
      && (forall i :: 0 <= i < j ==> Minimax(Build(rules, succ[i], 1, copyLeaves)) < Minimax(Build(rules, succ[j], 1, copyLeaves)))
  {
    RootChildren(rules, b, copyLeaves);
  }

  /** The choice: the tree is built from the board, backed up, and the board held by the root's
      best child is returned: the chosen successor, or its copy when copies are made and that
      successor is a leaf. */
  function Choose(rules: Rules, b: Board, copyLeaves: bool): (r: Board)
    requires Closed(rules) && CanChoose(rules, b)
    ensures var s := rules.successors(b)[ChosenIndex(rules, b, copyLeaves)];
      Valid(s) && r == (if copyLeaves && Stops(rules, s, 1) then Clone(s) else s)
  {
    RootChildren(rules, b, copyLeaves);
    GetMaxChild(UpdateScore(Build(rules, b, 0, copyLeaves))).board
  }

  /** Copies do not change the choice: the same position is chosen either way. */
  lemma ChooseWithCopies(rules: Rules, b: Board)
    requires Closed(rules) && CanChoose(rules, b)
    ensures ChosenIndex(rules, b, true) == ChosenIndex(rules, b, false)
  {
    var succ := rules.successors(b);
    RootChildren(rules, b, true);
    RootChildren(rules, b, false);
    var copied := UpdateScore(Build(rules, b, 0, true)).children;
    var own := UpdateScore(Build(rules, b, 0, false)).children;
    forall i | 0 <= i < |succ| ensures copied[i].score == own[i].score {
      CopyKeepsMinimax(rules, succ[i], 1);
    }
    SelectionDependsOnScores(copied, own);
  }
}
