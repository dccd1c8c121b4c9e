/** The minimax score tree: nodes holding a board, the board's own score and a backed-up total. */
module ScoreTree {
  import opened Players
  import opened Boards

  /** A tree node. The score starts as the local score and is later raised or lowered by the
      backup; a missing child list is the same as an empty one. */
  datatype Node = Node(board: Board, localScore: real, score: real, depth: int, children: seq<Node>)

  /** A node with the given children: total and local score both start at the board's score. */
  function NewNode(board: Board, children: seq<Node>, score: real, depth: int): (n: Node)
    ensures n.score == n.localScore == score
    ensures n.board == board && n.children == children && n.depth == depth
  {
    Node(board, score, score, depth, children)
  }

  /** A node without children. */
  function NewLeaf(board: Board, score: real, depth: int): (n: Node)
    ensures n.score == n.localScore == score
    ensures n.board == board && n.children == [] && n.depth == depth
  {
    NewNode(board, [], score, depth)
  }

  /** Appends a child after the existing ones. */
  function AddChild(n: Node, child: Node): (r: Node)
    ensures |r.children| == |n.children| + 1 && r.children[|n.children|] == child
    ensures forall i :: 0 <= i < |n.children| ==> r.children[i] == n.children[i]
    ensures r.board == n.board && r.score == n.score && r.localScore == n.localScore && r.depth == n.depth
  {
    n.(children := n.children + [child])
  }

  /** Replaces the children. */
  function SetChildren(n: Node, children: seq<Node>): (r: Node)
    ensures r.children == children
    ensures r.board == n.board && r.score == n.score && r.localScore == n.localScore && r.depth == n.depth
  {
    n.(children := children)
  }

  /** Adding children one by one builds the same list as setting them at once. */
  lemma {:induction false} AddChildrenInOrder(n: Node, children: seq<Node>)
    ensures AddAll(n, children) == SetChildren(n, n.children + children)
    decreases |children|
  {
    if |children| > 0 {
      AddChildrenInOrder(AddChild(n, children[0]), children[1..]);
      assert n.children + [children[0]] + children[1..] == n.children + children;
    }
  }

  /** Adds each child in turn. */
  function AddAll(n: Node, children: seq<Node>): Node
    decreases |children|
  {
    if |children| == 0 then n else AddAll(AddChild(n, children[0]), children[1..])
  }

  /** The scan for the highest score: starting from the first child, a later child replaces the
      current best only when it scores strictly higher. */
  function ScanMax(cs: seq<Node>, best: nat, i: nat): (r: nat)
    requires best < |cs| && best <= i <= |cs|
    requires forall j :: 0 <= j < i ==> cs[j].score <= cs[best].score
    requires forall j :: 0 <= j < best ==> cs[j].score < cs[best].score
    ensures r < |cs|
    ensures forall j :: 0 <= j < |cs| ==> cs[j].score <= cs[r].score
    ensures forall j :: 0 <= j < r ==> cs[j].score < cs[r].score
    decreases |cs| - i
  {
    if i == |cs| then best
    else ScanMax(cs, if cs[i].score > cs[best].score then i else best, i + 1)
  }

  /** The scan for the lowest score, replacing only on a strictly lower score. */
  function ScanMin(cs: seq<Node>, best: nat, i: nat): (r: nat)
    requires best < |cs| && best <= i <= |cs|
    requires forall j :: 0 <= j < i ==> cs[j].score >= cs[best].score
    requires forall j :: 0 <= j < best ==> cs[j].score > cs[best].score
    ensures r < |cs|
    ensures forall j :: 0 <= j < |cs| ==> cs[j].score >= cs[r].score
    ensures forall j :: 0 <= j < r ==> cs[j].score > cs[r].score
    decreases |cs| - i
  {
    if i == |cs| then best
    else ScanMin(cs, if cs[i].score < cs[best].score then i else best, i + 1)
  }

  /** The position of the child with the highest score, the first one on ties. */
  function ArgMax(cs: seq<Node>): (r: nat)
    requires |cs| > 0
    ensures r < |cs|
    ensures forall j :: 0 <= j < |cs| ==> cs[j].score <= cs[r].score
    ensures forall j :: 0 <= j < r ==> cs[j].score < cs[r].score
  {
    ScanMax(cs, 0, 0)
  }

  /** The position of the child with the lowest score, the first one on ties. */
  function ArgMin(cs: seq<Node>): (r: nat)
    requires |cs| > 0
    ensures r < |cs|
    ensures forall j :: 0 <= j < |cs| ==> cs[j].score >= cs[r].score
    ensures forall j :: 0 <= j < r ==> cs[j].score > cs[r].score
  {
    ScanMin(cs, 0, 0)
  }

  /** The child with the highest score; the list must not be empty. */
  function GetMaxChild(n: Node): (r: Node)
    requires |n.children| > 0
    ensures r in n.children
    ensures forall c :: c in n.children ==> c.score <= r.score
  {
    n.children[ArgMax(n.children)]
  }

  /** The child with the lowest score; the list must not be empty. */
  function GetMinChild(n: Node): (r: Node)
    requires |n.children| > 0
    ensures r in n.children
    ensures forall c :: c in n.children ==> c.score >= r.score
  {
    n.children[ArgMin(n.children)]
  }

  /** The selected child is the first with its score: every earlier child scores strictly
      lower (for the maximum) or strictly higher (for the minimum). */
  lemma SelectedChildIsFirst(n: Node, i: nat)
    requires |n.children| > 0 && i < |n.children|
    ensures n.children[i].score == GetMaxChild(n).score ==> ArgMax(n.children) <= i
    ensures n.children[i].score == GetMinChild(n).score ==> ArgMin(n.children) <= i
  {
  }

  /** The backup: children first, then a machine-to-move node adds its best child's total to its
      own, a human-to-move node its worst child's; a node with no children, or whose board has no
      player to move, keeps its score. */
  function UpdateScore(n: Node): (r: Node)
    ensures r.board == n.board && r.localScore == n.localScore && r.depth == n.depth
    ensures |r.children| == |n.children|
    decreases n, 1
  {
    var cs := UpdateAll(n.children);
    if |cs| == 0 then n
    else if n.board.opening == Machine then n.(children := cs, score := cs[ArgMax(cs)].score + n.score)
    else if n.board.opening == Human then n.(children := cs, score := cs[ArgMin(cs)].score + n.score)
    else n.(children := cs)
  }

  /** UpdateScore on every node of a list. */
  function UpdateAll(cs: seq<Node>): (r: seq<Node>)
    ensures |r| == |cs|
    ensures forall i :: 0 <= i < |cs| ==> r[i] == UpdateScore(cs[i])
    decreases cs, 0
  {
    if |cs| == 0 then [] else [UpdateScore(cs[0])] + UpdateAll(cs[1..])
  }

  /** The largest of a non-empty list of values. */
  function MaxOf(xs: seq<real>): (r: real)
    requires |xs| > 0
    ensures r in xs && forall i :: 0 <= i < |xs| ==> xs[i] <= r
  {
    if |xs| == 1 then xs[0]
    else
      var m := MaxOf(xs[1..]);
      assert forall i :: 1 <= i < |xs| ==> xs[i] == xs[1..][i - 1];
      if xs[0] >= m then xs[0] else m
  }

  /** The smallest of a non-empty list of values. */
  function MinOf(xs: seq<real>): (r: real)
    requires |xs| > 0
    ensures r in xs && forall i :: 0 <= i < |xs| ==> xs[i] >= r
  {
    if |xs| == 1 then xs[0]
    else
      var m := MinOf(xs[1..]);
      assert forall i :: 1 <= i < |xs| ==> xs[i] == xs[1..][i - 1];
      if xs[0] <= m then xs[0] else m
  }

  /** The minimax value of a tree, defined from the local scores alone: a leaf is worth its local
      score, a machine-to-move node its local score plus the best child value, a human-to-move
      node plus the worst, and a node with no player to move its local score. */
  function Minimax(n: Node): real
    decreases n, 1
  {
    var vs := MinimaxAll(n.children);
    if |vs| == 0 then n.localScore
    else if n.board.opening == Machine then n.localScore + MaxOf(vs)
    else if n.board.opening == Human then n.localScore + MinOf(vs)
    else n.localScore
  }

  /** The minimax value of every tree of a list. */
  function MinimaxAll(cs: seq<Node>): (r: seq<real>)
    ensures |r| == |cs|
    ensures forall i :: 0 <= i < |cs| ==> r[i] == Minimax(cs[i])
    decreases cs, 0
  {
    if |cs| == 0 then [] else [Minimax(cs[0])] + MinimaxAll(cs[1..])
  }

  /** The minimax value of a node depends only on its player to move, its local score and the
      values of its children. */
  lemma MinimaxDependsOnValues(n: Node, m: Node)
    requires n.board.opening == m.board.opening && n.localScore == m.localScore
    requires MinimaxAll(n.children) == MinimaxAll(m.children)
    ensures Minimax(n) == Minimax(m)
  {
  }

  /** A tree whose every node still has its total score equal to its local score. */
  predicate Fresh(n: Node)
    decreases n
  {
    && n.score == n.localScore
    && forall i :: 0 <= i < |n.children| ==> Fresh(n.children[i])
  }

  /** Every path from a node down to a leaf has at most h edges. */
  predicate HeightAtMost(n: Node, h: int)
    decreases n
  {
    && h >= 0
    && forall i :: 0 <= i < |n.children| ==> HeightAtMost(n.children[i], h - 1)
  }

  /** The selection depends on the scores alone: two lists scoring alike position by position
      select the same position. */
  lemma SelectionDependsOnScores(cs: seq<Node>, ds: seq<Node>)
    requires |cs| == |ds| > 0
    requires forall i :: 0 <= i < |cs| ==> cs[i].score == ds[i].score
    ensures ArgMax(cs) == ArgMax(ds) && ArgMin(cs) == ArgMin(ds)
  {
  }

  /** The maximum found by the scan is the maximum value. */
  lemma ArgMaxIsMaxOf(cs: seq<Node>, vs: seq<real>)
    requires |cs| > 0 && |vs| == |cs|
    requires forall i :: 0 <= i < |cs| ==> cs[i].score == vs[i]
    ensures cs[ArgMax(cs)].score == MaxOf(vs)
    ensures cs[ArgMin(cs)].score == MinOf(vs)
  {
  }

  /** One backup of a fresh tree computes its minimax value at every node. */
  lemma {:induction false} UpdateScoreComputesMinimax(n: Node)
    requires Fresh(n)
    ensures UpdateScore(n).score == Minimax(n)
    decreases n
  {
    var cs := UpdateAll(n.children);
    var vs := MinimaxAll(n.children);
    forall i | 0 <= i < |n.children| ensures cs[i].score == vs[i] {
      UpdateScoreComputesMinimax(n.children[i]);
    }
    if |cs| > 0 {
      ArgMaxIsMaxOf(cs, vs);
    }
  }

  /** A node without children is left exactly as it is. */
  lemma UpdateScoreOfLeaf(n: Node)
    requires |n.children| == 0
    ensures UpdateScore(n) == n
  {
  }

  /** A node whose board has no player to move keeps its score, whatever its children. */
  lemma UpdateScoreWithoutPlayer(n: Node)
    requires n.board.opening == None
    ensures UpdateScore(n).score == n.score
  {
  }
}
