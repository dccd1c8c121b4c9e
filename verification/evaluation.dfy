/** The static evaluation of a board from the machine's point of view. */
module Evaluation {
  import opened Players
  import opened Layout
  import opened Sums
  import opened Boards

  /** Where each non-empty pit of the list would end if sown straight on: pit number plus seeds,
      without wrapping around the board. */
  function Reach(b: Board, pits: seq<int>): (r: seq<int>)
    requires Valid(b)
    requires forall i :: 0 <= i < |pits| ==> OnGrid(b.pitsPerPlayer, pits[i])
    ensures |r| <= |pits|
    ensures forall j :: 0 <= j < |r| ==> r[j] >= 2
    decreases |pits|
  {
    if |pits| == 0 then []
    else
      var rest := Reach(b, pits[1..]);
      assert OnGrid(b.pitsPerPlayer, pits[0]);
      if b.cells[pits[0] - 1] != 0 then [pits[0] + b.cells[pits[0] - 1]] + rest else rest
  }

  /** The landing pits the evaluation considers for a player, as the board lists them. */
  function RawTargets(b: Board, player: Player): (r: seq<int>)
    requires Valid(b)
    ensures |r| <= b.pitsPerPlayer
    ensures forall j :: 0 <= j < |r| ==> r[j] >= 2
  {
    Reach(b, PlayerPits(b.pitsPerPlayer, player))
  }

  /** The same landing pits wrapped back onto the board. */
  function Targets(b: Board, player: Player): (r: seq<int>)
    requires Valid(b)
    ensures |r| == |RawTargets(b, player)|
    ensures forall j :: 0 <= j < |r| ==> OnGrid(b.pitsPerPlayer, r[j])
    ensures forall j :: 0 <= j < |r| ==> r[j] == Normalize(b.pitsPerPlayer, RawTargets(b, player)[j])
  {
    var raw := RawTargets(b, player);
    seq(|raw|, j requires 0 <= j < |raw| => Normalize(b.pitsPerPlayer, raw[j]))
  }

  /** Whether a landing pit would let the player capture: an empty sowing pit of the player's own. */
  predicate Catches(b: Board, player: Player, t: int)
    requires Valid(b) && OnGrid(b.pitsPerPlayer, t)
  {
    !IsStoreNum(b.pitsPerPlayer, t) && b.cells[t - 1] == 0 && OwnerOf(b.pitsPerPlayer, t) == player
  }

  /** The seeds facing every landing pit that would capture, each landing counted as often as it occurs. */
  function Catchable(b: Board, player: Player, targets: seq<int>): (r: nat)
    requires Valid(b)
    requires forall j :: 0 <= j < |targets| ==> OnGrid(b.pitsPerPlayer, targets[j])
    ensures r > 0 ==> exists j :: 0 <= j < |targets| && Catches(b, player, targets[j])
    decreases |targets|
  {
    if |targets| == 0 then 0
    else
      var t := targets[0];
      OpposingShape(b.pitsPerPlayer, t);
      (if Catches(b, player, t) then b.cells[Opposing(b.pitsPerPlayer, t) - 1] else 0)
        + Catchable(b, player, targets[1..])
  }

  /** The catch sum over two lists of landing pits is the sum of their catch sums, so every
      landing adds what it alone would catch. */
  lemma {:induction false} CatchableAppend(b: Board, player: Player, xs: seq<int>, ys: seq<int>)
    requires Valid(b)
    requires forall j :: 0 <= j < |xs| ==> OnGrid(b.pitsPerPlayer, xs[j])
    requires forall j :: 0 <= j < |ys| ==> OnGrid(b.pitsPerPlayer, ys[j])
    ensures Catchable(b, player, xs + ys) == Catchable(b, player, xs) + Catchable(b, player, ys)
    decreases |xs|
  {
    if |xs| == 0 {
      assert xs + ys == ys;
    } else {
      assert (xs + ys)[0] == xs[0];
      assert (xs + ys)[1..] == xs[1..] + ys;
      CatchableAppend(b, player, xs[1..], ys);
    }
  }

  /** A player none of whose sowing pits is empty has nothing to catch. */
  lemma NothingToCatch(b: Board, player: Player, targets: seq<int>)
    requires Valid(b)
    requires forall j :: 0 <= j < |targets| ==> OnGrid(b.pitsPerPlayer, targets[j])
    requires forall k :: (OnGrid(b.pitsPerPlayer, k) && !IsStoreNum(b.pitsPerPlayer, k)
                          && OwnerOf(b.pitsPerPlayer, k) == player) ==> Seeds(b, k) > 0
    ensures Catchable(b, player, targets) == 0
  {
  }

  /** A sowing pit is exposed when it is empty and the pit facing it holds at least twice the
      initial seeds. */
  predicate ExposedAt(b: Board, k: int)
    requires Valid(b) && OnGrid(b.pitsPerPlayer, k) && !IsStoreNum(b.pitsPerPlayer, k)
  {
    OpposingShape(b.pitsPerPlayer, k);
    b.cells[k - 1] == 0 && b.cells[Opposing(b.pitsPerPlayer, k) - 1] >= 2 * b.seedsPerPit
  }

  /** The number of exposed pits of a list, each counted as often as it occurs. */
  function Exposed(b: Board, pits: seq<int>): (r: nat)
    requires Valid(b)
    requires forall i :: 0 <= i < |pits| ==> OnGrid(b.pitsPerPlayer, pits[i]) && !IsStoreNum(b.pitsPerPlayer, pits[i])
    ensures r <= |pits|
    decreases |pits|
  {
    if |pits| == 0 then 0
    else (if ExposedAt(b, pits[0]) then 1 else 0) + Exposed(b, pits[1..])
  }

  /** The exposed pits among the numbers first..first+n-1; a player's row is such a run. */
  function ExposedIn(b: Board, first: int, n: nat): (r: set<int>)
    requires Valid(b) && 1 <= first && first + n <= Cells(b.pitsPerPlayer) + 1
    requires forall k :: first <= k < first + n ==> !IsStoreNum(b.pitsPerPlayer, k)
  {
    set k | first <= k < first + n && ExposedAt(b, k)
  }

  /** The exposed pits of a run are those of the run after its first pit, plus the first pit
      when it is exposed. */
  lemma ExposedInStep(b: Board, first: int, n: nat)
    requires Valid(b) && 1 <= first && first + n <= Cells(b.pitsPerPlayer) + 1 && n > 0
    requires forall k :: first <= k < first + n ==> !IsStoreNum(b.pitsPerPlayer, k)
    ensures first !in ExposedIn(b, first + 1, n - 1)
    ensures ExposedIn(b, first, n)
      == ExposedIn(b, first + 1, n - 1) + (if ExposedAt(b, first) then {first} else {})
    ensures |ExposedIn(b, first, n)| == |ExposedIn(b, first + 1, n - 1)| + (if ExposedAt(b, first) then 1 else 0)
  {
  }

  /** Over a run of consecutive sowing pits, the count is the number of exposed pits in the run. */
  lemma {:induction false} ExposedCountsRun(b: Board, pits: seq<int>, first: int, n: nat)
    requires Valid(b) && 1 <= first && first + n <= Cells(b.pitsPerPlayer) + 1
    requires forall k :: first <= k < first + n ==> !IsStoreNum(b.pitsPerPlayer, k)
    requires |pits| == n && forall i :: 0 <= i < n ==> pits[i] == first + i
    ensures Exposed(b, pits) == |ExposedIn(b, first, n)|
    decreases n
  {
    if n > 0 {
      var tail := pits[1..];
      assert forall i :: 0 <= i < n - 1 ==> tail[i] == first + 1 + i;
      ExposedCountsRun(b, tail, first + 1, n - 1);
      ExposedInStep(b, first, n);
      assert Exposed(b, pits) == (if ExposedAt(b, first) then 1 else 0) + Exposed(b, tail);
    }
  }

  /** A row without empty pits exposes nothing. */
  lemma {:induction false} NothingExposed(b: Board, pits: seq<int>)
    requires Valid(b)
    requires forall i :: 0 <= i < |pits| ==> OnGrid(b.pitsPerPlayer, pits[i]) && !IsStoreNum(b.pitsPerPlayer, pits[i])
    requires forall i :: 0 <= i < |pits| ==> Seeds(b, pits[i]) > 0
    ensures Exposed(b, pits) == 0
    decreases |pits|
  {
    if |pits| > 0 {
      NothingExposed(b, pits[1..]);
      assert Seeds(b, pits[0]) > 0;
    }
  }

  /** Exposed counted over a player's own row. */
  function ExposedPits(b: Board, player: Player): (r: nat)
    requires Valid(b)
    ensures r <= b.pitsPerPlayer
  {
    Exposed(b, PlayerPits(b.pitsPerPlayer, player))
  }

  /** A player's exposure count is the number of exposed pits in that player's row. */
  lemma ExposedPitsCountsRow(b: Board, player: Player)
    requires Valid(b)
    ensures ExposedPits(b, player) == |ExposedIn(b, RowStart(b.pitsPerPlayer, player), b.pitsPerPlayer)|
  {
    var P := b.pitsPerPlayer;
    ExposedCountsRun(b, PlayerPits(P, player), RowStart(P, player), P);
  }

  /** The evaluation formula given the two capture potentials: on a decided board only the terminal
      bonus 500/depth (machine wins) or -1.5 * 500/depth (human wins); otherwise three times the
      store differential plus the capture and exposure differentials, the human's share weighted 1.5. */
  function Evaluate(b: Board, depth: int, caughtByMachine: nat, caughtByHuman: nat): real
    requires Valid(b) && (Decided(b) ==> depth != 0)
  {
    var P := b.pitsPerPlayer;
    var scoreS := b.cells[MachineStore(P) - 1] as real - 1.5 * b.cells[HumanStore(P) - 1] as real;
    var scoreC := caughtByMachine as real - 1.5 * caughtByHuman as real;
    var scoreP := ExposedPits(b, Machine) as real - 1.5 * ExposedPits(b, Human) as real;
    if IsGameOver(b) && Winner(b) == Won(Human) then -1.5 * (500.0 / depth as real)
    else if IsGameOver(b) && Winner(b) == Won(Machine) then 500.0 / depth as real
    else 3.0 * scoreS + scoreC + scoreP
  }

  /** The board's score at a search depth, with every landing pit wrapped onto the board. */
  function Score(b: Board, depth: int): real
    requires Valid(b) && (Decided(b) ==> depth != 0)
  {
    Evaluate(b, depth, Catchable(b, Machine, Targets(b, Machine)), Catchable(b, Human, Targets(b, Human)))
  }

  /** Away from a decided end the score does not depend on the depth. */
  lemma ScoreIgnoresDepthUntilDecided(b: Board, d1: int, d2: int)
    requires Valid(b) && !Decided(b)
    ensures Score(b, d1) == Score(b, d2)
  {
  }

  /** A decided board scores higher for the machine the sooner the search reaches it: a machine win
      is positive and shrinks with depth, a human win is negative and grows with depth. */
  lemma ScorePrefersEarlyWins(b: Board, d1: int, d2: int)
    requires Valid(b) && Decided(b) && 0 < d1 < d2
    ensures Winner(b) == Won(Machine) ==> Score(b, d1) > Score(b, d2) > 0.0
    ensures Winner(b) == Won(Human) ==> Score(b, d1) < Score(b, d2) < 0.0
  {
    var x1, x2 := d1 as real, d2 as real;
    var a, c := 500.0 / x1, 500.0 / x2;
    assert a * x1 == 500.0 && c * x2 == 500.0;
    assert c > 0.0;
    assert c * x1 < c * x2;
    assert a > c;
  }

  /** On a decided board the score is the terminal bonus alone, signed by the winner. */
  lemma ScoreOfDecidedBoard(b: Board, depth: int)
    requires Valid(b) && Decided(b) && depth != 0
    ensures Winner(b) == Won(Machine) ==> Score(b, depth) == 500.0 / depth as real
    ensures Winner(b) == Won(Human) ==> Score(b, depth) == -750.0 / depth as real
  {
    var m, h := Catchable(b, Machine, Targets(b, Machine)), Catchable(b, Human, Targets(b, Human));
    assert Score(b, depth) == Evaluate(b, depth, m, h);
    if Winner(b) == Won(Human) {
      HumanBonus(depth as real);
    }
  }

  /** The human's terminal bonus, 1.5 times 500/depth, is 750/depth. */
  lemma HumanBonus(d: real)
    requires d != 0.0
    ensures -1.5 * (500.0 / d) == -750.0 / d
  {
  }

  /** The opening position is level: no store differential, nothing to catch, nothing exposed. */
  lemma OpeningScoresLevel(opening: Player, P: nat, seedsPerPit: nat, level: int, depth: int)
    requires P >= 1 && seedsPerPit >= 1
    ensures !IsGameOver(NewBoard(opening, P, seedsPerPit, level))
    ensures Score(NewBoard(opening, P, seedsPerPit, level), depth) == 0.0
  {
    var b := NewBoard(opening, P, seedsPerPit, level);
    assert Seeds(b, 1) > 0 && Seeds(b, P + 2) > 0;
    forall k | OnGrid(P, k) && !IsStoreNum(P, k) ensures Seeds(b, k) > 0 {
    }
    NothingToCatch(b, Machine, Targets(b, Machine));
    NothingToCatch(b, Human, Targets(b, Human));
    NothingExposed(b, PlayerPits(P, Machine));
    NothingExposed(b, PlayerPits(P, Human));
  }

  /** The catch sum as written: landing pits are not wrapped, so one past the machine's store fails
      its lookup; and the facing pit of an empty machine store (number 0) fails too. */
  datatype Caught = Caught(seeds: nat) | CatchIndexOutOfBounds

  /** The catch at one landing pit as written. */
  function CatchAtAsWritten(b: Board, player: Player, t: int): Caught
    requires Valid(b)
  {
    var P := b.pitsPerPlayer;
    if !Locate(P, t).At? then CatchIndexOutOfBounds
    else
      LocateAt(P, t);
      if b.cells[t - 1] == 0 && OwnerOf(P, t) == player then
        var o := Opposing(P, t);
        if !Locate(P, o).At? then CatchIndexOutOfBounds else (LocateAt(P, o); Caught(b.cells[o - 1]))
      else Caught(0)
  }

  function CatchableAsWritten(b: Board, player: Player, targets: seq<int>): Caught
    requires Valid(b)
    decreases |targets|
  {
    if |targets| == 0 then Caught(0)
    else
      match (CatchAtAsWritten(b, player, targets[0]), CatchableAsWritten(b, player, targets[1..]))
      case (Caught(x), Caught(y)) => Caught(x + y)
      case _ => CatchIndexOutOfBounds
  }

  /** Where the catch at one landing pit as written succeeds, the pit is on the board and the
      catch is the wrapped one. */
  lemma CatchAtAsWrittenAgrees(b: Board, player: Player, t: int)
    requires Valid(b) && CatchAtAsWritten(b, player, t).Caught?
    ensures OnGrid(b.pitsPerPlayer, t)
    ensures CatchAtAsWritten(b, player, t).seeds == Catchable(b, player, [t])
  {
    var P := b.pitsPerPlayer;
    LocateAt(P, t);
    LocateAt(P, Opposing(P, t));
    OpposingShape(P, t);
  }

  /** Where the catch sum as written succeeds, it equals the wrapped one. */
  lemma {:induction false} CatchableAsWrittenAgrees(b: Board, player: Player, raw: seq<int>)
    requires Valid(b)
    requires CatchableAsWritten(b, player, raw).Caught?
    ensures forall j :: 0 <= j < |raw| ==> OnGrid(b.pitsPerPlayer, raw[j])
    ensures CatchableAsWritten(b, player, raw).seeds == Catchable(b, player, raw)
    decreases |raw|
  {
    if |raw| > 0 {
      CatchAtAsWrittenAgrees(b, player, raw[0]);
      CatchableAsWrittenAgrees(b, player, raw[1..]);
      assert forall j :: 1 <= j < |raw| ==> raw[j] == raw[1..][j - 1];
      assert Catchable(b, player, raw) == Catchable(b, player, [raw[0]]) + Catchable(b, player, raw[1..]);
    }
  }

  /** The score as written: both catch sums must succeed. */
  datatype Scored = Scored(value: real) | ScoreIndexOutOfBounds

  function ScoreAsWritten(b: Board, depth: int): Scored
    requires Valid(b) && (Decided(b) ==> depth != 0)
  {
    match (CatchableAsWritten(b, Human, RawTargets(b, Human)), CatchableAsWritten(b, Machine, RawTargets(b, Machine)))
    case (Caught(byHuman), Caught(byMachine)) => Scored(Evaluate(b, depth, byMachine, byHuman))
    case _ => ScoreIndexOutOfBounds
  }

  /** Wherever the score as written has a value, it is the score. */
  lemma ScoreAsWrittenAgrees(b: Board, depth: int)
    requires Valid(b) && (Decided(b) ==> depth != 0)
    requires ScoreAsWritten(b, depth).Scored?
    ensures ScoreAsWritten(b, depth).value == Score(b, depth)
  {
    var P := b.pitsPerPlayer;
    var rh, rm := RawTargets(b, Human), RawTargets(b, Machine);
    CatchableAsWrittenAgrees(b, Human, rh);
    CatchableAsWrittenAgrees(b, Machine, rm);
    assert Targets(b, Human) == rh;
    assert Targets(b, Machine) == rm;
  }

  /** Pits that all hold the same positive number of seeds each reach that many pits further. */
  lemma {:induction false} ReachOfFullPits(b: Board, pits: seq<int>, s: nat)
    requires Valid(b) && s > 0
    requires forall i :: 0 <= i < |pits| ==> OnGrid(b.pitsPerPlayer, pits[i]) && b.cells[pits[i] - 1] == s
    ensures |Reach(b, pits)| == |pits|
    ensures forall j :: 0 <= j < |pits| ==> Reach(b, pits)[j] == pits[j] + s
    decreases |pits|
  {
    if |pits| > 0 {
      ReachOfFullPits(b, pits[1..], s);
    }
  }

  /** The machine's landing pits on the standard opening position. */
  lemma StandardOpeningMachineReach(opening: Player, level: int)
    ensures RawTargets(NewBoard(opening, 6, 4, level), Machine) == [12, 13, 14, 15, 16, 17]
  {
    var b := NewBoard(opening, 6, 4, level);
    ReachOfFullPits(b, PlayerPits(6, Machine), 4);
    var r := RawTargets(b, Machine);
    assert forall j :: 0 <= j < 6 ==> r[j] == [12, 13, 14, 15, 16, 17][j];
  }

  /** On the standard opening position the landing at pit 14, the machine's own empty store, makes
      the catch sum as written look up pit 0. */
  lemma StandardOpeningMachineCatchFails(opening: Player, level: int)
    ensures CatchableAsWritten(NewBoard(opening, 6, 4, level), Machine, [12, 13, 14, 15, 16, 17])
            == CatchIndexOutOfBounds
  {
    var b := NewBoard(opening, 6, 4, level);
    LocateIsBijection(6);
    assert Seeds(b, 12) == 4 && Seeds(b, 13) == 4 && Seeds(b, 14) == 0;
    assert Locate(6, 0) == OutOfBounds;
    assert CatchableAsWritten(b, Machine, [14, 15, 16, 17]) == CatchIndexOutOfBounds;
    assert CatchableAsWritten(b, Machine, [13, 14, 15, 16, 17]) == CatchIndexOutOfBounds;
  }

  /** The standard opening position, 6 pits of 4 seeds: the machine's pit 10 lands exactly on its
      own empty store, whose facing pit is number 0, so the score as written has no value. */
  lemma StandardOpeningScoreFails(opening: Player, level: int, depth: int)
    ensures !IsGameOver(NewBoard(opening, 6, 4, level))
    ensures ScoreAsWritten(NewBoard(opening, 6, 4, level), depth) == ScoreIndexOutOfBounds
  {
    var b := NewBoard(opening, 6, 4, level);
    assert Seeds(b, 1) > 0 && Seeds(b, 8) > 0;
    StandardOpeningMachineReach(opening, level);
    StandardOpeningMachineCatchFails(opening, level);
  }
}
