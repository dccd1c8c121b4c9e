/** One ply: sowing the seeds of a pit, the capture rule, and who moves next. */
module Sowing {
  import opened Players
  import opened Layout
  import opened Sums
  import opened Boards

  /** A store the mover's seeds pass over: any store the mover does not own. */
  predicate Skips(P: nat, mover: Player, k: int)
    requires OnGrid(P, k)
  {
    IsStoreNum(P, k) && OwnerOf(P, k) != mover
  }

  /** The cells after sowing, and the pit the last seed went into. */
  datatype Sown = Sown(cells: seq<nat>, last: int)

  /**
   * Places `seeds` seeds one by one counter-clockwise starting at pit `pos`, passing over every
   * store the mover does not own on every lap, so that all seeds land in pits the mover may fill.
   */
  function Distribute(P: nat, mover: Player, cells: seq<nat>, pos: int, seeds: nat): (r: Sown)
    requires P >= 1 && |cells| == Cells(P) && OnGrid(P, pos) && seeds >= 1
    ensures |r.cells| == |cells|
    ensures OnGrid(P, r.last) && !Skips(P, mover, r.last)
    decreases seeds, if Skips(P, mover, pos) then 1 else 0
  {
    if Skips(P, mover, pos) then
      Distribute(P, mover, cells, Succ(P, pos), seeds)
    else
      var placed := cells[pos - 1 := cells[pos - 1] + 1];
      if seeds == 1 then Sown(placed, pos)
      else Distribute(P, mover, placed, Succ(P, pos), seeds - 1)
  }

  /** Sowing adds exactly the sown seeds to the board's total. */
  lemma {:induction false} DistributeAddsSeeds(P: nat, mover: Player, cells: seq<nat>, pos: int, seeds: nat)
    requires P >= 1 && |cells| == Cells(P) && OnGrid(P, pos) && seeds >= 1
    ensures Sum(Distribute(P, mover, cells, pos, seeds).cells) == Sum(cells) + seeds
    decreases seeds, if Skips(P, mover, pos) then 1 else 0
  {
    if Skips(P, mover, pos) {
      DistributeAddsSeeds(P, mover, cells, Succ(P, pos), seeds);
    } else {
      var placed := cells[pos - 1 := cells[pos - 1] + 1];
      SumUpdate(cells, pos - 1, cells[pos - 1] + 1);
      if seeds > 1 {
        DistributeAddsSeeds(P, mover, placed, Succ(P, pos), seeds - 1);
      }
    }
  }

  /** Sowing only ever adds seeds, never touches a store it passes over, and the pit it ends in
      has gained at least the last seed. */
  lemma {:induction false} DistributeOnlyAdds(P: nat, mover: Player, cells: seq<nat>, pos: int, seeds: nat)
    requires P >= 1 && |cells| == Cells(P) && OnGrid(P, pos) && seeds >= 1
    ensures var r := Distribute(P, mover, cells, pos, seeds);
      && r.cells[r.last - 1] > cells[r.last - 1]
      && (forall i :: 0 <= i < |cells| ==> r.cells[i] >= cells[i])
      && (forall k :: OnGrid(P, k) && Skips(P, mover, k) ==> r.cells[k - 1] == cells[k - 1])
    decreases seeds, if Skips(P, mover, pos) then 1 else 0
  {
    if Skips(P, mover, pos) {
      DistributeOnlyAdds(P, mover, cells, Succ(P, pos), seeds);
    } else if seeds > 1 {
      var placed := cells[pos - 1 := cells[pos - 1] + 1];
      DistributeOnlyAdds(P, mover, placed, Succ(P, pos), seeds - 1);
    }
  }

  /** One step of sowing into a pit that is not passed over. */
  lemma DistributeStep(P: nat, mover: Player, cells: seq<nat>, pos: int, seeds: nat)
    requires P >= 1 && |cells| == Cells(P) && OnGrid(P, pos) && seeds >= 1 && !Skips(P, mover, pos)
    ensures var placed := cells[pos - 1 := cells[pos - 1] + 1];
      Distribute(P, mover, cells, pos, seeds) ==
        if seeds == 1 then Sown(placed, pos) else Distribute(P, mover, placed, Succ(P, pos), seeds - 1)
  {
  }

  /** Sowing that neither wraps around nor meets a store it passes over adds one seed to each of
      the `seeds` pits from `pos` on and ends in the last of them. */
  lemma {:induction false} DistributeStraight(P: nat, mover: Player, cells: seq<nat>, pos: int, seeds: nat)
    requires P >= 1 && |cells| == Cells(P) && OnGrid(P, pos) && seeds >= 1
    requires pos + seeds - 1 <= Cells(P)
    requires forall k :: pos <= k < pos + seeds ==> !Skips(P, mover, k)
    ensures Distribute(P, mover, cells, pos, seeds).last == pos + seeds - 1
    ensures forall i :: 0 <= i < |cells| ==>
      Distribute(P, mover, cells, pos, seeds).cells[i] == cells[i] + (if pos - 1 <= i < pos + seeds - 1 then 1 else 0)
    decreases seeds
  {
    assert !Skips(P, mover, pos);
    var placed := cells[pos - 1 := cells[pos - 1] + 1];
    if seeds > 1 {
      DistributeStraight(P, mover, placed, Succ(P, pos), seeds - 1);
    }
  }

  /**
   * The sowing loop as the board runs it: a raw counter walks from pit+1 to pitCount, every index
   * is wrapped into the board, and each passed-over store extends pitCount by one. It computes
   * exactly what Distribute does from the pit after the emptied source.
   */
  method SowSeeds(P: nat, mover: Player, cells: seq<nat>, pit: int) returns (sown: seq<nat>, target: int)
    requires P >= 1 && |cells| == Cells(P) && OnGrid(P, pit) && cells[pit - 1] > 0
    ensures Sown(sown, target) == Distribute(P, mover, cells[pit - 1 := 0], Succ(P, pit), cells[pit - 1])
  {
    var seeds := cells[pit - 1];
    sown := cells[pit - 1 := 0];
    ghost var goal := Distribute(P, mover, sown, Succ(P, pit), seeds);
    var pitCount := seeds + pit;
    var i := pit + 1;
    NormalizeStep(P, pit);
    while i <= pitCount
      invariant pit + 1 <= i <= pitCount + 1
      invariant |sown| == Cells(P)
      invariant i <= pitCount ==> Distribute(P, mover, sown, Normalize(P, i), pitCount - i + 1) == goal
      invariant i > pitCount ==> goal == Sown(sown, Normalize(P, pitCount))
      decreases pitCount - i + 1, if i <= pitCount && Skips(P, mover, Normalize(P, i)) then 1 else 0
    {
      var n := Normalize(P, i);
      NormalizeStep(P, i);
      ghost var rest := pitCount - i + 1;
      if IsStoreNum(P, n) && OwnerOf(P, n) != mover {
        pitCount := pitCount + 1;
        i := i + 1;
      } else {
        ghost var before := sown;
        sown := sown[n - 1 := sown[n - 1] + 1];
        DistributeStep(P, mover, before, n, rest);
        i := i + 1;
      }
    }
    target := Normalize(P, pitCount);
  }

  /** The capture test: the landing pit is no store, holds exactly the one seed just sown, and the
      pit facing it is not empty. Ownership of the landing pit is not tested. */
  predicate CaptureApplies(P: nat, cells: seq<nat>, t: int)
    requires |cells| == Cells(P) && OnGrid(P, t)
  {
    && !IsStoreNum(P, t)
    && OnGrid(P, Opposing(P, t))
    && cells[Opposing(P, t) - 1] > 0
    && cells[t - 1] == 1
  }

  /**
   * The capture rule: when it applies, the landing pit and the pit facing it are emptied into the
   * mover's store (the machine's store for any mover but the human); otherwise nothing changes.
   */
  function Capture(P: nat, mover: Player, cells: seq<nat>, t: int): (r: seq<nat>)
    requires |cells| == Cells(P) && OnGrid(P, t)
    ensures |r| == |cells|
    ensures Sum(r) == Sum(cells)
    ensures !CaptureApplies(P, cells, t) ==> r == cells
    ensures CaptureApplies(P, cells, t) ==>
      var o, s := Opposing(P, t), StoreOf(P, mover);
      && r[t - 1] == 0 && r[o - 1] == 0
      && r[s - 1] == cells[s - 1] + cells[t - 1] + cells[o - 1]
      && forall k :: OnGrid(P, k) && k != t && k != o && k != s ==> r[k - 1] == cells[k - 1]
  {
    if CaptureApplies(P, cells, t) then
      var o, s := Opposing(P, t), StoreOf(P, mover);
      var held := cells[o - 1] + cells[t - 1];
      var emptied := cells[o - 1 := 0][t - 1 := 0];
      SumUpdate(cells, o - 1, 0);
      SumUpdate(cells[o - 1 := 0], t - 1, 0);
      SumUpdate(emptied, s - 1, emptied[s - 1] + held);
      emptied[s - 1 := emptied[s - 1] + held]
    else
      cells
  }

  /** The outcome of the capture step as written: the pit facing the landing pit is looked up
      before the store test, and the lookup leaves the array for the machine's store. */
  datatype Captured = Done(cells: seq<nat>) | IndexOutOfBounds

  function CaptureAsWritten(P: nat, mover: Player, cells: seq<nat>, t: int): Captured
    requires |cells| == Cells(P) && OnGrid(P, t)
  {
    var o := Opposing(P, t);
    if !Locate(P, o).At? then IndexOutOfBounds
    else if !IsStoreNum(P, t) && cells[o - 1] > 0 && cells[t - 1] == 1 then
      var held := cells[o - 1] + cells[t - 1];
      var emptied := cells[o - 1 := 0][t - 1 := 0];
      var s := StoreOf(P, mover);
      Done(emptied[s - 1 := emptied[s - 1] + held])
    else Done(cells)
  }

  /** The capture step as written fails exactly when the last seed lands in the machine's store,
      and agrees with Capture everywhere else. */
  lemma CaptureAsWrittenFailsOnlyAtMachineStore(P: nat, mover: Player, cells: seq<nat>, t: int)
    requires |cells| == Cells(P) && OnGrid(P, t)
    ensures CaptureAsWritten(P, mover, cells, t) ==
      (if t == MachineStore(P) then IndexOutOfBounds else Done(Capture(P, mover, cells, t)))
  {
    LocateIsBijection(P);
  }

  /** Whose turn the board says comes next: the opening player again when the last seed landed in
      that player's own store, the opponent otherwise. */
  function NextPlayer(b: Board): (r: Player)
    requires Valid(b)
    ensures r == b.opening || r == Opponent(b.opening)
    ensures b.opening != None ==>
      (r == b.opening <==> b.target > 0 && IsStoreNum(b.pitsPerPlayer, b.target) && OwnerOf(b.pitsPerPlayer, b.target) == b.opening)
  {
    var P := b.pitsPerPlayer;
    if b.target > 0 then
      if IsStoreNum(P, b.target) && OwnerOf(P, b.target) == b.opening then b.opening
      else Opponent(b.opening)
    else Opponent(b.opening)
  }

  /** A clone of the board with pit `pit` sown by the opening player, the capture rule applied,
      the source and target recorded, and the next player stamped as the new opening player. */
  function Ply(b: Board, pit: int): (r: Board)
    requires Valid(b) && OnGrid(b.pitsPerPlayer, pit) && b.cells[pit - 1] > 0
    ensures Valid(r)
    ensures r.pitsPerPlayer == b.pitsPerPlayer && r.seedsPerPit == b.seedsPerPit && r.level == b.level
    ensures r.source == pit
    ensures OnGrid(b.pitsPerPlayer, r.target) && !Skips(b.pitsPerPlayer, b.opening, r.target)
    ensures r.opening == (if IsStoreNum(b.pitsPerPlayer, r.target) then b.opening else Opponent(b.opening))
  {
    var P, c := b.pitsPerPlayer, Clone(b);
    var seeds := c.cells[pit - 1];
    var sown := Distribute(P, b.opening, c.cells[pit - 1 := 0], Succ(P, pit), seeds);
    var after := c.(cells := Capture(P, b.opening, sown.cells, sown.last), source := pit, target := sown.last);
    after.(opening := NextPlayer(after))
  }

  /** The seeds sown and captured stay on the board: a ply conserves the total seed count. */
  lemma PlyConservesSeeds(b: Board, pit: int)
    requires Valid(b) && OnGrid(b.pitsPerPlayer, pit) && b.cells[pit - 1] > 0
    ensures Sum(Ply(b, pit).cells) == Sum(b.cells)
  {
    var P := b.pitsPerPlayer;
    var emptied := b.cells[pit - 1 := 0];
    SumUpdate(b.cells, pit - 1, 0);
    DistributeAddsSeeds(P, b.opening, emptied, Succ(P, pit), b.cells[pit - 1]);
  }

  /** A real player's ply never changes the opponent's store when sown from a sowing pit. */
  lemma PlyLeavesOpponentStore(b: Board, pit: int)
    requires Valid(b) && OnGrid(b.pitsPerPlayer, pit) && b.cells[pit - 1] > 0
    requires b.opening != None && !IsStoreNum(b.pitsPerPlayer, pit)
    ensures var s := StoreOf(b.pitsPerPlayer, Opponent(b.opening));
      Ply(b, pit).cells[s - 1] == b.cells[s - 1]
  {
    var P := b.pitsPerPlayer;
    var s := StoreOf(P, Opponent(b.opening));
    var sown := Distribute(P, b.opening, b.cells[pit - 1 := 0], Succ(P, pit), b.cells[pit - 1]);
    assert Skips(P, b.opening, s);
    DistributeOnlyAdds(P, b.opening, b.cells[pit - 1 := 0], Succ(P, pit), b.cells[pit - 1]);
    assert sown.cells[s - 1] == b.cells[s - 1];
    if CaptureApplies(P, sown.cells, sown.last) {
      OpposingShape(P, sown.last);
    }
  }

  /** The ply as written, with the capture step's failing lookup. */
  datatype Played = Played(board: Board) | PlyIndexOutOfBounds

  function PlyAsWritten(b: Board, pit: int): Played
    requires Valid(b) && OnGrid(b.pitsPerPlayer, pit) && b.cells[pit - 1] > 0
  {
    var P, c := b.pitsPerPlayer, Clone(b);
    var sown := Distribute(P, b.opening, c.cells[pit - 1 := 0], Succ(P, pit), c.cells[pit - 1]);
    match CaptureAsWritten(P, b.opening, sown.cells, sown.last)
    case IndexOutOfBounds => PlyIndexOutOfBounds
    case Done(captured) =>
      var after := c.(cells := captured, source := pit, target := sown.last);
      Played(after.(opening := NextPlayer(after)))
  }

  /** The ply as written fails exactly when the sowing ends in the machine's store, which only a
      machine mover can reach; otherwise it agrees with Ply. */
  lemma PlyAsWrittenFailsOnlyAtMachineStore(b: Board, pit: int)
    requires Valid(b) && OnGrid(b.pitsPerPlayer, pit) && b.cells[pit - 1] > 0
    ensures PlyAsWritten(b, pit) ==
      (if Ply(b, pit).target == MachineStore(b.pitsPerPlayer) then PlyIndexOutOfBounds else Played(Ply(b, pit)))
    ensures Ply(b, pit).target == MachineStore(b.pitsPerPlayer) ==> b.opening == Machine
  {
    var P := b.pitsPerPlayer;
    var sown := Distribute(P, b.opening, b.cells[pit - 1 := 0], Succ(P, pit), b.cells[pit - 1]);
    CaptureAsWrittenFailsOnlyAtMachineStore(P, b.opening, sown.cells, sown.last);
  }

  /** On the standard 6-pit board with 4 seeds, a machine sowing pit 10 ends in its own store, and
      the capture step as written then reads pit 0 and fails. */
  lemma MachineSowIntoOwnStoreFails()
    ensures var b := NewBoard(Machine, 6, 4, 3);
      PlyAsWritten(b, 10) == PlyIndexOutOfBounds
  {
    var b := NewBoard(Machine, 6, 4, 3);
    assert b.cells[9] == 4 by { assert OnGrid(6, 10); }
    PlyAsWrittenFailsOnlyAtMachineStore(b, 10);
    DistributeStraight(6, Machine, b.cells[9 := 0], 11, 4);
  }

  /** The ways a human move ends: a new board, one of the two illegal-move errors, an index that is
      not on the board, or no board at all for a pit that may not be played. */
  datatype MoveResult = Moved(board: Board) | GameAlreadyOver | NotYourTurn | PitNotOnGrid | NoBoard

  /** The human's move: the guards in their order, then one ply on a clone. */
  function Move(b: Board, pit: int): (r: MoveResult)
    requires Valid(b)
    ensures r == GameAlreadyOver <==> IsGameOver(b)
    ensures r == NotYourTurn <==> !IsGameOver(b) && b.opening != Human
    ensures r == PitNotOnGrid <==> !IsGameOver(b) && b.opening == Human && !OnGrid(b.pitsPerPlayer, pit)
    ensures r == NoBoard <==>
      && !IsGameOver(b) && b.opening == Human && OnGrid(b.pitsPerPlayer, pit)
      && (b.cells[pit - 1] == 0 || IsStoreNum(b.pitsPerPlayer, pit) || OwnerOf(b.pitsPerPlayer, pit) != Human)
    ensures r.Moved? ==>
      && Valid(r.board) && r.board.source == pit
      && OnGrid(b.pitsPerPlayer, pit) && OwnerOf(b.pitsPerPlayer, pit) == Human && !IsStoreNum(b.pitsPerPlayer, pit)
      && Sum(r.board.cells) == Sum(b.cells)
      && r.board.target != MachineStore(b.pitsPerPlayer)
      && (r.board.opening == Human <==> r.board.target == HumanStore(b.pitsPerPlayer))
      && (r.board.opening == Machine <==> r.board.target != HumanStore(b.pitsPerPlayer))
  {
    var P := b.pitsPerPlayer;
    if IsGameOver(b) then GameAlreadyOver
    else if b.opening != Human then NotYourTurn
    else if !Locate(P, pit).At? then (LocateIsBijection(P); PitNotOnGrid)
    else
      LocateIsBijection(P);
      if b.cells[pit - 1] == 0 || IsStoreNum(P, pit) || OwnerOf(P, pit) != Human then NoBoard
      else
        PlyConservesSeeds(b, pit);
        Moved(Ply(b, pit))
  }

  /** A human move never reaches the failing lookup of the capture step as written. */
  lemma HumanMoveAvoidsFailingLookup(b: Board, pit: int)
    requires Valid(b) && Move(b, pit).Moved?
    ensures PlyAsWritten(b, pit) == Played(Move(b, pit).board)
  {
    PlyAsWrittenFailsOnlyAtMachineStore(b, pit);
  }

  /** The four seeds of the standard opening's pit 3 go into pits 4 to 7. */
  lemma OpeningSown()
    ensures Distribute(6, Human, [4, 4, 0, 4, 4, 4, 0, 4, 4, 4, 4, 4, 4, 0], 4, 4)
         == Sown([4, 4, 0, 5, 5, 5, 1, 4, 4, 4, 4, 4, 4, 0], 7)
  {
    var e := [4, 4, 0, 4, 4, 4, 0, 4, 4, 4, 4, 4, 4, 0];
    DistributeStraight(6, Human, e, 4, 4);
    var sown := Distribute(6, Human, e, 4, 4);
    var after := [4, 4, 0, 5, 5, 5, 1, 4, 4, 4, 4, 4, 4, 0];
    forall i | 0 <= i < 14 ensures sown.cells[i] == after[i] {
    }
  }

  /** Sowing pit 3 of the standard opening as the human. */
  lemma OpeningPly()
    ensures var r := Ply(NewBoard(Human, 6, 4, 1), 3);
      && r.cells == [4, 4, 0, 5, 5, 5, 1, 4, 4, 4, 4, 4, 4, 0]
      && r.source == 3 && r.target == 7 && r.opening == Human
  {
    var b := NewBoard(Human, 6, 4, 1);
    StandardOpening(Human, 1);
    assert b.cells[2 := 0] == [4, 4, 0, 4, 4, 4, 0, 4, 4, 4, 4, 4, 4, 0];
    OpeningSown();
    var after := [4, 4, 0, 5, 5, 5, 1, 4, 4, 4, 4, 4, 4, 0];
    assert !CaptureApplies(6, after, 7);
  }

  /** On the standard 6-pit, 4-seed opening, the human's pit 3 fills pits 4 to 7; pit 7 is the
      human's store, so the human moves again. */
  lemma OpeningMoveEarnsExtraTurn()
    ensures var r := Move(NewBoard(Human, 6, 4, 1), 3);
      && r.Moved?
      && r.board.cells == [4, 4, 0, 5, 5, 5, 1, 4, 4, 4, 4, 4, 4, 0]
      && r.board.opening == Human
      && r.board.source == 3 && r.board.target == 7
  {
    var b := NewBoard(Human, 6, 4, 1);
    StandardOpening(Human, 1);
    OpeningPly();
    LocateIsBijection(6);
    assert b.cells[2] == 4;
    assert Move(b, 3) == Moved(Ply(b, 3));
  }
}
