/** One immutable snapshot of a Kalah game and the queries on it. */
module Boards {
  import opened Players
  import opened Layout
  import opened Sums

  /**
   * A board: who opens it, its configuration, the search depth used for machine moves, the seeds
   * of pits 1..2(P+1) (pit k at index k-1), and the pits the last move was sown from and ended in
   * (0 when unknown).
   */
  datatype Board = Board(
    opening: Player,
    pitsPerPlayer: nat,
    seedsPerPit: nat,
    level: int,
    cells: seq<nat>,
    source: int,
    target: int)

  /** The shape every board keeps: at least one pit per player, one count per cell, and a last
      target that is either unset or a real pit. */
  predicate Valid(b: Board)
  {
    && b.pitsPerPlayer >= 1
    && |b.cells| == Cells(b.pitsPerPlayer)
    && (b.target == 0 || OnGrid(b.pitsPerPlayer, b.target))
  }

  /** A new game: every sowing pit holds seedsPerPit, both stores are empty, no move has been made. */
  function NewBoard(opening: Player, P: nat, seedsPerPit: nat, level: int): (b: Board)
    requires P >= 1
    ensures Valid(b)
    ensures b.opening == opening && b.pitsPerPlayer == P && b.seedsPerPit == seedsPerPit && b.level == level
    ensures forall k :: OnGrid(P, k) ==> b.cells[k - 1] == (if IsStoreNum(P, k) then 0 else seedsPerPit)
    ensures b.source == 0 && b.target == 0
  {
    Board(opening, P, seedsPerPit, level, FreshCells(P, seedsPerPit), 0, 0)
  }

  /** The board's copy: cells, configuration, opening player and level are copied, but the copy is
      built through a constructor that leaves the last move's source and target at 0. */
  function Clone(b: Board): (r: Board)
    requires Valid(b)
    ensures Valid(r)
    ensures r.cells == b.cells && r.opening == b.opening && r.level == b.level
    ensures r.pitsPerPlayer == b.pitsPerPlayer && r.seedsPerPit == b.seedsPerPit
    ensures r.source == 0 && r.target == 0
  {
    Board(b.opening, b.pitsPerPlayer, b.seedsPerPit, b.level, b.cells, 0, 0)
  }

  /** Changes the search depth, ignoring values that are not positive. */
  function SetLevel(b: Board, level: int): (r: Board)
    ensures level > 0 ==> r.level == level
    ensures level <= 0 ==> r.level == b.level
    ensures r.cells == b.cells && r.opening == b.opening && r.source == b.source && r.target == b.target
    ensures r.pitsPerPlayer == b.pitsPerPlayer && r.seedsPerPit == b.seedsPerPit
  {
    if level > 0 then b.(level := level) else b
  }

  /** The seeds in pit k. */
  function Seeds(b: Board, k: int): nat
    requires Valid(b) && OnGrid(b.pitsPerPlayer, k)
  {
    b.cells[k - 1]
  }

  /** Every pit numbered lo..hi is empty. */
  predicate Empty(b: Board, lo: int, hi: int)
    requires Valid(b) && 1 <= lo && hi <= Cells(b.pitsPerPlayer)
  {
    forall k :: lo <= k <= hi ==> Seeds(b, k) == 0
  }

  /** The game is over when all human sowing pits or all machine sowing pits are empty; stores
      do not count. */
  predicate IsGameOver(b: Board)
    requires Valid(b)
  {
    var P := b.pitsPerPlayer;
    Empty(b, 1, P) || Empty(b, P + 2, 2 * P + 1)
  }

  /** The seeds on a player's side, store included; every player but the human gets the machine row. */
  function SeedsOfPlayer(b: Board, player: Player): nat
    requires Valid(b)
  {
    var P := b.pitsPerPlayer;
    if player == Human then Sum(b.cells[..P + 1]) else Sum(b.cells[P + 1..])
  }

  /** The result of comparing the two rows; Tie where the board answers null. */
  datatype Outcome = Won(winner: Player) | Tie

  /** Compares the machine row's total with the human row's total, stores included. */
  function Winner(b: Board): (r: Outcome)
    requires Valid(b)
    ensures r == Won(Machine) <==> SeedsOfPlayer(b, Machine) > SeedsOfPlayer(b, Human)
    ensures r == Won(Human) <==> SeedsOfPlayer(b, Human) > SeedsOfPlayer(b, Machine)
    ensures r == Tie <==> SeedsOfPlayer(b, Human) == SeedsOfPlayer(b, Machine)
  {
    var P := b.pitsPerPlayer;
    var upper := Sum(b.cells[P + 1..]);
    var lower := Sum(b.cells[..P + 1]);
    if upper > lower then Won(Machine)
    else if upper < lower then Won(Human)
    else Tie
  }

  /** Over, and not a tie. */
  predicate Decided(b: Board)
    requires Valid(b)
  {
    IsGameOver(b) && Winner(b) != Tie
  }

  /** The two rows partition the board: their totals add up to all seeds on it. */
  lemma RowsPartitionSeeds(b: Board)
    requires Valid(b)
    ensures SeedsOfPlayer(b, Human) + SeedsOfPlayer(b, Machine) == Sum(b.cells)
  {
    var P := b.pitsPerPlayer;
    assert b.cells == b.cells[..P + 1] + b.cells[P + 1..];
    SumConcat(b.cells[..P + 1], b.cells[P + 1..]);
  }

  /** The game is over exactly when one row's sowing pits hold no seeds in total. */
  lemma GameOverIffRowSumZero(b: Board)
    requires Valid(b)
    ensures IsGameOver(b) <==>
      (Sum(b.cells[..b.pitsPerPlayer]) == 0 || Sum(b.cells[b.pitsPerPlayer + 1..2 * b.pitsPerPlayer + 1]) == 0)
  {
    var P := b.pitsPerPlayer;
    var h, m := b.cells[..P], b.cells[P + 1..2 * P + 1];
    SumZero(h);
    SumZero(m);
    assert forall i :: 0 <= i < P ==> h[i] == b.cells[i];
    assert forall i :: 0 <= i < P ==> m[i] == b.cells[P + 1 + i];
    assert Empty(b, 1, P) <==> forall i :: 0 <= i < P ==> h[i] == 0 by {
      if Empty(b, 1, P) {
        forall i | 0 <= i < P ensures h[i] == 0 {
          assert Seeds(b, i + 1) == 0;
        }
      }
    }
    assert Empty(b, P + 2, 2 * P + 1) <==> forall i :: 0 <= i < P ==> m[i] == 0 by {
      if Empty(b, P + 2, 2 * P + 1) {
        forall i | 0 <= i < P ensures m[i] == 0 {
          assert Seeds(b, P + 2 + i) == 0;
        }
      }
      if forall i :: 0 <= i < P ==> m[i] == 0 {
        forall k | P + 2 <= k <= 2 * P + 1 ensures Seeds(b, k) == 0 {
          assert m[k - P - 2] == 0;
        }
      }
    }
  }

  /** The game is over exactly when one of the players has no non-empty sowing pit to choose. */
  lemma GameOverIffNoPlayablePit(b: Board)
    requires Valid(b)
    ensures IsGameOver(b) <==>
      ((forall i :: 0 <= i < b.pitsPerPlayer ==> b.cells[PlayerPits(b.pitsPerPlayer, Human)[i] - 1] == 0) ||
       (forall i :: 0 <= i < b.pitsPerPlayer ==> b.cells[PlayerPits(b.pitsPerPlayer, Machine)[i] - 1] == 0))
  {
    var P := b.pitsPerPlayer;
    if forall i :: 0 <= i < P ==> b.cells[PlayerPits(P, Machine)[i] - 1] == 0 {
      forall k | P + 2 <= k <= 2 * P + 1 ensures Seeds(b, k) == 0 {
        assert PlayerPits(P, Machine)[k - P - 2] == k;
      }
    }
    if forall i :: 0 <= i < P ==> b.cells[PlayerPits(P, Human)[i] - 1] == 0 {
      forall k | 1 <= k <= P ensures Seeds(b, k) == 0 {
        assert PlayerPits(P, Human)[k - 1] == k;
      }
    }
    if Empty(b, 1, P) {
      forall i | 0 <= i < P ensures b.cells[PlayerPits(P, Human)[i] - 1] == 0 {
        assert Seeds(b, i + 1) == 0;
      }
    }
    if Empty(b, P + 2, 2 * P + 1) {
      forall i | 0 <= i < P ensures b.cells[PlayerPits(P, Machine)[i] - 1] == 0 {
        assert Seeds(b, P + 2 + i) == 0;
      }
    }
  }

  /** The standard opening board: six pits of four seeds per player. */
  lemma StandardOpening(opening: Player, level: int)
    ensures NewBoard(opening, 6, 4, level).cells == [4, 4, 4, 4, 4, 4, 0, 4, 4, 4, 4, 4, 4, 0]
    ensures !IsGameOver(NewBoard(opening, 6, 4, level))
  {
    var b := NewBoard(opening, 6, 4, level);
    var start := [4, 4, 4, 4, 4, 4, 0, 4, 4, 4, 4, 4, 4, 0];
    forall i | 0 <= i < 14 ensures b.cells[i] == start[i] {
      assert OnGrid(6, i + 1);
    }
    assert Seeds(b, 1) != 0 && Seeds(b, 8) != 0;
  }
}
