/**
 * Pit numbering of a board with P pits per player. Pits are numbered 1..2(P+1) counter-clockwise:
 * 1..P are the human's pits, P+1 the human's store, P+2..2P+1 the machine's pits and 2(P+1) the
 * machine's store. The board itself stores the cells in a two-row array: row 0 is the machine's
 * row (its store in column 0), row 1 the human's row (its store in column P).
 */
module Layout {
  import opened Players
  import opened Pits

  /** Number of cells on the board. */
  function Cells(P: nat): nat { 2 * (P + 1) }

  function HumanStore(P: nat): nat { P + 1 }

  function MachineStore(P: nat): nat { 2 * (P + 1) }

  /** Pit numbers that address a cell. */
  predicate OnGrid(P: nat, k: int) { 1 <= k <= Cells(P) }

  predicate IsStoreNum(P: nat, k: int) { k == HumanStore(P) || k == MachineStore(P) }

  /** The owner of pit k: the human row runs up to and including the human store. */
  function OwnerOf(P: nat, k: int): (r: Player)
    requires OnGrid(P, k)
    ensures r != None
    ensures r == Human <==> k <= HumanStore(P)
  {
    if k <= P + 1 then Human else Machine
  }

  /** The store a capture credits: the human's for the human, the machine's otherwise. */
  function StoreOf(P: nat, mover: Player): (r: nat)
    ensures OnGrid(P, r) && IsStoreNum(P, r)
    ensures mover == Human <==> OwnerOf(P, r) == Human
  {
    if mover == Human then HumanStore(P) else MachineStore(P)
  }

  /** The pit numbers of a player's sowing pits, ascending; every player but the machine gets the human row. */
  function PlayerPits(P: nat, player: Player): (r: seq<int>)
    ensures |r| == P
    ensures forall i :: 0 <= i < P ==> r[i] == (if player == Machine then P + 2 else 1) + i
    ensures forall i :: 0 <= i < P ==> OnGrid(P, r[i]) && !IsStoreNum(P, r[i])
    ensures forall i :: 0 <= i < P ==> (OwnerOf(P, r[i]) == Machine <==> player == Machine)
  {
    var first := if player == Machine then P + 2 else 1;
    seq(P, i => first + i)
  }

  /** The first pit of a player's row: the machine's row starts after the human store, every
      other player gets the human row. */
  function RowStart(P: nat, player: Player): int
  {
    if player == Machine then P + 2 else 1
  }

  /** Whether k is one of the pits PlayerPits lists for the player: the machine's sowing pits
      for the machine, the human's for any other player. */
  predicate InRow(P: nat, player: Player, k: int)
  {
    RowStart(P, player) <= k < RowStart(P, player) + P
  }

  /** InRow is exactly membership in PlayerPits. */
  lemma InRowIsPlayerPits(P: nat, player: Player)
    ensures forall k :: k in PlayerPits(P, player) <==> InRow(P, player, k)
  {
    forall k | InRow(P, player, k) ensures k in PlayerPits(P, player) {
      assert PlayerPits(P, player)[k - RowStart(P, player)] == k;
    }
  }

  /** Wraps a counter-clockwise walk index back into 1..2(P+1), one lap at a time. */
  function Normalize(P: nat, i: int): (r: int)
    requires i >= 1
    ensures OnGrid(P, r)
    ensures OnGrid(P, i) ==> r == i
    decreases i
  {
    if i <= Cells(P) then i else Normalize(P, i - Cells(P))
  }

  /** The cell after k, counter-clockwise. */
  function Succ(P: nat, k: int): (r: int)
    requires OnGrid(P, k)
    ensures OnGrid(P, r)
  {
    if k == Cells(P) then 1 else k + 1
  }

  lemma MulAtLeast(a: int, n: int)
    requires a >= 1 && n > 0
    ensures a * n >= n
    decreases a
  {
    if a > 1 {
      MulAtLeast(a - 1, n);
      assert a * n == (a - 1) * n + n;
    }
  }

  lemma ModUnique(x: int, q: int, r: int, n: int)
    requires n > 0 && 0 <= r < n && x == q * n + r
    ensures x % n == r
  {
    var q', r' := x / n, x % n;
    assert x == q' * n + r';
    assert q * n - q' * n == r' - r;
    assert (q - q') * n == q * n - q' * n;
    assert (q' - q) * n == q' * n - q * n;
    if q > q' {
      MulAtLeast(q - q', n);
    } else if q < q' {
      MulAtLeast(q' - q, n);
    }
  }

  /** Lap-by-lap wrapping is the board's remainder formula (i - 1) % 2(P+1) + 1. */
  lemma {:induction false} NormalizeIsRemainder(P: nat, i: int)
    requires i >= 1
    ensures Normalize(P, i) == (i - 1) % Cells(P) + 1
    decreases i
  {
    var n := Cells(P);
    if i <= n {
      ModUnique(i - 1, 0, i - 1, n);
    } else {
      NormalizeIsRemainder(P, i - n);
      var q, r := (i - n - 1) / n, (i - n - 1) % n;
      assert i - n - 1 == q * n + r;
      assert i - 1 == (q + 1) * n + r;
      ModUnique(i - 1, q + 1, r, n);
    }
  }

  /** Advancing the raw walk index by one advances its wrapped cell by one. */
  lemma {:induction false} NormalizeStep(P: nat, i: int)
    requires i >= 1
    ensures Normalize(P, i + 1) == Succ(P, Normalize(P, i))
    decreases i
  {
    if i > Cells(P) {
      NormalizeStep(P, i - Cells(P));
    } else if i == Cells(P) {
      assert Normalize(P, i + 1) == Normalize(P, 1);
    }
  }

  /** The pit facing k as the board computes it: the mirror number 2(P+1) - k. */
  function Opposing(P: nat, k: int): int
  {
    Cells(P) - k
  }

  /** Mirroring pairs each sowing pit with a sowing pit of the other player, fixes the human
      store, and sends the machine store off the grid. */
  lemma OpposingShape(P: nat, k: int)
    requires OnGrid(P, k)
    ensures !IsStoreNum(P, k) ==>
              && OnGrid(P, Opposing(P, k)) && !IsStoreNum(P, Opposing(P, k))
              && OwnerOf(P, Opposing(P, k)) != OwnerOf(P, k)
              && Opposing(P, Opposing(P, k)) == k
    ensures k == HumanStore(P) ==> Opposing(P, k) == k
    ensures k == MachineStore(P) ==> !OnGrid(P, Opposing(P, k))
  {
  }

  /** A cell of the two-row array. */
  datatype Cell = Cell(row: nat, col: nat)

  /** Where the board looks up pit number k; OutOfBounds when the array index leaves the array. */
  datatype Lookup = At(cell: Cell) | OutOfBounds

  /** The board's pit lookup: numbers above P+1 are read backwards from the machine row. */
  function Locate(P: nat, k: int): Lookup
  {
    var perRow := P + 1;
    if k > perRow then
      var col := (k - perRow * 2) * -1;
      if 0 <= col < perRow then At(Cell(0, col)) else OutOfBounds
    else
      var col := k - 1;
      if 0 <= col < perRow then At(Cell(1, col)) else OutOfBounds
  }

  predicate InArray(P: nat, c: Cell) { c.row < 2 && c.col <= P }

  /** The pit number of an array cell: the inverse of Locate. */
  function PitNumber(P: nat, c: Cell): int
  {
    if c.row == 0 then Cells(P) - c.col else c.col + 1
  }

  /** The lookup is a bijection between the numbers 1..2(P+1) and the 2 x (P+1) array cells. */
  lemma LocateIsBijection(P: nat)
    ensures forall k :: Locate(P, k).At? <==> OnGrid(P, k)
    ensures forall k :: OnGrid(P, k) ==> InArray(P, Locate(P, k).cell) && PitNumber(P, Locate(P, k).cell) == k
    ensures forall c :: InArray(P, c) ==> OnGrid(P, PitNumber(P, c)) && Locate(P, PitNumber(P, c)) == At(c)
  {
  }

  /** Pit k has a cell exactly when it is on the board. */
  lemma LocateAt(P: nat, k: int)
    ensures Locate(P, k).At? <==> OnGrid(P, k)
  {
  }

  /** A two-row pit array of the board's shape. */
  predicate WellShaped(P: nat, grid: seq<seq<Pit>>)
  {
    |grid| == 2 && |grid[0]| == P + 1 && |grid[1]| == P + 1
  }

  /** The pit a board array holds under number k. */
  function PitAt(P: nat, grid: seq<seq<Pit>>, k: int): Pit
    requires WellShaped(P, grid) && OnGrid(P, k)
  {
    LocateIsBijection(P);
    var c := Locate(P, k).cell;
    grid[c.row][c.col]
  }

  /** The array a new game starts with: stores empty, every sowing pit holding seedsPerPit. */
  function Populate(P: nat, seedsPerPit: nat): (grid: seq<seq<Pit>>)
    ensures WellShaped(P, grid)
  {
    seq(2, i => seq(P + 1, j =>
      if i == 0 && j == 0 then NewPit(Machine, true)
      else if i == 1 && j == P then NewPit(Human, true)
      else if i == 0 then NewSowingPit(Machine, seedsPerPit)
      else NewSowingPit(Human, seedsPerPit)))
  }

  /** The flat cell contents of a new game: seedsPerPit everywhere except 0 in both stores. */
  function FreshCells(P: nat, seedsPerPit: nat): (r: seq<nat>)
    ensures |r| == Cells(P)
  {
    seq(Cells(P), i => if IsStoreNum(P, i + 1) then 0 else seedsPerPit)
  }

  /** Read through the lookup, the populated array agrees pit by pit with the flat layout:
      the owner, the store flag and the initial seeds of every pit number. */
  lemma PopulateMatchesLayout(P: nat, seedsPerPit: nat, k: int)
    requires OnGrid(P, k)
    ensures PitAt(P, Populate(P, seedsPerPit), k).owner == OwnerOf(P, k)
    ensures PitAt(P, Populate(P, seedsPerPit), k).isStore == IsStoreNum(P, k)
    ensures PitAt(P, Populate(P, seedsPerPit), k).seeds == FreshCells(P, seedsPerPit)[k - 1]
  {
    LocateIsBijection(P);
    var grid := Populate(P, seedsPerPit);
    if k <= P + 1 {
      assert Locate(P, k).cell == Cell(1, k - 1);
      assert PitAt(P, grid, k) == grid[1][k - 1];
      if k == P + 1 {
        assert grid[1][P] == NewPit(Human, true);
      } else {
        assert grid[1][k - 1] == NewSowingPit(Human, seedsPerPit);
      }
    } else {
      assert Locate(P, k).cell == Cell(0, Cells(P) - k);
      assert PitAt(P, grid, k) == grid[0][Cells(P) - k];
      if k == Cells(P) {
        assert grid[0][0] == NewPit(Machine, true);
      } else {
        assert grid[0][Cells(P) - k] == NewSowingPit(Machine, seedsPerPit);
      }
    }
  }
}
