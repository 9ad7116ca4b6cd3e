/** The noughts-and-crosses board the four grid scripts share: a sparse map
    from `(x, y)` to a one-character mark, where a missing key is an empty
    cell, the opening position every script sets up, and the fill-in loop
    that the second and third scripts run before rendering. */
module Board {

  type Pos = (int, int)

  /** The board as the scripts store it: a dict keyed by `(x, y)`. */
  type Marks = map<Pos, string>

  /** The positions `range(3) x range(3)` that every renderer visits. */
  predicate OnBoard(p: Pos)
  {
    0 <= p.0 < 3 && 0 <= p.1 < 3
  }

  const Positions: set<Pos> := set x: int, y: int | 0 <= x < 3 && 0 <= y < 3 :: (x, y)

  /** Every position of the board is a key. */
  predicate Complete(grid: Marks)
  {
    forall x: int, y: int :: 0 <= x < 3 && 0 <= y < 3 ==> (x, y) in grid
  }

  /** Every mark stored on the board is one character long. */
  predicate SingleMarks(grid: Marks)
  {
    forall p :: p in grid && OnBoard(p) ==> |grid[p]| == 1
  }

  /** The opening position: O on (0, 0), (1, 0), (0, 1); X on (1, 1),
      (0, 2), (1, 2), (2, 2); (2, 0) and (2, 1) empty. */
  const Opening: Marks :=
    map[(0, 0) := "O", (1, 0) := "O", (0, 1) := "O", (1, 1) := "X",
        (0, 2) := "X", (1, 2) := "X", (2, 2) := "X"]

  /** The f-string `f" {mark} "` of the third and fourth printers: a space
      either side of the cell. */
  function Padded(s: string): string
  {
    " " + s + " "
  }

  /** The separator the third and fourth printers put between rows. */
  const RowRule: string := "\n--- --- ---\n"

  /** The dict literal and the four assignments after it. */
  method SetUp() returns (grid: Marks)
    ensures grid == Opening
    ensures grid.Keys == {(0, 0), (1, 0), (0, 1), (1, 1), (0, 2), (1, 2), (2, 2)}
    ensures grid[(0, 0)] == "O" && grid[(1, 0)] == "O" && grid[(0, 1)] == "O"
    ensures grid[(1, 1)] == "X" && grid[(0, 2)] == "X" && grid[(1, 2)] == "X" && grid[(2, 2)] == "X"
    ensures |grid| == 7
    ensures SingleMarks(grid)
  {
    grid := map[(1, 1) := "X", (0, 1) := "O", (1, 2) := "X"];
    grid := grid[(1, 0) := "O"];
    grid := grid[(2, 2) := "X"];
    grid := grid[(0, 0) := "O"];
    grid := grid[(0, 2) := "X"];
    assert |grid.Keys| == 7;
  }

  /** The board after the fill-in loop: every missing position holds `" "`. */
  function Filled(grid: Marks): Marks
  {
    map p | p in grid.Keys + Positions :: if p in grid then grid[p] else " "
  }

  /** The nested loop `for y in range(3): for x in range(3): if (x, y) not in
      grid: grid[(x, y)] = " "`. It reaches every position, never overwrites
      a mark, adds only `" "` and only on the board. */
  method FillMissing(grid: Marks) returns (filled: Marks)
    ensures Complete(filled)
    ensures forall p :: p in grid ==> p in filled && filled[p] == grid[p]
    ensures forall p :: p in filled && p !in grid ==> OnBoard(p) && filled[p] == " "
    ensures filled == Filled(grid)
  {
    filled := grid;
    for y := 0 to 3
      invariant forall p :: p in grid ==> p in filled && filled[p] == grid[p]
      invariant forall p :: p in filled && p !in grid ==> OnBoard(p) && p.1 < y && filled[p] == " "
      invariant forall x', y' :: 0 <= x' < 3 && 0 <= y' < y ==> (x', y') in filled
    {
      for x := 0 to 3
        invariant forall p :: p in grid ==> p in filled && filled[p] == grid[p]
        invariant forall p :: p in filled && p !in grid ==>
          OnBoard(p) && (p.1 < y || (p.1 == y && p.0 < x)) && filled[p] == " "
        invariant forall x', y' :: 0 <= x' < 3 && 0 <= y' < y ==> (x', y') in filled
        invariant forall x' :: 0 <= x' < x ==> (x', y) in filled
      {
        if (x, y) !in filled {
          filled := filled[(x, y) := " "];
        }
      }
    }
    FilledUnique(grid, filled);
  }

  /** A board that keeps the old marks, is complete, and adds only `" "` on
      the board is the filled board. */
  lemma FilledUnique(grid: Marks, filled: Marks)
    requires Complete(filled)
    requires forall p :: p in grid ==> p in filled && filled[p] == grid[p]
    requires forall p :: p in filled && p !in grid ==> OnBoard(p) && filled[p] == " "
    ensures filled == Filled(grid)
  {
    FilledKeys(grid, filled);
    FilledValues(grid, filled);
    SameMaps(filled, Filled(grid));
  }

  /** Such a board holds the filled board's values. */
  lemma FilledValues(grid: Marks, filled: Marks)
    requires forall p :: p in grid ==> p in filled && filled[p] == grid[p]
    requires forall p :: p in filled && p !in grid ==> OnBoard(p) && filled[p] == " "
    ensures forall p :: p in filled ==> p in Filled(grid) && filled[p] == Filled(grid)[p]
  {
    forall p | p in filled ensures p in Filled(grid) && filled[p] == Filled(grid)[p] {
      FilledAt(grid, p);
    }
  }

  /** Maps with the same keys and the same value at each key are equal. */
  lemma SameMaps(a: Marks, b: Marks)
    requires a.Keys == b.Keys
    requires forall p :: p in a ==> a[p] == b[p]
    ensures a == b
  {
  }

  /** Such a board has the filled board's keys. */
  lemma FilledKeys(grid: Marks, filled: Marks)
    requires Complete(filled)
    requires forall p :: p in grid ==> p in filled
    requires forall p :: p in filled && p !in grid ==> OnBoard(p)
    ensures filled.Keys == Filled(grid).Keys
  {
    forall p ensures p in filled <==> p in Filled(grid) {
      FilledAt(grid, p);
      if OnBoard(p) {
        assert (p.0, p.1) in filled;
      }
    }
  }

  /** The fill adds exactly the missing positions to the keys. */
  lemma FilledSize(grid: Marks)
    ensures |Filled(grid)| == |grid| + |Positions - grid.Keys|
  {
    var missing := Positions - grid.Keys;
    assert Filled(grid).Keys == grid.Keys + missing;
    assert grid.Keys !! missing;
  }

  /** The filled board agrees with the old one on old keys, holds `" "`
      exactly on the missing positions, and has nothing else. */
  lemma FilledAt(grid: Marks, p: Pos)
    ensures p in Filled(grid) <==> p in grid || OnBoard(p)
    ensures p in grid ==> Filled(grid)[p] == grid[p]
    ensures p !in grid && OnBoard(p) ==> Filled(grid)[p] == " "
  {
    assert OnBoard(p) ==> p in Positions by {
      if OnBoard(p) {
        assert p == (p.0, p.1);
      }
    }
  }

  /** The filled board is complete and keeps one-character marks. */
  lemma FilledComplete(grid: Marks)
    ensures Complete(Filled(grid))
    ensures SingleMarks(grid) ==> SingleMarks(Filled(grid))
  {
    forall x: int, y: int | 0 <= x < 3 && 0 <= y < 3 ensures (x, y) in Filled(grid) {
      FilledAt(grid, (x, y));
    }
    forall p | p in Filled(grid) && OnBoard(p)
      ensures SingleMarks(grid) ==> |Filled(grid)[p]| == 1
    {
      FilledAt(grid, p);
    }
  }

  /** Filling a complete board changes nothing: the loop is idempotent. */
  lemma FilledIdempotent(grid: Marks)
    ensures Filled(Filled(grid)) == Filled(grid)
  {
    var f := Filled(grid);
    forall p | p in Filled(f) ensures p in f {
      FilledAt(f, p);
      FilledAt(grid, p);
    }
    forall p | p in f ensures p in Filled(f) && Filled(f)[p] == f[p] {
      FilledAt(f, p);
    }
  }
}
