/** The second board printer: fill every missing position with `" "`, then
    print one line per row, the marks separated by single spaces. */
module GridV2 {
  import Text
  import Board
  import GridV4

  /** `" ".join([grid[(x, y)] for x in range(3)])`. */
  function Line(grid: Board.Marks, y: int): string
    requires Board.Complete(grid) && 0 <= y < 3
  {
    Text.Join(" ", seq(3, x requires 0 <= x < 3 => grid[(x, y)]))
  }

  /** The loop `for y in range(3): print(...)`: exactly three lines, for
      y = 0, 1, 2 in that order. */
  method PrintedLines(grid: Board.Marks) returns (lines: seq<string>)
    requires Board.Complete(grid)
    ensures |lines| == 3
    ensures forall y :: 0 <= y < 3 ==> lines[y] == Line(grid, y)
  {
    lines := [];
    for y := 0 to 3
      invariant |lines| == y
      invariant forall k :: 0 <= k < y ==> lines[k] == Line(grid, k)
    {
      lines := lines + [Text.Join(" ", seq(3, x requires 0 <= x < 3 => grid[(x, y)]))];
    }
  }

  /** A line is the marks x = 0, 1, 2 in order with a space between. */
  lemma LineCells(grid: Board.Marks, y: int)
    requires Board.Complete(grid) && 0 <= y < 3
    ensures Line(grid, y) == grid[(0, y)] + " " + grid[(1, y)] + " " + grid[(2, y)]
  {
    Text.JoinThree(" ", seq(3, x requires 0 <= x < 3 => grid[(x, y)]));
  }

  /** With one-character marks a line is five characters: mark x at 2 * x,
      spaces at 1 and 3. */
  lemma LineLayout(grid: Board.Marks, y: int)
    requires Board.Complete(grid) && Board.SingleMarks(grid) && 0 <= y < 3
    ensures var l := Line(grid, y);
      && |l| == 5 && l[1] == ' ' && l[3] == ' '
      && forall x :: 0 <= x < 3 ==> l[2 * x] == grid[(x, y)][0]
  {
    LineCells(grid, y);
    assert Board.OnBoard((0, y)) && Board.OnBoard((1, y)) && Board.OnBoard((2, y));
  }

  /** After the fill, position x of line y shows the original mark, or a
      space where the original board had no key. */
  lemma FilledLineShowsCell(grid: Board.Marks, x: int, y: int)
    requires Board.SingleMarks(grid) && 0 <= x < 3 && 0 <= y < 3
    ensures Board.Complete(Board.Filled(grid))
    ensures |Line(Board.Filled(grid), y)| == 5
    ensures Line(Board.Filled(grid), y)[2 * x] ==
      (if (x, y) in grid then grid[(x, y)][0] else ' ')
  {
    Board.FilledComplete(grid);
    Board.FilledAt(grid, (x, y));
    LineLayout(Board.Filled(grid), y);
  }

  /** The opening position after the fill holds its marks and `" "` on
      (2, 0) and (2, 1). */
  lemma FilledOpeningRow(y: int)
    requires 0 <= y < 3
    ensures Board.Complete(Board.Filled(Board.Opening))
    ensures forall x :: 0 <= x < 3 ==>
      Board.Filled(Board.Opening)[(x, y)] == GridV4.Cell(Board.Opening, x, y)
  {
    Board.FilledComplete(Board.Opening);
    Board.FilledAt(Board.Opening, (0, y));
    Board.FilledAt(Board.Opening, (1, y));
    Board.FilledAt(Board.Opening, (2, y));
  }

  lemma OpeningLine0()
    ensures Board.Complete(Board.Filled(Board.Opening))
    ensures Line(Board.Filled(Board.Opening), 0) == "O O  "
  {
    FilledOpeningRow(0);
    LineCells(Board.Filled(Board.Opening), 0);
  }

  lemma OpeningLine1()
    ensures Board.Complete(Board.Filled(Board.Opening))
    ensures Line(Board.Filled(Board.Opening), 1) == "O X  "
  {
    FilledOpeningRow(1);
    LineCells(Board.Filled(Board.Opening), 1);
  }

  lemma OpeningLine2()
    ensures Board.Complete(Board.Filled(Board.Opening))
    ensures Line(Board.Filled(Board.Opening), 2) == "X X X"
  {
    FilledOpeningRow(2);
    LineCells(Board.Filled(Board.Opening), 2);
  }

  /** The script: set up, fill in, print the three lines. */
  method Script() returns (lines: seq<string>)
    ensures lines == ["O O  ", "O X  ", "X X X"]
  {
    var grid := Board.SetUp();
    grid := Board.FillMissing(grid);
    lines := PrintedLines(grid);
    OpeningLine0();
    OpeningLine1();
    OpeningLine2();
  }
}
