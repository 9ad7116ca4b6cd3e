/** The third board printer: fill every missing position with `" "`, then
    render the now complete board in one nested expression. */
module GridV3 {
  import Text
  import Board
  import GridV4

  /** One row of the picture: the padded marks for x = 0, 1, 2 joined by
      `"|"`. */
  function Row(grid: Board.Marks, y: int): string
    requires Board.Complete(grid) && 0 <= y < 3
  {
    Text.Join("|", seq(3, x requires 0 <= x < 3 => Board.Padded(grid[(x, y)])))
  }

  /** The string passed to `print`; indexing the board needs every position
      to be a key, which the fill-in loop provides. */
  function Render(grid: Board.Marks): string
    requires Board.Complete(grid)
  {
    Text.Join(Board.RowRule, seq(3, y requires 0 <= y < 3 => Row(grid, y)))
  }

  /** A row is the stored marks x = 0, 1, 2 in order, padded and barred. */
  lemma RowCells(grid: Board.Marks, y: int)
    requires Board.Complete(grid) && 0 <= y < 3
    ensures Row(grid, y) ==
      Board.Padded(grid[(0, y)]) + "|" + Board.Padded(grid[(1, y)]) + "|" + Board.Padded(grid[(2, y)])
  {
    Text.JoinThree("|", seq(3, x requires 0 <= x < 3 => Board.Padded(grid[(x, y)])));
  }

  /** The picture is rows 0, 1 and 2 in order with the rule between them. */
  lemma RenderRows(grid: Board.Marks)
    requires Board.Complete(grid)
    ensures Render(grid) == Row(grid, 0) + Board.RowRule + Row(grid, 1) + Board.RowRule + Row(grid, 2)
  {
    Text.JoinThree(Board.RowRule, seq(3, y requires 0 <= y < 3 => Row(grid, y)));
  }

  /** On the same starting board, filling and rendering prints exactly what
      the fourth printer prints without filling. */
  lemma SameAsV4(grid: Board.Marks)
    ensures Board.Complete(Board.Filled(grid))
    ensures Render(Board.Filled(grid)) == GridV4.Render(grid)
  {
    var f := Board.Filled(grid);
    Board.FilledComplete(grid);
    forall y | 0 <= y < 3 ensures Row(f, y) == GridV4.Row(grid, y) {
      RowCells(f, y);
      GridV4.RowCells(grid, y);
      Board.FilledAt(grid, (0, y));
      Board.FilledAt(grid, (1, y));
      Board.FilledAt(grid, (2, y));
    }
    RenderRows(f);
    GridV4.RenderRows(grid);
  }

  /** The script: set up, fill in, render. */
  method Script() returns (output: string)
    ensures output == Text.Join(Board.RowRule, GridV4.OpeningRows)
  {
    var grid := Board.SetUp();
    grid := Board.FillMissing(grid);
    output := Render(grid);
    SameAsV4(Board.Opening);
    GridV4.OpeningPicture();
  }
}
