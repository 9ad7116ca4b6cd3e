/** The fourth board printer: `cell` and `row` helpers read the sparse board
    directly, with no fill-in step; a missing key prints as a space. */
module GridV4 {
  import Text
  import Board

  /** `cell(x, y)`: the stored mark, or `" "` when `(x, y)` is not a key. */
  function Cell(grid: Board.Marks, x: int, y: int): string
  {
    if (x, y) !in grid then " " else grid[(x, y)]
  }

  /** `row(y)`: the three padded cells joined by `"|"`. */
  function Row(grid: Board.Marks, y: int): string
  {
    Text.Join("|", seq(3, x => Board.Padded(Cell(grid, x, y))))
  }

  /** The string passed to `print`: the three rows joined by the rule. */
  function Render(grid: Board.Marks): string
  {
    Text.Join(Board.RowRule, seq(3, y => Row(grid, y)))
  }

  /** An on-board cell of a board with one-character marks is one character. */
  lemma CellSingle(grid: Board.Marks, x: int, y: int)
    requires Board.SingleMarks(grid) && Board.OnBoard((x, y))
    ensures |Cell(grid, x, y)| == 1
  {
  }

  /** A row is the cells x = 0, 1, 2 in order, framed by spaces and bars. */
  lemma RowCells(grid: Board.Marks, y: int)
    ensures Row(grid, y) ==
      Board.Padded(Cell(grid, 0, y)) + "|" + Board.Padded(Cell(grid, 1, y)) + "|" + Board.Padded(Cell(grid, 2, y))
  {
    var cells := seq(3, x => Board.Padded(Cell(grid, x, y)));
    Text.JoinThree("|", cells);
  }

  /** With one-character marks a row is 11 characters: the mark of cell x at
      4 * x + 1 between two spaces, and bars at 3 and 7. */
  lemma RowLayout(grid: Board.Marks, y: int)
    requires Board.SingleMarks(grid) && 0 <= y < 3
    ensures var r := Row(grid, y);
      && |r| == 11
      && r[3] == '|' && r[7] == '|'
      && forall x :: 0 <= x < 3 ==>
           r[4 * x] == ' ' && r[4 * x + 1] == Cell(grid, x, y)[0] && r[4 * x + 2] == ' '
  {
    RowCells(grid, y);
    CellSingle(grid, 0, y);
    CellSingle(grid, 1, y);
    CellSingle(grid, 2, y);
  }

  /** The picture is row 0, row 1 and row 2 with the rule between them. */
  lemma RenderRows(grid: Board.Marks)
    ensures Render(grid) == Row(grid, 0) + Board.RowRule + Row(grid, 1) + Board.RowRule + Row(grid, 2)
  {
    Text.JoinThree(Board.RowRule, seq(3, y => Row(grid, y)));
  }

  /** With one-character marks the picture is 59 characters: row y fills
      24 * y up to 24 * y + 11, and the rule follows rows 0 and 1. */
  lemma RenderLayout(grid: Board.Marks)
    requires Board.SingleMarks(grid)
    ensures var r := Render(grid);
      && |r| == 59
      && r[0 .. 11] == Row(grid, 0) && r[24 .. 35] == Row(grid, 1) && r[48 .. 59] == Row(grid, 2)
      && r[11 .. 24] == Board.RowRule && r[35 .. 48] == Board.RowRule
  {
    RenderRows(grid);
    RowLayout(grid, 0);
    RowLayout(grid, 1);
    RowLayout(grid, 2);
  }

  /** With one-character marks the mark of cell (x, y) stands at
      24 * y + 4 * x + 1 of the picture. */
  lemma RenderMarkAt(grid: Board.Marks, x: int, y: int)
    requires Board.SingleMarks(grid) && 0 <= x < 3 && 0 <= y < 3
    ensures |Render(grid)| == 59 && Render(grid)[24 * y + 4 * x + 1] == Cell(grid, x, y)[0]
  {
    var r := Render(grid);
    RenderLayout(grid);
    RowLayout(grid, y);
    assert r[24 * y .. 24 * y + 11] == Row(grid, y);
    assert r[24 * y + 4 * x + 1] == r[24 * y .. 24 * y + 11][4 * x + 1];
  }

  /** Only the nine on-board keys matter: two boards that agree there print
      the same picture, whatever other keys they hold. */
  lemma RenderOnBoardOnly(g1: Board.Marks, g2: Board.Marks)
    requires forall p :: Board.OnBoard(p) ==> (p in g1 <==> p in g2)
    requires forall p :: Board.OnBoard(p) && p in g1 ==> g1[p] == g2[p]
    ensures Render(g1) == Render(g2)
  {
    forall y | 0 <= y < 3 ensures Row(g1, y) == Row(g2, y) {
      RowOnBoardOnly(g1, g2, y);
    }
    RenderRows(g1);
    RenderRows(g2);
  }

  /** Row y reads only the keys (0, y), (1, y) and (2, y). */
  lemma RowOnBoardOnly(g1: Board.Marks, g2: Board.Marks, y: int)
    requires 0 <= y < 3
    requires forall x :: 0 <= x < 3 ==> ((x, y) in g1 <==> (x, y) in g2)
    requires forall x :: 0 <= x < 3 && (x, y) in g1 ==> g1[(x, y)] == g2[(x, y)]
    ensures Row(g1, y) == Row(g2, y)
  {
    RowCells(g1, y);
    RowCells(g2, y);
    assert Cell(g1, 0, y) == Cell(g2, 0, y);
    assert Cell(g1, 1, y) == Cell(g2, 1, y);
    assert Cell(g1, 2, y) == Cell(g2, 2, y);
  }

  /** The opening position's three rows. */
  lemma OpeningRow0()
    ensures Row(Board.Opening, 0) == " O | O |   "
  {
    RowCells(Board.Opening, 0);
  }

  lemma OpeningRow1()
    ensures Row(Board.Opening, 1) == " O | X |   "
  {
    RowCells(Board.Opening, 1);
  }

  lemma OpeningRow2()
    ensures Row(Board.Opening, 2) == " X | X | X "
  {
    RowCells(Board.Opening, 2);
  }

  /** The opening position's picture, row by row. */
  lemma OpeningPicture()
    ensures Render(Board.Opening) == Text.Join(Board.RowRule, OpeningRows)
  {
    OpeningRow0();
    OpeningRow1();
    OpeningRow2();
    assert seq(3, y => Row(Board.Opening, y)) == OpeningRows;
  }

  /** The rows the opening position prints as. */
  const OpeningRows: seq<string> := [" O | O |   ", " O | X |   ", " X | X | X "]

  /** The script: set up the board and render it. */
  method Script() returns (output: string)
    ensures output == Text.Join(Board.RowRule, OpeningRows)
  {
    var grid := Board.SetUp();
    output := Render(grid);
    OpeningPicture();
  }
}
