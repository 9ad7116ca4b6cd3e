/** The first board printer: nine hand-written conditionals append each
    cell's mark, or a space for a missing key, to one output string, with a
    newline after the third and the sixth cell. */
module GridV1 {
  import Text
  import Board
  import GridV4

  /** A row of the picture: the three cells with nothing between them. */
  function Line(grid: Board.Marks, y: int): string
  {
    Text.Join("", seq(3, x => GridV4.Cell(grid, x, y)))
  }

  /** The picture the conditionals build: the rows y = 0, 1, 2 separated by
      newlines, each row the cells x = 0, 1, 2 of the fourth printer. */
  function Picture(grid: Board.Marks): string
  {
    Text.Join("\n", seq(3, y => Line(grid, y)))
  }

  /** The nine conditionals and the two newline appends that build `output`
      with `+=`; the board is read, never changed. */
  method Output(grid: Board.Marks) returns (output: string)
    ensures output == Picture(grid)
  {
    output := "";
    ghost var before0 := output;
    if (0, 0) in grid { output := output + grid[(0, 0)]; } else { output := output + " "; }
    if (1, 0) in grid { output := output + grid[(1, 0)]; } else { output := output + " "; }
    if (2, 0) in grid { output := output + grid[(2, 0)]; } else { output := output + " "; }
    AppendRow(grid, 0, before0, output);
    assert output == Line(grid, 0);
    output := output + "\n";
    ghost var before1 := output;
    if (0, 1) in grid { output := output + grid[(0, 1)]; } else { output := output + " "; }
    if (1, 1) in grid { output := output + grid[(1, 1)]; } else { output := output + " "; }
    if (2, 1) in grid { output := output + grid[(2, 1)]; } else { output := output + " "; }
    AppendRow(grid, 1, before1, output);
    assert output == Line(grid, 0) + "\n" + Line(grid, 1);
    output := output + "\n";
    ghost var before2 := output;
    if (0, 2) in grid { output := output + grid[(0, 2)]; } else { output := output + " "; }
    if (1, 2) in grid { output := output + grid[(1, 2)]; } else { output := output + " "; }
    if (2, 2) in grid { output := output + grid[(2, 2)]; } else { output := output + " "; }
    AppendRow(grid, 2, before2, output);
    PictureLines(grid);
  }

  /** Appending the three cells of row y one by one appends the row. */
  lemma AppendRow(grid: Board.Marks, y: int, before: string, after: string)
    requires after == before + GridV4.Cell(grid, 0, y) + GridV4.Cell(grid, 1, y) + GridV4.Cell(grid, 2, y)
    ensures after == before + Line(grid, y)
  {
    LineCells(grid, y);
  }

  /** A row is the cells x = 0, 1, 2 in order. */
  lemma LineCells(grid: Board.Marks, y: int)
    ensures Line(grid, y) == GridV4.Cell(grid, 0, y) + GridV4.Cell(grid, 1, y) + GridV4.Cell(grid, 2, y)
  {
    Text.JoinThree("", seq(3, x => GridV4.Cell(grid, x, y)));
  }

  /** The picture is rows 0, 1 and 2 in order, a newline between each. */
  lemma PictureLines(grid: Board.Marks)
    ensures Picture(grid) == Line(grid, 0) + "\n" + Line(grid, 1) + "\n" + Line(grid, 2)
  {
    Text.JoinThree("\n", seq(3, y => Line(grid, y)));
  }

  /** With one-character marks a row is three characters, cell x at x. */
  lemma LineLayout(grid: Board.Marks, y: int)
    requires Board.SingleMarks(grid) && 0 <= y < 3
    ensures |Line(grid, y)| == 3
    ensures forall x :: 0 <= x < 3 ==> Line(grid, y)[x] == GridV4.Cell(grid, x, y)[0]
  {
    LineCells(grid, y);
    GridV4.CellSingle(grid, 0, y);
    GridV4.CellSingle(grid, 1, y);
    GridV4.CellSingle(grid, 2, y);
  }

  /** With one-character marks the picture is 11 characters: the cell (x, y)
      of the fourth printer at 4 * y + x, newlines at 3 and 7. */
  lemma PictureLayout(grid: Board.Marks)
    requires Board.SingleMarks(grid)
    ensures var r := Picture(grid);
      && |r| == 11 && r[3] == '\n' && r[7] == '\n'
      && forall x, y :: 0 <= x < 3 && 0 <= y < 3 ==> r[4 * y + x] == GridV4.Cell(grid, x, y)[0]
  {
    var r := Picture(grid);
    PictureLines(grid);
    LineLayout(grid, 0);
    LineLayout(grid, 1);
    LineLayout(grid, 2);
    assert r[0 .. 3] == Line(grid, 0) && r[4 .. 7] == Line(grid, 1) && r[8 .. 11] == Line(grid, 2);
    forall x, y | 0 <= x < 3 && 0 <= y < 3 ensures r[4 * y + x] == GridV4.Cell(grid, x, y)[0] {
      assert r[4 * y + x] == r[4 * y .. 4 * y + 3][x];
    }
  }

  /** When no mark is a newline, the picture holds exactly two newlines, after
      the third and the sixth cell, and none at the end. */
  lemma PictureNewlines(grid: Board.Marks)
    requires Board.SingleMarks(grid)
    requires forall p :: p in grid && Board.OnBoard(p) ==> grid[p] != "\n"
    ensures var r := Picture(grid);
      forall i :: 0 <= i < |r| ==> (r[i] == '\n' <==> i == 3 || i == 7)
  {
    var r := Picture(grid);
    PictureLayout(grid);
    forall i | 0 <= i < |r| && i != 3 && i != 7 ensures r[i] != '\n' {
      var y := i / 4;
      var x := i % 4;
      assert i == 4 * y + x && 0 <= x < 3 && 0 <= y < 3;
      assert Board.OnBoard((x, y));
      CellSingle(grid, x, y);
    }
  }

  /** A one-character cell other than a newline does not show a newline. */
  lemma CellSingle(grid: Board.Marks, x: int, y: int)
    requires Board.SingleMarks(grid) && Board.OnBoard((x, y))
    requires forall p :: p in grid && Board.OnBoard(p) ==> grid[p] != "\n"
    ensures GridV4.Cell(grid, x, y)[0] != '\n'
  {
    var c := GridV4.Cell(grid, x, y);
    GridV4.CellSingle(grid, x, y);
    assert c == [c[0]];
  }

  /** The opening position's rows. */
  lemma OpeningLine0()
    ensures Line(Board.Opening, 0) == "OO "
  {
    LineCells(Board.Opening, 0);
  }

  lemma OpeningLine1()
    ensures Line(Board.Opening, 1) == "OX "
  {
    LineCells(Board.Opening, 1);
  }

  lemma OpeningLine2()
    ensures Line(Board.Opening, 2) == "XXX"
  {
    LineCells(Board.Opening, 2);
  }

  /** The script: set up the board and build the output. */
  method Script() returns (output: string)
    ensures output == "OO \nOX \nXXX"
  {
    var grid := Board.SetUp();
    output := Output(grid);
    PictureLines(grid);
    OpeningLine0();
    OpeningLine1();
    OpeningLine2();
  }
}
