# Text layout scripts: the boxed list and the noughts-and-crosses board

A model, in Dafny, of two small families of text-layout scripts.

- `formatted_list(items, title, border)` draws a box around a list of strings. It takes the field width from the longest of the items and the title, plus four. It builds a border line, the title, a border line, the items in order and a final border line. It centres each of these in the field, puts the border character on either side and joins the lines with newlines. `str.center` follows CPython: with margin `m = width - len(s)`, the left side gets `m / 2` spaces, plus one more when both `m` and `width` are odd.
- Four scripts print the same sparse noughts-and-crosses board. The board is a dict from `(x, y)` to a one-character mark, and a missing key is an empty cell. Each version uses a different technique:
  - Version 1 concatenates the nine cells by hand into one string.
  - Versions 2 and 3 first fill every missing on-board key with `" "` in a nested loop. Version 2 then prints one line per row. Version 3 prints one nested join.
  - Version 4 reads the sparse board through pure `cell` and `row` helpers and has no fill step.

Files:

- `text.dfy` (module `Text`): `str.join`, `str.split` on one character, and `str * n` for a one-character string. These are helpers shared by the other modules. It also proves that splitting a join gives back the parts, and that joining a split gives back the string.
- `formatted_list.dfy` (module `FormattedList`): the boxed list formatter and the script's own sample call.
- `board.dfy` (module `Board`): the board shared by the four board scripts:
  - the map type
  - the opening position set up on lines 1-10 of every script
  - the fill-in loop of versions 2 and 3, as a method with loops, and its specification `Filled`
- `grid_v1.dfy` … `grid_v4.dfy` (modules `GridV1` … `GridV4`): the four renderers. Each returns the string, or line list, that the script passes to `print`.

The in-place dict updates become map values. `SetUp` and `FillMissing` build and return the new map. Each script holds its board in a single variable, so no aliasing is lost.

## Model

| member | source | states |
|---|---|---|
| FormattedList.MaxLength | assets/solutions/formatted_list.py:2 | the result is at least the length of every string and equals the length of one of them |
| FormattedList.Width | assets/solutions/formatted_list.py:2 | the width is at least the title's length + 4 and at least each item's length + 4, and equals one of these; it is defined for an empty item list because the title is always included |
| FormattedList.LeftPad | assets/solutions/formatted_list.py:5 | CPython's left margin of `center` is at most the margin and differs from the right margin by at most one; the left side gets the larger half exactly when both the margin and the width are odd |
| FormattedList.Center | assets/solutions/formatted_list.py:5 | a string at least as long as the field is returned unchanged; otherwise the result is exactly the field width, holds the string at the left margin, and is spaces before and after it |
| FormattedList.Rows | assets/solutions/formatted_list.py:3-4 | no contract of its own: `[hline, title, hline] + items + [hline]`; `RowsAt` states its contents position by position |
| FormattedList.Framed | assets/solutions/formatted_list.py:5 | no contract of its own: the f-string `f"{border}{s.center(width)}{border}"`; `FramedShape`, `FramedBorderLine` and `FramedExcludes` state its behaviour |
| FormattedList.Lines | assets/solutions/formatted_list.py:4-5 | there are as many framed lines as the items plus four |
| FormattedList.Format | assets/solutions/formatted_list.py:1-6 | no contract of its own: `formatted_list` itself, the lines joined by newlines; `FormatSplitsIntoLines`, `FormatLength`, `FormatEnds` and `LinesShape` state its behaviour |
| FormattedList.DefaultCall | assets/solutions/formatted_list.py:1-5 | with the default title `"list"` and border `*`, the field is at least 8 wide, the second line is `"list"` centred and framed, and the first is all asterisks |
| FormattedList.FramedShape | assets/solutions/formatted_list.py:5 | a framed row no wider than the field is width + 2 long, with the border first and last |
| FormattedList.FramedBorderLine | assets/solutions/formatted_list.py:3-5 | framing the border line `border * width` gives `width + 2` border characters |
| FormattedList.RowsAt | assets/solutions/formatted_list.py:4 | row i is a border line, the title, a border line, item i - 3 in its original order, or the closing border line; none is wider than the field |
| FormattedList.LineAt | assets/solutions/formatted_list.py:4-5 | line i is the framed row i: width + 2 long, with the border at both ends |
| FormattedList.LinesShape | assets/solutions/formatted_list.py:3-5 | all lines at once: their count, their order (border line, title, border line, the items in order, border line), length width + 2, and the border first and last |
| FormattedList.LinesUniform | assets/solutions/formatted_list.py:3-5 | every line is width + 2 long and begins and ends with the border |
| FormattedList.FramedExcludes | assets/solutions/formatted_list.py:5 | centring and framing introduce only spaces and the border |
| FormattedList.LineWithoutNewline | assets/solutions/formatted_list.py:4-5 | with no newline in the title, the items or the border, no line holds a newline |
| FormattedList.FormatSplitsIntoLines | assets/solutions/formatted_list.py:4-6 | splitting the result on newlines gives back exactly the framed lines, `len(items) + 4` of them, so there is no trailing newline |
| FormattedList.FormatLength | assets/solutions/formatted_list.py:3-6 | the result is (items + 4) lines of width + 2 characters, plus items + 3 newlines |
| FormattedList.FormatEnds | assets/solutions/formatted_list.py:5-6 | the result is non-empty and starts and ends with the border character |
| Text.JoinEnds | assets/solutions/formatted_list.py:6 | a join of non-empty parts starts with the first part's first character and ends with the last part's last character |
| FormattedList.FruitWidth | assets/solutions/formatted_list.py:8-9 | the sample's field is 12 wide |
| FormattedList.FramedFruit | assets/solutions/formatted_list.py:5-9 | the title "fruit" (odd margin 7 in an even field) gets 3 spaces on the left and 4 on the right |
| FormattedList.FramedApples | assets/solutions/formatted_list.py:5-8 | "apples" is centred with 3 spaces on each side |
| FormattedList.FramedBananas | assets/solutions/formatted_list.py:5-8 | "bananas" (odd margin 5 in an even field) gets 2 spaces on the left and 3 on the right |
| FormattedList.FramedCherries | assets/solutions/formatted_list.py:5-8 | "cherries" is centred with 2 spaces on each side |
| FormattedList.FruitLine | assets/solutions/formatted_list.py:8-9 | each of the sample's seven lines is the expected boxed line |
| FormattedList.FruitLines | assets/solutions/formatted_list.py:8-9 | the sample's lines are exactly the seven boxed lines |
| FormattedList.FruitSample | assets/solutions/formatted_list.py:8-9 | the sample call prints the seven boxed lines joined by newlines, and the output splits back into them |
| Text.Split | assets/solutions/formatted_list.py:6 | `split` on one character yields at least one part, and no part holds the separator |
| Text.Join | assets/solutions/formatted_list.py:6 | no contract of its own: `sep.join(parts)`; `JoinThree`, `JoinUniformLength`, `JoinEnds`, `SplitJoin` and `JoinSplit` state its behaviour |
| Text.Repeat | assets/solutions/formatted_list.py:3 | `border * width` is `width` copies of the border |
| Text.JoinThree | assets/solutions/grid_v4.py:18-22 | joining three parts writes the separator exactly twice |
| Text.JoinUniformLength | assets/solutions/formatted_list.py:6 | a join of equal-length parts has the parts' total length plus one separator per gap |
| Text.SplitJoin | assets/solutions/formatted_list.py:6 | splitting a newline join of newline-free parts gives the parts back |
| Text.JoinSplit | assets/solutions/formatted_list.py:6 | joining the parts of a split gives the string back: join and split are inverses |
| Board.SetUp | assets/solutions/grid_v4.py:1-10 | the board after the dict literal and the four assignments is the opening position: exactly seven keys with their marks, all one character long |
| Board.FillMissing | solutions/grid_v3.py:13-16 | after the nested loop every on-board position is a key, no existing mark is overwritten, and every added key is on the board and holds `" "`; the result is `Filled` of the old board |
| Board.Filled | solutions/grid_v3.py:13-16 | no contract of its own: the board the fill loop leaves, stated as a map comprehension; `FilledAt`, `FilledSize`, `FilledComplete`, `FilledIdempotent` and `FilledUnique` state its behaviour |
| Board.FilledUnique | solutions/grid_v2.py:13-17 | any board that keeps the old marks, is complete and adds only `" "` on the board is exactly `Filled` of the old board: the loop's outcome is unique |
| Board.FilledKeys | solutions/grid_v2.py:13-17 | such a board has exactly the keys of `Filled` |
| Board.FilledValues | solutions/grid_v2.py:16-17 | such a board holds the values of `Filled` at every key |
| Board.FilledAt | solutions/grid_v3.py:13-16 | a position is a key of the filled board iff it was a key or is on the board; old marks are kept; missing on-board positions hold `" "` |
| Board.FilledSize | solutions/grid_v3.py:13-16 | the number of keys after the fill is the old number plus the number of missing on-board positions |
| Board.FilledComplete | solutions/grid_v3.py:13-16 | the filled board is complete and keeps one-character marks |
| Board.FilledIdempotent | solutions/grid_v3.py:13-16 | running the fill on a filled board changes nothing |
| GridV4.CellSingle | assets/solutions/grid_v4.py:13-14 | with one-character marks an on-board cell is one character |
| GridV4.Cell | assets/solutions/grid_v4.py:13-14 | no contract of its own: `" "` for a missing key, else the stored mark; `CellSingle`, `RowCells` and `RenderMarkAt` state what it contributes |
| GridV4.Row | assets/solutions/grid_v4.py:17-18 | no contract of its own: `row(y)`; `RowCells`, `RowLayout` and `RowOnBoardOnly` state its behaviour |
| GridV4.Render | assets/solutions/grid_v4.py:22 | no contract of its own: the joined string printed on line 22; `RenderRows`, `RenderLayout`, `RenderMarkAt` and `RenderOnBoardOnly` state its behaviour |
| GridV4.RowCells | assets/solutions/grid_v4.py:17-18 | `row(y)` is `" " + cell(x, y) + " "` for x = 0, 1, 2 in order, joined by `"|"` |
| GridV4.RowLayout | assets/solutions/grid_v4.py:17-18 | with one-character marks a row is 11 long, with bars at 3 and 7, and the mark of cell x at 4x + 1 between two spaces |
| GridV4.RenderRows | assets/solutions/grid_v4.py:22 | the picture is rows 0, 1, 2 in order joined by `"\n--- --- ---\n"` |
| GridV4.RenderLayout | assets/solutions/grid_v4.py:22 | with one-character marks the picture is 59 long: row y at 24y, and the rule after rows 0 and 1 |
| GridV4.RenderMarkAt | assets/solutions/grid_v4.py:14-22 | the mark of cell (x, y), or a space, stands at 24y + 4x + 1 |
| GridV4.RowOnBoardOnly | assets/solutions/grid_v4.py:18 | row y reads only the keys (0, y), (1, y), (2, y) |
| GridV4.RenderOnBoardOnly | assets/solutions/grid_v4.py:18-22 | two boards that agree on the nine on-board positions render the same picture; other keys are ignored |
| GridV4.OpeningRow0 | assets/solutions/grid_v4.py:1-18 | row 0 of the opening position |
| GridV4.OpeningRow1 | assets/solutions/grid_v4.py:1-18 | row 1 of the opening position |
| GridV4.OpeningRow2 | assets/solutions/grid_v4.py:1-18 | row 2 of the opening position |
| GridV4.OpeningPicture | assets/solutions/grid_v4.py:1-22 | the opening position's picture is its three rows joined by the rule |
| GridV4.Script | assets/solutions/grid_v4.py:1-22 | the script's string is the opening position's three rows joined by the rule |
| GridV3.RowCells | solutions/grid_v3.py:19 | a row is `" " + grid[(x, y)] + " "` for x = 0, 1, 2 in order, joined by `"|"` |
| GridV3.Row | solutions/grid_v3.py:19 | no contract of its own: the inner join of line 19 on a complete board; `RowCells` states its contents |
| GridV3.Render | solutions/grid_v3.py:19 | no contract of its own: the whole expression of line 19; `RenderRows` and `SameAsV4` state its behaviour |
| GridV3.RenderRows | solutions/grid_v3.py:19 | the picture is rows 0, 1, 2 joined by the rule |
| GridV3.SameAsV4 | solutions/grid_v3.py:13-19 | for every starting board, filling and rendering gives exactly the fourth version's picture of the unfilled board |
| GridV3.Script | solutions/grid_v3.py:1-19 | the script prints the same string as the fourth version |
| GridV2.PrintedLines | solutions/grid_v2.py:20-21 | the loop emits exactly three lines, line y being the marks of row y |
| GridV2.Line | solutions/grid_v2.py:21 | no contract of its own: the join printed on line 21; `LineCells`, `LineLayout` and `FilledLineShowsCell` state its behaviour |
| GridV2.LineCells | solutions/grid_v2.py:21 | line y is `grid[(0, y)]`, `grid[(1, y)]`, `grid[(2, y)]` joined by single spaces |
| GridV2.LineLayout | solutions/grid_v2.py:21 | with one-character marks a line is 5 long, with spaces at 1 and 3 and mark x at 2x |
| GridV2.FilledLineShowsCell | solutions/grid_v2.py:13-21 | after the fill, position 2x of line y is the original mark, or a space where the key was missing |
| GridV2.FilledOpeningRow | solutions/grid_v2.py:1-17 | the filled opening position holds the fourth version's cells |
| GridV2.OpeningLine0 | solutions/grid_v2.py:1-21 | the first printed line of the opening position |
| GridV2.OpeningLine1 | solutions/grid_v2.py:1-21 | the second printed line |
| GridV2.OpeningLine2 | solutions/grid_v2.py:1-21 | the third printed line |
| GridV2.Script | solutions/grid_v2.py:1-21 | the script prints "O O  ", "O X  ", "X X X" in that order |
| GridV1.Output | solutions/grid_v1.py:12-60 | the nine conditionals build rows 0, 1, 2 of the stored marks (a space for a missing key), cells in order x = 0, 1, 2, with a newline between rows |
| GridV1.Line | solutions/grid_v1.py:13-26 | no contract of its own: the three cells of one row, with nothing between them; `LineCells` and `LineLayout` state its behaviour |
| GridV1.Picture | solutions/grid_v1.py:12-60 | no contract of its own: the rows joined by newlines, the specification that `Output` meets; `PictureLines`, `PictureLayout` and `PictureNewlines` state its behaviour |
| GridV1.AppendRow | solutions/grid_v1.py:13-26 | appending a row's three cells one at a time appends the row |
| GridV1.LineCells | solutions/grid_v1.py:13-26 | a row is cells 0, 1, 2 in order with nothing between them |
| GridV1.PictureLines | solutions/grid_v1.py:28-45 | the output is row 0, a newline, row 1, a newline, row 2 |
| GridV1.LineLayout | solutions/grid_v1.py:13-26 | with one-character marks a row is 3 long, with cell x at x |
| GridV1.PictureLayout | solutions/grid_v1.py:12-60 | with one-character marks the output is 11 long, and the character at 4y + x is the fourth version's `cell(x, y)` |
| GridV1.PictureNewlines | solutions/grid_v1.py:28-45 | when no mark is a newline, the output holds a newline exactly at 3 and 7: after the third and sixth cells, none trailing |
| GridV1.CellSingle | solutions/grid_v1.py:13-16 | a one-character mark other than a newline does not show a newline |
| GridV1.OpeningLine0 | solutions/grid_v1.py:1-26 | the first row of the opening position |
| GridV1.OpeningLine1 | solutions/grid_v1.py:1-43 | the second row |
| GridV1.OpeningLine2 | solutions/grid_v1.py:1-60 | the third row |
| GridV1.Script | solutions/grid_v1.py:1-62 | the printed string is "OO \nOX \nXXX" |

## Left out

- Console output: the `print` calls are not modelled. Each renderer returns the string, or for version 2 the lines, that would be printed. Version 4's two bare `print()` calls around the picture are also not modelled.
- The border is a single `char`, so a multi-character or empty border is outside the model. With such a border `border * width` is not `width` long; an empty border would make each line only `width` long.
- `formatted_list` does not modify `items`. This holds by value semantics and is not stated as a separate property.
- Strings are sequences of `char`, which are Unicode scalar values, so `|s|` agrees with Python's `len` on code points. The one difference is lone surrogates: Python strings may hold them, and a `char` cannot. No normalisation is modelled.
- GridV3.Render and the version-2 line builders require a complete board. On a board with a missing position, Python's `grid[(x, y)]` would raise `KeyError`; the scripts only call them after the fill loop.
- Board.FillMissing: the dict that the scripts update in place is a returned map value. Since each script has one reference to the board, no aliasing is lost.
- The 2048 engine under `assets/solutions/week 3/code/` (`core.py`, with its front ends `game.py` and `gui.py` and its tests `test.py`) is a separate program and is not modelled.
- `assets/js/lecture.js` and `menu.js` (DOM slide-show and click handlers) and `assets/solutions/shopping_list.py` (console input and file output around a list append) are not modelled.
