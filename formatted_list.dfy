/** `formatted_list(items, title, border)`: a boxed, centred listing of
    strings. The result is the lines border-line, title, border-line, the
    items in order and a closing border-line, each centred in a field four
    wider than the longest string and framed by the border character, joined
    by newlines. The border is a single character, so it is a `char` here. */
module FormattedList {
  import Text

  /** The default arguments of `formatted_list`. */
  const DefaultTitle: string := "list"
  const DefaultBorder: char := '*'

  /** The length of the longest string among `strs` (`max` over `len`). */
  function MaxLength(strs: seq<string>): (m: nat)
    requires |strs| > 0
    ensures forall i :: 0 <= i < |strs| ==> |strs[i]| <= m
    ensures exists i :: 0 <= i < |strs| && |strs[i]| == m
  {
    if |strs| == 1 then |strs[0]|
    else
      var rest := MaxLength(strs[1..]);
      if |strs[0]| >= rest then |strs[0]| else rest
  }

  /** The field width: the longest of the items and the title, plus four.
      The title is always in the list, so the maximum is always defined. */
  function Width(items: seq<string>, title: string): (w: nat)
    ensures |title| + 4 <= w
    ensures forall k :: 0 <= k < |items| ==> |items[k]| + 4 <= w
    ensures w == |title| + 4 || exists k :: 0 <= k < |items| && w == |items[k]| + 4
  {
    var all := items + [title];
    assert all[|items|] == title;
    assert forall k :: 0 <= k < |items| ==> all[k] == items[k];
    MaxLength(all) + 4
  }

  /** CPython's `str.center` gives the left side `marg / 2 + (marg & width & 1)`
      spaces; `marg & width & 1` is 1 exactly when both are odd. */
  function LeftPad(margin: nat, width: nat): (left: nat)
    ensures left <= margin
    ensures 2 * left == margin || 2 * left == margin + 1 || 2 * left + 1 == margin
    ensures 2 * left == margin + 1 <==> margin % 2 == 1 && width % 2 == 1
  {
    margin / 2 + (if margin % 2 == 1 && width % 2 == 1 then 1 else 0)
  }

  /** `s.center(width)` as CPython computes it: unchanged when `s` is at
      least `width` long, otherwise `s` with spaces either side, the left
      count given by `LeftPad`. */
  function Center(s: string, width: nat): (r: string)
    ensures |s| >= width ==> r == s
    ensures |s| < width ==> |r| == width
    ensures |s| < width ==>
      var left := LeftPad(width - |s|, width);
      && r[left..left + |s|] == s
      && (forall i :: 0 <= i < left ==> r[i] == ' ')
      && (forall i :: left + |s| <= i < width ==> r[i] == ' ')
  {
    if |s| >= width then s
    else
      var margin := width - |s|;
      var left := LeftPad(margin, width);
      var r := Text.Repeat(' ', left) + s + Text.Repeat(' ', margin - left);
      assert r[left..left + |s|] == s;
      r
  }

  /** The unframed lines of line 4: `[hline, title, hline] + items + [hline]`. */
  function Rows(items: seq<string>, title: string, border: char): seq<string>
  {
    var hline := Text.Repeat(border, Width(items, title));
    [hline, title, hline] + items + [hline]
  }

  /** A row centred in the field and wrapped in the border character. */
  function Framed(s: string, width: nat, border: char): string
  {
    [border] + Center(s, width) + [border]
  }

  /** The framed lines of line 5, before they are joined. */
  function Lines(items: seq<string>, title: string, border: char): (lines: seq<string>)
    ensures |lines| == |items| + 4
  {
    var w := Width(items, title);
    var rows := Rows(items, title, border);
    seq(|rows|, i requires 0 <= i < |rows| => Framed(rows[i], w, border))
  }

  /** `formatted_list(items, title, border)`. */
  function Format(items: seq<string>, title: string, border: char): string
  {
    Text.Join("\n", Lines(items, title, border))
  }

  /** A framed row whose length is at most the width is `width + 2` long
      and begins and ends with the border. */
  lemma FramedShape(s: string, width: nat, border: char)
    requires |s| <= width
    ensures var f := Framed(s, width, border);
      |f| == width + 2 && f[0] == border && f[width + 1] == border
  {
  }

  /** Framing a full-width border line gives a border line two longer. */
  lemma FramedBorderLine(width: nat, border: char)
    ensures Framed(Text.Repeat(border, width), width, border) == Text.Repeat(border, width + 2)
  {
    var f := Framed(Text.Repeat(border, width), width, border);
    assert |f| == width + 2;
    forall i | 0 <= i < width + 2 ensures f[i] == border {
      if 0 < i < width + 1 {
        assert f[i] == Text.Repeat(border, width)[i - 1];
      }
    }
  }

  /** Line 4's rows by position: a border line, the title, a border line,
      the items in their original order, a border line; none is wider than
      the field. */
  lemma RowsAt(items: seq<string>, title: string, border: char, i: nat)
    requires i < |items| + 4
    ensures var rows := Rows(items, title, border);
      var hline := Text.Repeat(border, Width(items, title));
      && |rows| == |items| + 4
      && rows[i] == (if i == 1 then title
                     else if 3 <= i < |items| + 3 then items[i - 3]
                     else hline)
      && |rows[i]| <= Width(items, title)
  {
  }

  /** Line `i` is row `i` framed: `Width + 2` long, border at both ends. */
  lemma LineAt(items: seq<string>, title: string, border: char, i: nat)
    requires i < |items| + 4
    ensures var line := Lines(items, title, border)[i];
      var w := Width(items, title);
      && line == (if i == 1 then Framed(title, w, border)
                  else if 3 <= i < |items| + 3 then Framed(items[i - 3], w, border)
                  else Text.Repeat(border, w + 2))
      && |line| == w + 2 && line[0] == border && line[w + 1] == border
  {
    var w := Width(items, title);
    RowsAt(items, title, border, i);
    FramedShape(Rows(items, title, border)[i], w, border);
    FramedBorderLine(w, border);
  }

  /** The lines are, in order: a border line, the framed title, a border
      line, each framed item in its original order, a border line; every
      line is `Width + 2` long and begins and ends with the border. */
  lemma LinesShape(items: seq<string>, title: string, border: char)
    ensures var lines := Lines(items, title, border);
      var w := Width(items, title);
      && |lines| == |items| + 4
      && forall i :: 0 <= i < |lines| ==>
        && lines[i] == (if i == 1 then Framed(title, w, border)
                        else if 3 <= i < |items| + 3 then Framed(items[i - 3], w, border)
                        else Text.Repeat(border, w + 2))
        && |lines[i]| == w + 2 && lines[i][0] == border && lines[i][w + 1] == border
  {
    forall i | 0 <= i < |items| + 4 {
      LineAt(items, title, border, i);
    }
  }

  /** A character that is neither a space nor the border and does not occur
      in the row does not occur in its framed line. */
  lemma FramedExcludes(s: string, width: nat, border: char, ch: char)
    requires ch != ' ' && ch != border && ch !in s
    ensures ch !in Framed(s, width, border)
  {
    if |s| < width {
      var left := LeftPad(width - |s|, width);
      var before := Text.Repeat(' ', left);
      var after := Text.Repeat(' ', width - |s| - left);
      assert Center(s, width) == before + s + after;
      assert ch !in before && ch !in after;
    }
  }

  /** With no newline in the row or the border, the framed line has none. */
  lemma LineWithoutNewline(items: seq<string>, title: string, border: char, i: nat)
    requires '\n' !in title && border != '\n'
    requires forall k :: 0 <= k < |items| ==> '\n' !in items[k]
    requires i < |items| + 4
    ensures '\n' !in Lines(items, title, border)[i]
  {
    var row := Rows(items, title, border)[i];
    RowsAt(items, title, border, i);
    if 3 <= i < |items| + 3 {
      assert '\n' !in items[i - 3];
    }
    FramedExcludes(row, Width(items, title), border, '\n');
  }

  /** With no newline in the title, the items or the border, the result
      splits on `"\n"` into exactly the framed lines: `|items| + 4` of them,
      so there is no trailing newline. */
  lemma FormatSplitsIntoLines(items: seq<string>, title: string, border: char)
    requires '\n' !in title && border != '\n'
    requires forall k :: 0 <= k < |items| ==> '\n' !in items[k]
    ensures Text.Split(Format(items, title, border), '\n') == Lines(items, title, border)
    ensures |Text.Split(Format(items, title, border), '\n')| == |items| + 4
  {
    var lines := Lines(items, title, border);
    forall i | 0 <= i < |lines| ensures '\n' !in lines[i] {
      LineWithoutNewline(items, title, border, i);
    }
    Text.SplitJoin(lines, '\n');
  }

  /** Every line is `Width + 2` long and begins and ends with the border. */
  lemma LinesUniform(items: seq<string>, title: string, border: char)
    ensures var lines := Lines(items, title, border);
      var w := Width(items, title);
      forall i :: 0 <= i < |lines| ==>
        |lines[i]| == w + 2 && lines[i][0] == border && lines[i][w + 1] == border
  {
    forall i | 0 <= i < |items| + 4 {
      LineAt(items, title, border, i);
    }
  }

  /** The result is `|items| + 4` lines of `Width + 2` characters with a
      newline between neighbours. */
  lemma FormatLength(items: seq<string>, title: string, border: char)
    ensures |Format(items, title, border)| == (|items| + 4) * (Width(items, title) + 2) + |items| + 3
  {
    var lines := Lines(items, title, border);
    var w := Width(items, title);
    LinesUniform(items, title, border);
    Text.JoinUniformLength("\n", lines, w + 2);
    assert |lines| * (w + 2) + (|lines| - 1) * 1 == (|items| + 4) * (w + 2) + |items| + 3;
  }

  /** The result starts and ends with the border, so it has no trailing
      newline. */
  lemma FormatEnds(items: seq<string>, title: string, border: char)
    ensures var r := Format(items, title, border);
      |r| > 0 && r[0] == border && r[|r| - 1] == border
  {
    var lines := Lines(items, title, border);
    LinesUniform(items, title, border);
    Text.JoinEnds("\n", lines);
  }

  /** `formatted_list(items)` with the default title and border: the second
      line is `"list"` centred and framed in asterisks, and the field is at
      least 8 wide. */
  lemma DefaultCall(items: seq<string>)
    ensures Width(items, DefaultTitle) >= 8
    ensures Lines(items, DefaultTitle, DefaultBorder)[1] ==
      Framed("list", Width(items, DefaultTitle), '*')
    ensures Lines(items, DefaultTitle, DefaultBorder)[0] ==
      Text.Repeat('*', Width(items, DefaultTitle) + 2)
  {
    LineAt(items, DefaultTitle, DefaultBorder, 0);
    LineAt(items, DefaultTitle, DefaultBorder, 1);
  }

  /** The script's own sample: three fruit under the title "fruit" in a
      field of width 12. */
  lemma FruitWidth()
    ensures Width(["apples", "bananas", "cherries"], "fruit") == 12
  {
    var all := ["apples", "bananas", "cherries"] + ["fruit"];
    assert all[1..][1..][1..] == ["fruit"];
    assert MaxLength(all[1..][1..]) == 8;
  }

  /** The sample's framed lines, as the script prints them. */
  const FruitBox: seq<string> :=
    ["**************", "*   fruit    *", "**************", "*   apples   *",
     "*  bananas   *", "*  cherries  *", "**************"]

  /** `Center` on each of the sample's strings: a margin of 7 puts 3 spaces
      on the left, a margin of 6 or 4 splits evenly. */
  lemma FramedFruit()
    ensures Framed("fruit", 12, '*') == FruitBox[1]
  {
    assert LeftPad(7, 12) == 3;
    assert Text.Repeat(' ', 3) == "   " && Text.Repeat(' ', 4) == "    ";
  }

  lemma FramedApples()
    ensures Framed("apples", 12, '*') == FruitBox[3]
  {
    assert LeftPad(6, 12) == 3;
    assert Text.Repeat(' ', 3) == "   ";
  }

  lemma FramedBananas()
    ensures Framed("bananas", 12, '*') == FruitBox[4]
  {
    assert LeftPad(5, 12) == 2;
    assert Text.Repeat(' ', 2) == "  " && Text.Repeat(' ', 3) == "   ";
  }

  lemma FramedCherries()
    ensures Framed("cherries", 12, '*') == FruitBox[5]
  {
    assert LeftPad(4, 12) == 2;
    assert Text.Repeat(' ', 2) == "  ";
  }

  lemma FruitLine(items: seq<string>, title: string, i: nat)
    requires items == ["apples", "bananas", "cherries"] && title == "fruit"
    requires i < 7
    ensures Lines(items, title, DefaultBorder)[i] == FruitBox[i]
  {
    FruitWidth();
    LineAt(items, title, '*', i);
    if i == 1 {
      FramedFruit();
    } else if i == 3 {
      FramedApples();
    } else if i == 4 {
      FramedBananas();
    } else if i == 5 {
      FramedCherries();
    } else {
      FramedBorderLine(12, '*');
      assert Text.Repeat('*', 14) == FruitBox[0];
    }
  }

  lemma FruitLines(items: seq<string>, title: string)
    requires items == ["apples", "bananas", "cherries"] && title == "fruit"
    ensures Lines(items, title, DefaultBorder) == FruitBox
  {
    forall i | 0 <= i < 7 ensures Lines(items, title, DefaultBorder)[i] == FruitBox[i] {
      FruitLine(items, title, i);
    }
  }

  /** `print(formatted_list(items, title="fruit"))` prints the seven lines of
      `FruitBox`, one per line. */
  lemma FruitSample(items: seq<string>, title: string)
    requires items == ["apples", "bananas", "cherries"] && title == "fruit"
    ensures Format(items, title, DefaultBorder) == Text.Join("\n", FruitBox)
    ensures Text.Split(Format(items, title, DefaultBorder), '\n') == FruitBox
  {
    FruitLines(items, title);
    FormatSplitsIntoLines(items, title, DefaultBorder);
  }
}
