/** String helpers shared by the layout scripts: Python's `str.join`,
    `str.split` on a one-character separator and `str * n`. */
module Text {

  /** `sep.join(parts)`: the parts in order with `sep` between neighbours. */
  function Join(sep: string, parts: seq<string>): string
    decreases |parts|
  {
    if |parts| == 0 then ""
    else if |parts| == 1 then parts[0]
    else parts[0] + sep + Join(sep, parts[1..])
  }

  /** `s.split(c)` for a one-character separator: the maximal runs between
      occurrences of `c`; never empty (`"".split(c) == [""]`). */
  function Split(s: string, c: char): (parts: seq<string>)
    ensures |parts| >= 1
    ensures forall k :: 0 <= k < |parts| ==> c !in parts[k]
    decreases |s|
  {
    if |s| == 0 then [""]
    else
      var rest := Split(s[1..], c);
      if s[0] == c then [""] + rest
      else [[s[0]] + rest[0]] + rest[1..]
  }

  /** `[c] * n` as a string: `n` copies of one character. */
  function Repeat(c: char, n: nat): (r: string)
    ensures |r| == n
    ensures forall i :: 0 <= i < n ==> r[i] == c
  {
    seq(n, _ => c)
  }

  /** Joining three parts writes the separator exactly twice. */
  lemma JoinThree(sep: string, parts: seq<string>)
    requires |parts| == 3
    ensures Join(sep, parts) == parts[0] + sep + parts[1] + sep + parts[2]
  {
    var tail := parts[1..];
    assert tail[1..] == [parts[2]];
    assert Join(sep, tail) == parts[1] + sep + parts[2];
  }

  /** Prepending to the first part prepends to the joined string. */
  lemma JoinPrependFirst(sep: string, x: string, parts: seq<string>)
    requires |parts| >= 1
    ensures Join(sep, [x + parts[0]] + parts[1..]) == x + Join(sep, parts)
  {
    var q := [x + parts[0]] + parts[1..];
    assert q[1..] == parts[1..];
  }

  /** When every part has length `len`, the joined length is the parts'
      total plus one separator between each pair of neighbours. */
  lemma {:induction false} JoinUniformLength(sep: string, parts: seq<string>, len: nat)
    requires |parts| >= 1
    requires forall k :: 0 <= k < |parts| ==> |parts[k]| == len
    ensures |Join(sep, parts)| == |parts| * len + (|parts| - 1) * |sep|
  {
    if |parts| > 1 {
      JoinUniformLength(sep, parts[1..], len);
    }
  }

  /** The first character of a join is that of the first part, the last that
      of the last part, when both are non-empty. */
  lemma {:induction false} JoinEnds(sep: string, parts: seq<string>)
    requires |parts| >= 1
    requires forall k :: 0 <= k < |parts| ==> |parts[k]| > 0
    ensures var r := Join(sep, parts);
      |r| > 0 && r[0] == parts[0][0] && r[|r| - 1] == parts[|parts| - 1][|parts[|parts| - 1]| - 1]
    decreases |parts|
  {
    if |parts| > 1 {
      JoinEnds(sep, parts[1..]);
    }
  }

  /** Splitting a string that has no separator gives the string back whole. */
  lemma {:induction false} SplitNoSeparator(s: string, c: char)
    requires c !in s
    ensures Split(s, c) == [s]
    decreases |s|
  {
    if |s| > 0 {
      assert c !in s[1..];
      SplitNoSeparator(s[1..], c);
      assert [s[0]] + s[1..] == s;
    }
  }

  /** Splitting `a + [c] + b` where `a` has no `c` peels `a` off the front. */
  lemma {:induction false} SplitAfterFirst(a: string, b: string, c: char)
    requires c !in a
    ensures Split(a + [c] + b, c) == [a] + Split(b, c)
    decreases |a|
  {
    var s := a + [c] + b;
    if |a| == 0 {
      assert s[1..] == b;
    } else {
      assert s[1..] == a[1..] + [c] + b;
      assert c !in a[1..];
      SplitAfterFirst(a[1..], b, c);
      assert [a[0]] + a[1..] == a;
    }
  }

  /** Round trip: joining separator-free parts with `c` and splitting on `c`
      gives the parts back, so the string has exactly `|parts|` lines. */
  lemma {:induction false} SplitJoin(parts: seq<string>, c: char)
    requires |parts| >= 1
    requires forall k :: 0 <= k < |parts| ==> c !in parts[k]
    ensures Split(Join([c], parts), c) == parts
    decreases |parts|
  {
    if |parts| == 1 {
      SplitNoSeparator(parts[0], c);
    } else {
      SplitAfterFirst(parts[0], Join([c], parts[1..]), c);
      SplitJoin(parts[1..], c);
      assert [parts[0]] + parts[1..] == parts;
    }
  }

  /** The other round trip: splitting on `c` and joining with `c` gives the
      original string back. */
  lemma {:induction false} JoinSplit(s: string, c: char)
    ensures Join([c], Split(s, c)) == s
    decreases |s|
  {
    if |s| > 0 {
      var rest := Split(s[1..], c);
      JoinSplit(s[1..], c);
      if s[0] == c {
        var q := [""] + rest;
        assert q[1..] == rest;
        assert |q| > 1;
        assert [s[0]] + s[1..] == s;
      } else {
        JoinPrependFirst([c], [s[0]], rest);
        assert [s[0]] + s[1..] == s;
      }
    }
  }
}
