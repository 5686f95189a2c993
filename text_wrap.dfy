/** The label wrapper of the wheel renderer: greedy word-wrap against a measured width,
    then one centre-aligned text draw per line, the block centred vertically on `y`.
    The canvas's `measureText(...).width` is the parameter `width`, about which nothing
    is assumed; coordinates and widths are exact reals. */
module TextWrap {
  import opened Words

  /** One `fillText(text, x, baseline)` call. */
  datatype Draw = Draw(text: string, x: real, baseline: real)

  function Texts(draws: seq<Draw>): (texts: seq<string>)
    ensures |texts| == |draws|
    ensures forall i :: 0 <= i < |draws| ==> texts[i] == draws[i].text
  {
    seq(|draws|, i requires 0 <= i < |draws| => draws[i].text)
  }

  /** Every word after the first of a line was added because the line with it,
      trailing space included, still measured at most `maxWidth`. */
  ghost predicate Fits(width: string -> real, maxWidth: real, group: seq<string>)
  {
    forall j :: 2 <= j <= |group| ==> width(Spaced(group[..j])) <= maxWidth
  }

  /** Starting a new line with `next` happened because `next` did not fit after `previous`. */
  predicate Overflows(width: string -> real, maxWidth: real, previous: seq<string>, next: string)
  {
    width(Spaced(previous) + next + " ") > maxWidth
  }

  /** `groups` is a greedy wrap of `words`: the words in order, cut into non-empty lines,
      each word after the first of a line fitting on it, and each line started only
      because its first word overflowed the line before. */
  ghost predicate IsGreedyWrap(width: string -> real, maxWidth: real, words: seq<string>, groups: seq<seq<string>>)
  {
    && Flatten(groups) == words
    && (forall i :: 0 <= i < |groups| ==> |groups[i]| >= 1)
    && (forall i :: 0 <= i < |groups| ==> GreedyLine(width, maxWidth, groups, i))
  }

  /** Line `i` of `groups` fits word by word, and if it is not the first line, its first
      word overflowed the line before. */
  ghost predicate GreedyLine(width: string -> real, maxWidth: real, groups: seq<seq<string>>, i: int)
  {
    && 0 <= i < |groups|
    && Fits(width, maxWidth, groups[i])
    && (i > 0 && |groups[i]| >= 1 ==> Overflows(width, maxWidth, groups[i - 1], groups[i][0]))
  }

  /** Where the line that holds `words[..k]` ends: at the first word from `k` on that
      overflows it, or after the last word. */
  function LineEnd(width: string -> real, maxWidth: real, words: seq<string>, k: nat): (r: nat)
    requires 1 <= k <= |words|
    ensures k <= r <= |words|
    ensures forall j :: k <= j < r ==> !Overflows(width, maxWidth, words[..j], words[j])
    ensures r == |words| || Overflows(width, maxWidth, words[..r], words[r])
    decreases |words| - k
  {
    if k == |words| || Overflows(width, maxWidth, words[..k], words[k]) then k
    else LineEnd(width, maxWidth, words, k + 1)
  }

  /** The greedy wrap line by line: the first line runs from the first word to its
      `LineEnd`, and the rest is the greedy wrap of the words after it. */
  function Greedy(width: string -> real, maxWidth: real, words: seq<string>): (groups: seq<seq<string>>)
    ensures Flatten(groups) == words
    ensures forall i :: 0 <= i < |groups| ==> |groups[i]| >= 1
    decreases |words|
  {
    if words == [] then []
    else
      var k := LineEnd(width, maxWidth, words, 1);
      assert words == words[..k] + words[k..];
      [words[..k]] + Greedy(width, maxWidth, words[k..])
  }

  /** Each line's words, each followed by a space. */
  function LinesOf(groups: seq<seq<string>>): (lines: seq<string>)
    ensures |lines| == |groups|
    ensures forall i :: 0 <= i < |groups| ==> lines[i] == Spaced(groups[i])
  {
    seq(|groups|, i requires 0 <= i < |groups| => Spaced(groups[i]))
  }

  /** The lines `wrapText` computes for `text`, trailing spaces included. */
  function WrappedLines(width: string -> real, maxWidth: real, text: string): seq<string>
  {
    LinesOf(Greedy(width, maxWidth, Split(text)))
  }

  /** What the first loop of `wrapText` keeps true after `n` words: the committed lines
      `lines` and the open line `line` hold the words of `groups` and `current`, which
      together are the first `n` words, greedily wrapped. */
  ghost predicate Progress(width: string -> real, maxWidth: real, words: seq<string>, n: nat,
                           lines: seq<string>, line: string, groups: seq<seq<string>>, current: seq<string>)
  {
    && n <= |words|
    && (n == 0 ==> current == [] && groups == [])
    && (n > 0 ==> |current| >= 1)
    && line == Spaced(current)
    && Flatten(groups) + current == words[..n]
    && lines == LinesOf(groups)
    && IsGreedyWrap(width, maxWidth, Flatten(groups), groups)
    && Fits(width, maxWidth, current)
    && (groups != [] && current != [] ==> Overflows(width, maxWidth, groups[|groups| - 1], current[0]))
  }

  /** The first loop of `wrapText`: split the label and fill lines greedily. The first word
      always goes on the first line, however wide it is. */
  method BreakLines(width: string -> real, text: string, maxWidth: real)
    returns (lines: seq<string>, ghost groups: seq<seq<string>>)
    ensures IsGreedyWrap(width, maxWidth, Split(text), groups)
    ensures groups == Greedy(width, maxWidth, Split(text))
    ensures lines == WrappedLines(width, maxWidth, text)
    ensures 1 <= |lines| <= |Split(text)|
    ensures Concat(lines) == text + " "
  {
    var words := Split(text);
    var line := "";
    ghost var current: seq<string> := [];
    lines, groups := [], [];
    for n := 0 to |words|
      invariant Progress(width, maxWidth, words, n, lines, line, groups, current)
    {
      var testLine := line + words[n] + " ";
      if width(testLine) > maxWidth && n > 0 {
        StartLine(width, maxWidth, words, n, lines, line, groups, current);
        lines, groups := lines + [line], groups + [current];
        line, current := words[n] + " ", [words[n]];
      } else {
        ExtendLine(width, maxWidth, words, n, lines, line, groups, current);
        line, current := testLine, current + [words[n]];
      }
    }
    CloseLastLine(width, maxWidth, text, lines, line, groups, current);
    lines, groups := lines + [line], groups + [current];
  }

  /** A word that overflows the current line closes it and starts the next one. */
  lemma StartLine(width: string -> real, maxWidth: real, words: seq<string>, n: nat,
                  lines: seq<string>, line: string, groups: seq<seq<string>>, current: seq<string>)
    requires Progress(width, maxWidth, words, n, lines, line, groups, current)
    requires 0 < n < |words| && width(line + words[n] + " ") > maxWidth
    ensures Progress(width, maxWidth, words, n + 1, lines + [line], words[n] + " ", groups + [current], [words[n]])
  {
    TakeOneMore(words, n);
    FlattenAppend(groups, [current]);
    assert Flatten([current]) == current;
    GreedyWrapSnoc(width, maxWidth, groups, current);
    assert LinesOf(groups + [current]) == LinesOf(groups) + [Spaced(current)];
    assert Spaced([words[n]]) == words[n] + " ";
  }

  /** A word that fits, or the very first word, is added to the current line. */
  lemma ExtendLine(width: string -> real, maxWidth: real, words: seq<string>, n: nat,
                   lines: seq<string>, line: string, groups: seq<seq<string>>, current: seq<string>)
    requires Progress(width, maxWidth, words, n, lines, line, groups, current)
    requires n < |words| && !(width(line + words[n] + " ") > maxWidth && n > 0)
    ensures Progress(width, maxWidth, words, n + 1, lines, line + words[n] + " ", groups, current + [words[n]])
  {
    TakeOneMore(words, n);
    SpacedSnoc(current, words[n]);
    FitsExtend(width, maxWidth, current, words[n]);
    AppendAssociates(Flatten(groups), current, [words[n]]);
  }

  /** Pushing the last line after the loop completes the greedy wrap of all the words. */
  lemma CloseLastLine(width: string -> real, maxWidth: real, text: string,
                      lines: seq<string>, line: string, groups: seq<seq<string>>, current: seq<string>)
    requires Progress(width, maxWidth, Split(text), |Split(text)|, lines, line, groups, current)
    ensures IsGreedyWrap(width, maxWidth, Split(text), groups + [current])
    ensures groups + [current] == Greedy(width, maxWidth, Split(text))
    ensures lines + [line] == WrappedLines(width, maxWidth, text)
    ensures 1 <= |lines + [line]| <= |Split(text)|
    ensures Concat(lines + [line]) == text + " "
  {
    var words := Split(text);
    var all := groups + [current];
    assert words[..|words|] == words;
    FlattenAppend(groups, [current]);
    assert Flatten([current]) == current;
    GreedyWrapSnoc(width, maxWidth, groups, current);
    assert LinesOf(all) == LinesOf(groups) + [Spaced(current)];
    GreedyWrapUnique(width, maxWidth, words, all);
    ConcatSpacedGroups(LinesOf(all), all);
    SpacedJoin(words);
    JoinSplit(text);
    FlattenLength(all);
  }

  /** A greedy wrap stays one when a fitting line is added that starts with a word
      overflowing the last line. */
  lemma GreedyWrapSnoc(width: string -> real, maxWidth: real, groups: seq<seq<string>>, group: seq<string>)
    requires IsGreedyWrap(width, maxWidth, Flatten(groups), groups)
    requires |group| >= 1 && Fits(width, maxWidth, group)
    requires groups != [] ==> Overflows(width, maxWidth, groups[|groups| - 1], group[0])
    ensures IsGreedyWrap(width, maxWidth, Flatten(groups + [group]), groups + [group])
  {
    var extended := groups + [group];
    forall i | 0 <= i < |extended|
      ensures |extended[i]| >= 1 && GreedyLine(width, maxWidth, extended, i)
    {
      if i < |groups| {
        assert GreedyLine(width, maxWidth, groups, i);
        assert extended[i] == groups[i];
        if i > 0 {
          assert extended[i - 1] == groups[i - 1];
        }
      } else if i > 0 {
        assert extended[i - 1] == groups[|groups| - 1];
      }
    }
  }

  lemma SpacedSnoc(words: seq<string>, word: string)
    ensures Spaced(words + [word]) == Spaced(words) + word + " "
  {
    SpacedAppend(words, [word]);
    assert Spaced([word]) == word + " ";
  }

  /** A line that fits stays fitting when a word is added whose line measures at most `maxWidth`,
      or when it is the first word. */
  lemma FitsExtend(width: string -> real, maxWidth: real, group: seq<string>, word: string)
    requires Fits(width, maxWidth, group)
    requires group != [] ==> width(Spaced(group + [word])) <= maxWidth
    ensures Fits(width, maxWidth, group + [word])
  {
    var extended := group + [word];
    forall j | 2 <= j <= |extended|
      ensures width(Spaced(extended[..j])) <= maxWidth
    {
      if j <= |group| {
        assert extended[..j] == group[..j];
      } else {
        assert extended[..j] == extended;
      }
    }
  }

  /** Every line ends in the space that follows its last word. */
  lemma {:induction false} SpacedEndsInSpace(words: seq<string>)
    requires |words| >= 1
    ensures |Spaced(words)| >= 1 && Spaced(words)[|Spaced(words)| - 1] == ' '
  {
    if |words| > 1 {
      SpacedEndsInSpace(words[1..]);
    }
  }

  /** Only a line of one word can be wider than `maxWidth`. */
  lemma MultiWordLineFits(width: string -> real, maxWidth: real, group: seq<string>)
    requires Fits(width, maxWidth, group) && |group| >= 2
    ensures width(Spaced(group)) <= maxWidth
  {
    assert group[..|group|] == group;
  }

  /** The greedy wrap is a greedy wrap. */
  lemma {:induction false} GreedyIsGreedyWrap(width: string -> real, maxWidth: real, words: seq<string>)
    ensures IsGreedyWrap(width, maxWidth, words, Greedy(width, maxWidth, words))
    decreases |words|
  {
    if words != [] {
      var k := LineEnd(width, maxWidth, words, 1);
      var rest := Greedy(width, maxWidth, words[k..]);
      assert Greedy(width, maxWidth, words) == [words[..k]] + rest;
      GreedyIsGreedyWrap(width, maxWidth, words[k..]);
      FirstLineFits(width, maxWidth, words);
      if rest != [] {
        assert words[k..] == rest[0] + Flatten(rest[1..]);
      }
      GreedyWrapCons(width, maxWidth, words[..k], rest);
      assert words[..k] + words[k..] == words;
    }
  }

  /** The first line of the greedy wrap fits, word by word. */
  lemma FirstLineFits(width: string -> real, maxWidth: real, words: seq<string>)
    requires words != []
    ensures Fits(width, maxWidth, words[..LineEnd(width, maxWidth, words, 1)])
  {
    var k := LineEnd(width, maxWidth, words, 1);
    forall j | 2 <= j <= k
      ensures width(Spaced(words[..k][..j])) <= maxWidth
    {
      assert words[..k][..j] == words[..j - 1] + [words[j - 1]];
      SpacedSnoc(words[..j - 1], words[j - 1]);
      assert !Overflows(width, maxWidth, words[..j - 1], words[j - 1]);
    }
  }

  /** A greedy wrap stays one when a fitting line is put in front whose next word overflows it. */
  lemma GreedyWrapCons(width: string -> real, maxWidth: real, group: seq<string>, groups: seq<seq<string>>)
    requires IsGreedyWrap(width, maxWidth, Flatten(groups), groups)
    requires |group| >= 1 && Fits(width, maxWidth, group)
    requires groups != [] ==> Overflows(width, maxWidth, group, groups[0][0])
    ensures IsGreedyWrap(width, maxWidth, group + Flatten(groups), [group] + groups)
  {
    var extended := [group] + groups;
    assert extended[1..] == groups;
    forall i | 0 <= i < |extended|
      ensures |extended[i]| >= 1 && GreedyLine(width, maxWidth, extended, i)
    {
      if i > 0 {
        assert GreedyLine(width, maxWidth, groups, i - 1);
        assert extended[i] == groups[i - 1];
        if i > 1 {
          assert extended[i - 1] == groups[i - 2];
        }
      }
    }
  }

  /** A greedy wrap is the greedy wrap: the lines `wrapText` produces are determined by
      the words, the measure and `maxWidth` alone. */
  lemma {:induction false} GreedyWrapUnique(width: string -> real, maxWidth: real, words: seq<string>,
                                            groups: seq<seq<string>>)
    requires IsGreedyWrap(width, maxWidth, words, groups)
    ensures groups == Greedy(width, maxWidth, words)
    decreases |words|
  {
    FlattenLength(groups);
    if words != [] {
      FirstLineIsLineEnd(width, maxWidth, words, groups);
      var a := |groups[0]|;
      GreedyWrapTail(width, maxWidth, words, groups);
      GreedyWrapUnique(width, maxWidth, words[a..], groups[1..]);
      assert groups == [groups[0]] + groups[1..];
    }
  }

  /** The first line of a greedy wrap ends where `LineEnd` says. */
  lemma FirstLineIsLineEnd(width: string -> real, maxWidth: real, words: seq<string>, groups: seq<seq<string>>)
    requires IsGreedyWrap(width, maxWidth, words, groups) && groups != []
    ensures |groups[0]| <= |words| && groups[0] == words[..|groups[0]|]
    ensures LineEnd(width, maxWidth, words, 1) == |groups[0]|
  {
    var a := |groups[0]|;
    assert words == groups[0] + Flatten(groups[1..]);
    assert groups[0] == words[..a];
    assert GreedyLine(width, maxWidth, groups, 0);
    forall j | 1 <= j < a
      ensures !Overflows(width, maxWidth, words[..j], words[j])
    {
      assert groups[0][..j + 1] == words[..j] + [words[j]];
      SpacedSnoc(words[..j], words[j]);
    }
    if a < |words| {
      FlattenLength(groups[1..]);
      assert groups[1..][1..] == groups[2..];
      assert Flatten(groups[1..]) == groups[1] + Flatten(groups[2..]);
      assert words[a] == groups[1][0];
      assert GreedyLine(width, maxWidth, groups, 1);
    }
    LineEndIs(width, maxWidth, words, 1, a);
  }

  /** `LineEnd` finds the first overflow from `k` on. */
  lemma {:induction false} LineEndIs(width: string -> real, maxWidth: real, words: seq<string>, k: nat, a: nat)
    requires 1 <= k <= a <= |words|
    requires forall j :: k <= j < a ==> !Overflows(width, maxWidth, words[..j], words[j])
    requires a == |words| || Overflows(width, maxWidth, words[..a], words[a])
    ensures LineEnd(width, maxWidth, words, k) == a
    decreases a - k
  {
    if k < a {
      LineEndIs(width, maxWidth, words, k + 1, a);
    }
  }

  /** What follows the first line of a greedy wrap is a greedy wrap of the remaining words. */
  lemma GreedyWrapTail(width: string -> real, maxWidth: real, words: seq<string>, groups: seq<seq<string>>)
    requires IsGreedyWrap(width, maxWidth, words, groups) && groups != []
    ensures IsGreedyWrap(width, maxWidth, words[|groups[0]|..], groups[1..])
  {
    assert words == groups[0] + Flatten(groups[1..]);
    assert words[|groups[0]|..] == Flatten(groups[1..]);
    var rest := groups[1..];
    forall i | 0 <= i < |rest|
      ensures |rest[i]| >= 1 && GreedyLine(width, maxWidth, rest, i)
    {
      assert GreedyLine(width, maxWidth, groups, i + 1);
      assert rest[i] == groups[i + 1];
      if i > 0 {
        assert rest[i - 1] == groups[i];
      }
    }
  }

  /** A label gives at least one line and never more lines than words. */
  lemma WrappedLineCount(width: string -> real, maxWidth: real, text: string)
    ensures 1 <= |WrappedLines(width, maxWidth, text)| <= |Split(text)|
  {
    FlattenLength(Greedy(width, maxWidth, Split(text)));
  }

  /** Every line is non-empty and ends in the space that follows its last word. */
  lemma WrappedLinesEndInSpace(width: string -> real, maxWidth: real, text: string)
    ensures forall line :: line in WrappedLines(width, maxWidth, text) ==> |line| >= 1 && line[|line| - 1] == ' '
  {
    var groups := Greedy(width, maxWidth, Split(text));
    forall i | 0 <= i < |groups|
      ensures |Spaced(groups[i])| >= 1 && Spaced(groups[i])[|Spaced(groups[i])| - 1] == ' '
    {
      SpacedEndsInSpace(groups[i]);
    }
  }

  /** The lines, one after the other, are the label's words each followed by a space:
      no word is dropped, repeated or moved. */
  lemma WrappedLinesKeepText(width: string -> real, maxWidth: real, text: string)
    ensures Concat(WrappedLines(width, maxWidth, text)) == text + " "
  {
    var groups := Greedy(width, maxWidth, Split(text));
    ConcatSpacedGroups(LinesOf(groups), groups);
    SpacedJoin(Split(text));
    JoinSplit(text);
  }

  /** Only a line of one word can measure more than `maxWidth`. */
  lemma WrappedLinesFit(width: string -> real, maxWidth: real, text: string)
    ensures var groups := Greedy(width, maxWidth, Split(text));
            forall i :: 0 <= i < |groups| && |groups[i]| >= 2 ==> width(Spaced(groups[i])) <= maxWidth
  {
    var groups := Greedy(width, maxWidth, Split(text));
    GreedyIsGreedyWrap(width, maxWidth, Split(text));
    forall i | 0 <= i < |groups| && |groups[i]| >= 2
      ensures width(Spaced(groups[i])) <= maxWidth
    {
      assert GreedyLine(width, maxWidth, groups, i);
      MultiWordLineFits(width, maxWidth, groups[i]);
    }
  }

  /** A line after the first starts only because its first word, added to the line
      before, measured more than `maxWidth`. */
  lemma WrappedLinesBreakOnOverflow(width: string -> real, maxWidth: real, text: string)
    ensures var groups := Greedy(width, maxWidth, Split(text));
            forall i :: 1 <= i < |groups| ==> width(Spaced(groups[i - 1]) + groups[i][0] + " ") > maxWidth
  {
    var groups := Greedy(width, maxWidth, Split(text));
    GreedyIsGreedyWrap(width, maxWidth, Split(text));
    forall i | 1 <= i < |groups|
      ensures width(Spaced(groups[i - 1]) + groups[i][0] + " ") > maxWidth
    {
      assert GreedyLine(width, maxWidth, groups, i);
    }
  }

  /** Line `i` of `count` lines `lineHeight` apart, centred on `y`. */
  function Baseline(y: real, lineHeight: real, count: nat, i: nat): real
  {
    y - count as real * lineHeight / 2.0 + lineHeight / 2.0 + i as real * lineHeight
  }

  /** Consecutive lines are exactly `lineHeight` apart. */
  lemma BaselineStep(y: real, lineHeight: real, count: nat, i: nat)
    ensures Baseline(y, lineHeight, count, i + 1) - Baseline(y, lineHeight, count, i) == lineHeight
  {
    assert (i + 1) as real * lineHeight == i as real * lineHeight + lineHeight;
  }

  /** The block is centred on `y`: the first and last baselines are equally far from it. */
  lemma BaselineCentred(y: real, lineHeight: real, count: nat)
    requires count >= 1
    ensures Baseline(y, lineHeight, count, 0) + Baseline(y, lineHeight, count, count - 1) == 2.0 * y
  {
    assert (count - 1) as real * lineHeight == count as real * lineHeight - lineHeight;
  }

  /** The second loop of `wrapText`: line `i` is drawn at `x`, lines `lineHeight` apart,
      the block centred on `y`. */
  method PlaceLines(lines: seq<string>, x: real, y: real, lineHeight: real) returns (draws: seq<Draw>)
    ensures |draws| == |lines|
    ensures forall i :: 0 <= i < |draws| ==> draws[i].text == lines[i] && draws[i].x == x
    ensures forall i :: 0 <= i < |draws| ==> draws[i].baseline == Baseline(y, lineHeight, |lines|, i)
    ensures forall i :: 1 <= i < |draws| ==> draws[i].baseline - draws[i - 1].baseline == lineHeight
    ensures |draws| >= 1 ==> draws[0].baseline + draws[|draws| - 1].baseline == 2.0 * y
  {
    var totalHeight := |lines| as real * lineHeight;
    var startY := y - totalHeight / 2.0 + lineHeight / 2.0;
    draws := [];
    for i := 0 to |lines|
      invariant |draws| == i
      invariant forall k :: 0 <= k < i ==> draws[k] == Draw(lines[k], x, Baseline(y, lineHeight, |lines|, k))
    {
      draws := draws + [Draw(lines[i], x, startY + i as real * lineHeight)];
    }
    forall i | 1 <= i < |draws|
      ensures draws[i].baseline - draws[i - 1].baseline == lineHeight
    {
      BaselineStep(y, lineHeight, |lines|, i - 1);
    }
    if |draws| >= 1 {
      BaselineCentred(y, lineHeight, |lines|);
    }
  }

  /** `wrapText(ctx, text, x, y, maxWidth, lineHeight)`: the draws it issues, in order. */
  method WrapText(width: string -> real, text: string, x: real, y: real, maxWidth: real, lineHeight: real)
    returns (draws: seq<Draw>)
    ensures Texts(draws) == WrappedLines(width, maxWidth, text)
    ensures Concat(Texts(draws)) == text + " "
    ensures forall i :: 0 <= i < |draws| ==> draws[i].x == x
    ensures forall i :: 0 <= i < |draws| ==> draws[i].baseline == Baseline(y, lineHeight, |draws|, i)
    ensures forall i :: 1 <= i < |draws| ==> draws[i].baseline - draws[i - 1].baseline == lineHeight
    ensures |draws| >= 1 && draws[0].baseline + draws[|draws| - 1].baseline == 2.0 * y
  {
    var lines, groups := BreakLines(width, text, maxWidth);
    draws := PlaceLines(lines, x, y, lineHeight);
    assert Texts(draws) == lines;
  }

  // ---------------------------------------------------------------------------
  // The label of a wheel segment

  const OuterRadius: real := 200.0
  const InnerRadius: real := 50.0
  /** Room for a label along the segment's radius. */
  const MaxTextWidth: real := OuterRadius - InnerRadius - 40.0
  /** The label is centred half way between the hub and the rim. */
  const LabelRadius: real := (OuterRadius + InnerRadius) / 2.0
  const LineHeight: real := 24.0

  /** A segment's label, drawn in the segment's rotated frame: centred at radius 125 on the
      bisector, wrapped at 110, lines 24 apart and centred on the bisector. */
  method DrawLabel(width: string -> real, labelText: string) returns (draws: seq<Draw>)
    ensures Texts(draws) == WrappedLines(width, 110.0, labelText)
    ensures forall i :: 0 <= i < |draws| ==> draws[i].x == 125.0
    ensures forall i :: 0 <= i < |draws| ==> draws[i].baseline == 24.0 * i as real - 12.0 * (|draws| - 1) as real
  {
    draws := WrapText(width, labelText, LabelRadius, 0.0, MaxTextWidth, LineHeight);
  }
}
