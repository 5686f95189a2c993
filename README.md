# Spin-wheel renderer: label wrapping and winner rotation

`wheel.js` renders a prize wheel on a canvas. Nearly all of it is drawing. Two parts
are logic that can be stated and proved, and this project models both of them.

- **Label wrapping** (`wrapText`, module `TextWrap` in `text_wrap.dfy`).
  - A segment label is split on single spaces (module `Words` in `words.dfy` models
    `split(' ')` and `join(' ')`).
  - The words fill lines greedily. A word joins the current line while
    `line + word + ' '` measures at most `maxWidth`. The first word never breaks a line.
  - The lines are then drawn at `x`, `lineHeight` apart, with the block centred
    vertically on `y`.
  - The wrapping loop is the method `BreakLines`, and the drawing loop is the method
    `PlaceLines`. Both are proved against specification functions:
    - `Greedy` is a line-by-line reference definition of the greedy wrap;
    - `IsGreedyWrap` is a declarative description of any greedy wrap;
    - `Baseline` is the position formula.
  - `GreedyIsGreedyWrap` and `GreedyWrapUnique` show that `Greedy` is the one and only
    wrap meeting `IsGreedyWrap`. The wrapping properties are then proved about `Greedy`.
  - `DrawLabel` fixes the arguments a wheel segment passes: width 200 − 50 − 40 = 110,
    x = (200 + 50) / 2 = 125, y = 0 and line height 24.
- **Winner rotation** (`createWheel`, module `WinnerRotation` in `winner_rotation.dfy`).
  - `findIndex` gives the first segment whose `winner` flag is set, or −1.
  - The segments are reordered by `slice(k).concat(slice(0, k))`. `Slice` follows
    JavaScript's rules: a negative bound counts back from the end, and bounds are clamped.
  - `RotateToWinner` is that expression, built from `FindWinner` and `Slice`.
  - With no winner, k is −1, so the expression moves the last segment to the front.
    For two or more segments this is a real rotation, not a no-op, although a caller
    might expect the order to be left alone (`NoWinnerMovesLastToFront`,
    `NoWinnerSwapsTwo`).

Modelling choices:
- The canvas's `measureText(s).width` is the parameter `width: string -> real`. Nothing
  is assumed about it: it need not be monotone or additive.
- `fillText(text, x, y)` is a `Draw` record. `WrapText` returns the records in the
  order the calls are made.
- JavaScript numbers are modelled as exact reals.
- An empty label splits into one empty word. It therefore draws one line holding a
  single space, `" "`. The model keeps that line rather than treating it as "no line".

## Model

| member | source | states |
|---|---|---|
| Words.Split | wheel.js:185 | `text.split(' ')` yields at least one word and no word contains a space |
| Words.JoinSplit | wheel.js:185 | joining the split words with single spaces gives back the label exactly |
| Words.SplitCount | wheel.js:185 | the number of words is the number of spaces in the label plus one |
| Words.SplitJoin | wheel.js:185 | splitting undoes joining for any non-empty list of space-free words |
| TextWrap.LineEnd | wheel.js:189-199 | a line started at a word runs up to the first later word whose addition measures over `maxWidth`, or to the last word; no word before that end overflows |
| TextWrap.Greedy | wheel.js:189-201 | the reference wrap's lines are non-empty and together hold exactly the words in order |
| TextWrap.BreakLines | wheel.js:184-201 | the first loop produces a greedy wrap of the split words; it equals the reference wrap; there are between 1 and (number of words) lines; and the lines concatenated are the label plus one trailing space |
| TextWrap.StartLine | wheel.js:194-196 | when a word after the first overflows, committing the open line and opening one with that word keeps the loop invariant |
| TextWrap.ExtendLine | wheel.js:197-198 | when a word fits, or is the first word, appending it and a space to the open line keeps the loop invariant |
| TextWrap.CloseLastLine | wheel.js:201 | pushing the open line after the loop completes the wrap of all words, equal to the reference wrap |
| TextWrap.GreedyIsGreedyWrap | wheel.js:189-201 | the reference wrap keeps every word in order; each word after a line's first fits on it; each new line starts because its first word overflowed the line before |
| TextWrap.GreedyWrapUnique | wheel.js:189-201 | any wrap with those properties is the reference wrap, so the loop's result is determined by the words, `width` and `maxWidth` |
| TextWrap.WrappedLineCount | wheel.js:189-201 | a label always gives at least one line and never more lines than words |
| TextWrap.WrappedLinesEndInSpace | wheel.js:190-201 | every line is non-empty and ends in a space |
| TextWrap.WrappedLinesKeepText | wheel.js:185-201 | the lines one after the other are the label plus a trailing space: no word dropped, repeated or reordered |
| TextWrap.WrappedLinesFit | wheel.js:190-198 | every line of two or more words measures at most `maxWidth`; only a one-word line can be wider |
| TextWrap.WrappedLinesBreakOnOverflow | wheel.js:194-196 | every line after the first starts because the previous line plus its first word and a space measured more than `maxWidth` |
| TextWrap.BaselineStep | wheel.js:203-207 | consecutive baselines are exactly `lineHeight` apart |
| TextWrap.BaselineCentred | wheel.js:203-207 | the first and last baselines add up to `2y`, so the block is centred on `y` |
| TextWrap.PlaceLines | wheel.js:203-208 | one draw per line, in order, at `x`, line `i` at `y - L*h/2 + h/2 + i*h`; consecutive baselines `h` apart; first plus last is `2y` |
| TextWrap.WrapText | wheel.js:184-209 | the texts drawn are the greedy lines, which spell out the label plus a space; every draw is at `x`; baselines follow the formula, are `lineHeight` apart and are centred on `y`; there is at least one draw |
| TextWrap.DrawLabel | wheel.js:76-78 | a segment label is wrapped at width 110 and drawn at x = 125, with line `i` of `L` at baseline `24i - 12(L-1)` |
| WinnerRotation.FindWinner | wheel.js:110 | `findIndex` gives the first winner's index, with no winner before it, or −1 exactly when no segment is a winner |
| WinnerRotation.RotationSplitsAtTurn | wheel.js:110-112 | the reordering `RotateToWinner` is the segments from the first winner (or, with none, from the last segment) to the end, followed by those before it |
| WinnerRotation.RotationIsCyclicShift | wheel.js:110-112 | result position `i` holds input position `t + i`, wrapping round to `t + i - n` past the end |
| WinnerRotation.RotatedIndex | wheel.js:110-112 | result position `i` holds input position `(t + i) mod n` |
| WinnerRotation.RotationIsPermutation | wheel.js:112 | the reordering keeps the length and the multiset of segments |
| WinnerRotation.WinnerComesFirst | wheel.js:110-112 | with the first winner at `k`, `findIndex` returns `k`, the winner is placed first, and the result is `data[k..] + data[..k]` |
| WinnerRotation.NoWinnerMovesLastToFront | wheel.js:110-112 | without a winner, an empty list stays empty and otherwise the last segment moves to the front, the rest following in order |
| WinnerRotation.NoWinnerSwapsTwo | wheel.js:110-112 | two distinct segments with no winner come out swapped, so the no-winner case is not the identity |
| WinnerRotation.WinnerFirstKeepsOrder | wheel.js:110-112 | a winner already at index 0 leaves the order unchanged |

## Left out

- Font registration (wheel.js:4-9) is left out: it is a process-wide side effect in a foreign library.
- Avatar image loading with its fallback (wheel.js:11-18, 152, 174) is left out: it is asynchronous I/O with logging.
- All canvas drawing is left out, because it is foreign calls with no checkable logic (wheel.js:21-36, 46-67, 83-106, 115-181). This covers arcs, fills, strokes, gradients, shadows, save/restore, clipping, `drawImage` and PNG encoding. The only exception is the label's `fillText` calls, which are the `Draw` records.
- Segment angle geometry (`angleStep`, `startAngle`, `Math.cos`/`Math.sin`; wheel.js:39-50, 71, 125-126) is left out: it is floating-point trigonometry. It also divides by zero when there are no segments.
- The `returnCanvas` switch between a canvas and a PNG buffer (wheel.js:104-106) is left out: it is plain branching over opaque canvas objects.
- The per-segment loop of `createSpinWheel` is left out, apart from the label call it makes for each segment (wheel.js:76-78). The call hands `createSpinWheel` the rotated list from `createWheel`; that hand-off is not modelled beyond the rotation itself.
- TextWrap.WrapText: widths and coordinates are exact reals. Floating-point rounding of JavaScript numbers is not modelled, so in particular the baseline formula is stated exactly.
- TextWrap.BreakLines: `measureText` is an arbitrary function of the line's text. The font and canvas state it really depends on are not modelled.
- WinnerRotation.FindWinner: the source tests `item.winner` for truthiness; the model's `winner` is a `bool`, so non-boolean values such as `1`, `"yes"` or `undefined` are taken as already reduced to true or false.
