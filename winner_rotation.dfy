/** How `createWheel` reorders the segments before drawing them: the first segment
    marked as the winner is rotated to the front, where the pointer will show it.
    The reordering is written with JavaScript's `findIndex`, `slice` and `concat`,
    and the model keeps their exact semantics, negative indices included. */
module WinnerRotation {

  /** A wheel segment; the label's text is `labelText` (`label` is a Dafny keyword). */
  datatype Segment = Segment(labelText: string, winner: bool)

  /** `data.findIndex(item => item.winner)`: the index of the first winner, or -1. */
  function FindWinner(data: seq<Segment>): (k: int)
    ensures -1 <= k < |data|
    ensures 0 <= k ==> data[k].winner && forall j :: 0 <= j < k ==> !data[j].winner
    ensures k == -1 <==> forall j :: 0 <= j < |data| ==> !data[j].winner
  {
    if data == [] then -1
    else if data[0].winner then 0
    else
      var k := FindWinner(data[1..]);
      if k == -1 then -1 else k + 1
  }

  /** A `slice` bound as JavaScript resolves it against a length: a negative bound
      counts back from the end, and the result is clamped to `0 .. len`. */
  function RelativeIndex(bound: int, len: nat): (r: nat)
    ensures r <= len
  {
    if bound < 0 then (if len + bound < 0 then 0 else len + bound)
    else if bound < len then bound
    else len
  }

  /** `s.slice(start, end)`. */
  function Slice<T>(s: seq<T>, start: int, end: int): seq<T>
  {
    var from := RelativeIndex(start, |s|);
    var to := RelativeIndex(end, |s|);
    if from < to then s[from..to] else []
  }

  /** `data.slice(winnerIndex).concat(data.slice(0, winnerIndex))`. */
  function RotateToWinner(data: seq<Segment>): seq<Segment>
  {
    var k := FindWinner(data);
    Slice(data, k, |data|) + Slice(data, 0, k)
  }

  /** How far the segments are turned: to the first winner, or, when there is none,
      -1 read from the end, that is, the last segment. */
  function Turn(data: seq<Segment>): (t: nat)
    ensures |data| > 0 ==> t < |data|
  {
    var k := FindWinner(data);
    if k >= 0 then k else if |data| == 0 then 0 else |data| - 1
  }

  /** The reordering is a rotation by `Turn(data)`: the segments from there to the end,
      then the ones before it. */
  lemma {:induction false} RotationSplitsAtTurn(data: seq<Segment>)
    ensures RotateToWinner(data) == data[Turn(data)..] + data[..Turn(data)]
  {
    var k := FindWinner(data);
    var n := |data|;
    if k < 0 && n > 0 {
      assert RelativeIndex(k, n) == n - 1;
    }
  }

  /** Position by position, the reordering is a cyclic shift by `t = Turn(data)`: result
      position `i` holds input position `t + i`, wrapping round to `t + i - n` once the
      end is passed, so every segment keeps its neighbours. */
  lemma RotationIsCyclicShift(data: seq<Segment>)
    ensures |RotateToWinner(data)| == |data|
    ensures forall i :: 0 <= i < |data| - Turn(data) ==> RotateToWinner(data)[i] == data[Turn(data) + i]
    ensures forall i :: |data| - Turn(data) <= i < |data| ==>
                          RotateToWinner(data)[i] == data[Turn(data) + i - |data|]
  {
    RotationSplitsAtTurn(data);
    ShiftedAt(data, Turn(data), RotateToWinner(data));
  }

  /** Positions of `s` rotated left by `t`. */
  lemma ShiftedAt(s: seq<Segment>, t: nat, rotated: seq<Segment>)
    requires t <= |s| && rotated == s[t..] + s[..t]
    ensures |rotated| == |s|
    ensures forall i :: 0 <= i < |s| - t ==> rotated[i] == s[t + i]
    ensures forall i :: |s| - t <= i < |s| ==> rotated[i] == s[t + i - |s|]
  {
  }

  /** The same shift with the wrap written as a remainder: result position `i` holds
      input position `(Turn(data) + i) mod n`. */
  lemma RotatedIndex(data: seq<Segment>, i: nat)
    requires i < |data|
    ensures RotateToWinner(data)[i] == data[(Turn(data) + i) % |data|]
  {
    var t, n := Turn(data), |data|;
    var j := if t + i < n then t + i else t + i - n;
    RotationIsCyclicShift(data);
    assert RotateToWinner(data)[i] == data[j];
    WrapOnce(t + i, n);
  }

  /** A value below `2n` wraps round at most once. */
  lemma WrapOnce(a: nat, n: nat)
    requires 0 < n && a < 2 * n
    ensures a % n == if a < n then a else a - n
  {
  }

  /** The reordering neither loses nor duplicates a segment. */
  lemma RotationIsPermutation(data: seq<Segment>)
    ensures |RotateToWinner(data)| == |data|
    ensures multiset(RotateToWinner(data)) == multiset(data)
  {
    RotationSplitsAtTurn(data);
    ShiftedKeepsSegments(data, Turn(data), RotateToWinner(data));
  }

  lemma ShiftedKeepsSegments(s: seq<Segment>, t: nat, rotated: seq<Segment>)
    requires t <= |s| && rotated == s[t..] + s[..t]
    ensures |rotated| == |s| && multiset(rotated) == multiset(s)
  {
    assert s == s[..t] + s[t..];
  }

  /** With a winner at `k` (and none before it), `findIndex` finds it, the winner comes
      first, and the segments after it follow, then the ones before it. */
  lemma WinnerComesFirst(data: seq<Segment>, k: nat)
    requires k < |data| && data[k].winner
    requires forall j :: 0 <= j < k ==> !data[j].winner
    ensures FindWinner(data) == k
    ensures RotateToWinner(data)[0] == data[k] && RotateToWinner(data)[0].winner
    ensures RotateToWinner(data) == data[k..] + data[..k]
  {
    assert FindWinner(data) == k;
    assert Turn(data) == k;
    RotationSplitsAtTurn(data);
  }

  /** Without a winner, `findIndex` gives -1 and the slices move the last segment to
      the front; the segments are not left in place. */
  lemma NoWinnerMovesLastToFront(data: seq<Segment>)
    requires forall j :: 0 <= j < |data| ==> !data[j].winner
    ensures |data| == 0 ==> RotateToWinner(data) == []
    ensures |data| > 0 ==> RotateToWinner(data) == [data[|data| - 1]] + data[..|data| - 1]
  {
    RotationSplitsAtTurn(data);
  }

  /** Two segments and no winner: they come out swapped. */
  lemma NoWinnerSwapsTwo(a: Segment, b: Segment)
    requires !a.winner && !b.winner && a != b
    ensures RotateToWinner([a, b]) == [b, a] && RotateToWinner([a, b]) != [a, b]
  {
    NoWinnerMovesLastToFront([a, b]);
  }

  /** A winner that is already first leaves the order unchanged. */
  lemma WinnerFirstKeepsOrder(data: seq<Segment>)
    requires |data| >= 1 && data[0].winner
    ensures RotateToWinner(data) == data
  {
    RotationSplitsAtTurn(data);
  }
}
