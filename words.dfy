/** Strings as JavaScript's `String.prototype.split(' ')` and `Array.prototype.join(' ')`
    see them, and the concatenations the label wrapper builds out of words. */
module Words {

  /** No word contains a space. */
  predicate SpaceFree(words: seq<string>)
  {
    forall i :: 0 <= i < |words| ==> ' ' !in words[i]
  }

  /** `s.split(' ')`: cut at every single space; two adjacent spaces give an empty word,
      and a string without spaces (the empty string included) is one word. */
  function Split(s: string): (words: seq<string>)
    ensures |words| >= 1
    ensures SpaceFree(words)
  {
    if s == [] then [[]]
    else
      var rest := Split(s[1..]);
      if s[0] == ' ' then [[]] + rest
      else [[s[0]] + rest[0]] + rest[1..]
  }

  /** `words.join(' ')`: the words with one space between neighbours. */
  function Join(words: seq<string>): string
  {
    if |words| == 0 then ""
    else if |words| == 1 then words[0]
    else words[0] + " " + Join(words[1..])
  }

  /** Every word followed by one space: what the wrapper's lines add up to. */
  function Spaced(words: seq<string>): string
  {
    if words == [] then "" else words[0] + " " + Spaced(words[1..])
  }

  /** The strings one after the other. */
  function Concat(parts: seq<string>): string
  {
    if parts == [] then "" else parts[0] + Concat(parts[1..])
  }

  /** The groups one after the other. */
  function Flatten(groups: seq<seq<string>>): seq<string>
  {
    if groups == [] then [] else groups[0] + Flatten(groups[1..])
  }

  /** Taking one more element of a sequence appends it. */
  lemma TakeOneMore<T>(s: seq<T>, n: nat)
    requires n < |s|
    ensures s[..n + 1] == s[..n] + [s[n]]
  {
  }

  lemma AppendAssociates<T>(a: seq<T>, b: seq<T>, c: seq<T>)
    ensures a + (b + c) == (a + b) + c
  {
  }

  /** Joining the pieces of a split gives back the original text. */
  lemma {:induction false} JoinSplit(s: string)
    ensures Join(Split(s)) == s
  {
    if s != [] {
      var rest := Split(s[1..]);
      JoinSplit(s[1..]);
      if s[0] == ' ' {
        assert ([[]] + rest)[1..] == rest;
      } else {
        var words := [[s[0]] + rest[0]] + rest[1..];
        assert words[1..] == rest[1..];
        if |rest| > 1 {
          assert Join(rest) == rest[0] + " " + Join(rest[1..]);
        }
        assert Join(words) == [s[0]] + Join(rest);
        assert s == [s[0]] + s[1..];
      }
    }
  }

  /** There is one word more than there are spaces. */
  lemma {:induction false} SplitCount(s: string)
    ensures |Split(s)| == multiset(s)[' '] + 1
  {
    if s != [] {
      SplitCount(s[1..]);
      assert s == [s[0]] + s[1..];
      assert multiset(s) == multiset([s[0]]) + multiset(s[1..]);
    }
  }

  /** A word without spaces splits into itself. */
  lemma {:induction false} SplitWord(w: string)
    requires ' ' !in w
    ensures Split(w) == [w]
  {
    if w != [] {
      SplitWord(w[1..]);
      assert [w[0]] + w[1..] == w;
    }
  }

  /** A leading space-free word followed by a space is split off on its own. */
  lemma {:induction false} SplitFirstWord(w: string, t: string)
    requires ' ' !in w
    ensures Split(w + " " + t) == [w] + Split(t)
  {
    var s := w + " " + t;
    if w == [] {
      assert s[1..] == t;
    } else {
      assert s[1..] == w[1..] + " " + t;
      SplitFirstWord(w[1..], t);
      assert [w[0]] + w[1..] == w;
    }
  }

  /** Splitting undoes joining, for a non-empty list of space-free words. */
  lemma {:induction false} SplitJoin(words: seq<string>)
    requires |words| >= 1 && SpaceFree(words)
    ensures Split(Join(words)) == words
  {
    if |words| == 1 {
      SplitWord(words[0]);
    } else {
      SplitJoin(words[1..]);
      SplitFirstWord(words[0], Join(words[1..]));
      assert [words[0]] + words[1..] == words;
    }
  }

  /** Words followed by a space each make the joined text plus one trailing space. */
  lemma {:induction false} SpacedJoin(words: seq<string>)
    requires |words| >= 1
    ensures Spaced(words) == Join(words) + " "
  {
    if |words| > 1 {
      SpacedJoin(words[1..]);
    }
  }

  lemma {:induction false} SpacedAppend(a: seq<string>, b: seq<string>)
    ensures Spaced(a + b) == Spaced(a) + Spaced(b)
  {
    if a != [] {
      assert (a + b)[1..] == a[1..] + b;
      SpacedAppend(a[1..], b);
    } else {
      assert a + b == b;
    }
  }

  lemma {:induction false} FlattenAppend(a: seq<seq<string>>, b: seq<seq<string>>)
    ensures Flatten(a + b) == Flatten(a) + Flatten(b)
  {
    if a != [] {
      assert (a + b)[1..] == a[1..] + b;
      FlattenAppend(a[1..], b);
    } else {
      assert a + b == b;
    }
  }

  /** Lines made of the groups' words, each followed by a space, spell out all words in order. */
  lemma {:induction false} ConcatSpacedGroups(lines: seq<string>, groups: seq<seq<string>>)
    requires |lines| == |groups|
    requires forall i :: 0 <= i < |lines| ==> lines[i] == Spaced(groups[i])
    ensures Concat(lines) == Spaced(Flatten(groups))
  {
    if groups != [] {
      ConcatSpacedGroups(lines[1..], groups[1..]);
      SpacedAppend(groups[0], Flatten(groups[1..]));
    }
  }

  /** Non-empty groups are at most as many as their words, and none at all only when there are no words. */
  lemma {:induction false} FlattenLength(groups: seq<seq<string>>)
    requires forall i :: 0 <= i < |groups| ==> |groups[i]| >= 1
    ensures |groups| <= |Flatten(groups)|
    ensures Flatten(groups) == [] <==> groups == []
  {
    if groups != [] {
      FlattenLength(groups[1..]);
    }
  }
}
