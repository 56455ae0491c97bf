/**
 * Python's `str.split(' ')` with an explicit separator, as the handler applies
 * it to the `command` and `find` fields: every single space separates two
 * words, so consecutive spaces give empty words and the empty string gives
 * one empty word.
 */
module Words {

  /** `s.split(' ')`. */
  function Split(s: string): (words: seq<string>)
    ensures |words| >= 1
  {
    if s == [] then [""]
    else
      var rest := Split(s[1..]);
      if s[0] == ' ' then [""] + rest
      else [[s[0]] + rest[0]] + rest[1..]
  }

  /** `' '.join(words)`: the inverse of `Split`. */
  function Join(words: seq<string>): string
    requires |words| >= 1
  {
    if |words| == 1 then words[0] else words[0] + " " + Join(words[1..])
  }

  /** The number of spaces in `s`. */
  function Spaces(s: string): nat
  {
    if s == [] then 0 else (if s[0] == ' ' then 1 else 0) + Spaces(s[1..])
  }

  /** Joining the words of `s` with single spaces gives `s` back. */
  lemma {:induction false} JoinSplit(s: string)
    ensures Join(Split(s)) == s
  {
    if s != [] {
      var rest := Split(s[1..]);
      JoinSplit(s[1..]);
      if s[0] == ' ' {
        assert Split(s)[1..] == rest;
      } else if |rest| == 1 {
        assert Split(s) == [[s[0]] + rest[0]];
      } else {
        var words := Split(s);
        assert words[0] == [s[0]] + rest[0] && words[1..] == rest[1..];
        assert Join(rest) == rest[0] + " " + Join(rest[1..]);
      }
    }
  }

  /** No word contains the separator. */
  lemma {:induction false} WordsHaveNoSpace(s: string)
    ensures forall k :: 0 <= k < |Split(s)| ==> ' ' !in Split(s)[k]
  {
    if s != [] {
      WordsHaveNoSpace(s[1..]);
      var rest := Split(s[1..]);
      if s[0] != ' ' {
        assert ' ' !in rest[0];
        assert ' ' !in [s[0]] + rest[0];
      }
    }
  }

  /** There is one word more than there are spaces. */
  lemma {:induction false} SplitCount(s: string)
    ensures |Split(s)| == Spaces(s) + 1
  {
    if s != [] {
      SplitCount(s[1..]);
    }
  }

  /** `Spaces` counts exactly the space characters: none iff ' ' is absent. */
  lemma {:induction false} NoSpacesIffAbsent(s: string)
    ensures Spaces(s) == 0 <==> ' ' !in s
  {
    if s != [] {
      NoSpacesIffAbsent(s[1..]);
      assert s == [s[0]] + s[1..];
    }
  }

  /** A string splits into fewer than two words exactly when it has no space. */
  lemma {:induction false} SingleWordIffNoSpace(s: string)
    ensures |Split(s)| < 2 <==> ' ' !in s
  {
    SplitCount(s);
    NoSpacesIffAbsent(s);
  }
}
