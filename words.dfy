/**
 * get_word_count of the markdown helper crate: the number of items produced by
 * Rust's str::split_whitespace, i.e. the maximal runs of non-whitespace characters.
 */
module Words {

  /** Unicode White_Space, the property split_whitespace splits on. */
  predicate IsWhitespace(c: char)
  {
    var n := c as int;
    (0x09 <= n <= 0x0D) || n == 0x20 || n == 0x85 || n == 0xA0 || n == 0x1680 ||
    (0x2000 <= n <= 0x200A) || n == 0x2028 || n == 0x2029 || n == 0x202F ||
    n == 0x205F || n == 0x3000
  }

  /** Every character of s is whitespace (vacuously so for the empty string). */
  predicate Blank(s: string)
  {
    forall i :: 0 <= i < |s| ==> IsWhitespace(s[i])
  }

  /** A word as split_whitespace yields it: non-empty and free of whitespace. */
  predicate IsWord(w: string)
  {
    |w| > 0 && forall i :: 0 <= i < |w| ==> !IsWhitespace(w[i])
  }

  /** Length of the run of non-whitespace characters at the front of s; the run is maximal. */
  function WordLength(s: string): (n: nat)
    ensures n <= |s|
    ensures forall i :: 0 <= i < n ==> !IsWhitespace(s[i])
    ensures n < |s| ==> IsWhitespace(s[n])
  {
    if s == [] || IsWhitespace(s[0]) then 0 else 1 + WordLength(s[1..])
  }

  /** str::split_whitespace: the words of s, left to right. */
  function SplitWhitespace(s: string): (words: seq<string>)
    ensures forall k :: 0 <= k < |words| ==> IsWord(words[k])
    decreases |s|
  {
    if s == [] then []
    else if IsWhitespace(s[0]) then SplitWhitespace(s[1..])
    else
      var n := WordLength(s);
      [s[..n]] + SplitWhitespace(s[n..])
  }

  /** get_word_count (lib.rs): split_whitespace().count(). */
  function WordCount(s: string): (count: nat)
    ensures count == 0 <==> Blank(s)
    ensures 2 * count <= |s| + 1
  {
    NoWordsIffBlank(s);
    WordsBound(s);
    |SplitWhitespace(s)|
  }

  /**
   * Reference definition of "number of maximal non-whitespace runs": the number of
   * positions holding a non-whitespace character that starts the text or follows
   * whitespace. `afterSpace` says whether the previous character was whitespace
   * (or there was none).
   */
  function RunStarts(s: string, afterSpace: bool): nat
  {
    if s == [] then 0
    else (if afterSpace && !IsWhitespace(s[0]) then 1 else 0) + RunStarts(s[1..], IsWhitespace(s[0]))
  }

  function RunCount(s: string): nat
  {
    RunStarts(s, true)
  }

  /** The characters of s that are not whitespace, in order. */
  function NonBlank(s: string): (r: string)
  {
    if s == [] then []
    else (if IsWhitespace(s[0]) then [] else [s[0]]) + NonBlank(s[1..])
  }

  function Concat(words: seq<string>): string
  {
    if words == [] then [] else words[0] + Concat(words[1..])
  }

  // ---------------------------------------------------------------------------
  // Properties
  // ---------------------------------------------------------------------------

  /** The two cases the crate's own test fixes: "" has no words, "Hello world" has two. */
  lemma WordCountExamples()
    ensures WordCount("") == 0
    ensures WordCount("Hello world") == 2
  {
    var hello, space, world := "Hello", " ", "world";
    assert IsWhitespace(space[0]);
    assert IsWord(hello) by {
      forall i | 0 <= i < 5 ensures !IsWhitespace(hello[i]) {
        assert hello[i] in {'H', 'e', 'l', 'o'};
      }
    }
    assert IsWord(world) by {
      forall i | 0 <= i < 5 ensures !IsWhitespace(world[i]) {
        assert world[i] in {'w', 'o', 'r', 'l', 'd'};
      }
    }
    SeparatedWords(hello, space, world);
    SingleWord(hello);
    SingleWord(world);
    assert hello + space + world == "Hello world";
  }

  /** A word on its own splits into itself. */
  lemma SingleWord(w: string)
    requires IsWord(w)
    ensures SplitWhitespace(w) == [w]
  {
    assert WordLength(w) == |w|;
    assert w[..|w|] == w && w[|w|..] == [];
  }

  /** A text has no words exactly when all of it is whitespace. */
  lemma {:induction false} NoWordsIffBlank(s: string)
    ensures SplitWhitespace(s) == [] <==> Blank(s)
    decreases |s|
  {
    if s != [] {
      if IsWhitespace(s[0]) {
        NoWordsIffBlank(s[1..]);
        assert Blank(s) <==> Blank(s[1..]) by {
          if Blank(s[1..]) {
            forall i | 0 <= i < |s| ensures IsWhitespace(s[i]) {
              if i > 0 { assert s[i] == s[1..][i - 1]; }
            }
          }
        }
      } else {
        assert !Blank(s);
      }
    }
  }

  /** The word count agrees with the reference count of maximal non-whitespace runs. */
  lemma {:induction false} WordCountIsRunCount(s: string)
    ensures WordCount(s) == RunCount(s)
    decreases |s|
  {
    if s != [] {
      if IsWhitespace(s[0]) {
        WordCountIsRunCount(s[1..]);
      } else {
        var n := WordLength(s);
        SkipWord(s[1..], n - 1);
        assert s[1..][n - 1..] == s[n..];
        WordCountIsRunCount(s[n..]);
      }
    }
  }

  /** Inside a word, RunStarts counts nothing until the word ends. */
  lemma {:induction false} SkipWord(t: string, k: nat)
    requires k <= |t|
    requires forall i :: 0 <= i < k ==> !IsWhitespace(t[i])
    requires k < |t| ==> IsWhitespace(t[k])
    ensures RunStarts(t, false) == RunStarts(t[k..], true)
    decreases k
  {
    if k > 0 {
      SkipWord(t[1..], k - 1);
      assert t[1..][k - 1..] == t[k..];
    }
  }

  /** Leading whitespace does not change the words. */
  lemma {:induction false} LeadingBlankIgnored(w: string, s: string)
    requires Blank(w)
    ensures SplitWhitespace(w + s) == SplitWhitespace(s)
    decreases |w|
  {
    if w != [] {
      assert (w + s)[0] == w[0] && IsWhitespace(w[0]);
      assert (w + s)[1..] == w[1..] + s;
      assert Blank(w[1..]) by {
        forall i | 0 <= i < |w[1..]| ensures IsWhitespace(w[1..][i]) {
          assert w[1..][i] == w[i + 1];
        }
      }
      LeadingBlankIgnored(w[1..], s);
      assert SplitWhitespace(w + s) == SplitWhitespace((w + s)[1..]);
    } else {
      assert w + s == s;
    }
  }

  /** Two texts joined by a non-empty run of whitespace have the words of both, in order. */
  lemma {:induction false} SeparatedWords(a: string, w: string, b: string)
    requires |w| > 0 && Blank(w)
    ensures SplitWhitespace(a + w + b) == SplitWhitespace(a) + SplitWhitespace(b)
    decreases |a|
  {
    var s := a + w + b;
    if a == [] {
      assert s == w + b;
      LeadingBlankIgnored(w, b);
    } else if IsWhitespace(a[0]) {
      assert s[0] == a[0];
      assert s[1..] == a[1..] + w + b;
      SeparatedWords(a[1..], w, b);
    } else {
      var n := WordLength(a);
      WordLengthThroughBlank(a, w + b);
      assert s == a + (w + b);
      assert s[..n] == a[..n];
      assert s[n..] == a[n..] + w + b;
      SeparatedWords(a[n..], w, b);
    }
  }

  /** The first word of a text does not extend past a whitespace character that follows it. */
  lemma {:induction false} WordLengthThroughBlank(a: string, t: string)
    requires |t| > 0 && IsWhitespace(t[0])
    ensures WordLength(a + t) == WordLength(a)
    decreases |a|
  {
    if a != [] {
      assert (a + t)[0] == a[0];
      assert (a + t)[1..] == a[1..] + t;
      WordLengthThroughBlank(a[1..], t);
    }
  }

  /** Trailing whitespace does not change the words. */
  lemma TrailingBlankIgnored(s: string, w: string)
    requires Blank(w)
    ensures SplitWhitespace(s + w) == SplitWhitespace(s)
  {
    if w != [] {
      SeparatedWords(s, w, []);
      assert s + w + [] == s + w;
    } else {
      assert s + w == s;
    }
  }

  /** Counting form of SeparatedWords: count(a + ws + b) = count(a) + count(b). */
  lemma WordCountAdditive(a: string, w: string, b: string)
    requires |w| > 0 && Blank(w)
    ensures WordCount(a + w + b) == WordCount(a) + WordCount(b)
  {
    SeparatedWords(a, w, b);
  }

  /** The words, concatenated, are exactly the non-whitespace characters of the text. */
  lemma {:induction false} WordsCoverText(s: string)
    ensures Concat(SplitWhitespace(s)) == NonBlank(s)
    decreases |s|
  {
    if s != [] {
      if IsWhitespace(s[0]) {
        WordsCoverText(s[1..]);
      } else {
        var n := WordLength(s);
        WordsCoverText(s[n..]);
        NonBlankAppend(s[..n], s[n..]);
        assert s[..n] + s[n..] == s;
        NonBlankOfWord(s[..n]);
        var ws := [s[..n]] + SplitWhitespace(s[n..]);
        assert ws[0] == s[..n] && ws[1..] == SplitWhitespace(s[n..]);
      }
    }
  }

  lemma {:induction false} NonBlankAppend(a: string, b: string)
    ensures NonBlank(a + b) == NonBlank(a) + NonBlank(b)
    decreases |a|
  {
    if a != [] {
      assert (a + b)[0] == a[0];
      assert (a + b)[1..] == a[1..] + b;
      NonBlankAppend(a[1..], b);
    } else {
      assert a + b == b;
    }
  }

  lemma {:induction false} NonBlankOfWord(w: string)
    requires forall i :: 0 <= i < |w| ==> !IsWhitespace(w[i])
    ensures NonBlank(w) == w
    decreases |w|
  {
    if w != [] {
      NonBlankOfWord(w[1..]);
    }
  }

  /** Words need at least one character each and a separator between neighbours. */
  lemma {:induction false} WordsBound(s: string)
    ensures 2 * |SplitWhitespace(s)| <= |s| + 1
    decreases |s|
  {
    if s != [] {
      if IsWhitespace(s[0]) {
        WordsBound(s[1..]);
      } else {
        var n := WordLength(s);
        var rest := s[n..];
        assert |SplitWhitespace(s)| == 1 + |SplitWhitespace(rest)|;
        if rest != [] {
          WordsBound(rest[1..]);
          assert SplitWhitespace(rest) == SplitWhitespace(rest[1..]);
        }
      }
    }
  }
}
