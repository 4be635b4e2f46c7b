/**
 * The JavaScript string operations the memory service relies on, over ASCII:
 * `toLowerCase`, `includes` and `join`.
 */
module Text {

  /** `toLowerCase` on one character: only the ASCII letters A-Z are folded. */
  function LowerChar(c: char): char {
    if 'A' <= c <= 'Z' then (c as int - 'A' as int + 'a' as int) as char else c
  }

  /** `toLowerCase`: every character folded, length kept. */
  function ToLower(s: string): (r: string)
    ensures |r| == |s|
    ensures forall i :: 0 <= i < |s| ==> r[i] == LowerChar(s[i])
  {
    seq(|s|, i requires 0 <= i < |s| => LowerChar(s[i]))
  }

  lemma ToLowerAppend(a: string, b: string)
    ensures ToLower(a + b) == ToLower(a) + ToLower(b)
  {
    assert forall i :: 0 <= i < |a + b| ==> ToLower(a + b)[i] == (ToLower(a) + ToLower(b))[i];
  }

  /** `word` occurs in `text` starting at position `k`. */
  predicate OccursAt(text: string, word: string, k: int) {
    0 <= k && k + |word| <= |text| && text[k..k + |word|] == word
  }

  /** `text.includes(word)`: a search from the left, true as soon as `word` is found. */
  function Includes(text: string, word: string): (r: bool)
    decreases |text|
  {
    if |word| > |text| then false
    else if text[..|word|] == word then true
    else Includes(text[1..], word)
  }

  /** `Includes` finds `word` exactly when it occurs somewhere in `text`. */
  lemma {:induction false} IncludesIff(text: string, word: string)
    ensures Includes(text, word) <==> exists k :: OccursAt(text, word, k)
    decreases |text|
  {
    if |word| > |text| {
    } else if text[..|word|] == word {
      assert OccursAt(text, word, 0);
    } else {
      IncludesIff(text[1..], word);
      if k :| OccursAt(text, word, k) {
        assert k != 0;
        OccursShift(text, word, k);
      }
      if k :| OccursAt(text[1..], word, k) {
        OccursShift(text, word, k + 1);
      }
    }
  }

  lemma OccursShift(text: string, word: string, k: int)
    requires k > 0 && text != []
    ensures OccursAt(text, word, k) <==> OccursAt(text[1..], word, k - 1)
  {
    if k + |word| <= |text| {
      assert text[k..k + |word|] == text[1..][k - 1..k - 1 + |word|];
    }
  }

  lemma OccurrenceChar(text: string, word: string, k: int, i: int)
    requires OccursAt(text, word, k) && 0 <= i < |word|
    ensures word[i] == text[k + i]
  {
    assert word[i] == text[k..k + |word|][i];
  }

  /** A slice of `x + y` that lies wholly in `x` or wholly in `y`. */
  lemma SliceOfAppend(x: string, y: string, i: int, j: int)
    requires 0 <= i <= j <= |x| + |y|
    ensures j <= |x| ==> (x + y)[i..j] == x[i..j]
    ensures |x| <= i ==> (x + y)[i..j] == y[i - |x|..j - |x|]
  {
    if j <= |x| {
      assert forall n :: 0 <= n < j - i ==> (x + y)[i..j][n] == x[i..j][n];
    }
    if |x| <= i {
      assert forall n :: 0 <= n < j - i ==> (x + y)[i..j][n] == y[i - |x|..j - |x|][n];
    }
  }

  lemma IncludesItself(text: string)
    ensures Includes(text, text)
  {
    IncludesIff(text, text);
    assert OccursAt(text, text, 0);
  }

  /** An occurrence survives appending text on either side. */
  lemma {:induction false} IncludesExtend(x: string, t: string, y: string, word: string)
    requires Includes(t, word)
    ensures Includes(x + t + y, word)
  {
    IncludesIff(t, word);
    IncludesIff(x + t + y, word);
    var k :| OccursAt(t, word, k);
    SliceOfAppend(x, t + y, |x| + k, |x| + k + |word|);
    SliceOfAppend(t, y, k, k + |word|);
    assert x + t + y == x + (t + y);
    assert OccursAt(x + t + y, word, |x| + k);
  }

  /** An occurrence survives text prepended to it. */
  lemma IncludesAfter(x: string, t: string, word: string)
    requires Includes(t, word)
    ensures Includes(x + t, word)
  {
    IncludesExtend(x, t, [], word);
    assert x + t + [] == x + t;
  }

  /** An occurrence survives text appended to it. */
  lemma IncludesBefore(t: string, y: string, word: string)
    requires Includes(t, word)
    ensures Includes(t + y, word)
  {
    IncludesExtend([], t, y, word);
    assert [] + t + y == t + y;
  }

  /** An occurrence of a word without a space in `u + " " + a` lies wholly in `u` or wholly in `a`. */
  lemma OccurrenceSplits(u: string, a: string, word: string, k: int)
    requires ' ' !in word && OccursAt(u + " " + a, word, k)
    ensures OccursAt(u, word, k) || OccursAt(a, word, k - |u| - 1)
  {
    var c := u + " " + a;
    if k + |word| <= |u| {
      SliceOfAppend(u, " " + a, k, k + |word|);
      assert u + (" " + a) == c;
    } else if k > |u| {
      SliceOfAppend(u + " ", a, k, k + |word|);
    } else {
      OccurrenceChar(c, word, k, |u| - k);
      assert false;
    }
  }

  /**
   * In `u + " " + a`, a word without a space occurs exactly when it occurs in `u`
   * or in `a`: no occurrence can straddle the separator.
   */
  lemma IncludesAcrossSpace(u: string, a: string, word: string)
    requires ' ' !in word
    ensures Includes(u + " " + a, word) <==> Includes(u, word) || Includes(a, word)
  {
    var c := u + " " + a;
    IncludesIff(c, word);
    IncludesIff(u, word);
    IncludesIff(a, word);
    if Includes(c, word) {
      var k :| OccursAt(c, word, k);
      OccurrenceSplits(u, a, word, k);
    }
    if Includes(u, word) {
      IncludesBefore(u, " " + a, word);
      assert u + (" " + a) == c;
    }
    if Includes(a, word) {
      IncludesAfter(u + " ", a, word);
    }
  }

  /** `xs.join(sep)`. */
  function Join(xs: seq<string>, sep: string): (r: string)
    ensures xs == [] ==> r == ""
    ensures |xs| == 1 ==> r == xs[0]
  {
    if xs == [] then ""
    else if |xs| == 1 then xs[0]
    else xs[0] + sep + Join(xs[1..], sep)
  }

  /** Lower-casing words joined by spaces lower-cases each word. */
  lemma {:induction false} ToLowerJoin(ws: seq<string>, lws: seq<string>)
    requires |ws| == |lws| && forall i :: 0 <= i < |ws| ==> ToLower(ws[i]) == lws[i]
    ensures ToLower(Join(ws, " ")) == Join(lws, " ")
    decreases |ws|
  {
    if |ws| > 1 {
      ToLowerJoin(ws[1..], lws[1..]);
      ToLowerAppend(ws[0] + " ", Join(ws[1..], " "));
      ToLowerAppend(ws[0], " ");
      assert ToLower(" ") == " ";
    }
  }

  /** A word without a space occurs in space-separated words exactly when it occurs in one of them. */
  lemma {:induction false} IncludesInWords(ws: seq<string>, word: string)
    requires ' ' !in word && word != []
    ensures Includes(Join(ws, " "), word) <==> exists i :: 0 <= i < |ws| && Includes(ws[i], word)
    decreases |ws|
  {
    if |ws| > 1 {
      IncludesInWords(ws[1..], word);
      IncludesAcrossSpace(ws[0], Join(ws[1..], " "), word);
      assert forall i :: 1 <= i < |ws| ==> ws[i] == ws[1..][i - 1];
      if i :| 0 < i < |ws| && Includes(ws[i], word) {
        assert Includes(ws[1..][i - 1], word);
      }
    }
  }

  /** A word with a character the text lacks does not occur in it. */
  lemma AbsentChar(text: string, word: string, c: char)
    requires c in word && c !in text
    ensures !Includes(text, word)
  {
    IncludesIff(text, word);
  }
}
