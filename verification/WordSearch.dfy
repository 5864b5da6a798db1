/** Whole-word keyword search (`contains_word`, src/backend/router.rs). */
module WordSearch {
  import opened Wrappers
  import opened Search

  predicate IsAsciiAlnum(c: char) {
    '0' <= c <= '9' || 'A' <= c <= 'Z' || 'a' <= c <= 'z'
  }

  /** An occurrence bounded on both sides by the end of the text or a character that is no ASCII letter or digit. */
  predicate WholeWordAt(text: string, word: string, i: int) {
    && OccursAt(text, word, i)
    && (i == 0 || !IsAsciiAlnum(text[i - 1]))
    && (i + |word| == |text| || !IsAsciiAlnum(text[i + |word|]))
  }

  ghost predicate HasWholeWord(text: string, word: string) {
    word != "" && exists i :: WholeWordAt(text, word, i)
  }

  /** The search from `start` on: each failed match is skipped by the whole length of the word. */
  predicate SearchFrom(text: string, word: string, start: nat)
    requires word != ""
    decreases |text| - start
  {
    match FindFrom(text, word, start)
    case None => false
    case Some(i) => WholeWordAt(text, word, i) || SearchFrom(text, word, i + |word|)
  }

  predicate ContainsWord(text: string, word: string) {
    word != "" && SearchFrom(text, word, 0)
  }

  method ContainsWordLoop(text: string, word: string) returns (found: bool)
    ensures found == ContainsWord(text, word)
  {
    hide OccursAt, IsAsciiAlnum;
    if word == "" || |text| < |word| {
      return false;
    }
    var start := 0;
    while start + |word| <= |text|
      invariant SearchFrom(text, word, 0) == SearchFrom(text, word, start)
    {
      var m := FindFrom(text, word, start);
      if m.None? {
        break;
      }
      var pos := m.value;
      var beforeOk := pos == 0 || !IsAsciiAlnum(text[pos - 1]);
      var after := pos + |word|;
      var afterOk := after >= |text| || !IsAsciiAlnum(text[after]);
      if beforeOk && afterOk {
        return true;
      }
      start := pos + |word|;
    }
    return false;
  }

  lemma {:induction false} SearchIsSound(text: string, word: string, start: nat)
    requires word != "" && SearchFrom(text, word, start)
    ensures HasWholeWord(text, word)
    decreases |text| - start
  {
    var i := FindFrom(text, word, start).value;
    if !WholeWordAt(text, word, i) {
      SearchIsSound(text, word, i + |word|);
    }
  }

  // ---------------------------------------------------------------------------
  // When skipping loses nothing
  // ---------------------------------------------------------------------------

  /** The word overlaps itself when shifted by `d`. */
  predicate Overlaps(word: string, d: nat) {
    0 < d < |word| && word[d..] == word[..|word| - d]
  }

  /** Wherever the word can overlap itself, a letter or digit stands just before the overlapping occurrence. */
  ghost predicate Skippable(word: string) {
    forall d | Overlaps(word, d) :: IsAsciiAlnum(word[d - 1])
  }

  lemma OverlapOf(text: string, word: string, i: int, j: int)
    requires OccursAt(text, word, i) && OccursAt(text, word, j) && i < j < i + |word|
    ensures Overlaps(word, j - i) && text[j - 1] == word[j - i - 1]
  {
    var d := j - i;
    var w := text[i..i + |word|];
    forall k | 0 <= k < |word| - d ensures word[d..][k] == word[..|word| - d][k] {
      assert text[i..i + |word|][d + k] == text[j..j + |word|][k];
    }
    assert w[d - 1] == text[j - 1];
  }

  lemma {:induction false} SearchIsComplete(text: string, word: string, start: nat, j: int)
    requires word != "" && Skippable(word) && WholeWordAt(text, word, j) && start <= j
    ensures SearchFrom(text, word, start)
    decreases |text| - start
  {
    var i := FindFrom(text, word, start).value;
    if !WholeWordAt(text, word, i) {
      if j < i + |word| {
        OverlapOf(text, word, i, j);
      } else {
        SearchIsComplete(text, word, i + |word|, j);
      }
    }
  }

  /** Text in which the only whole word overlaps an earlier, rejected occurrence. */
  function Trap(word: string, d: nat): string
    requires Overlaps(word, d)
  {
    [if word[0] == 'x' then 'y' else 'x'] + word[..d] + word
  }

  lemma OverlapTwice(word: string, d: nat)
    requires Overlaps(word, d)
    ensures word[..d] + word == word + word[|word| - d..]
  {
    var n := |word|;
    var a, b, c := word[..d], word[..n - d], word[n - d..];
    assert word == b + c && word == a + b;
    assert a + (b + c) == (a + b) + c;
  }

  lemma TrapOccurrences(word: string, d: nat)
    requires Overlaps(word, d)
    ensures OccursAt(Trap(word, d), word, 1) && OccursAt(Trap(word, d), word, 1 + d)
    ensures |Trap(word, d)| == 1 + d + |word| && Trap(word, d)[d] == word[d - 1] && Trap(word, d)[0] != word[0]
    ensures IsAsciiAlnum(Trap(word, d)[0])
  {
    hide OccursAt;
    var x := [if word[0] == 'x' then 'y' else 'x'];
    var a, c := word[..d], word[|word| - d..];
    OverlapTwice(word, d);
    assert OccursAt(word, word, 0) by { Itself(word); }
    assert x + a + word == x + (a + word) && x + (word + c) == (x + word) + c;
    OccursInSuffix(x, word, word, 1);
    OccursInPrefix(x + word, c, word, 1);
    OccursInSuffix(x + a, word, word, 1 + d);
  }

  lemma Itself(word: string)
    ensures OccursAt(word, word, 0)
  {
    assert word[0..|word|] == word;
  }

  lemma TrapIsMissed(word: string, d: nat)
    requires Overlaps(word, d) && !IsAsciiAlnum(word[d - 1])
    ensures HasWholeWord(Trap(word, d), word) && !ContainsWord(Trap(word, d), word)
  {
    TrapOccurrences(word, d);
    hide Trap;
    var text := Trap(word, d);
    assert WholeWordAt(text, word, 1 + d);
    OccursChars(text, word, 0);
    assert !OccursAt(text, word, 0) by {
      assert text[0 + 0] != word[0];
    }
    assert FindFrom(text, word, 0) == Some(1);
    assert !WholeWordAt(text, word, 1);
    assert FindFrom(text, word, 1 + |word|).None?;
    assert !SearchFrom(text, word, 1 + |word|);
  }

  /** One such keyword and text. */
  lemma HyphenatedIsMissed()
    ensures HasWholeWord("xa-a-a", "a-a") && !ContainsWord("xa-a-a", "a-a")
  {
    var word := "a-a";
    assert word[2..] == "a" == word[..1] && word[1] == '-';
    assert Trap(word, 2) == "xa-a-a" by {
      assert word[..2] == "a-";
    }
    TrapIsMissed(word, 2);
  }

  /** Letters and digits join a word, blanks and punctuation end it: what stands around a keyword decides. */
  lemma WhatEndsAWord(before: string, c: char, word: string, d: char, after: string)
    requires word != ""
    ensures var text := before + [c] + word + [d] + after;
            var ends := {' ', '\t', '\n', '.', ',', ';', ':', '!', '?', '-', '_', '/', '(', ')', '"', '\''};
            && (c in ends && d in ends ==> WholeWordAt(text, word, |before| + 1))
            && ('a' <= c <= 'z' || 'A' <= c <= 'Z' || '0' <= c <= '9' || 'a' <= d <= 'z' || 'A' <= d <= 'Z' || '0' <= d <= '9' ==>
                  !WholeWordAt(text, word, |before| + 1))
            && ('\U{80}' <= c && '\U{80}' <= d ==> WholeWordAt(text, word, |before| + 1))
  {
    var text := before + [c] + word + [d] + after;
    var i := |before| + 1;
    assert text[i - 1] == c && text[i + |word|] == d && text[i..i + |word|] == word;
  }

  /** An accepted text does hold the keyword as a whole word. */
  lemma FoundIsThere(text: string, word: string)
    ensures ContainsWord(text, word) ==> HasWholeWord(text, word)
  {
    if ContainsWord(text, word) {
      SearchIsSound(text, word, 0);
    }
  }

  /**
   The keywords for which the search misses no text are exactly those that never overlap themselves behind a
   character other than an ASCII letter or digit.
   */
  lemma CompleteKeywords(word: string)
    ensures (forall text :: HasWholeWord(text, word) ==> ContainsWord(text, word)) <==> Skippable(word)
  {
    if Skippable(word) {
      forall text | HasWholeWord(text, word) ensures ContainsWord(text, word) {
        var j :| WholeWordAt(text, word, j);
        SearchIsComplete(text, word, 0, j);
      }
    } else {
      var d: nat :| Overlaps(word, d) && !IsAsciiAlnum(word[d - 1]);
      TrapIsMissed(word, d);
    }
  }

  /** For keywords of ASCII letters and digits the search is exact. */
  lemma ExactForPlainKeywords(text: string, word: string)
    requires forall i | 0 <= i < |word| :: IsAsciiAlnum(word[i])
    ensures ContainsWord(text, word) <==> HasWholeWord(text, word)
  {
    FoundIsThere(text, word);
    CompleteKeywords(word);
  }
}
