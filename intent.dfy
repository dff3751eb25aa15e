/**
  The heuristic that flags a user message as a request to change the last
  image: the two case-insensitive regular expressions with word boundaries,
  `\b(make it|change|...|artistic)\b` and `\b(create|generate|...|picture of)\b`.
  Without the `u` flag a regular expression folds case only between ASCII
  letters and `\b`/`\w` are ASCII-only, so the ASCII model below is exact.
 */
module Intent {
  import opened Js

  /** `\w`: an ASCII letter, digit or underscore. */
  predicate IsWordChar(c: char) {
    'a' <= c <= 'z' || 'A' <= c <= 'Z' || '0' <= c <= '9' || c == '_'
  }

  /** `\b` at position `p`: exactly one of the characters on either side is a
      word character (outside the string counts as a non-word character). */
  predicate IsWordBoundary(s: string, p: nat)
    requires p <= |s|
  {
    (p > 0 && IsWordChar(s[p - 1])) != (p < |s| && IsWordChar(s[p]))
  }

  /** `\bword\b` matches at `p`, ignoring case (`word` is lower case). */
  predicate KeywordAt(s: string, p: nat, word: string)
    requires p <= |s|
  {
    && p + |word| <= |s|
    && IsWordBoundary(s, p)
    && IsWordBoundary(s, p + |word|)
    && ToLowerCase(s[p..p + |word|]) == word
  }

  /** The two regular expressions of the heuristic. */
  datatype Pattern = ModificationWords | FreshRequestWords

  /** One of the pattern's alternatives matches at `p`. */
  predicate PatternAt(pattern: Pattern, s: string, p: nat)
    requires p <= |s|
  {
    match pattern
    case ModificationWords =>
      || KeywordAt(s, p, "make it") || KeywordAt(s, p, "change") || KeywordAt(s, p, "modify")
      || KeywordAt(s, p, "more") || KeywordAt(s, p, "less") || KeywordAt(s, p, "add")
      || KeywordAt(s, p, "remove") || KeywordAt(s, p, "different") || KeywordAt(s, p, "style")
      || KeywordAt(s, p, "color") || KeywordAt(s, p, "bright") || KeywordAt(s, p, "dark")
      || KeywordAt(s, p, "realistic") || KeywordAt(s, p, "cartoon") || KeywordAt(s, p, "artistic")
    case FreshRequestWords =>
      || KeywordAt(s, p, "create") || KeywordAt(s, p, "generate") || KeywordAt(s, p, "draw")
      || KeywordAt(s, p, "make me") || KeywordAt(s, p, "show me") || KeywordAt(s, p, "image of")
      || KeywordAt(s, p, "picture of")
  }

  /** The regular-expression search from position `p` on. */
  function TestFrom(pattern: Pattern, s: string, p: nat): (b: bool)
    requires p <= |s|
    ensures b <==> exists q :: p <= q <= |s| && PatternAt(pattern, s, q)
    decreases |s| - p
  {
    PatternAt(pattern, s, p) || (p < |s| && TestFrom(pattern, s, p + 1))
  }

  /** `pattern.test(s)`: the pattern matches somewhere in `s`. */
  function Test(pattern: Pattern, s: string): (b: bool)
    ensures b <==> exists q :: 0 <= q <= |s| && PatternAt(pattern, s, q)
  {
    TestFrom(pattern, s, 0)
  }

  /** The message names a modification and names no fresh request. */
  function IsLikelyImageModification(message: string): (b: bool)
    ensures b <==> (exists q :: 0 <= q <= |message| && PatternAt(ModificationWords, message, q))
                   && !(exists q :: 0 <= q <= |message| && PatternAt(FreshRequestWords, message, q))
  {
    Test(ModificationWords, message) && !Test(FreshRequestWords, message)
  }

  // ---------------------------------------------------------------------------
  // Where no keyword can start

  /** No keyword starts between two word characters: there is no boundary. */
  lemma NoKeywordInsideWord(pattern: Pattern, s: string, p: nat)
    requires 0 < p < |s| && IsWordChar(s[p - 1]) && IsWordChar(s[p])
    ensures !PatternAt(pattern, s, p)
  {
  }

  /** A keyword that starts with a letter does not match at a non-word character. */
  lemma KeywordNeedsLetter(s: string, p: nat, word: string)
    requires p < |s| && !IsWordChar(s[p])
    requires word != [] && 'a' <= word[0] <= 'z'
    ensures !KeywordAt(s, p, word)
  {
    if p + |word| <= |s| {
      assert ToLowerCase(s[p..p + |word|])[0] == LowerChar(s[p]);
    }
  }

  /** Every keyword starts with a letter, so none starts at a non-word character. */
  lemma NoKeywordAtNonWordChar(pattern: Pattern, s: string, p: nat)
    requires p < |s| && !IsWordChar(s[p])
    ensures !PatternAt(pattern, s, p)
  {
    match pattern
    case ModificationWords =>
      KeywordNeedsLetter(s, p, "make it");
      KeywordNeedsLetter(s, p, "change");
      KeywordNeedsLetter(s, p, "modify");
      KeywordNeedsLetter(s, p, "more");
      KeywordNeedsLetter(s, p, "less");
      KeywordNeedsLetter(s, p, "add");
      KeywordNeedsLetter(s, p, "remove");
      KeywordNeedsLetter(s, p, "different");
      KeywordNeedsLetter(s, p, "style");
      KeywordNeedsLetter(s, p, "color");
      KeywordNeedsLetter(s, p, "bright");
      KeywordNeedsLetter(s, p, "dark");
      KeywordNeedsLetter(s, p, "realistic");
      KeywordNeedsLetter(s, p, "cartoon");
      KeywordNeedsLetter(s, p, "artistic");
    case FreshRequestWords =>
      KeywordNeedsLetter(s, p, "create");
      KeywordNeedsLetter(s, p, "generate");
      KeywordNeedsLetter(s, p, "draw");
      KeywordNeedsLetter(s, p, "make me");
      KeywordNeedsLetter(s, p, "show me");
      KeywordNeedsLetter(s, p, "image of");
      KeywordNeedsLetter(s, p, "picture of");
  }

  /** Every keyword is non-empty, so none starts at the end of the string. */
  lemma NoKeywordAtEnd(pattern: Pattern, s: string)
    ensures !PatternAt(pattern, s, |s|)
  {
  }

  /** No keyword matches where the lowered character differs from the keyword's. */
  lemma KeywordMismatch(s: string, p: nat, word: string, i: nat)
    requires p <= |s| && i < |word|
    requires p + |word| <= |s| ==> LowerChar(s[p + i]) != word[i]
    ensures !KeywordAt(s, p, word)
  {
    if p + |word| <= |s| {
      assert ToLowerCase(s[p..p + |word|])[i] == LowerChar(s[p + i]);
    }
  }

  /** A message that is a single word holds a keyword only if the whole word is one:
      inside a word there is no boundary. */
  lemma SingleWordMatchesOnlyAtStart(pattern: Pattern, s: string)
    requires forall i :: 0 <= i < |s| ==> IsWordChar(s[i])
    ensures Test(pattern, s) ==> PatternAt(pattern, s, 0)
  {
    forall q | 0 < q <= |s|
      ensures !PatternAt(pattern, s, q)
    {
      if q == |s| {
        NoKeywordAtEnd(pattern, s);
      } else {
        NoKeywordInsideWord(pattern, s, q);
      }
    }
  }

  // ---------------------------------------------------------------------------
  // Examples

  /** The message "make it more colorful", held in a variable so that the proofs
      below reason about its characters one position at a time. */
  predicate IsMakeItMoreColorful(s: string) {
    |s| == 21 && s[..8] == "make it " && s[8..] == "more colorful"
  }

  /** A message opening with "make it" does not open with a fresh-request keyword
      ("make me" differs in its sixth letter). */
  lemma MakeItIsNotFresh(s: string)
    requires |s| >= 7 && s[..7] == "make it"
    ensures !PatternAt(FreshRequestWords, s, 0)
  {
    assert s[0] == 'm' && s[5] == 'i';
    KeywordMismatch(s, 0, "create", 0);
    KeywordMismatch(s, 0, "generate", 0);
    KeywordMismatch(s, 0, "draw", 0);
    KeywordMismatch(s, 0, "make me", 5);
    KeywordMismatch(s, 0, "show me", 0);
    KeywordMismatch(s, 0, "image of", 0);
    KeywordMismatch(s, 0, "picture of", 0);
  }

  // The five chunks below split one example's proof by position. Their
  // asserts name the characters each chunk needs, which keeps every chunk's
  // proof small and stable.

  /** "make it more colorful" holds no fresh-request keyword from index 17 on. */
  lemma {:induction false} NoFreshWordFrom17(s: string)
    requires IsMakeItMoreColorful(s)
    ensures !TestFrom(FreshRequestWords, s, 17)
  {
    assert s[16] == 'o' && s[17] == 'r' && s[18] == 'f' && s[19] == 'u' && s[20] == 'l';
    NoKeywordAtEnd(FreshRequestWords, s);
    assert !TestFrom(FreshRequestWords, s, 21);
    NoKeywordInsideWord(FreshRequestWords, s, 20);
    assert !TestFrom(FreshRequestWords, s, 20);
    NoKeywordInsideWord(FreshRequestWords, s, 19);
    assert !TestFrom(FreshRequestWords, s, 19);
    NoKeywordInsideWord(FreshRequestWords, s, 18);
    assert !TestFrom(FreshRequestWords, s, 18);
    NoKeywordInsideWord(FreshRequestWords, s, 17);
    assert !TestFrom(FreshRequestWords, s, 17);
  }

  /** "make it more colorful" holds no fresh-request keyword from index 13 on. */
  lemma {:induction false} NoFreshWordFrom13(s: string)
    requires IsMakeItMoreColorful(s)
    requires !TestFrom(FreshRequestWords, s, 17)
    ensures !TestFrom(FreshRequestWords, s, 13)
  {
    assert s[13] == 'c' && s[14] == 'o' && s[15] == 'l' && s[16] == 'o';
    NoKeywordInsideWord(FreshRequestWords, s, 16);
    assert !TestFrom(FreshRequestWords, s, 16);
    NoKeywordInsideWord(FreshRequestWords, s, 15);
    assert !TestFrom(FreshRequestWords, s, 15);
    NoKeywordInsideWord(FreshRequestWords, s, 14);
    assert !TestFrom(FreshRequestWords, s, 14);
    KeywordMismatch(s, 13, "create", 1);
    KeywordMismatch(s, 13, "generate", 0);
    KeywordMismatch(s, 13, "draw", 0);
    KeywordMismatch(s, 13, "make me", 0);
    KeywordMismatch(s, 13, "show me", 0);
    KeywordMismatch(s, 13, "image of", 0);
    KeywordMismatch(s, 13, "picture of", 0);
    assert !TestFrom(FreshRequestWords, s, 13);
  }

  /** "make it more colorful" holds no fresh-request keyword from index 8 on. */
  lemma {:induction false} NoFreshWordFrom8(s: string)
    requires IsMakeItMoreColorful(s)
    requires !TestFrom(FreshRequestWords, s, 13)
    ensures !TestFrom(FreshRequestWords, s, 8)
  {
    assert s[8] == 'm' && s[9] == 'o' && s[10] == 'r' && s[11] == 'e' && s[12] == ' ';
    NoKeywordAtNonWordChar(FreshRequestWords, s, 12);
    assert !TestFrom(FreshRequestWords, s, 12);
    NoKeywordInsideWord(FreshRequestWords, s, 11);
    assert !TestFrom(FreshRequestWords, s, 11);
    NoKeywordInsideWord(FreshRequestWords, s, 10);
    assert !TestFrom(FreshRequestWords, s, 10);
    NoKeywordInsideWord(FreshRequestWords, s, 9);
    assert !TestFrom(FreshRequestWords, s, 9);
    KeywordMismatch(s, 8, "create", 0);
    KeywordMismatch(s, 8, "generate", 0);
    KeywordMismatch(s, 8, "draw", 0);
    KeywordMismatch(s, 8, "make me", 1);
    KeywordMismatch(s, 8, "show me", 0);
    KeywordMismatch(s, 8, "image of", 0);
    KeywordMismatch(s, 8, "picture of", 0);
    assert !TestFrom(FreshRequestWords, s, 8);
  }

  /** "make it more colorful" holds no fresh-request keyword from index 5 on. */
  lemma {:induction false} NoFreshWordFrom5(s: string)
    requires IsMakeItMoreColorful(s)
    requires !TestFrom(FreshRequestWords, s, 8)
    ensures !TestFrom(FreshRequestWords, s, 5)
  {
    assert s[5] == 'i' && s[6] == 't' && s[7] == ' ';
    NoKeywordAtNonWordChar(FreshRequestWords, s, 7);
    assert !TestFrom(FreshRequestWords, s, 7);
    NoKeywordInsideWord(FreshRequestWords, s, 6);
    assert !TestFrom(FreshRequestWords, s, 6);
    KeywordMismatch(s, 5, "create", 0);
    KeywordMismatch(s, 5, "generate", 0);
    KeywordMismatch(s, 5, "draw", 0);
    KeywordMismatch(s, 5, "make me", 0);
    KeywordMismatch(s, 5, "show me", 0);
    KeywordMismatch(s, 5, "image of", 1);
    KeywordMismatch(s, 5, "picture of", 0);
    assert !TestFrom(FreshRequestWords, s, 5);
  }

  /** "make it more colorful" holds no fresh-request keyword from index 1 on. */
  lemma {:induction false} NoFreshWordFrom1(s: string)
    requires IsMakeItMoreColorful(s)
    requires !TestFrom(FreshRequestWords, s, 5)
    ensures !TestFrom(FreshRequestWords, s, 1)
  {
    assert s[0] == 'm' && s[1] == 'a' && s[2] == 'k' && s[3] == 'e' && s[4] == ' ';
    NoKeywordAtNonWordChar(FreshRequestWords, s, 4);
    assert !TestFrom(FreshRequestWords, s, 4);
    NoKeywordInsideWord(FreshRequestWords, s, 3);
    assert !TestFrom(FreshRequestWords, s, 3);
    NoKeywordInsideWord(FreshRequestWords, s, 2);
    assert !TestFrom(FreshRequestWords, s, 2);
    NoKeywordInsideWord(FreshRequestWords, s, 1);
    assert !TestFrom(FreshRequestWords, s, 1);
  }

  /** "make it more colorful" opens with the modification keyword "make it". */
  lemma MakeItMoreColorfulOpensWithMakeIt(s: string)
    requires IsMakeItMoreColorful(s)
    ensures PatternAt(ModificationWords, s, 0)
  {
    assert s[..7] == s[..8][..7] == "make it";
    assert s[6] == 't' && s[7] == ' ';
    assert KeywordAt(s, 0, "make it");
  }

  /** "make it more colorful" holds no fresh-request keyword at all. */
  lemma {:induction false} MakeItMoreColorfulHasNoFreshWord(s: string)
    requires IsMakeItMoreColorful(s)
    ensures !Test(FreshRequestWords, s)
  {
    NoFreshWordFrom17(s);
    NoFreshWordFrom13(s);
    NoFreshWordFrom8(s);
    NoFreshWordFrom5(s);
    NoFreshWordFrom1(s);
    assert s[..7] == s[..8][..7];
    MakeItIsNotFresh(s);
  }

  /** The example itself: "make it more colorful" is a modification request. */
  lemma MakeItMoreColorfulIsModification()
    ensures IsLikelyImageModification("make it more colorful")
  {
    var s := "make it more colorful";
    assert IsMakeItMoreColorful(s);
    MakeItMoreColorfulOpensWithMakeIt(s);
    MakeItMoreColorfulHasNoFreshWord(s);
  }

  /** A message opening with the word "generate" is never taken for a
      modification, whatever style it names after it. */
  lemma GenerateOpensFreshRequest(s: string)
    requires |s| >= 9 && s[..9] == "generate "
    ensures !IsLikelyImageModification(s)
  {
    GenerateKeywordAtStart(s);
    assert TestFrom(FreshRequestWords, s, 0);
  }

  /** The keyword "generate" followed by a space matches at the start. */
  lemma GenerateKeywordAtStart(s: string)
    requires |s| >= 9 && s[..9] == "generate "
    ensures PatternAt(FreshRequestWords, s, 0)
  {
    assert s[0..8] == s[..9][..8] == "generate";
    assert s[0] == 'g' && s[7] == 'e' && s[8] == ' ';
    assert KeywordAt(s, 0, "generate");
  }

  /** "generate an image of a cat" is a fresh request, not a modification. */
  lemma GenerateAnImageIsNotModification()
    ensures !IsLikelyImageModification("generate an image of a cat")
  {
    var s := "generate an image of a cat";
    assert s[..9] == "generate ";
    GenerateOpensFreshRequest(s);
  }

  /** A word of the form "colorful" does not start with a modification keyword:
      "color" is followed by a word character, every other keyword differs. */
  lemma ColorfulStartsWithNoModification(s: string)
    requires |s| == 8 && s[..5] == "color" && s[5..] == "ful"
    ensures !PatternAt(ModificationWords, s, 0)
  {
    assert s[0] == 'c' && s[1] == 'o' && s[4] == 'r' && s[5] == 'f';
    KeywordMismatch(s, 0, "make it", 0);
    KeywordMismatch(s, 0, "change", 1);
    KeywordMismatch(s, 0, "modify", 0);
    KeywordMismatch(s, 0, "more", 0);
    KeywordMismatch(s, 0, "less", 0);
    KeywordMismatch(s, 0, "add", 0);
    KeywordMismatch(s, 0, "remove", 0);
    KeywordMismatch(s, 0, "style", 0);
    assert !IsWordBoundary(s, 5);
    KeywordMismatch(s, 0, "bright", 0);
    KeywordMismatch(s, 0, "dark", 0);
    KeywordMismatch(s, 0, "cartoon", 1);
    KeywordMismatch(s, 0, "artistic", 0);
  }

  /** "colorful" is not a modification: "color" occurs in it only without a word
      boundary after it. */
  lemma ColorfulIsNotModification()
    ensures !IsLikelyImageModification("colorful")
  {
    var s := "colorful";
    assert s[..5] == "color" && s[5..] == "ful";
    ColorfulStartsWithNoModification(s);
    SingleWordMatchesOnlyAtStart(ModificationWords, s);
  }

  /** A word of the form "darker" does not start with a modification keyword:
      "dark" is followed by a word character, every other keyword differs. */
  lemma DarkerStartsWithNoModification(s: string)
    requires |s| == 6 && s[..4] == "dark" && s[4..] == "er"
    ensures !PatternAt(ModificationWords, s, 0)
  {
    assert s[0] == 'd' && s[3] == 'k' && s[4] == 'e';
    KeywordMismatch(s, 0, "change", 0);
    KeywordMismatch(s, 0, "modify", 0);
    KeywordMismatch(s, 0, "more", 0);
    KeywordMismatch(s, 0, "less", 0);
    KeywordMismatch(s, 0, "add", 0);
    KeywordMismatch(s, 0, "remove", 0);
    KeywordMismatch(s, 0, "style", 0);
    KeywordMismatch(s, 0, "color", 0);
    KeywordMismatch(s, 0, "bright", 0);
    assert !IsWordBoundary(s, 4);
  }

  /** "darker" is not a modification: "dark" occurs in it only without a word
      boundary after it. */
  lemma DarkerIsNotModification()
    ensures !IsLikelyImageModification("darker")
  {
    var s := "darker";
    assert s[..4] == "dark" && s[4..] == "er";
    DarkerStartsWithNoModification(s);
    SingleWordMatchesOnlyAtStart(ModificationWords, s);
  }
}
