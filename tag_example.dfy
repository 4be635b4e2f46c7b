/**
 * The tag-extraction test of app/lib/persistence/deepTreeEchoMemory.spec.ts:69-85,
 * worked out: "I need help with JavaScript programming and React development"
 * is tagged technical and assistance, and nothing else.
 */
module TagExample {
  import opened Text
  import opened Classifiers

  /** The test sentence, lower-cased, as its space-separated words. */
  const TestWords: seq<string> := ["i", "need", "help", "with", "javascript", "programming", "and", "react", "development"]

  /** No word of `ws` holds both `c` and `d`, two characters of `word`. */
  lemma AbsentFromWords(ws: seq<string>, word: string, c: char, d: char)
    requires ' ' !in word && word != [] && c in word && d in word
    requires forall i :: 0 <= i < |ws| ==> c !in ws[i] || d !in ws[i]
    ensures !Includes(Join(ws, " "), word)
  {
    IncludesInWords(ws, word);
    forall i | 0 <= i < |ws| ensures !Includes(ws[i], word) {
      if c !in ws[i] { AbsentChar(ws[i], word, c); } else { AbsentChar(ws[i], word, d); }
    }
  }

  lemma TestWordsLower(ws: seq<string>, lws: seq<string>)
    requires ws == ["I", "need", "help", "with", "JavaScript", "programming", "and", "React", "development"]
    requires lws == TestWords
    ensures forall i :: 0 <= i < |ws| ==> ToLower(ws[i]) == lws[i]
  {
    assert ToLower("I") == "i" && ToLower("need") == "need" && ToLower("help") == "help";
    assert ToLower("with") == "with" && ToLower("JavaScript") == "javascript";
    assert ToLower("programming") == "programming" && ToLower("and") == "and";
    assert ToLower("React") == "react" && ToLower("development") == "development";
  }

  /** A word of the list occurs in the sentence they form. */
  lemma WordInWords(ws: seq<string>, i: nat, word: string)
    requires i < |ws| && ws[i] == word && ' ' !in word && word != []
    ensures Includes(Join(ws, " "), word)
  {
    IncludesItself(word);
    IncludesInWords(ws, word);
  }

  /** The lower-cased test sentence mentions programming. */
  lemma TestSentenceHasProgramming(ws: seq<string>)
    requires ws == TestWords
    ensures Includes(Join(ws, " "), "programming")
  {
    WordInWords(ws, 5, "programming");
  }

  /** The lower-cased test sentence asks for help. */
  lemma TestSentenceHasHelp(ws: seq<string>)
    requires ws == TestWords
    ensures Includes(Join(ws, " "), "help")
  {
    WordInWords(ws, 2, "help");
  }

  /**
   * Each keyword of the design and learning rules misses the test sentence: some two of
   * its characters, `c` and `d`, never share a word of the sentence.
   */
  lemma TestSentenceLacks(ws: seq<string>, word: string, c: char, d: char)
    requires ws == TestWords
    requires || (word == "design" && c == 'g' && d == 'd')
             || (word == "ui" && c == d == 'u')
             || (word == "interface" && c == d == 'f')
             || (word == "learn" && c == 'l' && d == 'a')
             || (word == "understand" && c == d == 'u')
             || (word == "explain" && c == d == 'x')
    ensures !Includes(Join(ws, " "), word)
  {
    forall i | 0 <= i < |ws| ensures c !in ws[i] || d !in ws[i] {
      if c == 'g' { assert 'g' !in ws[i] || 'd' !in ws[i]; }
      else if c == 'u' { assert 'u' !in ws[i]; }
      else if c == 'f' { assert 'f' !in ws[i]; }
      else if c == 'l' { assert 'l' !in ws[i] || 'a' !in ws[i]; }
      else { assert 'x' !in ws[i]; }
    }
    AbsentFromWords(ws, word, c, d);
  }

  lemma TestSentenceTechnical(ws: seq<string>)
    requires ws == TestWords
    ensures AnyIncluded(Join(ws, " "), TagRules[0].keywords)
  {
    AnyIncludedOf3(Join(ws, " "), "code", "programming", "development");
    TestSentenceHasProgramming(ws);
  }

  lemma TestSentenceNotDesign(ws: seq<string>)
    requires ws == TestWords
    ensures !AnyIncluded(Join(ws, " "), TagRules[1].keywords)
  {
    AnyIncludedOf3(Join(ws, " "), "design", "ui", "interface");
    TestSentenceLacks(ws, "design", 'g', 'd');
    TestSentenceLacks(ws, "ui", 'u', 'u');
    TestSentenceLacks(ws, "interface", 'f', 'f');
  }

  lemma TestSentenceAssistance(ws: seq<string>)
    requires ws == TestWords
    ensures AnyIncluded(Join(ws, " "), TagRules[2].keywords)
  {
    AnyIncludedOf3(Join(ws, " "), "help", "problem", "issue");
    TestSentenceHasHelp(ws);
  }

  lemma TestSentenceNotLearning(ws: seq<string>)
    requires ws == TestWords
    ensures !AnyIncluded(Join(ws, " "), TagRules[3].keywords)
  {
    AnyIncludedOf3(Join(ws, " "), "learn", "understand", "explain");
    TestSentenceLacks(ws, "learn", 'l', 'a');
    TestSentenceLacks(ws, "understand", 'u', 'u');
    TestSentenceLacks(ws, "explain", 'x', 'x');
  }

  /** The lower-cased test sentence matches the technical and assistance rules only. */
  lemma TestSentenceTags(ws: seq<string>)
    requires ws == TestWords
    ensures Classify(Join(ws, " "), TagRules) == ["technical", "assistance"]
  {
    TestSentenceTechnical(ws);
    TestSentenceNotDesign(ws);
    TestSentenceAssistance(ws);
    TestSentenceNotLearning(ws);
    ClassifyFour(Join(ws, " "), TagRules);
  }

  /**
   * The tags derived for the user turn of the test: technical and assistance, and
   * nothing else.
   */
  lemma ExtractTagsExample()
    ensures Classify(ToLower(Join(["I", "need", "help", "with", "JavaScript", "programming", "and", "React", "development"], " ")), TagRules)
            == ["technical", "assistance"]
  {
    var ws := ["I", "need", "help", "with", "JavaScript", "programming", "and", "React", "development"];
    TestWordsLower(ws, TestWords);
    ToLowerJoin(ws, TestWords);
    TestSentenceTags(TestWords);
  }
}
