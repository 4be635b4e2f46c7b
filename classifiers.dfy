/**
 * The keyword heuristics of the memory service: `_extractTags`,
 * `_extractKeyTopics`, `_containsLearningIndicators` and `_assessImportance`.
 * All matching is case-insensitive substring search over ASCII text.
 */
module Classifiers {
  import opened Seqs
  import opened Text
  import opened MemoryTypes

  /** A label and the keywords that earn it. */
  datatype Rule = Rule(name: string, keywords: seq<string>)

  /** `words.some(word => text.includes(word))`. */
  function AnyIncluded(text: string, words: seq<string>): (r: bool)
  {
    if words == [] then false else Includes(text, words[0]) || AnyIncluded(text, words[1..])
  }

  lemma {:induction false} AnyIncludedIff(text: string, words: seq<string>)
    ensures AnyIncluded(text, words) <==> exists i :: 0 <= i < |words| && Includes(text, words[i])
    decreases |words|
  {
    if words != [] {
      AnyIncludedIff(text, words[1..]);
      assert forall i :: 1 <= i < |words| ==> words[i] == words[1..][i - 1];
      if AnyIncluded(text, words[1..]) {
        var i :| 0 <= i < |words[1..]| && Includes(text, words[1..][i]);
        assert Includes(text, words[i + 1]);
      }
    }
  }

  /** The labels of the rules whose keywords occur in `text`, in rule order. */
  function Classify(text: string, rules: seq<Rule>): (r: seq<string>)
  {
    if rules == [] then []
    else (if AnyIncluded(text, rules[0].keywords) then [rules[0].name] else []) + Classify(text, rules[1..])
  }

  function Labels(rules: seq<Rule>): (r: seq<string>)
    ensures |r| == |rules| && forall i :: 0 <= i < |rules| ==> r[i] == rules[i].name
  {
    if rules == [] then [] else [rules[0].name] + Labels(rules[1..])
  }

  /** `Classify` keeps the vocabulary's order and drops the labels that did not match. */
  lemma {:induction false} ClassifySublist(text: string, rules: seq<Rule>)
    ensures IsSubsequence(Classify(text, rules), Labels(rules))
    decreases |rules|
  {
    if rules != [] {
      ClassifySublist(text, rules[1..]);
      var rest := Classify(text, rules[1..]);
      assert Labels(rules)[1..] == Labels(rules[1..]);
      if AnyIncluded(text, rules[0].keywords) {
        assert Classify(text, rules)[1..] == rest;
      } else {
        assert Classify(text, rules) == rest;
        SubsequenceOfTail(rest, Labels(rules));
      }
    }
  }

  /** With distinct labels, a label is reported exactly when one of its keywords occurs. */
  lemma {:induction false} ClassifyMembers(text: string, rules: seq<Rule>, i: nat)
    requires Distinct(Labels(rules)) && i < |rules|
    ensures rules[i].name in Classify(text, rules) <==> AnyIncluded(text, rules[i].keywords)
    decreases |rules|
  {
    var rest := Classify(text, rules[1..]);
    if i == 0 {
      if rules[0].name in rest {
        ClassifySublist(text, rules[1..]);
        SubsequenceMembers(rest, Labels(rules[1..]), rules[0].name);
        assert false;
      }
    } else {
      assert Distinct(Labels(rules[1..])) by {
        forall a, b | 0 <= a < b < |rules[1..]| ensures Labels(rules[1..])[a] != Labels(rules[1..])[b] {
          assert Labels(rules)[a + 1] != Labels(rules)[b + 1];
        }
      }
      ClassifyMembers(text, rules[1..], i - 1);
      assert rules[1..][i - 1] == rules[i];
      assert Labels(rules)[0] != Labels(rules)[i];
    }
  }

  /** One step of the left-to-right scan over the rules. */
  lemma ClassifyStep(text: string, rules: seq<Rule>, k: nat)
    requires k < |rules|
    ensures Classify(text, rules[k..]) ==
              (if AnyIncluded(text, rules[k].keywords) then [rules[k].name] else []) + Classify(text, rules[k + 1..])
  {
    assert rules[k..][1..] == rules[k + 1..];
  }

  lemma AnyIncludedOf3(text: string, a: string, b: string, c: string)
    ensures AnyIncluded(text, [a, b, c]) == (Includes(text, a) || Includes(text, b) || Includes(text, c))
  {
    assert [a, b, c][1..] == [b, c] && [b, c][1..] == [c] && [c][1..] == [];
    assert AnyIncluded(text, [c]) == Includes(text, c);
    assert AnyIncluded(text, [b, c]) == (Includes(text, b) || Includes(text, c));
  }

  /** With distinct labels the result has no duplicates. */
  lemma ClassifyDistinct(text: string, rules: seq<Rule>)
    requires Distinct(Labels(rules))
    ensures Distinct(Classify(text, rules))
  {
    ClassifySublist(text, rules);
    SubsequenceDistinct(Classify(text, rules), Labels(rules));
  }

  // ---------------------------------------------------------------- _extractTags

  const TagRules: seq<Rule> := [
    Rule("technical", ["code", "programming", "development"]),
    Rule("design", ["design", "ui", "interface"]),
    Rule("assistance", ["help", "problem", "issue"]),
    Rule("learning", ["learn", "understand", "explain"])
  ]

  /** `Classify` over exactly four rules, written out. */
  lemma ClassifyFour(text: string, rules: seq<Rule>)
    requires |rules| == 4
    ensures Classify(text, rules) ==
              (if AnyIncluded(text, rules[0].keywords) then [rules[0].name] else []) +
              (if AnyIncluded(text, rules[1].keywords) then [rules[1].name] else []) +
              (if AnyIncluded(text, rules[2].keywords) then [rules[2].name] else []) +
              (if AnyIncluded(text, rules[3].keywords) then [rules[3].name] else [])
  {
    assert rules[0..] == rules;
    ClassifyStep(text, rules, 0);
    ClassifyStep(text, rules, 1);
    ClassifyStep(text, rules, 2);
    ClassifyStep(text, rules, 3);
    assert rules[4..] == [];
  }

  /** `_extractTags`: one `if` per category, pushing its label when a keyword occurs. */
  method ExtractTags(content: string) returns (tags: seq<string>)
    ensures tags == Classify(ToLower(content), TagRules)
  {
    tags := [];
    var text := ToLower(content);
    ClassifyFour(text, TagRules);
    AnyIncludedOf3(text, "code", "programming", "development");
    AnyIncludedOf3(text, "design", "ui", "interface");
    AnyIncludedOf3(text, "help", "problem", "issue");
    AnyIncludedOf3(text, "learn", "understand", "explain");
    if Includes(text, "code") || Includes(text, "programming") || Includes(text, "development") {
      tags := tags + ["technical"];
    }
    if Includes(text, "design") || Includes(text, "ui") || Includes(text, "interface") {
      tags := tags + ["design"];
    }
    if Includes(text, "help") || Includes(text, "problem") || Includes(text, "issue") {
      tags := tags + ["assistance"];
    }
    if Includes(text, "learn") || Includes(text, "understand") || Includes(text, "explain") {
      tags := tags + ["learning"];
    }
  }

  /**
   * `_extractTags` yields an order-preserving, duplicate-free sublist of the four
   * categories, and a category is present exactly when one of its keywords occurs.
   */
  lemma TagsSpec(content: string, i: nat)
    requires i < |TagRules|
    ensures var tags := Classify(ToLower(content), TagRules);
            && IsSubsequence(tags, ["technical", "design", "assistance", "learning"])
            && Distinct(tags)
            && (TagRules[i].name in tags <==> AnyIncluded(ToLower(content), TagRules[i].keywords))
  {
    var labels := Labels(TagRules);
    assert labels == ["technical", "design", "assistance", "learning"];
    ClassifySublist(ToLower(content), TagRules);
    ClassifyDistinct(ToLower(content), TagRules);
    ClassifyMembers(ToLower(content), TagRules, i);
  }

  // ---------------------------------------------------------------- _extractKeyTopics

  const TopicKeywords: seq<string> :=
    ["javascript", "typescript", "react", "vue", "angular", "node", "python", "ai", "ml", "data"]

  /** Each topic keyword is its own rule. */
  function KeywordRules(words: seq<string>): (r: seq<Rule>)
    ensures |r| == |words| && forall i :: 0 <= i < |words| ==> r[i] == Rule(words[i], [words[i]])
  {
    if words == [] then [] else [Rule(words[0], [words[0]])] + KeywordRules(words[1..])
  }

  /** `_extractKeyTopics`: the keywords of the fixed vocabulary found in the lower-cased text. */
  method ExtractKeyTopics(content: string) returns (topics: seq<string>)
    ensures topics == Classify(ToLower(content), KeywordRules(TopicKeywords))
  {
    topics := KeywordsFound(ToLower(content), TopicKeywords);
  }

  /** The `keywords.forEach` loop of `_extractKeyTopics`, pushing each keyword that occurs. */
  method KeywordsFound(text: string, keywords: seq<string>) returns (found: seq<string>)
    ensures found == Classify(text, KeywordRules(keywords))
  {
    found := [];
    ghost var rules := KeywordRules(keywords);
    assert rules[0..] == rules;
    var i := 0;
    while i < |keywords|
      invariant 0 <= i <= |keywords|
      invariant found + Classify(text, rules[i..]) == Classify(text, rules)
    {
      var keyword := keywords[i];
      ClassifyStep(text, rules, i);
      assert AnyIncluded(text, rules[i].keywords) == Includes(text, keyword) by {
        assert rules[i].keywords == [keyword] && [keyword][1..] == [];
      }
      if Includes(text, keyword) {
        found := found + [keyword];
      }
      i := i + 1;
    }
  }

  /** Keyword rules are labelled by their own keyword. */
  lemma KeywordRulesLabels(words: seq<string>)
    ensures Labels(KeywordRules(words)) == words
  {
    assert forall i :: 0 <= i < |words| ==> Labels(KeywordRules(words))[i] == words[i];
  }

  /** Over distinct keywords, the found keywords are a duplicate-free sublist holding exactly those that occur. */
  lemma KeywordsSpec(text: string, words: seq<string>, i: nat)
    requires Distinct(words) && i < |words|
    ensures var found := Classify(text, KeywordRules(words));
            && IsSubsequence(found, words)
            && Distinct(found)
            && (words[i] in found <==> Includes(text, words[i]))
  {
    var rules := KeywordRules(words);
    KeywordRulesLabels(words);
    ClassifySublist(text, rules);
    ClassifyDistinct(text, rules);
    ClassifyMembers(text, rules, i);
    assert rules[i].keywords == [words[i]] && [words[i]][1..] == [];
  }

  lemma TopicKeywordsDistinct(words: seq<string>)
    requires words == TopicKeywords
    ensures Distinct(words)
  {
  }

  /**
   * `_extractKeyTopics` yields an order-preserving, duplicate-free sublist of the ten
   * keywords, holding exactly those that occur in the lower-cased text.
   */
  lemma TopicsSpec(content: string, i: nat)
    requires i < |TopicKeywords|
    ensures var topics := Classify(ToLower(content), KeywordRules(TopicKeywords));
            && IsSubsequence(topics, TopicKeywords)
            && Distinct(topics)
            && (TopicKeywords[i] in topics <==> Includes(ToLower(content), TopicKeywords[i]))
  {
    TopicKeywordsDistinct(TopicKeywords);
    KeywordsSpec(ToLower(content), TopicKeywords, i);
  }

  // ---------------------------------------------------------------- _containsLearningIndicators

  const LearningWords: seq<string> := ["insight", "understand", "realize", "discover", "learn", "grasp", "comprehend"]

  /** `_containsLearningIndicators`: some indicator word occurs, ignoring case. */
  function ContainsLearningIndicators(content: string): (r: bool)
  {
    AnyIncluded(ToLower(content), LearningWords)
  }

  // ---------------------------------------------------------------- _assessImportance

  const CriticalWords: seq<string> := ["critical", "urgent", "important", "essential", "vital"]
  const HighWords: seq<string> := ["significant", "major", "key", "primary"]

  /** Above this many characters of `user + ' ' + assistant`, a keyword-free exchange is `medium`. */
  const LongExchange: nat := 500

  /** `_assessImportance`: first match wins over the lower-cased `user + ' ' + assistant`. */
  function AssessImportance(user: string, assistant: string): (r: Importance)
  {
    var combined := ToLower(user + " " + assistant);
    if AnyIncluded(combined, CriticalWords) then Critical
    else if AnyIncluded(combined, HighWords) then High
    else if |combined| > LongExchange then Medium
    else Low
  }

  /** For words without a space, a match in `u + " " + a` is a match in `u` or in `a`. */
  lemma {:induction false} AnyIncludedAcrossSpace(u: string, a: string, words: seq<string>)
    requires forall i :: 0 <= i < |words| ==> ' ' !in words[i]
    ensures AnyIncluded(u + " " + a, words) <==> AnyIncluded(u, words) || AnyIncluded(a, words)
    decreases |words|
  {
    if words != [] {
      IncludesAcrossSpace(u, a, words[0]);
      assert forall i :: 0 <= i < |words[1..]| ==> words[1..][i] == words[i + 1];
      AnyIncludedAcrossSpace(u, a, words[1..]);
    }
  }

  /** Extending the text on the right never loses a match. */
  lemma {:induction false} AnyIncludedExtend(t: string, y: string, words: seq<string>)
    requires AnyIncluded(t, words)
    ensures AnyIncluded(t + y, words)
    decreases |words|
  {
    if Includes(t, words[0]) {
      IncludesExtend([], t, y, words[0]);
      assert [] + t + y == t + y;
    } else {
      AnyIncludedExtend(t, y, words[1..]);
    }
  }

  /**
   * The importance judged from each side of the exchange separately: a keyword
   * in either turn decides it, and `medium` needs at least 500 characters in all.
   */
  lemma AssessImportanceBySides(user: string, assistant: string)
    ensures var u, a := ToLower(user), ToLower(assistant);
            AssessImportance(user, assistant) ==
              if AnyIncluded(u, CriticalWords) || AnyIncluded(a, CriticalWords) then Critical
              else if AnyIncluded(u, HighWords) || AnyIncluded(a, HighWords) then High
              else if |user| + |assistant| >= 500 then Medium
              else Low
  {
    var u, a := ToLower(user), ToLower(assistant);
    ToLowerAppend(user + " ", assistant);
    ToLowerAppend(user, " ");
    assert ToLower(" ") == " ";
    AnyIncludedAcrossSpace(u, a, CriticalWords);
    AnyIncludedAcrossSpace(u, a, HighWords);
  }

  /** Saying more, in either turn, never lowers the assessed importance. */
  lemma AssessImportanceMonotone(user: string, assistant: string, moreUser: string, moreAssistant: string)
    ensures Rank(AssessImportance(user, assistant)) <= Rank(AssessImportance(user + moreUser, assistant + moreAssistant))
  {
    AssessImportanceBySides(user, assistant);
    AssessImportanceBySides(user + moreUser, assistant + moreAssistant);
    ToLowerAppend(user, moreUser);
    ToLowerAppend(assistant, moreAssistant);
    var u, a := ToLower(user), ToLower(assistant);
    var u', a' := ToLower(moreUser), ToLower(moreAssistant);
    forall words | words == CriticalWords || words == HighWords
      ensures AnyIncluded(u, words) ==> AnyIncluded(u + u', words)
      ensures AnyIncluded(a, words) ==> AnyIncluded(a + a', words)
    {
      if AnyIncluded(u, words) { AnyIncludedExtend(u, u', words); }
      if AnyIncluded(a, words) { AnyIncludedExtend(a, a', words); }
    }
  }

  /** A critical word anywhere in the exchange makes it critical, whatever its length. */
  lemma CriticalWordWins(user: string, assistant: string, word: string)
    requires word in CriticalWords && Includes(ToLower(user + " " + assistant), word)
    ensures AssessImportance(user, assistant) == Critical
  {
    AnyIncludedIff(ToLower(user + " " + assistant), CriticalWords);
    var i :| 0 <= i < |CriticalWords| && CriticalWords[i] == word;
  }

  /** `_containsLearningIndicators` holds exactly when some indicator word occurs somewhere, ignoring case. */
  lemma LearningIndicatorsIff(content: string)
    ensures ContainsLearningIndicators(content) <==>
              exists i, k :: 0 <= i < |LearningWords| && OccursAt(ToLower(content), LearningWords[i], k)
  {
    var text := ToLower(content);
    AnyIncludedIff(text, LearningWords);
    if ContainsLearningIndicators(content) {
      var i :| 0 <= i < |LearningWords| && Includes(text, LearningWords[i]);
      IncludesIff(text, LearningWords[i]);
      var k :| OccursAt(text, LearningWords[i], k);
      assert 0 <= i < |LearningWords| && OccursAt(ToLower(content), LearningWords[i], k);
    }
    if i, k :| 0 <= i < |LearningWords| && OccursAt(text, LearningWords[i], k) {
      IncludesIff(text, LearningWords[i]);
    }
  }
}
