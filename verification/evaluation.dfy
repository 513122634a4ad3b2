/**
 * The metrics heuristics: policy-entity extraction, query difficulty and
 * response-quality labelling.  Regular expressions of the form
 * `\b(a|b|...)\b` are whole-word searches over the alternatives (see
 * `Words`); `s.split()` is `Split`; `re.split('[...]+', s)` is `ReSplit`.
 * The feedback widgets of the same file are user-interface code and are
 * not modelled.
 */
module Evaluation {
  import opened Strings
  import opened Words
  import opened Tables
  import opened Keywords

  /** The 25 policy terms of `extract_policy_entities`, in order. */
  const PolicyTerms: seq<string> := [
    "auto insurance", "car insurance", "vehicle insurance",
    "health insurance", "medical insurance", "healthcare plan",
    "home insurance", "homeowners insurance", "property insurance",
    "life insurance", "term life", "whole life", "universal life",
    "liability coverage", "collision coverage", "comprehensive coverage",
    "deductible", "premium", "claim", "policyholder", "beneficiary",
    "coverage limit", "exclusion", "rider", "underwriting"
  ]

  /** The policy-term table lists each term once. */
  lemma PolicyTermsDistinct()
    ensures NoDup(PolicyTerms)
  {
    forall i, j | 0 <= i < j < |PolicyTerms|
      ensures PolicyTerms[i] != PolicyTerms[j]
    {
      if i < 8 {
        DistinctLow(i, j);
      } else if i < 16 {
        DistinctMid(i, j);
      } else {
        DistinctHigh(i, j);
      }
    }
  }

  /** The first eight policy terms differ from every later one. */
  lemma DistinctLow(i: int, j: int)
    requires 0 <= i < 8 && i < j < |PolicyTerms|
    ensures PolicyTerms[i] != PolicyTerms[j]
  {
  }

  /** The ninth to sixteenth policy terms differ from every later one. */
  lemma DistinctMid(i: int, j: int)
    requires 8 <= i < 16 && i < j < |PolicyTerms|
    ensures PolicyTerms[i] != PolicyTerms[j]
  {
  }

  /** The remaining policy terms differ from every later one. */
  lemma DistinctHigh(i: int, j: int)
    requires 16 <= i < j < |PolicyTerms|
    ensures PolicyTerms[i] != PolicyTerms[j]
  {
  }

  /**
   * `extract_policy_entities`: the policy terms found as whole words in the
   * lower-cased text, in table order, each at most once.
   */
  function ExtractPolicyEntities(text: string): (r: seq<string>)
    ensures |r| <= |PolicyTerms|
    ensures NoDup(r)
    ensures SubseqOf(r, PolicyTerms)
    ensures forall k :: 0 <= k < |r| ==> r[k] in PolicyTerms && WordOccurs(Lower(text), r[k])
    ensures forall k :: 0 <= k < |PolicyTerms| && WordOccurs(Lower(text), PolicyTerms[k]) ==> PolicyTerms[k] in r
  {
    PolicyTermsDistinct();
    FilterWords(Lower(text), PolicyTerms)
  }

  /** Two different policy terms occur as whole words in `s`. */
  ghost predicate TwoPolicyTerms(s: string) {
    HasTwoWords(s, PolicyTerms)
  }

  /** Some policy term occurs as a whole word in `s`. */
  ghost predicate SomePolicyTerm(s: string) {
    HasWord(s, PolicyTerms)
  }

  /** The number of extracted entities reaches one or two exactly when that many distinct terms occur. */
  lemma EntityCountThresholds(text: string)
    ensures |ExtractPolicyEntities(text)| >= 1 <==> SomePolicyTerm(Lower(text))
    ensures |ExtractPolicyEntities(text)| >= 2 <==> TwoPolicyTerms(Lower(text))
  {
    FilterWordsThresholds(Lower(text), PolicyTerms);
  }

  // ---------------------------------------------------------------------
  // Query difficulty
  // ---------------------------------------------------------------------

  /** The alternatives of `\b(compare|difference|versus|vs\.?|better)\b`. */
  const ComparisonWords: seq<string> := ["compare", "difference", "versus", "vs.", "vs", "better"]
  /** The alternatives of `\b(specific|exactly|detail|precise)\b`. */
  const SpecificWords: seq<string> := ["specific", "exactly", "detail", "precise"]
  /** The alternatives of `\b(what if|suppose|scenario|hypothetical)\b`. */
  const HypotheticalWords: seq<string> := ["what if", "suppose", "scenario", "hypothetical"]

  datatype Difficulty = Basic | Intermediate | Complex {
    /** The string `analyze_query_difficulty` returns. */
    function Label(): (r: string)
      ensures r in {"basic", "intermediate", "complex"}
    {
      match this
      case Basic => "basic"
      case Intermediate => "intermediate"
      case Complex => "complex"
    }
  }

  /** A question is complex: two policy terms, a comparison or hypothetical word, or two groups of question marks. */
  ghost predicate ComplexQuery(query: string) {
    || TwoPolicyTerms(Lower(query))
    || HasWord(Lower(query), ComparisonWords)
    || HasWord(Lower(query), HypotheticalWords)
    || TwoGroups(query, {'?'})
  }

  /** A question is at least intermediate: a specificity word, more than 15 words, or exactly one policy term. */
  ghost predicate IntermediateQuery(query: string) {
    || HasWord(Lower(query), SpecificWords)
    || RunCount(query, NonSpace) > 15
    || (SomePolicyTerm(Lower(query)) && !TwoPolicyTerms(Lower(query)))
  }

  /** `analyze_query_difficulty`. */
  function AnalyzeQueryDifficulty(query: string): (r: Difficulty)
    ensures r == Complex <==> ComplexQuery(query)
    ensures r == Intermediate <==> !ComplexQuery(query) && IntermediateQuery(query)
    ensures r == Basic <==> !ComplexQuery(query) && !IntermediateQuery(query)
  {
    var q := Lower(query);
    var wordCount := |Split(query)|;
    var hasComparison := SearchAnyWord(q, ComparisonWords);
    var hasSpecificDetails := SearchAnyWord(q, SpecificWords);
    var hasMultipleQuestions := |ReSplit(query, {'?'})| > 2;
    var hasHypothetical := SearchAnyWord(q, HypotheticalWords);
    var policyTerms := ExtractPolicyEntities(query);
    ReSplitMoreThanTwo(query, {'?'});
    EntityCountThresholds(query);
    if |policyTerms| >= 2 || hasComparison || hasHypothetical || hasMultipleQuestions then
      Complex
    else if hasSpecificDetails || wordCount > 15 || |policyTerms| == 1 then
      Intermediate
    else
      Basic
  }

  /** The label is always one of the three difficulty names. */
  function AnalyzeQueryDifficultyLabel(query: string): (r: string)
    ensures r in {"basic", "intermediate", "complex"}
    ensures r == "complex" <==> ComplexQuery(query)
  {
    AnalyzeQueryDifficulty(query).Label()
  }

  // ---------------------------------------------------------------------
  // Response quality
  // ---------------------------------------------------------------------

  /** The alternatives of the uncertainty expression. */
  const UncertainPhrases: seq<string> :=
    ["might", "may", "possibly", "probably", "uncertain", "unclear", "don't have enough", "can't determine"]

  /** The characters of `[*#_`]`, the markdown test. */
  const MarkdownChars: set<char> := {'*', '#', '_', '`'}

  /** The sentence delimiters of `[.!?]+`. */
  const SentenceEnds: set<char> := {'.', '!', '?'}

  datatype Quality = High | Medium

  /** The dictionary `assess_response_quality` returns. */
  datatype QualityReport = QualityReport(
    wordCount: nat,
    sentenceCount: nat,
    policyTermsCount: nat,
    policyTerms: seq<string>,
    containsMarkdown: bool,
    containsUncertainPhrases: bool,
    estimatedResponseQuality: Quality)

  /**
   * `assess_response_quality`.  The question is a parameter of the source
   * function but is not used; every metric is computed from the response.
   */
  function AssessResponseQuality(query: string, response: string): (r: QualityReport)
    ensures r.policyTerms == ExtractPolicyEntities(response)
    ensures r.policyTermsCount == |r.policyTerms|
    ensures r.wordCount == |Split(response)| == RunCount(response, NonSpace)
    ensures r.sentenceCount == 1 + RunCount(response, Delimiters(SentenceEnds))
    ensures r.sentenceCount >= 1
    ensures r.sentenceCount >= 2 <==> HasDelimiter(response, SentenceEnds)
    ensures r.containsMarkdown <==> HasDelimiter(response, MarkdownChars)
    ensures r.containsUncertainPhrases <==> HasWord(Lower(response), UncertainPhrases)
    ensures r.estimatedResponseQuality == High <==>
      r.wordCount > 50 && TwoPolicyTerms(Lower(response)) && !HasWord(Lower(response), UncertainPhrases)
  {
    var policyTerms := ExtractPolicyEntities(response);
    var wordCount := |Split(response)|;
    var sentenceCount := |ReSplit(response, SentenceEnds)|;
    var containsMarkdown := exists i | 0 <= i < |response| :: response[i] in MarkdownChars;
    var containsUncertain := SearchAnyWord(Lower(response), UncertainPhrases);
    EntityCountThresholds(response);
    QualityReport(
      wordCount,
      sentenceCount,
      |policyTerms|,
      policyTerms,
      containsMarkdown,
      containsUncertain,
      if wordCount > 50 && |policyTerms| > 1 && !containsUncertain then High else Medium)
  }

  /** The assessment ignores the question. */
  lemma AssessIgnoresQuery(query1: string, query2: string, response: string)
    ensures AssessResponseQuality(query1, response) == AssessResponseQuality(query2, response)
  {
  }
}
