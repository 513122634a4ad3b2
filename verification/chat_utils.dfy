/**
 * The query-side helpers of the chat pipeline: converting chat history to
 * LangChain messages, synonym expansion of the search query, retrieval of
 * the context string, intent detection and prompt-template dispatch.
 * Retrieval (FAISS similarity search) is a function parameter.
 */
module ChatUtils {
  import opened Wrappers
  import opened Strings
  import opened Keywords
  import opened Entities
  import opened PromptTemplates

  // ---------------------------------------------------------------------
  // Chat history
  // ---------------------------------------------------------------------

  /** LangChain's `HumanMessage` / `AIMessage`. */
  datatype ChatMessage = HumanMessage(content: string) | AIMessage(content: string)

  /** The two roles the history conversion keeps. */
  predicate IsChatRole(role: string) {
    role == "user" || role == "assistant"
  }

  /** `format_chat_history`: user turns become Human, assistant turns AI, any other role is dropped. */
  function FormatChatHistory(messages: seq<Message>): (r: seq<ChatMessage>)
    ensures |r| <= |messages|
    decreases |messages|
  {
    if |messages| == 0 then []
    else
      var m := messages[0];
      var rest := FormatChatHistory(messages[1..]);
      if m.role == "user" then [HumanMessage(m.content)] + rest
      else if m.role == "assistant" then [AIMessage(m.content)] + rest
      else rest
  }

  /** No message is lost exactly when every role is `user` or `assistant`. */
  lemma {:induction false} FormatChatHistoryKeepsAll(messages: seq<Message>)
    ensures |FormatChatHistory(messages)| == |messages| <==>
      forall i :: 0 <= i < |messages| ==> IsChatRole(messages[i].role)
    decreases |messages|
  {
    if |messages| > 0 {
      FormatChatHistoryKeepsAll(messages[1..]);
      assert forall i :: 1 <= i < |messages| ==> messages[i] == messages[1..][i - 1];
    }
  }

  /** Converting a history is converting its first turn, then the rest. */
  lemma FormatChatHistoryCons(m: Message, rest: seq<Message>)
    ensures FormatChatHistory([m] + rest) == FormatChatHistory([m]) + FormatChatHistory(rest)
  {
    assert ([m] + rest)[0] == m;
    assert ([m] + rest)[1..] == rest;
    assert [m][1..] == [];
  }

  /** History conversion works turn by turn: it distributes over concatenation, so order is kept. */
  lemma {:induction false} FormatChatHistoryAppend(a: seq<Message>, b: seq<Message>)
    ensures FormatChatHistory(a + b) == FormatChatHistory(a) + FormatChatHistory(b)
    decreases |a|
  {
    if |a| == 0 {
      assert a + b == b;
    } else {
      var m := a[0];
      assert a == [m] + a[1..];
      assert a + b == [m] + (a[1..] + b);
      FormatChatHistoryCons(m, a[1..] + b);
      FormatChatHistoryCons(m, a[1..]);
      FormatChatHistoryAppend(a[1..], b);
    }
  }

  /** A single turn maps by its role, and the content is carried over unchanged. */
  lemma FormatChatHistoryOne(m: Message)
    ensures m.role == "user" ==> FormatChatHistory([m]) == [HumanMessage(m.content)]
    ensures m.role == "assistant" ==> FormatChatHistory([m]) == [AIMessage(m.content)]
    ensures !IsChatRole(m.role) ==> FormatChatHistory([m]) == []
  {
    assert [m][1..] == [];
  }

  // ---------------------------------------------------------------------
  // Query expansion
  // ---------------------------------------------------------------------

  /** The synonym table of `enhance_search_query`, in dictionary order. */
  const SynonymTable: seq<(string, seq<string>)> := [
    ("car", ["auto", "vehicle", "automobile"]),
    ("auto", ["car", "vehicle", "automobile"]),
    ("health", ["medical", "healthcare", "wellness"]),
    ("home", ["house", "property", "dwelling", "homeowner"]),
    ("life", ["death benefit", "term life", "whole life"]),
    ("premium", ["cost", "payment", "fee", "price"]),
    ("deductible", ["out-of-pocket", "expense"]),
    ("claim", ["filing claim", "claim process", "submit claim"]),
    ("coverage", ["protection", "insure against", "policy covers"])
  ]

  /** The table keys, in order. */
  function SynonymKeys(table: seq<(string, seq<string>)>): (keys: seq<string>)
    ensures |keys| == |table|
    ensures forall k :: 0 <= k < |table| ==> keys[k] == table[k].0
  {
    seq(|table|, k requires 0 <= k < |table| => table[k].0)
  }

  /**
   * The loop collecting `expanded_terms`: the related terms of every key
   * contained in `q`, key by key in table order.
   */
  function ExpandedTerms(q: string, table: seq<(string, seq<string>)>): (terms: seq<string>)
    ensures forall k, j :: 0 <= k < |table| && Occurs(q, table[k].0) && 0 <= j < |table[k].1| ==>
      table[k].1[j] in terms
    ensures forall t :: t in terms ==> exists k :: 0 <= k < |table| && Occurs(q, table[k].0) && t in table[k].1
    ensures (forall k :: 0 <= k < |table| ==> |table[k].1| > 0) ==>
      (|terms| == 0 <==> forall k :: 0 <= k < |table| ==> !Occurs(q, table[k].0))
    decreases |table|
  {
    if |table| == 0 then []
    else
      var rest := ExpandedTerms(q, table[1..]);
      assert forall k :: 1 <= k < |table| ==> table[k] == table[1..][k - 1];
      if Contains(q, table[0].0) then table[0].1 + rest else rest
  }

  /** Collection goes key by key: the terms of a split table are the terms of each part, in order. */
  lemma {:induction false} ExpandedTermsAppend(q: string, a: seq<(string, seq<string>)>, b: seq<(string, seq<string>)>)
    ensures ExpandedTerms(q, a + b) == ExpandedTerms(q, a) + ExpandedTerms(q, b)
    decreases |a|
  {
    if |a| == 0 {
      assert a + b == b;
    } else {
      assert (a + b)[1..] == a[1..] + b;
      ExpandedTermsAppend(q, a[1..], b);
    }
  }

  /** A one-entry table contributes its related terms exactly when its key is contained in the query. */
  lemma ExpandedTermsOne(q: string, key: string, related: seq<string>)
    ensures Occurs(q, key) ==> ExpandedTerms(q, [(key, related)]) == related
    ensures !Occurs(q, key) ==> ExpandedTerms(q, [(key, related)]) == []
  {
    assert [(key, related)][1..] == [];
  }

  /** Every key of the table has at least one related term. */
  ghost predicate RelatedNonEmpty(table: seq<(string, seq<string>)>) {
    forall k :: 0 <= k < |table| ==> |table[k].1| > 0
  }

  /**
   * The expansion step for an already lower-cased query `q`: `q` itself
   * when no key occurs, else `q`, a space and the related terms joined by
   * spaces.
   */
  function Expand(q: string, table: seq<(string, seq<string>)>): (r: string)
    ensures StartsWith(r, q)
    ensures RelatedNonEmpty(table) ==> (r == q <==> !HasAny(q, SynonymKeys(table)))
    ensures forall k, j :: 0 <= k < |table| && Occurs(q, table[k].0) && 0 <= j < |table[k].1| ==>
      Occurs(r, table[k].1[j])
  {
    var expanded := ExpandedTerms(q, table);
    assert HasAny(q, SynonymKeys(table)) <==> exists k :: 0 <= k < |table| && Occurs(q, table[k].0);
    if |expanded| > 0 then
      var joined := Join(" ", expanded);
      var r := q + " " + joined;
      assert r[..|q|] == q;
      forall t | t in expanded
        ensures Occurs(r, t)
      {
        var i :| 0 <= i < |expanded| && expanded[i] == t;
        OccursExtend(joined, t, q + " ", "");
        assert q + " " + joined + "" == r;
      }
      r
    else
      q
  }

  /** `enhance_search_query`: the synonym expansion of the lower-cased query. */
  function EnhanceSearchQuery(query: string): (r: string)
    ensures StartsWith(r, Lower(query))
    ensures r == Lower(query) <==> !HasAny(Lower(query), SynonymKeys(SynonymTable))
    ensures forall k, j ::
      (0 <= k < |SynonymTable| && Occurs(Lower(query), SynonymTable[k].0) && 0 <= j < |SynonymTable[k].1|) ==>
      Occurs(r, SynonymTable[k].1[j])
  {
    SynonymTableRelatedNonEmpty();
    Expand(Lower(query), SynonymTable)
  }

  /**
   * When some key matches, the enhanced query is the lower-cased query, one
   * space, and the collected related terms separated by single spaces.
   */
  lemma EnhancedQueryShape(query: string)
    requires HasAny(Lower(query), SynonymKeys(SynonymTable))
    ensures |ExpandedTerms(Lower(query), SynonymTable)| > 0
    ensures EnhanceSearchQuery(query) == Lower(query) + " " + Join(" ", ExpandedTerms(Lower(query), SynonymTable))
  {
    SynonymTableRelatedNonEmpty();
  }

  lemma SynonymTableRelatedNonEmpty()
    ensures RelatedNonEmpty(SynonymTable)
  {
  }

  // ---------------------------------------------------------------------
  // Retrieval
  // ---------------------------------------------------------------------

  /** The `page_content` of each retrieved document, in retrieval order. */
  function Contents(docs: seq<Document>): (r: seq<string>)
    ensures |r| == |docs|
    ensures forall k :: 0 <= k < |docs| ==> r[k] == docs[k].content
  {
    seq(|docs|, k requires 0 <= k < |docs| => docs[k].content)
  }

  /**
   * `get_relevant_context`.  `search(store, q, k)` is the store's
   * `similarity_search`, `None` when it raises; a missing store raises too.
   * Any exception yields the empty string.
   */
  function GetRelevantContext(query: string, store: Option<VectorStore>,
                              search: (VectorStore, string, nat) -> Option<seq<Document>>,
                              maxDocs: nat): (r: string)
    ensures store.None? ==> r == ""
    ensures store.Some? && search(store.value, EnhanceSearchQuery(query), maxDocs).None? ==> r == ""
    ensures store.Some? && search(store.value, EnhanceSearchQuery(query), maxDocs).Some? ==>
      var docs := search(store.value, EnhanceSearchQuery(query), maxDocs).value;
      (|docs| == 0 ==> r == "") &&
      (|docs| > 0 ==> StartsWith(r, docs[0].content)) &&
      (forall k :: 0 <= k < |docs| ==> Occurs(r, docs[k].content))
  {
    match store
    case None => ""
    case Some(s) =>
      match search(s, EnhanceSearchQuery(query), maxDocs)
      case None => ""
      case Some(docs) => Join("\n\n", Contents(docs))
  }

  /** The context pieces are separated by one blank line, first retrieved first. */
  lemma GetRelevantContextShape(query: string, store: VectorStore,
                                search: (VectorStore, string, nat) -> Option<seq<Document>>,
                                maxDocs: nat, first: Document, more: seq<Document>)
    requires |more| > 0
    requires search(store, EnhanceSearchQuery(query), maxDocs) == Some([first] + more)
    ensures GetRelevantContext(query, Some(store), search, maxDocs) ==
      first.content + "\n\n" + GetRelevantContext(query, Some(store), (s, q, k) => Some(more), maxDocs)
  {
    GetRelevantContextFound(query, store, search, maxDocs);
    GetRelevantContextFound(query, store, (s, q, k) => Some(more), maxDocs);
    ContentsCons(first, more);
    JoinCons("\n\n", first.content, Contents(more));
  }

  /** Taking contents commutes with putting one document in front. */
  lemma ContentsCons(first: Document, more: seq<Document>)
    ensures Contents([first] + more) == [first.content] + Contents(more)
  {
  }

  /** With a store and a successful search, the context is the retrieved contents joined by blank lines. */
  lemma GetRelevantContextFound(query: string, store: VectorStore,
                                search: (VectorStore, string, nat) -> Option<seq<Document>>, maxDocs: nat)
    requires search(store, EnhanceSearchQuery(query), maxDocs).Some?
    ensures GetRelevantContext(query, Some(store), search, maxDocs) ==
      Join("\n\n", Contents(search(store, EnhanceSearchQuery(query), maxDocs).value))
  {
  }

  // ---------------------------------------------------------------------
  // Intent detection
  // ---------------------------------------------------------------------

  const ComparisonTerms: seq<string> := ["compare", "difference between", "versus", "vs"]
  const PolicyTypes: seq<string> := ["auto", "car", "health", "home", "life"]
  const SummaryTerms: seq<string> := ["summary", "overview", "brief", "what is"]
  const SummaryTypes: seq<string> :=
    ["auto insurance", "car insurance", "health insurance", "home insurance", "life insurance"]
  const DefinitionTerms: seq<string> := ["what is a", "what does", "mean", "define", "explanation"]
  const ExplainedTerms: seq<string> := ["premium", "deductible", "claim", "coverage", "policy", "rider"]

  /** The comparison intent: a comparison word and at least two distinct policy types. */
  ghost predicate WantsComparison(q: string) {
    HasAny(q, ComparisonTerms) && HasTwo(q, PolicyTypes)
  }

  /** The summary intent applies: a summary word and some "<type> insurance" phrase. */
  ghost predicate WantsSummary(q: string) {
    HasAny(q, SummaryTerms) && HasAny(q, SummaryTypes)
  }

  /** The term-explanation intent applies: a definition word and some known term. */
  ghost predicate WantsExplanation(q: string) {
    HasAny(q, DefinitionTerms) && HasAny(q, ExplainedTerms)
  }

  /** The three intent strings never collide: they differ in their first character. */
  lemma IntentTagsDiffer(x: string, y: string)
    ensures "summary:" + x != "comparison"
    ensures "term_explanation:" + y != "comparison"
    ensures "summary:" + x != "term_explanation:" + y
  {
    assert ("summary:" + x)[0] == 's';
    assert ("term_explanation:" + y)[0] == 't';
  }

  /** Intent detection on a query that is already lower-cased. */
  function DetectLowered(q: string): (r: Option<string>)
    ensures r == Some("comparison") <==> WantsComparison(q)
    ensures !WantsComparison(q) && HasAny(q, SummaryTerms) ==>
      forall k :: FirstOccurring(q, SummaryTypes, k) ==> r == Some("summary:" + SummaryTypes[k])
    ensures !WantsComparison(q) && !WantsSummary(q) && HasAny(q, DefinitionTerms) ==>
      forall k :: FirstOccurring(q, ExplainedTerms, k) ==> r == Some("term_explanation:" + ExplainedTerms[k])
    ensures r.None? <==> !WantsComparison(q) && !WantsSummary(q) && !WantsExplanation(q)
  {
    var summaryType := FirstContained(q, SummaryTypes);
    var term := FirstContained(q, ExplainedTerms);
    IntentTagsDiffer(summaryType.GetOr(""), term.GetOr(""));
    if ContainsAny(q, ComparisonTerms) && ContainsTwo(q, PolicyTypes) then
      Some("comparison")
    else if ContainsAny(q, SummaryTerms) && summaryType.Some? then
      Some("summary:" + summaryType.value)
    else if ContainsAny(q, DefinitionTerms) && term.Some? then
      Some("term_explanation:" + term.value)
    else
      None
  }

  /**
   * `detect_query_intent`: checks comparison, then summary, then term
   * explanation on the lower-cased query, and returns the first that
   * applies; a summary or explanation carries the first matching table
   * entry after the colon.
   */
  function DetectQueryIntent(query: string): (r: Option<string>)
    ensures r == Some("comparison") <==> WantsComparison(Lower(query))
    ensures !WantsComparison(Lower(query)) && HasAny(Lower(query), SummaryTerms) ==>
      forall k :: FirstOccurring(Lower(query), SummaryTypes, k) ==> r == Some("summary:" + SummaryTypes[k])
    ensures !WantsComparison(Lower(query)) && !WantsSummary(Lower(query)) && HasAny(Lower(query), DefinitionTerms) ==>
      forall k :: FirstOccurring(Lower(query), ExplainedTerms, k) ==> r == Some("term_explanation:" + ExplainedTerms[k])
    ensures r.None? <==>
      !WantsComparison(Lower(query)) && !WantsSummary(Lower(query)) && !WantsExplanation(Lower(query))
  {
    DetectLowered(Lower(query))
  }

  /** Intent detection looks only at the lower-cased query. */
  lemma DetectQueryIntentCaseInsensitive(query: string)
    ensures DetectQueryIntent(Lower(query)) == DetectQueryIntent(query)
  {
    LowerIdempotent(query);
  }

  // ---------------------------------------------------------------------
  // Prompt selection
  // ---------------------------------------------------------------------

  /** `s.split(":", 1)[1]`: the text after the first colon. */
  function AfterFirstColon(s: string): (r: string)
    requires ':' in s
    ensures |r| < |s|
    ensures s[|s| - |r| - 1] == ':' && ':' !in s[..|s| - |r| - 1]
    ensures r == s[|s| - |r|..]
    decreases |s|
  {
    if s[0] == ':' then s[1..] else AfterFirstColon(s[1..])
  }

  /** Splitting `prefix + ":" + payload` at the first colon gives back `payload` when `prefix` has no colon. */
  lemma {:induction false} AfterFirstColonPayload(prefix: string, payload: string)
    requires ':' !in prefix
    ensures AfterFirstColon(prefix + ":" + payload) == payload
    decreases |prefix|
  {
    var s := prefix + ":" + payload;
    if |prefix| == 0 {
      assert s[1..] == payload;
    } else {
      assert s[1..] == prefix[1..] + ":" + payload;
      AfterFirstColonPayload(prefix[1..], payload);
    }
  }

  /** For an intent string `tag:payload` whose tag has no colon, the split returns `payload`. */
  lemma AfterTagColon(s: string, tag: string)
    requires ':' !in tag
    requires StartsWith(s, tag + ":")
    ensures ':' in s
    ensures AfterFirstColon(s) == s[|tag| + 1..]
  {
    assert s == tag + ":" + s[|tag| + 1..];
    assert s[|tag|] == ':';
    AfterFirstColonPayload(tag, s[|tag| + 1..]);
  }

  /** `intent.split(":", 1)[1]` for an intent that starts with `tag:`: the text after the tag and its colon. */
  function TagPayload(s: string, tag: string): (r: string)
    requires ':' !in tag
    requires StartsWith(s, tag + ":")
    ensures r == s[|tag| + 1..]
  {
    AfterTagColon(s, tag);
    AfterFirstColon(s)
  }

  /** The prefix that marks a summary intent. */
  const SummaryPrefix := "summary:"
  /** The prefix that marks a term-explanation intent. */
  const TermPrefix := "term_explanation:"

  /**
   * The template `select_prompt_template` picks and the values it passes to
   * `format`: the question and context for no intent (Python treats `None`
   * and `""` alike), the policy types found in the query for comparison,
   * the text after the first colon for summary and term explanation, and
   * the default template for any other intent string.
   */
  function PromptChoice(query: string, intent: Option<string>, context: string): (choice: (TemplateId, map<string, string>))
    ensures choice.1.Keys == DeclaredNames(choice.0)
    ensures choice.0 != Fallback
    ensures choice.1["context"] == context
    ensures (intent.None? || intent == Some("")) ==> choice.0 == Assistant && choice.1["question"] == query
    ensures intent == Some("comparison") ==>
      choice.0 == Comparison && choice.1["policy_types"] == Join(", ", FilterContained(Lower(query), PolicyTypes))
    ensures intent.Some? && intent.value != "comparison" && StartsWith(intent.value, SummaryPrefix) ==>
      choice.0 == Summary && choice.1["policy_type"] == intent.value[|SummaryPrefix|..]
    ensures intent.Some? && intent.value != "comparison" && StartsWith(intent.value, TermPrefix) ==>
      choice.0 == TermExplanation && choice.1["term"] == intent.value[|TermPrefix|..]
    ensures choice.0 == Assistant <==>
      intent.None? ||
      (intent.value != "comparison" && !StartsWith(intent.value, SummaryPrefix) && !StartsWith(intent.value, TermPrefix))
    ensures choice.0 == Assistant ==> choice.1["question"] == query
  {
    if intent.None? || intent.value == "" then
      (Assistant, map["context" := context, "question" := query])
    else if intent.value == "comparison" then
      var types := FilterContained(Lower(query), PolicyTypes);
      (Comparison, map["context" := context, "policy_types" := Join(", ", types)])
    else if StartsWith(intent.value, SummaryPrefix) then
      (Summary, map["context" := context, "policy_type" := TagPayload(intent.value, "summary")])
    else if StartsWith(intent.value, TermPrefix) then
      (TermExplanation, map["context" := context, "term" := TagPayload(intent.value, "term_explanation")])
    else
      (Assistant, map["context" := context, "question" := query])
  }

  /** `select_prompt_template`: the chosen template formatted with the chosen values; formatting never fails. */
  function SelectPromptTemplate(query: string, intent: Option<string>, context: string): (r: string)
    ensures var choice := PromptChoice(query, intent, context);
      Render(TemplateOf(choice.0), choice.1) == Some(r)
  {
    var choice := PromptChoice(query, intent, context);
    DeclaredNamesAgree(choice.0);
    var rendered := Render(TemplateOf(choice.0), choice.1);
    if rendered.Some? then rendered.value else assert false; ""
  }

  /** A detected comparison names at least two policy types in the prompt. */
  lemma DetectThenSelectComparison(query: string, context: string)
    requires DetectQueryIntent(query) == Some("comparison")
    ensures var choice := PromptChoice(query, DetectQueryIntent(query), context);
      choice.0 == Comparison && |FilterContained(Lower(query), PolicyTypes)| >= 2
  {
    FilterContainedTwo(Lower(query), PolicyTypes);
  }

  /**
   * Detection and selection fit together for summaries: the payload
   * `detect_query_intent` puts after the colon is a "<type> insurance"
   * phrase of its table, and it is exactly what the summary template receives.
   */
  lemma DetectThenSelectSummary(query: string, context: string, p: string)
    requires DetectQueryIntent(query) == Some(SummaryPrefix + p)
    ensures p in SummaryTypes
    ensures var choice := PromptChoice(query, DetectQueryIntent(query), context);
      choice.0 == Summary && choice.1["policy_type"] == p
  {
    var q := Lower(query);
    var summaryType := FirstContained(q, SummaryTypes);
    var term := FirstContained(q, ExplainedTerms);
    IntentTagsDiffer(summaryType.GetOr(""), term.GetOr(""));
    IntentTagsDiffer(p, term.GetOr(""));
    assert (SummaryPrefix + p)[..|SummaryPrefix|] == SummaryPrefix;
    assert (SummaryPrefix + p)[|SummaryPrefix|..] == p;
    if summaryType.Some? {
      assert (SummaryPrefix + summaryType.value)[|SummaryPrefix|..] == summaryType.value;
    }
  }

  /**
   * Detection and selection fit together for term explanations: the
   * payload is one of the known terms and is what the template receives.
   */
  lemma DetectThenSelectTerm(query: string, context: string, p: string)
    requires DetectQueryIntent(query) == Some(TermPrefix + p)
    ensures p in ExplainedTerms
    ensures var choice := PromptChoice(query, DetectQueryIntent(query), context);
      choice.0 == TermExplanation && choice.1["term"] == p
  {
    var q := Lower(query);
    var summaryType := FirstContained(q, SummaryTypes);
    var term := FirstContained(q, ExplainedTerms);
    IntentTagsDiffer(summaryType.GetOr(""), term.GetOr(""));
    IntentTagsDiffer(summaryType.GetOr(""), p);
    assert (TermPrefix + p)[..|TermPrefix|] == TermPrefix;
    assert (TermPrefix + p)[|TermPrefix|..] == p;
    if term.Some? {
      assert (TermPrefix + term.value)[|TermPrefix|..] == term.value;
    }
  }

  /** No detected intent means the default assistant template with the question. */
  lemma DetectThenSelectDefault(query: string, context: string)
    requires DetectQueryIntent(query).None?
    ensures var choice := PromptChoice(query, DetectQueryIntent(query), context);
      choice.0 == Assistant && choice.1 == map["context" := context, "question" := query]
  {
  }
}
