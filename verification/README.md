# BSFI insurance chatbot — a Dafny model of its query heuristics and session state

The BSFI chatbot answers questions about insurance policies. It retrieves
passages from a FAISS index of policy documents and asks Gemini to answer
with them. Almost everything around the model call is the application's own
logic:

- string classifiers over fixed keyword tables decide:
  - whether a question is about insurance at all;
  - whether to offer a human agent;
  - which prompt template to use;
  - how hard a question is;
  - how good an answer looks;
- a small session record holds the chat history, a 10-message context
  window, a query log and the loaded knowledge base;
- a post-processing loop gives each document chunk that lacks a `source` the first document's, when that document has one;
- five prompt templates with named placeholders.

This project models those pieces as pure Dafny functions over immutable
data and proves what they promise. Strings are `seq<char>` and lower-casing
is ASCII. Substring containment (`k in s`) is `Strings.Contains`.
Whole-word regular-expression search (`\b(...)\b`) is `Words.SearchWord`
over an ASCII word-boundary predicate. `str.split()` is `Words.Split`, and
`re.split('[...]+', s)` is `Words.ReSplit`. Each scan is a recursive
function proved equal to a quantified definition: `Occurs`, `WordOccurs`,
`HasAny`, `HasTwo`, `FirstOccurring`, `HasWord`, `HasTwoWords`. Word and
sentence counts are stated against `RunCount`, the number of positions
that begin a maximal run of a character class. The
contracts of the chatbot's operations are stated in those terms.

Modules (one per source file, plus shared helpers):

- **Wrappers** (`Option`).
- **Strings**: lower-casing, containment, join.
- **Words**: word boundaries, `split`, `re.split`.
- **Tables**: `any` / first / count / filter over a list.
- **Keywords**: a keyword table scanned over a string.
- **Entities**: message, document, vector store.
- **PromptTemplates**
- **ChatUtils**
- **InsuranceChatbot**
- **Evaluation**
- **DocumentProcessor**
- **SessionManager**

The outside world is passed in as parameters, never modelled:

- the conversational chain is `string -> ChainResult`;
- similarity search is `(VectorStore, string, nat) -> Option<seq<Document>>`, where `None` means it raised;
- the text splitter is `(seq<Document>, SplitterConfig) -> Option<seq<Document>>`;
- the embedder is a success predicate on the chunk list;
- the documents `load_documents` returned are a plain argument.

Some facts about the code that the model keeps exactly:

- `_is_insurance_related` checks 25 keywords (insurance_chatbot.py:144-149).
- `_should_escalate` matches its indicator phrases case-sensitively against the raw answer, and its topics against the lower-cased question (insurance_chatbot.py:154-189).
- `get_response` returns the chain's answer as it is, or that answer followed by the agent offer (insurance_chatbot.py:111-118).
- The chunk-source fallback copies the `source` of `documents[0]`, when it has one, into every chunk that lacks one (utils/document_processor.py:77-79).

## Model

| member | source | states |
|---|---|---|
| Strings.Contains | insurance_chatbot.py:152 | Python's `keyword in text` is true exactly when the keyword occurs at some position of the text |
| Strings.Lower | utils/chat_utils.py:84 | `str.lower()` keeps the length, maps each character to its lower-case form, and leaves no upper-case ASCII letter |
| Strings.Join | utils/chat_utils.py:67 | `sep.join(xs)` is empty for no pieces and the piece itself for one; otherwise it is the first piece, `sep`, then the join of the rest; it starts with the first piece and contains every piece |
| Words.SearchWord | utils/evaluation.py:33 | `re.search(r'\b' + w + r'\b', s)` succeeds exactly when `w` occurs in `s` with an ASCII word boundary on both sides |
| Words.Split | utils/evaluation.py:53 | `str.split()` yields non-empty pieces without whitespace, as many pieces as there are maximal runs of non-whitespace characters, and together the pieces hold exactly the non-whitespace characters in order |
| Words.SplitJoin | utils/evaluation.py:53 | splitting words joined by single spaces gives the words back |
| Words.ReSplit | utils/evaluation.py:54 | `re.split('[...]+', s)` yields one piece more than there are maximal runs of delimiters; so at least one, at least two exactly when a delimiter occurs; no piece holds a delimiter |
| Words.ReSplitMoreThanTwo | utils/evaluation.py:127 | splitting on runs of `?` yields more than two pieces exactly when there are two separate groups of delimiters |
| Words.ReSplitMoreThanTwoIf | utils/evaluation.py:127 | two separate groups of delimiters give more than two pieces |
| Words.ReSplitMoreThanTwoOnlyIf | utils/evaluation.py:127 | more than two pieces can only come from two separate groups of delimiters |
| Tables.Count | utils/chat_utils.py:126 | the `sum(1 for ... if ...)` count reaches 1 exactly when some element qualifies, and 2 exactly when two distinct positions do |
| Tables.Filter | utils/chat_utils.py:165-168 | the filtered list keeps exactly the qualifying elements, in order, with no duplicates when the input has none |
| Tables.FilterCount | utils/chat_utils.py:165-168 | the filtered list is as long as the count of qualifying elements |
| Keywords.FirstContained | utils/chat_utils.py:131-133 | the first table entry contained in the text, or none exactly when no entry is contained |
| Keywords.FilterContainedTwo | utils/chat_utils.py:165-170 | the list of contained entries has two or more elements exactly when two distinct entries are contained |
| Keywords.FilterContainedTwoIf | utils/chat_utils.py:165-170 | two distinct contained entries leave at least two in the list |
| Keywords.FilterContainedTwoOnlyIf | utils/chat_utils.py:165-170 | two listed entries are two distinct contained entries |
| Keywords.FilterWordsThresholds | utils/evaluation.py:31-36 | the list of whole-word matches is non-empty exactly when some entry occurs as a word, and has two elements exactly when two distinct entries do |
| Keywords.FilterWordsOne | utils/evaluation.py:31-36 | the whole-word list is non-empty exactly when some entry occurs as a word |
| Keywords.FilterWordsTwoIf | utils/evaluation.py:31-36 | two distinct entries occurring as words leave at least two in the list |
| Keywords.FilterWordsTwoOnlyIf | utils/evaluation.py:31-36 | two listed entries are two distinct entries occurring as words |
| Keywords.SearchAnyWord | utils/evaluation.py:56-59 | the alternation search `\b(...)\b` over a table of words matches exactly when some entry occurs as a whole word |
| Keywords.HasAnyExtend | insurance_chatbot.py:152 | containing a keyword survives adding text on either side |
| ChatUtils.FormatChatHistory | utils/chat_utils.py:24-42 | never more LangChain messages than input messages |
| ChatUtils.FormatChatHistoryKeepsAll | utils/chat_utils.py:36-42 | as many LangChain messages as input messages exactly when every role is `user` or `assistant` |
| ChatUtils.FormatChatHistoryAppend | utils/chat_utils.py:36-42 | the conversion goes message by message: converting a concatenation concatenates the conversions, so order is kept |
| ChatUtils.FormatChatHistoryOne | utils/chat_utils.py:37-40 | a `user` message becomes a HumanMessage, an `assistant` message an AIMessage, any other role is dropped |
| ChatUtils.ExpandedTerms | utils/chat_utils.py:100-103 | every related term of every key contained in the query is collected, and only such terms; with non-empty term lists, nothing is collected exactly when no key is contained |
| ChatUtils.ExpandedTermsAppend | utils/chat_utils.py:100-103 | related terms are collected key by key in table order |
| ChatUtils.ExpandedTermsOne | utils/chat_utils.py:101-103 | a key contributes all its related terms exactly when it is contained in the query |
| ChatUtils.EnhanceSearchQuery | utils/chat_utils.py:73-110 | the result starts with the lower-cased query; equals it exactly when no synonym key is contained; contains every related term of every contained key |
| ChatUtils.EnhancedQueryShape | utils/chat_utils.py:106-108 | with a matching key, the result is the lower-cased query, a space, and the collected terms joined by spaces |
| ChatUtils.GetRelevantContext | utils/chat_utils.py:44-71 | no store or a failed search gives `""`; otherwise the result starts with the first document's text and contains every retrieved text |
| ChatUtils.GetRelevantContextFound | utils/chat_utils.py:58-68 | with a store and a successful search, the context is the retrieved texts joined by blank lines |
| ChatUtils.GetRelevantContextShape | utils/chat_utils.py:67 | retrieved texts are separated by one blank line, first retrieved first |
| ChatUtils.DetectQueryIntent | utils/chat_utils.py:112-142 | `comparison` exactly when a comparison word and two distinct policy types occur; else `summary:` plus the first "<type> insurance" phrase when a summary word occurs; else `term_explanation:` plus the first known term when a definition word occurs; none exactly when no category applies |
| ChatUtils.DetectQueryIntentCaseInsensitive | utils/chat_utils.py:122 | the intent depends only on the lower-cased query |
| ChatUtils.AfterFirstColon | utils/chat_utils.py:177-184 | `s.split(":", 1)[1]` is the text after the first colon: the character before it is a colon, and no earlier character is |
| ChatUtils.AfterFirstColonPayload | utils/chat_utils.py:177 | `intent.split(":", 1)[1]` recovers the payload after a colon-free tag |
| ChatUtils.PromptChoice | utils/chat_utils.py:156-194 | the values passed to `format` are exactly the chosen template's placeholders, context always among them; comparison gives the `", "`-joined policy types found; summary and term intents pass the text after the tag; the assistant template with the question is chosen exactly when there is no intent or an intent that is none of these three |
| ChatUtils.SelectPromptTemplate | utils/chat_utils.py:144-194 | the prompt is the chosen template rendered with the chosen values, and rendering never fails |
| ChatUtils.DetectThenSelectComparison | utils/chat_utils.py:163-174 | a detected comparison puts at least two policy types into the comparison prompt |
| ChatUtils.DetectThenSelectSummary | utils/chat_utils.py:130-133 | a detected summary payload is one of the five "<type> insurance" phrases and is what the summary template receives |
| ChatUtils.DetectThenSelectTerm | utils/chat_utils.py:136-139 | a detected explanation payload is one of the six known terms and is what the explanation template receives |
| ChatUtils.DetectThenSelectDefault | utils/chat_utils.py:156-161 | no detected intent selects the assistant template with context and question |
| PromptTemplates.Placeholders | utils/prompt_templates.py:7-78 | a name is a placeholder of a template exactly when the template has a `{name}` hole |
| PromptTemplates.Render | utils/chat_utils.py:158-161 | `format` succeeds exactly when every placeholder has a value |
| PromptTemplates.RenderShowsValues | utils/chat_utils.py:171-174 | every supplied placeholder value appears in the rendered prompt |
| PromptTemplates.RenderSelfIsSource | utils/prompt_templates.py:7-20 | rendering each placeholder as its own `{name}` gives back the template text |
| PromptTemplates.DeclaredNamesAgree | utils/prompt_templates.py:7-78 | each template's placeholder set is the set of names declared for it |
| PromptTemplates.InsuranceAssistantPromptPlaceholders | utils/prompt_templates.py:7-20 | the assistant template's placeholders are exactly `context` and `question` |
| PromptTemplates.FallbackPromptPlaceholders | utils/prompt_templates.py:23-35 | the fallback template's only placeholder is `question` |
| PromptTemplates.PolicySummaryPromptPlaceholders | utils/prompt_templates.py:38-44 | the summary template's placeholders are exactly `policy_type` and `context` |
| PromptTemplates.PolicyComparisonPromptPlaceholders | utils/prompt_templates.py:47-61 | the comparison template's placeholders are exactly `policy_types` and `context` |
| PromptTemplates.TermExplanationPromptPlaceholders | utils/prompt_templates.py:64-78 | the explanation template's placeholders are exactly `term` and `context` |
| InsuranceChatbot.IsInsuranceRelated | insurance_chatbot.py:134-152 | true exactly when one of the 25 keywords is contained in the lower-cased query |
| InsuranceChatbot.InsuranceRelatedMonotone | insurance_chatbot.py:151-152 | adding text around an insurance question keeps it an insurance question |
| InsuranceChatbot.ShouldEscalate | insurance_chatbot.py:154-189 | true exactly when the raw answer contains an indicator phrase (case-sensitive) or the lower-cased query contains a complex topic |
| InsuranceChatbot.EscalationMonotone | insurance_chatbot.py:185-189 | adding text to the query or to the answer never turns escalation off |
| InsuranceChatbot.IndicatorEscalates | insurance_chatbot.py:187 | any indicator phrase in the answer escalates, whatever the query |
| InsuranceChatbot.EscalatedReply | insurance_chatbot.py:112-116 | the escalated reply is the answer followed by a blank line and the fixed agent offer, whatever the answer |
| InsuranceChatbot.ErrorReply | insurance_chatbot.py:127-132 | the apology is the fixed opening text, then the exception type name, then the fixed closing text |
| InsuranceChatbot.ErrorReplyNamesType | insurance_chatbot.py:127-132 | the apology contains the exception type name, and different types give different apologies |
| InsuranceChatbot.GetResponse | insurance_chatbot.py:85-132 | off-topic questions get the refusal and the chain is not consulted; a raising chain gives the apology naming the exception type; an answered question gets the answer reply, escalated by the `_should_escalate` verdict on that question and answer |
| InsuranceChatbot.AnswerReply | insurance_chatbot.py:111-118 | the reply starts with the answer; it is the answer plus the agent offer exactly when escalating, and the bare answer exactly when not |
| InsuranceChatbot.GetResponseAnswered | insurance_chatbot.py:106-118 | an answered insurance question gets a reply that starts with the answer, carries the agent offer exactly when escalation applies, and is the bare answer exactly when it does not |
| InsuranceChatbot.OffTopicSkipsChain | insurance_chatbot.py:97-101 | for an off-topic question the reply does not depend on the chain |
| InsuranceChatbot.ReplyDependsOnChainAtQuery | insurance_chatbot.py:106 | the chain is consulted only on the question itself |
| Evaluation.PolicyTermsDistinct | utils/evaluation.py:21-29 | the 25 policy terms are pairwise distinct |
| Evaluation.ExtractPolicyEntities | utils/evaluation.py:10-36 | the result lists, in table order and without repeats, exactly the policy terms that occur as whole words in the lower-cased text; at most 25 |
| Evaluation.EntityCountThresholds | utils/evaluation.py:31-36 | one entity is found exactly when some term occurs as a word, two exactly when two distinct terms do |
| Evaluation.AnalyzeQueryDifficulty | utils/evaluation.py:111-139 | complex exactly when two policy terms, a comparison word, a hypothetical marker or two `?` groups occur; intermediate exactly when not complex and a specificity word, more than 15 words or exactly one policy term occurs; basic otherwise |
| Evaluation.AnalyzeQueryDifficultyLabel | utils/evaluation.py:134-139 | the label is one of `basic`, `intermediate`, `complex`, and `complex` exactly for complex questions |
| Evaluation.AssessResponseQuality | utils/evaluation.py:38-69 | the term count is the number of extracted terms; the word count is the number of maximal non-whitespace runs; the sentence count is one more than the number of maximal runs of `.`, `!`, `?`, so at least one and two or more exactly when a sentence end occurs; markdown and uncertainty flags exactly as their searches; `high` exactly when more than 50 words, two distinct policy terms and no uncertain phrase |
| Evaluation.AssessIgnoresQuery | utils/evaluation.py:50-68 | the assessment depends on the response only |
| DocumentProcessor.CopySource | utils/document_processor.py:78-79 | the copied chunk keeps its text and other metadata, gets the first document's `source`, and gains no other key |
| DocumentProcessor.FillMissingSources | utils/document_processor.py:76-79 | no chunk is added, removed or reordered; chunks with a `source` are untouched; a chunk without one gets `documents[0]`'s when it has one and is otherwise unchanged; the loop raises exactly when there are no documents and some chunk lacks a source |
| DocumentProcessor.FillGivesEverySource | utils/document_processor.py:77-79 | when the first document has a source, every chunk ends up with one |
| DocumentProcessor.SplitDocuments | utils/document_processor.py:55-85 | a raising splitter or loop gives `[]`; otherwise exactly the splitter's chunks after the source fallback, so the same number, the same texts and the filled-in `source` metadata |
| DocumentProcessor.CreateVectorStore | utils/document_processor.py:87-117 | no chunks means no store; a store exists exactly when there are chunks and embedding them succeeds, and it holds exactly those chunks |
| DocumentProcessor.EmptyChunksSkipEmbedding | utils/document_processor.py:99-101 | with no chunks the embedder is never consulted |
| SessionManager.InitializeSessionState | utils/session_manager.py:10-37 | afterwards every managed key is present; present keys keep their values and missing keys get their defaults |
| SessionManager.InitializeIdempotent | utils/session_manager.py:16-37 | initialising twice equals initialising once, and a ready session is left unchanged |
| SessionManager.InitializedFreshHasWindow | utils/session_manager.py:28-29 | a freshly initialised session satisfies the context-window invariant |
| SessionManager.AddMessage | utils/session_manager.py:39-54 | exactly one message is appended with earlier ones unchanged; the context is the last at most 10 of the old context plus the message; nothing else changes |
| SessionManager.AddMessageKeepsWindow | utils/session_manager.py:50-54 | if the context was the last 10 messages, it still is after adding one |
| SessionManager.PySuffix | utils/session_manager.py:66 | `xs[-n:]`: the last `n` for positive `n`, everything for `n = 0`, all but the first `-n` (or nothing) for negative `n` |
| SessionManager.GetLastNMessages | utils/session_manager.py:56-66 | a positive `n` gives the last `min(n, len)` messages; `n = 0` gives the whole history; a negative `n` drops the first `-n`; the result is always a suffix |
| SessionManager.LastZeroReturnsWholeHistory | utils/session_manager.py:66 | asking for the last zero messages of a non-empty history returns all of them |
| SessionManager.DefaultCallIsIntended | utils/session_manager.py:56-66 | the default call with `n = 5` returns the at most five most recent messages, as the intended reading does |
| SessionManager.GetLastNMessagesCorrected | utils/session_manager.py:56-64 | at most `n` messages, exactly `min(n, len)`, the most recent ones |
| SessionManager.CorrectedAgreesAwayFromZero | utils/session_manager.py:66 | the corrected reading agrees with the code for every positive `n` and returns nothing for zero |
| SessionManager.ClearChatHistory | utils/session_manager.py:68-72 | messages, context and query log become empty; store, loaded flag and collected feedback are untouched |
| SessionManager.LoadKnowledgeBase | utils/session_manager.py:74-105 | succeeds exactly when there are documents and a store was built; failure leaves the session unchanged; success installs that store, sets the flag, and changes nothing else |
| SessionManager.RecordQuery | utils/session_manager.py:107-121 | exactly one record with query, response, the session's current time and the feedback is appended; nothing else changes |
| SessionManager.GetVectorStore | utils/session_manager.py:123-130 | none whenever the knowledge base is not marked loaded; the stored handle otherwise |
| SessionManager.IsKnowledgeBaseLoaded | utils/session_manager.py:132-139 | true exactly when marked loaded and a store is held |
| SessionManager.LoadedIffStore | utils/session_manager.py:123-139 | the knowledge base counts as loaded exactly when a store is handed out |
| SessionManager.LoadThenAccess | utils/session_manager.py:98-100 | after a successful load both accessors report the new store |
| SessionManager.RunKeepsWindow | utils/session_manager.py:47-54 | over any sequence of session operations the context stays the last (at most) 10 messages |
| SessionManager.RunAppendOnly | utils/session_manager.py:47-51 | without a clear, the history and the query log only grow at the end |
| SessionManager.RunWithoutLoadKeepsStore | utils/session_manager.py:99-100 | only a load changes the store and the loaded flag |

## Left out

- `get_gemini_response` and streaming (utils/chat_utils.py:196-256) are calls into the Gemini service and are not modelled.
- The LangChain conversational chain, its memory and model settings are a remote model. `get_response` receives the chain's result as a function.
- FAISS, Google embeddings and `similarity_search` are foreign libraries. The embedder is a success predicate, and search is a function returning documents or `None` for an exception.
- The `RecursiveCharacterTextSplitter` is a library whose code is not part of this model. It is a parameter. Its settings (1000, 200 and the separator list) are recorded in `DefaultSplitter` but not interpreted.
- `load_documents` and `create_sample_pdf_content` are file I/O and PDF generation, so they are not modelled. `load_knowledge_base` receives the loaded documents as an argument. The file `knowledge_base.py` is not part of this model.
- The application (`app.py`), the UI helpers (`utils.py`), `setup.py`, `collect_user_feedback` and `store_feedback` are Streamlit rendering and installation scripting. The session's `_current_time` key, which the application sets, is modelled as an optional string field.
- `print`, `st.error`, `st.spinner` and traceback logging have no effect on results and are not modelled.
- SessionManager.LoadKnowledgeBase: the `except` branch at utils/session_manager.py:103-105 is not modelled, because both helpers it calls already catch their own exceptions and no other statement in the `try` raises on well-formed input.
- InsuranceChatbot.GetResponse: an exception from the two keyword checks is not modelled, because they cannot raise on a string; only the chain's exceptions are.
- ChatUtils.GetRelevantContext: a missing store and a raising search are modelled as the same error path. The `AttributeError` on `None` is not distinguished from a search failure, and both give `""`.
- The session readers (`SessionManager.AddMessage`, `GetLastNMessages`, `RecordQuery`, `GetVectorStore`, `IsKnowledgeBaseLoaded`) require the keys they read to be present. The `KeyError` for a missing key is not modelled, because the application calls `initialize_session_state()` before any other use (app.py:25).
- Lower-casing and `\w` are ASCII only. Python's Unicode case folding and Unicode word characters are not modelled. Whitespace for `str.split()` does include the Unicode spaces and separators that `str.isspace` accepts.
- `get_relevant_context` passes `max_docs` (default 5) to `similarity_search` unchanged. The number of documents returned is the search's business, so the default is not interpreted.
- Python dictionaries that alias the same metadata object across chunks are not modelled. Each chunk carries its own metadata map.

## Findings

| source | as written | input that shows it | evidently intended | confidence | as-written member | corrected member |
|---|---|---|---|---|---|---|
| utils/session_manager.py:66 | `messages[-n:]` is used for every `n <= len(messages)`, and `-0` is `0`, so `n = 0` slices from the start | `get_last_n_messages(0)` with one message in the history returns that message | the last zero messages, that is an empty list | medium: no caller in the source; not executed | SessionManager.LastZeroReturnsWholeHistory | SessionManager.GetLastNMessagesCorrected |
