/**
 * The per-session state the web application keeps between interactions,
 * as an immutable record with one transition function per helper of the
 * session module.  Every key of the session dictionary is a `Slot`: it is
 * `Missing` until something assigns it, and reading a missing key raises in
 * the source, so the readers require the keys they read.
 */
module SessionManager {
  import opened Wrappers
  import opened Entities
  import opened DocumentProcessor
  import opened Evaluation

  /** A key of the session dictionary: absent, or present with a value. */
  datatype Slot<T> = Missing | Present(value: T)

  /** What the application passes as `feedback` to `record_query`. */
  datatype QueryFeedback =
    | NoFeedback
    | FeedbackText(text: string)
    | Metrics(difficulty: Difficulty, quality: QualityReport)

  /** One entry of `query_history`. */
  datatype QueryRecord = QueryRecord(query: string, response: string, timestamp: Option<string>, feedback: QueryFeedback)

  /** One entry of `feedback_collected`. */
  datatype FeedbackEntry = FeedbackEntry(helpful: bool, feedbackText: string, timestamp: Option<string>)

  /** The session dictionary; `currentTime` is the `_current_time` key the application sets on every run. */
  datatype Session = Session(
    messages: Slot<seq<Message>>,
    vectorStore: Slot<Option<VectorStore>>,
    documentLoaded: Slot<bool>,
    conversationContext: Slot<seq<Message>>,
    queryHistory: Slot<seq<QueryRecord>>,
    feedbackCollected: Slot<map<string, FeedbackEntry>>,
    currentTime: Option<string>)

  /** A brand-new session: no key set yet. */
  const Fresh: Session := Session(Missing, Missing, Missing, Missing, Missing, Missing, None)

  /** The most messages `conversation_context` keeps. */
  const ContextWindow: nat := 10

  /** Every key `initialize_session_state` manages is present. */
  predicate Ready(s: Session) {
    && s.messages.Present?
    && s.vectorStore.Present?
    && s.documentLoaded.Present?
    && s.conversationContext.Present?
    && s.queryHistory.Present?
    && s.feedbackCollected.Present?
  }

  /** A present slot is kept, a missing one gets `default`. */
  function OrDefault<T>(slot: Slot<T>, default: T): (r: Slot<T>)
    ensures r.Present?
    ensures slot.Present? ==> r == slot
    ensures slot.Missing? ==> r == Present(default)
  {
    if slot.Present? then slot else Present(default)
  }

  /** `initialize_session_state`: creates each missing key with its default and never touches a present one. */
  function InitializeSessionState(s: Session): (r: Session)
    ensures Ready(r)
    ensures s.messages.Present? ==> r.messages == s.messages
    ensures s.vectorStore.Present? ==> r.vectorStore == s.vectorStore
    ensures s.documentLoaded.Present? ==> r.documentLoaded == s.documentLoaded
    ensures s.conversationContext.Present? ==> r.conversationContext == s.conversationContext
    ensures s.queryHistory.Present? ==> r.queryHistory == s.queryHistory
    ensures s.feedbackCollected.Present? ==> r.feedbackCollected == s.feedbackCollected
    ensures s.messages.Missing? ==> r.messages == Present([])
    ensures s.vectorStore.Missing? ==> r.vectorStore == Present(None)
    ensures s.documentLoaded.Missing? ==> r.documentLoaded == Present(false)
    ensures s.conversationContext.Missing? ==> r.conversationContext == Present([])
    ensures s.queryHistory.Missing? ==> r.queryHistory == Present([])
    ensures s.feedbackCollected.Missing? ==> r.feedbackCollected == Present(map[])
    ensures r.currentTime == s.currentTime
  {
    Session(
      OrDefault(s.messages, []),
      OrDefault(s.vectorStore, None),
      OrDefault(s.documentLoaded, false),
      OrDefault(s.conversationContext, []),
      OrDefault(s.queryHistory, []),
      OrDefault(s.feedbackCollected, map[]),
      s.currentTime)
  }

  /** Initialising twice is initialising once, and initialising a ready session changes nothing. */
  lemma InitializeIdempotent(s: Session)
    ensures InitializeSessionState(InitializeSessionState(s)) == InitializeSessionState(s)
    ensures Ready(s) ==> InitializeSessionState(s) == s
  {
  }

  /** The last `min(n, |xs|)` elements of `xs`. */
  function LastN<T>(xs: seq<T>, n: nat): (r: seq<T>)
    ensures |r| == if n < |xs| then n else |xs|
    ensures forall i :: 0 <= i < |r| ==> r[i] == xs[|xs| - |r| + i]
  {
    if n < |xs| then xs[|xs| - n..] else xs
  }

  /**
   * `add_message`: appends the message to `messages` and to
   * `conversation_context`, then cuts the context to its last 10 entries.
   */
  function AddMessage(s: Session, role: string, content: string): (r: Session)
    requires s.messages.Present? && s.conversationContext.Present?
    ensures r.messages.Present? && r.conversationContext.Present?
    ensures |r.messages.value| == |s.messages.value| + 1
    ensures r.messages.value[..|s.messages.value|] == s.messages.value
    ensures r.messages.value[|s.messages.value|] == Message(role, content)
    ensures |r.conversationContext.value| <= ContextWindow
    ensures r.conversationContext.value == LastN(s.conversationContext.value + [Message(role, content)], ContextWindow)
    ensures r.(messages := s.messages, conversationContext := s.conversationContext) == s
  {
    var message := Message(role, content);
    var context := s.conversationContext.value + [message];
    var trimmed := if |context| > ContextWindow then context[|context| - ContextWindow..] else context;
    assert (s.messages.value + [message])[..|s.messages.value|] == s.messages.value;
    s.(messages := Present(s.messages.value + [message]), conversationContext := Present(trimmed))
  }

  /** The context window is the last (up to) 10 messages of the history. */
  ghost predicate WindowInvariant(s: Session) {
    && s.messages.Present?
    && s.conversationContext.Present?
    && s.conversationContext.value == LastN(s.messages.value, ContextWindow)
  }

  /** Adding a message keeps the context equal to the last 10 messages. */
  lemma AddMessageKeepsWindow(s: Session, role: string, content: string)
    requires WindowInvariant(s)
    ensures WindowInvariant(AddMessage(s, role, content))
  {
    var m := Message(role, content);
    var msgs := s.messages.value + [m];
    var r := AddMessage(s, role, content);
    assert r.messages.value == msgs;
    assert LastN(s.conversationContext.value + [m], ContextWindow) == LastN(msgs, ContextWindow);
  }

  /**
   * Python's `xs[-n:]`: a negative start counts from the end, and every
   * start is clamped into `0..len(xs)`.
   */
  function PySuffix<T>(xs: seq<T>, n: int): (r: seq<T>)
    ensures n > 0 ==> r == LastN(xs, n)
    ensures n == 0 ==> r == xs
    ensures n < 0 ==> r == xs[if -n < |xs| then -n else |xs|..]
  {
    var start := -n;
    if start < 0 then
      (if start + |xs| < 0 then xs else xs[start + |xs|..])
    else if start > |xs| then []
    else xs[start..]
  }

  /**
   * `get_last_n_messages`: `messages[-n:]` when there are at least `n`
   * messages, else all of them.  Because `-0` is `0`, `n = 0` gives the
   * whole history.
   */
  function GetLastNMessages(s: Session, n: int): (r: seq<Message>)
    requires s.messages.Present?
    ensures n > 0 ==> r == LastN(s.messages.value, n)
    ensures n == 0 ==> r == s.messages.value
    ensures n < 0 ==> r == s.messages.value[if -n < |s.messages.value| then -n else |s.messages.value|..]
    ensures forall i :: 0 <= i < |r| ==> r[i] == s.messages.value[|s.messages.value| - |r| + i]
  {
    var messages := s.messages.value;
    if |messages| >= n then PySuffix(messages, n) else messages
  }

  /** The default call `get_last_n_messages()` uses `n = 5`. */
  const DefaultLastN: int := 5

  /** The default call returns the five most recent messages, or all when there are fewer: the zero case never arises. */
  lemma DefaultCallIsIntended(s: Session)
    requires s.messages.Present?
    ensures GetLastNMessages(s, DefaultLastN) == GetLastNMessagesCorrected(s, 5)
    ensures |GetLastNMessages(s, DefaultLastN)| <= 5
  {
    CorrectedAgreesAwayFromZero(s, 5);
  }

  /** As written, asking for the last zero messages returns the whole (non-empty) history. */
  lemma LastZeroReturnsWholeHistory(s: Session)
    requires s.messages.Present? && |s.messages.value| > 0
    ensures |GetLastNMessages(s, 0)| == |s.messages.value| > 0
  {
  }

  /** The evidently intended reading of `get_last_n_messages`: at most `n` messages, the most recent ones. */
  function GetLastNMessagesCorrected(s: Session, n: nat): (r: seq<Message>)
    requires s.messages.Present?
    ensures |r| <= n
    ensures |r| == if n < |s.messages.value| then n else |s.messages.value|
    ensures forall i :: 0 <= i < |r| ==> r[i] == s.messages.value[|s.messages.value| - |r| + i]
  {
    var messages := s.messages.value;
    if n < |messages| then messages[|messages| - n..] else messages
  }

  /** The correction changes nothing for positive counts: it only differs at zero. */
  lemma CorrectedAgreesAwayFromZero(s: Session, n: nat)
    requires s.messages.Present?
    ensures n > 0 ==> GetLastNMessagesCorrected(s, n) == GetLastNMessages(s, n)
    ensures n == 0 ==> GetLastNMessagesCorrected(s, n) == []
  {
  }

  /**
   * `clear_chat_history`: empties messages, context and query log; the
   * knowledge base and the collected feedback are left as they are.
   */
  function ClearChatHistory(s: Session): (r: Session)
    ensures r.messages == Present([]) && r.conversationContext == Present([]) && r.queryHistory == Present([])
    ensures r.vectorStore == s.vectorStore
    ensures r.documentLoaded == s.documentLoaded
    ensures r.feedbackCollected == s.feedbackCollected
    ensures r.currentTime == s.currentTime
    ensures WindowInvariant(r)
  {
    s.(messages := Present([]), conversationContext := Present([]), queryHistory := Present([]))
  }

  /**
   * `load_knowledge_base`.  `documents` is what `load_documents` returned
   * for the directory (file reading is not modelled).  No documents, or no
   * store, reports failure and leaves the session as it was; success
   * installs the new store and marks the knowledge base loaded.
   */
  function LoadKnowledgeBase(s: Session, documents: seq<Document>,
                             splitter: (seq<Document>, SplitterConfig) -> Option<seq<Document>>,
                             embeds: seq<Document> -> bool): (result: (Session, bool))
    ensures !result.1 ==> result.0 == s
    ensures result.1 <==> |documents| > 0 && CreateVectorStore(documents, splitter, embeds).Some?
    ensures result.1 ==>
      && result.0.vectorStore == Present(CreateVectorStore(documents, splitter, embeds))
      && result.0.documentLoaded == Present(true)
      && result.0.(vectorStore := s.vectorStore, documentLoaded := s.documentLoaded) == s
  {
    if |documents| == 0 then
      (s, false)
    else
      var store := CreateVectorStore(documents, splitter, embeds);
      if store.None? then (s, false)
      else (s.(vectorStore := Present(store), documentLoaded := Present(true)), true)
  }

  /** `record_query`: appends one record stamped with the session's `_current_time`. */
  function RecordQuery(s: Session, query: string, response: string, feedback: QueryFeedback): (r: Session)
    requires s.queryHistory.Present?
    ensures r.queryHistory.Present?
    ensures |r.queryHistory.value| == |s.queryHistory.value| + 1
    ensures r.queryHistory.value[..|s.queryHistory.value|] == s.queryHistory.value
    ensures r.queryHistory.value[|s.queryHistory.value|] == QueryRecord(query, response, s.currentTime, feedback)
    ensures r.(queryHistory := s.queryHistory) == s
  {
    var history := s.queryHistory.value + [QueryRecord(query, response, s.currentTime, feedback)];
    assert history[..|s.queryHistory.value|] == s.queryHistory.value;
    s.(queryHistory := Present(history))
  }

  /** The keys the two knowledge-base accessors read: `vector_store` only when `document_loaded` holds. */
  predicate CanReadStore(s: Session) {
    s.documentLoaded.Present? && (s.documentLoaded.value ==> s.vectorStore.Present?)
  }

  /** `get_vector_store`: the store when the knowledge base is marked loaded, else none. */
  function GetVectorStore(s: Session): (r: Option<VectorStore>)
    requires CanReadStore(s)
    ensures !s.documentLoaded.value ==> r.None?
    ensures s.documentLoaded.value ==> r == s.vectorStore.value
  {
    if s.documentLoaded.value then s.vectorStore.value else None
  }

  /** `is_knowledge_base_loaded`: marked loaded and holding a store. */
  function IsKnowledgeBaseLoaded(s: Session): (r: bool)
    requires CanReadStore(s)
    ensures r <==> s.documentLoaded.value && s.vectorStore.value.Some?
  {
    s.documentLoaded.value && s.vectorStore.value.Some?
  }

  /** The two accessors agree: the knowledge base is loaded exactly when a store is handed out. */
  lemma LoadedIffStore(s: Session)
    requires CanReadStore(s)
    ensures IsKnowledgeBaseLoaded(s) <==> GetVectorStore(s).Some?
  {
  }

  /** A successful load makes the new store available through both accessors. */
  lemma LoadThenAccess(s: Session, documents: seq<Document>,
                       splitter: (seq<Document>, SplitterConfig) -> Option<seq<Document>>,
                       embeds: seq<Document> -> bool)
    requires LoadKnowledgeBase(s, documents, splitter, embeds).1
    ensures var r := LoadKnowledgeBase(s, documents, splitter, embeds).0;
      CanReadStore(r) && IsKnowledgeBaseLoaded(r) &&
      GetVectorStore(r) == CreateVectorStore(documents, splitter, embeds)
  {
  }

  // ---------------------------------------------------------------------
  // Runs of interactions
  // ---------------------------------------------------------------------

  /** One state-changing call of the session helpers. */
  datatype Event =
    | Initialize
    | Add(role: string, content: string)
    | Record(query: string, response: string, feedback: QueryFeedback)
    | Clear
    | Load(documents: seq<Document>,
           splitter: (seq<Document>, SplitterConfig) -> Option<seq<Document>>,
           embeds: seq<Document> -> bool)

  /** The session after one event. */
  function Apply(s: Session, e: Event): (r: Session)
    requires Ready(s)
    ensures Ready(r)
  {
    match e
    case Initialize => InitializeSessionState(s)
    case Add(role, content) => AddMessage(s, role, content)
    case Record(query, response, feedback) => RecordQuery(s, query, response, feedback)
    case Clear => ClearChatHistory(s)
    case Load(documents, splitter, embeds) => LoadKnowledgeBase(s, documents, splitter, embeds).0
  }

  /** The session after a sequence of events, first to last. */
  function Run(s: Session, events: seq<Event>): (r: Session)
    requires Ready(s)
    ensures Ready(r)
    decreases |events|
  {
    if |events| == 0 then s else Run(Apply(s, events[0]), events[1..])
  }

  /** Every run from a fresh, initialised session keeps the context equal to the last 10 messages. */
  lemma {:induction false} RunKeepsWindow(s: Session, events: seq<Event>)
    requires Ready(s) && WindowInvariant(s)
    ensures WindowInvariant(Run(s, events))
    decreases |events|
  {
    if |events| > 0 {
      var e := events[0];
      if e.Add? {
        AddMessageKeepsWindow(s, e.role, e.content);
      }
      RunKeepsWindow(Apply(s, e), events[1..]);
    }
  }

  /** A fresh session, once initialised, satisfies the window invariant. */
  lemma InitializedFreshHasWindow()
    ensures WindowInvariant(InitializeSessionState(Fresh))
  {
  }

  /** `a` is `b` with nothing or more appended. */
  ghost predicate IsPrefix<T>(a: seq<T>, b: seq<T>) {
    |a| <= |b| && b[..|a|] == a
  }

  /** Without a clear, the message history and the query log only grow at the end. */
  lemma {:induction false} RunAppendOnly(s: Session, events: seq<Event>)
    requires Ready(s)
    requires forall i :: 0 <= i < |events| ==> !events[i].Clear?
    ensures IsPrefix(s.messages.value, Run(s, events).messages.value)
    ensures IsPrefix(s.queryHistory.value, Run(s, events).queryHistory.value)
    decreases |events|
  {
    if |events| > 0 {
      var next := Apply(s, events[0]);
      assert IsPrefix(s.messages.value, next.messages.value);
      assert IsPrefix(s.queryHistory.value, next.queryHistory.value);
      RunAppendOnly(next, events[1..]);
      var final := Run(s, events);
      assert final == Run(next, events[1..]);
      assert final.messages.value[..|s.messages.value|] == next.messages.value[..|s.messages.value|];
      assert final.queryHistory.value[..|s.queryHistory.value|] == next.queryHistory.value[..|s.queryHistory.value|];
    }
  }

  /** Only a load changes the knowledge base; every other event leaves store and flag alone. */
  lemma {:induction false} RunWithoutLoadKeepsStore(s: Session, events: seq<Event>)
    requires Ready(s)
    requires forall i :: 0 <= i < |events| ==> !events[i].Load?
    ensures Run(s, events).vectorStore == s.vectorStore
    ensures Run(s, events).documentLoaded == s.documentLoaded
    decreases |events|
  {
    if |events| > 0 {
      RunWithoutLoadKeepsStore(Apply(s, events[0]), events[1..]);
    }
  }
}
