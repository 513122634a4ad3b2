/**
 * The decision logic of `InsuranceChatbot.get_response`: refuse off-topic
 * questions, ask the retrieval chain otherwise, offer a human agent when
 * the answer or the question calls for one, and turn any exception into a
 * fixed apology.  The LangChain conversational retrieval chain (Gemini plus
 * FAISS plus its memory) is a function parameter.
 */
module InsuranceChatbot {
  import opened Strings
  import opened Keywords

  /** The 25 keywords of `_is_insurance_related`, in order. */
  const InsuranceKeywords: seq<string> := [
    "insurance", "policy", "premium", "coverage", "claim", "deductible",
    "health", "life", "auto", "car", "home", "property", "liability",
    "medical", "accident", "damage", "injury", "protection", "risk",
    "benefit", "plan", "term", "whole life", "comprehensive", "collision"
  ]

  /** Phrases in an answer that signal uncertainty (matched case-sensitively). */
  const ComplexIndicators: seq<string> := [
    "I don't have enough information",
    "I cannot provide",
    "would need more details",
    "cannot accurately",
    "specific to your situation",
    "recommend speaking with an agent",
    "cannot calculate",
    "varies depending on"
  ]

  /** Question topics that call for a human agent (matched on the lower-cased question). */
  const ComplexTopics: seq<string> := [
    "lawsuit", "legal", "sue", "death", "dispute", "rejected claim",
    "denied", "appeal", "fraud", "investigation", "cancelation",
    "specific quote", "exact premium", "exact rate", "specific to my case"
  ]

  /** `_is_insurance_related`: some keyword is a substring of the lower-cased question. */
  function IsInsuranceRelated(query: string): (r: bool)
    ensures r <==> HasAny(Lower(query), InsuranceKeywords)
  {
    ContainsAny(Lower(query), InsuranceKeywords)
  }

  /**
   * `_should_escalate`: the raw answer (not lower-cased) contains an
   * uncertainty phrase, or the lower-cased question names a complex topic.
   */
  function ShouldEscalate(query: string, answer: string): (r: bool)
    ensures r <==> HasAny(answer, ComplexIndicators) || HasAny(Lower(query), ComplexTopics)
  {
    ContainsAny(answer, ComplexIndicators) || ContainsAny(Lower(query), ComplexTopics)
  }

  /** More text around the question never makes a related question unrelated. */
  lemma InsuranceRelatedMonotone(query: string, before: string, after: string)
    requires IsInsuranceRelated(query)
    ensures IsInsuranceRelated(before + query + after)
  {
    HasAnyExtendLower(query, InsuranceKeywords, before, after);
  }

  /** More text around the question or the answer never withdraws an escalation. */
  lemma EscalationMonotone(query: string, answer: string,
                           queryBefore: string, queryAfter: string,
                           answerBefore: string, answerAfter: string)
    requires ShouldEscalate(query, answer)
    ensures ShouldEscalate(queryBefore + query + queryAfter, answerBefore + answer + answerAfter)
  {
    if HasAny(answer, ComplexIndicators) {
      HasAnyExtend(answer, ComplexIndicators, answerBefore, answerAfter);
    } else {
      HasAnyExtendLower(query, ComplexTopics, queryBefore, queryAfter);
    }
  }

  /** An answer with an uncertainty phrase is escalated whatever the question. */
  lemma IndicatorEscalates(query: string, answer: string, k: nat)
    requires k < |ComplexIndicators|
    requires Occurs(answer, ComplexIndicators[k])
    ensures ShouldEscalate(query, answer)
  {
  }

  /** What the conversational chain did with a question: an answer, or an exception of the named type. */
  datatype ChainResult = Answered(answer: string) | Raised(errorType: string)

  /** The fixed reply to a question that is not about insurance. */
  const OffTopicReply: string :=
    "I'm an insurance specialist and can only answer questions related to insurance policies, "
    + "coverage, premiums, and claims. Could you please ask an insurance-related question?"

  /** The offer of a human agent appended to an escalated answer. */
  const AgentOffer: string :=
    "For this specific query, it might be better to speak with one of our human insurance agents. "
    + "Would you like me to arrange for someone to contact you?"

  /** An escalated reply: the answer, a blank line, then the agent offer. */
  function EscalatedReply(answer: string): (r: string)
    ensures StartsWith(r, answer)
    ensures |r| > |answer|
    ensures r[|answer|..] == "\n\n" + AgentOffer
  {
    var r := answer + "\n\n" + AgentOffer;
    assert r[..|answer|] == answer;
    r
  }

  /** The apology's text before the exception type. */
  const ErrorHead: string :=
    "I'm having trouble processing your request at the moment. "
    + "This could be due to technical difficulties or the complexity of your query. "
    + "Error type: "

  /** The apology's text after the exception type. */
  const ErrorTail: string :=
    ". Please try again or consider speaking with one of our human insurance agents for assistance."

  /** The apology returned when processing raised an exception of type `errorType`. */
  function ErrorReply(errorType: string): (r: string)
    ensures |r| == |ErrorHead| + |errorType| + |ErrorTail|
    ensures r[..|ErrorHead|] == ErrorHead
    ensures r[|ErrorHead|..|ErrorHead| + |errorType|] == errorType
    ensures r[|ErrorHead| + |errorType|..] == ErrorTail
  {
    ErrorHead + errorType + ErrorTail
  }

  /** The apology names the exception type, and different types give different apologies. */
  lemma ErrorReplyNamesType(errorType: string, other: string)
    ensures Occurs(ErrorReply(errorType), errorType)
    ensures other != errorType ==> ErrorReply(other) != ErrorReply(errorType)
  {
    var r := ErrorReply(errorType);
    assert r[|ErrorHead|..|ErrorHead| + |errorType|] == errorType;
    assert OccursAt(r, errorType, |ErrorHead|);
    if ErrorReply(other) == r {
      assert |other| == |errorType|;
      assert other == ErrorReply(other)[|ErrorHead|..|ErrorHead| + |other|];
    }
  }

  /**
   * `get_response`.  `chain(q)` is the result of `self.chain({"question": q})`.
   * The reply is the refusal, the chain's answer, the answer followed by a
   * blank line and the agent offer, or the apology; nothing is raised.
   */
  function GetResponse(query: string, chain: string -> ChainResult): (r: string)
    ensures !IsInsuranceRelated(query) ==> r == OffTopicReply
    ensures IsInsuranceRelated(query) && chain(query).Raised? ==> r == ErrorReply(chain(query).errorType)
    ensures IsInsuranceRelated(query) && chain(query).Answered? ==>
      r == AnswerReply(chain(query).answer, ShouldEscalate(query, chain(query).answer))
  {
    if !IsInsuranceRelated(query) then
      OffTopicReply
    else
      match chain(query)
      case Raised(errorType) => ErrorReply(errorType)
      case Answered(answer) => AnswerReply(answer, ShouldEscalate(query, answer))
  }

  /** The reply to an answered question: the escalated reply exactly when escalating, else the bare answer. */
  function AnswerReply(answer: string, escalate: bool): (r: string)
    ensures StartsWith(r, answer)
    ensures escalate <==> r == EscalatedReply(answer)
    ensures !escalate <==> r == answer
  {
    if escalate then EscalatedReply(answer) else answer
  }

  /**
   * An answered insurance question gets a reply that starts with the
   * answer: with the agent offer appended exactly when escalation applies,
   * the answer unchanged exactly when it does not.
   */
  lemma GetResponseAnswered(query: string, chain: string -> ChainResult)
    requires IsInsuranceRelated(query) && chain(query).Answered?
    ensures var answer := chain(query).answer;
      var r := GetResponse(query, chain);
      StartsWith(r, answer) &&
      (ShouldEscalate(query, answer) <==> r == EscalatedReply(answer)) &&
      (!ShouldEscalate(query, answer) <==> r == answer)
  {
  }

  /** An off-topic question gets the same reply whatever the chain would do: the chain is never asked. */
  lemma OffTopicSkipsChain(query: string, chain1: string -> ChainResult, chain2: string -> ChainResult)
    requires !IsInsuranceRelated(query)
    ensures GetResponse(query, chain1) == GetResponse(query, chain2)
  {
  }

  /** The chain is asked only about the question itself: chains that agree on it give the same reply. */
  lemma ReplyDependsOnChainAtQuery(query: string, chain1: string -> ChainResult, chain2: string -> ChainResult)
    requires chain1(query) == chain2(query)
    ensures GetResponse(query, chain1) == GetResponse(query, chain2)
  {
  }
}
