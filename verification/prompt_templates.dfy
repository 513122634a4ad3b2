/**
 * The five prompt templates of the chatbot.  A template is kept in parsed
 * form: literal text (verbatim, including trailing spaces at line ends)
 * interleaved with named placeholders, the `{name}` fields that
 * `PromptTemplate.format` fills in.  `Source` gives back the template text
 * as written; `Render` is the `format` call, which fails (a `KeyError` in
 * Python) when a placeholder has no value.
 */
module PromptTemplates {
  import opened Wrappers
  import opened Strings

  datatype Segment = Lit(text: string) | Hole(name: string)

  type Template = seq<Segment>

  /** The names of the `{name}` fields a template declares. */
  function Placeholders(t: Template): (names: set<string>)
    ensures forall n :: n in names <==> exists k :: 0 <= k < |t| && t[k] == Hole(n)
    decreases |t|
  {
    if |t| == 0 then {}
    else
      assert forall k :: 1 <= k < |t| ==> t[k] == t[1..][k - 1];
      (if t[0].Hole? then {t[0].name} else {}) + Placeholders(t[1..])
  }

  /** The template text as written, with each placeholder spelled `{name}`. */
  function Source(t: Template): string
    decreases |t|
  {
    if |t| == 0 then ""
    else
      match t[0]
      case Lit(x) => x + Source(t[1..])
      case Hole(n) => "{" + n + "}" + Source(t[1..])
  }

  /**
   * `PromptTemplate.from_template(text).format(**env)`: every placeholder
   * replaced by its value; `None` when some placeholder has no value.
   */
  function Render(t: Template, env: map<string, string>): (r: Option<string>)
    ensures r.Some? <==> Placeholders(t) <= env.Keys
    decreases |t|
  {
    if |t| == 0 then Some("")
    else
      var rest := Render(t[1..], env);
      match t[0]
      case Lit(x) => if rest.Some? then Some(x + rest.value) else None
      case Hole(n) => if n in env && rest.Some? then Some(env[n] + rest.value) else None
  }

  /** Every supplied value of a placeholder the template uses appears in the rendered prompt. */
  lemma {:induction false} RenderShowsValues(t: Template, env: map<string, string>, n: string)
    requires Placeholders(t) <= env.Keys
    requires n in Placeholders(t)
    ensures Occurs(Render(t, env).value, env[n])
    decreases |t|
  {
    var rest := Render(t[1..], env);
    var r := Render(t, env).value;
    if t[0] == Hole(n) {
      assert r == env[n] + rest.value;
      assert r[..|env[n]|] == env[n];
      assert OccursAt(r, env[n], 0);
    } else {
      assert n in Placeholders(t[1..]);
      RenderShowsValues(t[1..], env, n);
      match t[0]
      case Lit(x) =>
        OccursExtend(rest.value, env[n], x, "");
        assert x + rest.value + "" == r;
      case Hole(m) =>
        OccursExtend(rest.value, env[n], env[m], "");
        assert env[m] + rest.value + "" == r;
    }
  }

  /** Filling each placeholder with its own `{name}` spelling gives back the template text. */
  lemma {:induction false} RenderSelfIsSource(t: Template, env: map<string, string>)
    requires Placeholders(t) <= env.Keys
    requires forall n :: n in Placeholders(t) ==> env[n] == "{" + n + "}"
    ensures Render(t, env) == Some(Source(t))
    decreases |t|
  {
    if |t| > 0 {
      RenderSelfIsSource(t[1..], env);
    }
  }

  /** Main prompt: answers the user's question from the retrieved context. */
  const InsuranceAssistantPrompt: Template := [
    Lit(
      "You are an AI assistant for an insurance company.\n"
      + "Your role is to help customers understand insurance policies, coverage options, premiums, and claims processes.\n"
      + "\n"
      + "CONTEXT INFORMATION:\n"),
    Hole("context"),
    Lit(
      "\n"
      + "\n"
      + "Answer the user's question based on the context information provided above. If the answer is not explicitly \n"
      + "contained in the context, say \"I don't have enough information about that\" and suggest what information they \n"
      + "might need or who they should contact.\n"
      + "\n"
      + "Be professional, concise, and helpful. Format your response using markdown for better readability where appropriate.\n"
      + "\n"
      + "USER QUESTION: "),
    Hole("question"),
    Lit(
      "\n")
  ]

  /** Prompt for out-of-scope or complex questions; it receives no context. */
  const FallbackPrompt: Template := [
    Lit(
      "You are an AI assistant for an insurance company.\n"
      + "The user has asked a question that either requires specialized assistance or is outside the scope\n"
      + "of the information available in our knowledge base.\n"
      + "\n"
      + "USER QUESTION: "),
    Hole("question"),
    Lit(
      "\n"
      + "\n"
      + "Please respond with a professional message that:\n"
      + "1. Acknowledges their question\n"
      + "2. Explains that this requires specialized assistance or more detailed information\n"
      + "3. Suggests they contact a human agent for further assistance\n"
      + "4. Provides general information about where they might find more details (website, customer service)\n"
      + "5. Asks if there's anything else you can help with\n")
  ]

  /** Prompt for a summary of one policy type. */
  const PolicySummaryPrompt: Template := [
    Lit(
      "You are an AI assistant for an insurance company.\n"
      + "Please provide a concise summary of the key details about the "),
    Hole("policy_type"),
    Lit(
      " policy based on the \n"
      + "information available in our knowledge base. Format your response using markdown for readability.\n"
      + "\n"
      + "CONTEXT INFORMATION:\n"),
    Hole("context"),
    Lit(
      "\n")
  ]

  /** Prompt comparing the policy types named in the question. */
  const PolicyComparisonPrompt: Template := [
    Lit(
      "You are an AI assistant for an insurance company.\n"
      + "Please compare the following insurance policy types: "),
    Hole("policy_types"),
    Lit(
      ".\n"
      + "Base your comparison only on the information available in the context provided.\n"
      + "\n"
      + "CONTEXT INFORMATION:\n"),
    Hole("context"),
    Lit(
      "\n"
      + "\n"
      + "For each policy type, highlight:\n"
      + "1. Key coverage elements\n"
      + "2. Typical premium factors\n"
      + "3. Notable exclusions or limitations\n"
      + "4. Ideal customer profile for this policy type\n"
      + "\n"
      + "Format your response using markdown for better readability, including tables if appropriate.\n")
  ]

  /** Prompt explaining one insurance term. */
  const TermExplanationPrompt: Template := [
    Lit(
      "You are an AI assistant for an insurance company.\n"
      + "Please explain the insurance term \""),
    Hole("term"),
    Lit(
      "\" in simple, clear language that a customer without insurance\n"
      + "industry knowledge would understand.\n"
      + "\n"
      + "CONTEXT INFORMATION:\n"),
    Hole("context"),
    Lit(
      "\n"
      + "\n"
      + "Include:\n"
      + "1. A simple definition\n"
      + "2. Why this term is important for customers to understand\n"
      + "3. How this term might affect their insurance coverage or claims\n"
      + "\n"
      + "If the term is not found in the context, please indicate that you don't have specific information about this term\n"
      + "and provide a general explanation based on common insurance knowledge.\n")
  ]

  /** The five templates by name. */
  datatype TemplateId = Assistant | Fallback | Summary | Comparison | TermExplanation

  /** The template each name stands for. */
  function TemplateOf(id: TemplateId): Template {
    match id
    case Assistant => InsuranceAssistantPrompt
    case Fallback => FallbackPrompt
    case Summary => PolicySummaryPrompt
    case Comparison => PolicyComparisonPrompt
    case TermExplanation => TermExplanationPrompt
  }

  /** The placeholder names each template is written with, listed by hand. */
  function DeclaredNames(id: TemplateId): set<string> {
    match id
    case Assistant => {"context", "question"}
    case Fallback => {"question"}
    case Summary => {"policy_type", "context"}
    case Comparison => {"policy_types", "context"}
    case TermExplanation => {"term", "context"}
  }

  /** The hand-written lists agree with the templates' text. */
  lemma DeclaredNamesAgree(id: TemplateId)
    ensures Placeholders(TemplateOf(id)) == DeclaredNames(id)
  {
    match id
    case Assistant => InsuranceAssistantPromptPlaceholders();
    case Fallback => FallbackPromptPlaceholders();
    case Summary => PolicySummaryPromptPlaceholders();
    case Comparison => PolicyComparisonPromptPlaceholders();
    case TermExplanation => TermExplanationPromptPlaceholders();
  }

  /** `InsuranceAssistantPrompt` declares exactly `{context}` and `{question}`. */
  lemma InsuranceAssistantPromptPlaceholders()
    ensures Placeholders(InsuranceAssistantPrompt) == {"context", "question"}
  {
    var t := InsuranceAssistantPrompt;
    assert t[1] == Hole("context");
    assert t[3] == Hole("question");
    assert forall k :: 0 <= k < |t| && t[k].Hole? ==> t[k].name in {"context", "question"};
  }

  /** `FallbackPrompt` declares only `{question}`: no `{context}`. */
  lemma FallbackPromptPlaceholders()
    ensures Placeholders(FallbackPrompt) == {"question"}
  {
    var t := FallbackPrompt;
    assert t[1] == Hole("question");
    assert forall k :: 0 <= k < |t| && t[k].Hole? ==> t[k].name in {"question"};
  }

  /** `PolicySummaryPrompt` declares exactly `{policy_type}` and `{context}`. */
  lemma PolicySummaryPromptPlaceholders()
    ensures Placeholders(PolicySummaryPrompt) == {"policy_type", "context"}
  {
    var t := PolicySummaryPrompt;
    assert t[1] == Hole("policy_type");
    assert t[3] == Hole("context");
    assert forall k :: 0 <= k < |t| && t[k].Hole? ==> t[k].name in {"policy_type", "context"};
  }

  /** `PolicyComparisonPrompt` declares exactly `{policy_types}` and `{context}`. */
  lemma PolicyComparisonPromptPlaceholders()
    ensures Placeholders(PolicyComparisonPrompt) == {"policy_types", "context"}
  {
    var t := PolicyComparisonPrompt;
    assert t[1] == Hole("policy_types");
    assert t[3] == Hole("context");
    assert forall k :: 0 <= k < |t| && t[k].Hole? ==> t[k].name in {"policy_types", "context"};
  }

  /** `TermExplanationPrompt` declares exactly `{term}` and `{context}`. */
  lemma TermExplanationPromptPlaceholders()
    ensures Placeholders(TermExplanationPrompt) == {"term", "context"}
  {
    var t := TermExplanationPrompt;
    assert t[1] == Hole("term");
    assert t[3] == Hole("context");
    assert forall k :: 0 <= k < |t| && t[k].Hole? ==> t[k].name in {"term", "context"};
  }
}
