/** lib/tools/mathTool.py: the math agent. */
module MathTool {
  import opened Wrappers
  import opened Text
  import opened Gemini
  import opened Util
  import opened Agent

  const Info := AgentInfo(
    "Math Agent",
    "Handles mathematical questions, equations, calculations, algebra, geometry, calculus, and all mathematical concepts",
    [CalculatorName])

  /** The keyword fallback of `can_handle`; it includes single operator characters. */
  const Indicators: seq<string> := ["calculate", "solve", "equation", "math", "formula", "derivative", "integral", "+", "-", "*", "/", "="]

  const NotFound := "I couldn't find any relevant mathematical content in the syllabus materials to answer your question. Please check if the topic is covered in your course materials."
  const ErrorPrefix := "I encountered an error processing your math question: "

  const MathProfile := Profile(Info, MathTutor, "math", NotFound, ErrorPrefix)

  /** `can_handle(question)`: a classifier reply counts as YES only when it is
      "YES" once stripped and upper-cased; when the classifier call fails, the
      question is a math question exactly when its lower-cased text contains
      one of the twelve indicators. */
  predicate CanHandle(question: string, gemini: Oracle)
    ensures var verdict := gemini(Capability(MathSubject, question));
      verdict.Reply? ==> (CanHandle(question, gemini) <==> Upper(Strip(verdict.text)) == "YES")
    ensures var verdict := gemini(Capability(MathSubject, question));
      verdict.Failure? ==>
        (CanHandle(question, gemini) <==> exists t :: t in Indicators && Contains(Lower(question), t))
  {
    ClassifyOrIndicators(gemini(Capability(MathSubject, question)), question, Indicators)
  }

  /** With the classifier down, any question containing one of the operator
      characters + - * / = is taken as a math question. */
  lemma FallbackOnOperator(question: string, gemini: Oracle, c: char)
    requires gemini(Capability(MathSubject, question)).Failure?
    requires c in "+-*/=" && c in question
    ensures CanHandle(question, gemini)
  {
    var k :| 0 <= k < |question| && question[k] == c;
    var lq := Lower(question);
    assert lq[k] == c;
    ContainsChar(lq, c);
    assert [c] in Indicators;
  }

  /** The documents the math agent grounds on. */
  function Documents(question: string, env: Env): seq<RelevantDoc>
  {
    SearchDocuments(question, Some("math"), env.corpus, env.gemini)
  }

  /** `process(question, mode)`. Every result carries the pre-step's
      `tools_used`. In on-syllabus mode with nothing relevant the answer is
      the fixed math "couldn't find" text with no sources; with documents the
      sources are their file names in order, also when generation fails. In
      any other mode there are no sources. A failed generation call gives the
      math error text followed by the exception message. */
  function Process(question: string, mode: string, env: Env): (r: AgentResult)
    ensures r.agentUsed.None?
    ensures r.toolsUsed == Some(ExtractAndCalculate(Info, question, env).toolsUsed)
    ensures mode == OnSyllabus && |Documents(question, env)| == 0 ==>
              r.answer == NotFound
              && r.sources == Some([])
    ensures mode == OnSyllabus && |Documents(question, env)| > 0 ==> r.sources == Some(SourceNames(Documents(question, env)))
    ensures mode != OnSyllabus ==> r.sources == Some([])
    ensures var outcome := env.gemini(SubjectPrompt(MathProfile, question, mode, env));
      (mode != OnSyllabus || |Documents(question, env)| > 0) ==>
        (outcome.Reply? ==> r.answer == outcome.text) &&
        (outcome.Failure? ==> r.answer == ErrorPrefix + outcome.message)
  {
    SubjectProcess(MathProfile, question, mode, env)
  }

  /** In on-syllabus mode with nothing relevant, no generation call is made:
      the result does not depend on the service's generation replies. */
  lemma NoDocumentsNoGeneration(question: string, env: Env, g: Oracle)
    requires |Documents(question, env)| == 0
    requires SameClassifications(env.gemini, g)
    ensures Process(question, OnSyllabus, env) == Process(question, OnSyllabus, env.(gemini := g))
  {
    SubjectNoDocumentsNoGeneration(MathProfile, question, env, g);
  }
}
