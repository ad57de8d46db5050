/** lib/tools/physicsAgent.py: the physics agent. */
module PhysicsAgent {
  import opened Wrappers
  import opened Text
  import opened Gemini
  import opened Util
  import opened Agent

  const Info := AgentInfo(
    "Physics Agent",
    "Handles physics questions, problems, concepts, and scientific principles related to mechanics, thermodynamics, electromagnetism, and quantum physics",
    [CalculatorName])

  /** The keyword fallback of `can_handle`. */
  const Indicators: seq<string> := ["physics", "force", "energy", "velocity", "acceleration", "newton", "gravity", "mass", "momentum", "wave", "quantum"]

  const NotFound := "I couldn't find any relevant physics content in the syllabus materials to answer your question. Please check if the topic is covered in your course materials."
  const ErrorPrefix := "I encountered an error processing your physics question: "

  const PhysicsProfile := Profile(Info, PhysicsTutor, "physics", NotFound, ErrorPrefix)

  /** `can_handle(question)`: a classifier reply counts as YES only when it is
      "YES" once stripped and upper-cased; when the classifier call fails, the
      question is a physics question exactly when its lower-cased text
      contains one of the eleven indicators. */
  predicate CanHandle(question: string, gemini: Oracle)
    ensures var verdict := gemini(Capability(PhysicsSubject, question));
      verdict.Reply? ==> (CanHandle(question, gemini) <==> Upper(Strip(verdict.text)) == "YES")
    ensures var verdict := gemini(Capability(PhysicsSubject, question));
      verdict.Failure? ==>
        (CanHandle(question, gemini) <==> exists t :: t in Indicators && Contains(Lower(question), t))
  {
    ClassifyOrIndicators(gemini(Capability(PhysicsSubject, question)), question, Indicators)
  }

  lemma IndicatorsLowerCase()
    ensures forall t :: t in Indicators ==> NoCapitals(t)
  {
    forall t | t in Indicators ensures NoCapitals(t) {
      var i :| 0 <= i < |Indicators| && Indicators[i] == t;
    }
  }

  /** With the classifier down the indicator test ignores letter case: a
      question that spells an indicator in capitals is still taken. */
  lemma FallbackIgnoresCase(question: string, gemini: Oracle, t: string)
    requires gemini(Capability(PhysicsSubject, question)).Failure?
    requires t in Indicators && Contains(question, Upper(t))
    ensures CanHandle(question, gemini)
  {
    IndicatorsLowerCase();
    ContainsLower(question, Upper(t));
    LowerUpper(t);
  }

  /** The documents the physics agent grounds on. */
  function Documents(question: string, env: Env): seq<RelevantDoc>
  {
    SearchDocuments(question, Some("physics"), env.corpus, env.gemini)
  }

  /** `process(question, mode)`. Every result carries the pre-step's
      `tools_used`. In on-syllabus mode with nothing relevant the answer is
      the fixed physics "couldn't find" text with no sources; with documents
      the sources are their file names in order, also when generation fails.
      In any other mode there are no sources. A failed generation call gives
      the physics error text followed by the exception message. */
  function Process(question: string, mode: string, env: Env): (r: AgentResult)
    ensures r.agentUsed.None?
    ensures r.toolsUsed == Some(ExtractAndCalculate(Info, question, env).toolsUsed)
    ensures mode == OnSyllabus && |Documents(question, env)| == 0 ==>
              r.answer == NotFound
              && r.sources == Some([])
    ensures mode == OnSyllabus && |Documents(question, env)| > 0 ==> r.sources == Some(SourceNames(Documents(question, env)))
    ensures mode != OnSyllabus ==> r.sources == Some([])
    ensures var outcome := env.gemini(SubjectPrompt(PhysicsProfile, question, mode, env));
      (mode != OnSyllabus || |Documents(question, env)| > 0) ==>
        (outcome.Reply? ==> r.answer == outcome.text) &&
        (outcome.Failure? ==> r.answer == ErrorPrefix + outcome.message)
  {
    SubjectProcess(PhysicsProfile, question, mode, env)
  }

  /** In on-syllabus mode with nothing relevant, no generation call is made:
      the result does not depend on the service's generation replies. */
  lemma NoDocumentsNoGeneration(question: string, env: Env, g: Oracle)
    requires |Documents(question, env)| == 0
    requires SameClassifications(env.gemini, g)
    ensures Process(question, OnSyllabus, env) == Process(question, OnSyllabus, env.(gemini := g))
  {
    SubjectNoDocumentsNoGeneration(PhysicsProfile, question, env, g);
  }
}
