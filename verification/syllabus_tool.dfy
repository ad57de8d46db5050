/** lib/tools/syllabusTool.py: the syllabus agent and the syllabus tool it
    wraps. Both always ground their answer in the documents. */
module SyllabusTool {
  import opened Wrappers
  import opened Gemini
  import opened Agent

  const ToolInfo := AgentInfo("Syllabus Tool", "Tool for processing questions using syllabus materials and course content", [])
  const SyllabusAgentInfo := AgentInfo("Syllabus Agent", "Specialized agent for answering questions using only syllabus materials and course content", [])

  /** `SyllabusTool.can_handle`: every question is accepted. */
  predicate ToolCanHandle(question: string)
    ensures ToolCanHandle(question)
  {
    true
  }

  /** `SyllabusAgent.can_handle`: every question is accepted. */
  predicate AgentCanHandle(question: string)
    ensures AgentCanHandle(question)
  {
    true
  }

  /** The documents the syllabus tool grounds on (no subject filter). */
  function Documents(question: string, env: Env): seq<RelevantDoc>
  {
    SearchDocuments(question, None, env.corpus, env.gemini)
  }

  /** The grounded prompt the syllabus tool sends; it carries no calculations. */
  function ToolPrompt(question: string, env: Env): Prompt
  {
    Grounded(GeneralTutor, question, Materials(Documents(question, env)), map[])
  }

  /** `SyllabusTool.process(question)`: the result dict has only `answer` and
      `sources`. With nothing relevant the answer is the fixed "couldn't find"
      text with no sources; otherwise the sources are the documents' file
      names in order whether generation succeeds or fails, and the answer is
      the reply or the error text followed by the exception message. */
  function ToolProcess(question: string, env: Env): (r: AgentResult)
    ensures r.agentUsed.None? && r.toolsUsed.None?
    ensures |Documents(question, env)| == 0 ==>
              r.answer == GeneralNotFound
              && r.sources == Some([])
    ensures |Documents(question, env)| > 0 ==> r.sources == Some(SourceNames(Documents(question, env)))
    ensures var outcome := env.gemini(ToolPrompt(question, env));
      |Documents(question, env)| > 0 ==>
        (outcome.Reply? ==> r.answer == outcome.text) &&
        (outcome.Failure? ==> r.answer == GeneralErrorPrefix + outcome.message)
  {
    var docs := Documents(question, env);
    if |docs| == 0 then AgentResult(GeneralNotFound, None, None, Some([]))
    else
      var sources := SourceNames(docs);
      match env.gemini(ToolPrompt(question, env))
      case Reply(text) => AgentResult(text, None, None, Some(sources))
      case Failure(message, _) => AgentResult(GeneralErrorPrefix + message, None, None, Some(sources))
  }

  /** With nothing relevant the syllabus tool makes no generation call. */
  lemma ToolNoDocumentsNoGeneration(question: string, env: Env, g: Oracle)
    requires |Documents(question, env)| == 0
    requires SameClassifications(env.gemini, g)
    ensures ToolProcess(question, env) == ToolProcess(question, env.(gemini := g))
  {
    SearchSameClassifications(question, None, env.corpus, env.gemini, g);
  }

  /** `SyllabusAgent.process(question, mode)`: the tool's answer and sources,
      reported as the syllabus agent having used the syllabus tool. */
  function AgentProcess(question: string, mode: string, env: Env): (r: AgentResult)
    ensures r.agentUsed == Some(SyllabusAgentInfo.name)
    ensures r.toolsUsed == Some([ToolInfo.name])
    ensures r.answer == ToolProcess(question, env).answer
    ensures r.sources == Some(ToolProcess(question, env).sources.GetOr([]))
  {
    var result := ToolProcess(question, env);
    AgentResult(result.answer, Some(SyllabusAgentInfo.name), Some([ToolInfo.name]), Some(result.sources.GetOr([])))
  }

  /** The syllabus agent ignores `mode` and always grounds. */
  lemma AgentIgnoresMode(question: string, m1: string, m2: string, env: Env)
    ensures AgentProcess(question, m1, env) == AgentProcess(question, m2, env)
    ensures AgentProcess(question, m1, env).sources == Some(ToolProcess(question, env).sources.GetOr([]))
  {
  }
}
