/** lib/tutor.py: the tutor agent, which polls the specialists, scores the
    willing ones, delegates to the best, and otherwise answers itself. */
module Tutor {
  import opened Wrappers
  import opened Text
  import opened Gemini
  import opened Util
  import opened Agent
  import MathTool
  import PhysicsAgent

  /** The specialists the tutor can delegate to, as a closed set. */
  datatype Specialist = Math | Physics
  {
    function Info(): AgentInfo
    {
      match this
      case Math => MathTool.Info
      case Physics => PhysicsAgent.Info
    }

    predicate CanHandle(question: string, gemini: Oracle)
    {
      match this
      case Math => MathTool.CanHandle(question, gemini)
      case Physics => PhysicsAgent.CanHandle(question, gemini)
    }

    function Process(question: string, mode: string, env: Env): AgentResult
    {
      match this
      case Math => MathTool.Process(question, mode, env)
      case Physics => PhysicsAgent.Process(question, mode, env)
    }

    /** The documents the specialist grounds on in on-syllabus mode. */
    function Documents(question: string, env: Env): seq<RelevantDoc>
    {
      match this
      case Math => MathTool.Documents(question, env)
      case Physics => PhysicsAgent.Documents(question, env)
    }
  }

  /** `specialized_tools`, in poll order. */
  const SpecializedTools: seq<Specialist> := [Math, Physics]

  const Info := AgentInfo("Tutor Agent", "Main orchestrator that intelligently routes questions to specialized tools", [])

  /** The score recorded when the rating reply is not a number. */
  const DefaultScore: real := 5.0

  function ConfidencePrompt(s: Specialist, question: string): Prompt
  {
    Confidence(s.Info().name, question, s.Info().description)
  }

  /** A specialist's score for a question, or None when it is left out: it
      declined in `can_handle`, or the rating call raised. A reply that does
      not parse as a number scores 5.0, and so does a `ValueError` raised
      while reading the reply's `.text`, since both are caught by the same
      `except ValueError`. */
  function Score(s: Specialist, question: string, env: Env): (score: Option<real>)
    ensures var rating := env.gemini(ConfidencePrompt(s, question));
      score.Some? <==> s.CanHandle(question, env.gemini) && (rating.Reply? || rating.textValueError)
    ensures var rating := env.gemini(ConfidencePrompt(s, question));
      score.Some? && rating.Reply? ==>
        var parsed := env.parseFloat(Strip(rating.text));
        score.value == if parsed.Some? then parsed.value else DefaultScore
    ensures score.Some? && env.gemini(ConfidencePrompt(s, question)).Failure? ==> score.value == DefaultScore
  {
    if !s.CanHandle(question, env.gemini) then None
    else
      match env.gemini(ConfidencePrompt(s, question))
      case Failure(_, textValueError) => if textValueError then Some(DefaultScore) else None
      case Reply(text) =>
        match env.parseFloat(Strip(text))
        case Some(x) => Some(x)
        case None => Some(DefaultScore)
  }

  /** One entry of `agent_scores`. */
  datatype Scored = Scored(agent: Specialist, score: real)

  /** The scoring loop of `find_best_agent` over `agents`: the scored
      specialists in poll order, each with its score; the others are left out. */
  function Poll(agents: seq<Specialist>, question: string, env: Env): (scored: seq<Scored>)
    ensures |scored| <= |agents|
    ensures forall k :: 0 <= k < |scored| ==>
              scored[k].agent in agents && Score(scored[k].agent, question, env) == Some(scored[k].score)
    ensures forall s :: s in agents && Score(s, question, env).Some? ==>
              Scored(s, Score(s, question, env).value) in scored
  {
    if |agents| == 0 then []
    else
      var rest := Poll(agents[1..], question, env);
      assert forall s :: s in agents[1..] ==> s in agents;
      match Score(agents[0], question, env)
      case Some(x) => [Scored(agents[0], x)] + rest
      case None => rest
  }

  /** Polling keeps order: polling two lists one after the other gives the
      poll of the whole. */
  lemma {:induction false} PollAppend(a: seq<Specialist>, b: seq<Specialist>, question: string, env: Env)
    ensures Poll(a + b, question, env) == Poll(a, question, env) + Poll(b, question, env)
  {
    if |a| > 0 {
      assert (a + b)[1..] == a[1..] + b;
      assert (a + b)[0] == a[0];
      PollAppend(a[1..], b, question, env);
    } else {
      assert a + b == b;
    }
  }

  /** `max(agent_scores, key=score)`: Python's `max` keeps the current best
      and replaces it only by a strictly greater score, so the result is a
      maximum and every earlier entry scores strictly less. */
  function MaxBy(scored: seq<Scored>): (i: nat)
    requires |scored| > 0
    ensures i < |scored|
    ensures forall k :: 0 <= k < |scored| ==> scored[k].score <= scored[i].score
    ensures forall k :: 0 <= k < i ==> scored[k].score < scored[i].score
  {
    if |scored| == 1 then 0
    else
      var n := |scored| - 1;
      var best := MaxBy(scored[..n]);
      assert forall k :: 0 <= k < n ==> scored[..n][k] == scored[k];
      if scored[n].score > scored[best].score then n else best
  }

  /** The outcome of `find_best_agent`: a specialist, or the tutor itself. */
  datatype Choice = Delegate(agent: Specialist) | SelfHandle

  /** `find_best_agent(question)`. The tutor handles the question itself
      exactly when no specialist was scored; there is no score threshold. A
      delegate is a scored specialist whose score is at least every other
      score, and the earliest such in poll order. */
  function FindBestAgent(question: string, env: Env): (c: Choice)
    ensures var scored := Poll(SpecializedTools, question, env);
      c.SelfHandle? <==> |scored| == 0
    ensures var scored := Poll(SpecializedTools, question, env);
      c.Delegate? ==>
        exists k :: (0 <= k < |scored| && scored[k].agent == c.agent &&
          (forall j :: 0 <= j < |scored| ==> scored[j].score <= scored[k].score) &&
          (forall j :: 0 <= j < k ==> scored[j].score < scored[k].score))
  {
    var scored := Poll(SpecializedTools, question, env);
    if |scored| == 0 then SelfHandle else Delegate(scored[MaxBy(scored)].agent)
  }

  /** Routing spelled out for the two specialists: the math agent wins
      whenever it is scored and the physics agent does not score strictly
      higher (ties go to the math agent); otherwise the physics agent wins if
      scored; the tutor keeps the question only when neither is scored. */
  lemma RoutingTable(question: string, env: Env)
    ensures var m := Score(Math, question, env);
      var p := Score(Physics, question, env);
      FindBestAgent(question, env) ==
        if m.Some? && (p.None? || p.value <= m.value) then Delegate(Math)
        else if p.Some? then Delegate(Physics)
        else SelfHandle
  {
    PollAppend([Math], [Physics], question, env);
    assert [Math] + [Physics] == SpecializedTools;
    assert [Math][1..] == [] && [Physics][1..] == [];
  }

  /** Scoring asks the service only classification questions. */
  lemma ScoreSameClassifications(s: Specialist, question: string, env: Env, g: Oracle)
    requires SameClassifications(env.gemini, g)
    ensures Score(s, question, env) == Score(s, question, env.(gemini := g))
  {
    var capability := Capability(if s.Math? then MathSubject else PhysicsSubject, question);
    assert !capability.IsGeneration();
    assert env.gemini(capability) == g(capability);
    assert s.CanHandle(question, env.gemini) == s.CanHandle(question, g);
    var confidence := ConfidencePrompt(s, question);
    assert !confidence.IsGeneration();
    assert env.gemini(confidence) == g(confidence);
  }

  lemma {:induction false} PollSameClassifications(agents: seq<Specialist>, question: string, env: Env, g: Oracle)
    requires SameClassifications(env.gemini, g)
    ensures Poll(agents, question, env) == Poll(agents, question, env.(gemini := g))
  {
    if |agents| > 0 {
      ScoreSameClassifications(agents[0], question, env, g);
      PollSameClassifications(agents[1..], question, env, g);
    }
  }

  /** Routing asks the service only classification questions: oracles that
      agree on those route every question the same way. */
  lemma RoutingSameClassifications(question: string, env: Env, g: Oracle)
    requires SameClassifications(env.gemini, g)
    ensures FindBestAgent(question, env) == FindBestAgent(question, env.(gemini := g))
  {
    PollSameClassifications(SpecializedTools, question, env, g);
  }

  // ---------------------------------------------------------------------
  // process

  /** The documents the tutor grounds on when it answers itself. */
  function Documents(question: string, env: Env): seq<RelevantDoc>
  {
    SearchDocuments(question, None, env.corpus, env.gemini)
  }

  /** The generation prompt of a self-handled question. */
  function SelfPrompt(question: string, mode: string, env: Env): Prompt
  {
    if mode == OnSyllabus then Grounded(GeneralTutor, question, Materials(Documents(question, env)), map[])
    else Tutoring(GeneralTutor, question, map[])
  }

  /** `process(question, mode)`. On delegation the envelope names the
      delegate and carries its answer, its `tools_used` and its `sources`
      (each defaulting to `[]`). When the tutor answers itself it names
      itself and uses no tools; in on-syllabus mode with nothing relevant it
      gives the fixed "couldn't find" answer with no sources, with documents
      the sources are their file names in order (kept when generation fails),
      and in any other mode there are no sources. A failed generation call
      gives the error text followed by the exception message. */
  function Process(question: string, mode: string, env: Env): (r: QueryResponse)
    ensures var choice := FindBestAgent(question, env);
      choice.Delegate? ==>
        var d := choice.agent.Process(question, mode, env);
        && r.agentUsed == choice.agent.Info().name
        && r.answer == d.answer
        && r.toolsUsed == d.toolsUsed.GetOr([])
        && r.sources == d.sources.GetOr([])
    ensures FindBestAgent(question, env).SelfHandle? ==> r.agentUsed == Info.name && r.toolsUsed == []
    ensures FindBestAgent(question, env).SelfHandle? && mode == OnSyllabus && |Documents(question, env)| == 0 ==>
              r.answer == GeneralNotFound
              && r.sources == []
    ensures FindBestAgent(question, env).SelfHandle? && mode == OnSyllabus && |Documents(question, env)| > 0 ==>
              r.sources == SourceNames(Documents(question, env))
    ensures FindBestAgent(question, env).SelfHandle? && mode != OnSyllabus ==> r.sources == []
    ensures var outcome := env.gemini(SelfPrompt(question, mode, env));
      FindBestAgent(question, env).SelfHandle? && (mode != OnSyllabus || |Documents(question, env)| > 0) ==>
        (outcome.Reply? ==> r.answer == outcome.text) &&
        (outcome.Failure? ==> r.answer == GeneralErrorPrefix + outcome.message)
  {
    match FindBestAgent(question, env)
    case Delegate(agent) =>
      var result := agent.Process(question, mode, env);
      NewQueryResponse(result.answer, agent.Info().name, result.toolsUsed, result.sources)
    case SelfHandle =>
      var docs := Documents(question, env);
      if mode == OnSyllabus && |docs| == 0 then
        QueryResponse(GeneralNotFound, Info.name, [], [])
      else
        var sources := if mode == OnSyllabus then SourceNames(docs) else [];
        match env.gemini(SelfPrompt(question, mode, env))
        case Reply(text) => QueryResponse(text, Info.name, [], sources)
        case Failure(message, _) =>
          QueryResponse(GeneralErrorPrefix + message, Info.name, [], if mode == OnSyllabus then sources else [])
  }

  /** When the tutor keeps an on-syllabus question and nothing is relevant,
      no generation call is made: the envelope does not depend on the
      service's generation replies. */
  lemma SelfHandleNoDocumentsNoGeneration(question: string, env: Env, g: Oracle)
    requires FindBestAgent(question, env).SelfHandle?
    requires |Documents(question, env)| == 0
    requires SameClassifications(env.gemini, g)
    ensures Process(question, OnSyllabus, env) == Process(question, OnSyllabus, env.(gemini := g))
  {
    RoutingSameClassifications(question, env, g);
    SearchSameClassifications(question, None, env.corpus, env.gemini, g);
  }

  /** The file names a specialist cites are those of the tutor's own search:
      the subject filter has no effect. */
  lemma SpecialistDocumentsAgree(s: Specialist, question: string, env: Env)
    ensures s.Documents(question, env) == Documents(question, env)
  {
    match s
    case Math => SearchIgnoresSubjectFilter(question, Some("math"), None, env.corpus, env.gemini);
    case Physics => SearchIgnoresSubjectFilter(question, Some("physics"), None, env.corpus, env.gemini);
  }

  /** Whoever answers and whether or not generation succeeds, the sources
      of an on-syllabus answer are the file names of the search result in walk
      order, and any other mode cites nothing. */
  lemma SourcesAreSearchResults(question: string, mode: string, env: Env)
    ensures mode == OnSyllabus ==> Process(question, mode, env).sources == SourceNames(Documents(question, env))
    ensures mode != OnSyllabus ==> Process(question, mode, env).sources == []
  {
    match FindBestAgent(question, env)
    case Delegate(s) =>
      SpecialistDocumentsAgree(s, question, env);
      assert SourceNames([]) == [];
    case SelfHandle =>
      assert SourceNames([]) == [];
  }

  /** Every cited source is the name of a file the search kept, and sources
      appear only in on-syllabus mode. */
  lemma SourcesAreRelevantFiles(question: string, mode: string, env: Env)
    ensures var r := Process(question, mode, env);
      forall k :: 0 <= k < |r.sources| ==> mode == OnSyllabus && KeptName(question, env, r.sources[k])
  {
    SourcesAreSearchResults(question, mode, env);
    CitedNamesKept(question, mode, env, Process(question, mode, env).sources);
  }

  lemma CitedNamesKept(question: string, mode: string, env: Env, sources: seq<string>)
    requires mode == OnSyllabus ==> sources == SourceNames(Documents(question, env))
    requires mode != OnSyllabus ==> sources == []
    ensures forall k :: 0 <= k < |sources| ==> mode == OnSyllabus && KeptName(question, env, sources[k])
  {
    if mode == OnSyllabus {
      NamesOfKeptEntries(question, env);
    }
  }

  /** `name` is the name of a walk entry the search keeps. */
  predicate KeptName(question: string, env: Env, name: string)
  {
    exists i :: 0 <= i < |env.corpus| && env.corpus[i].name == name &&
      Select(question, env.corpus[i], env.gemini).Some?
  }

  lemma NamesOfKeptEntries(question: string, env: Env)
    ensures var names := SourceNames(Documents(question, env));
      forall k :: 0 <= k < |names| ==> KeptName(question, env, names[k])
  {
    var docs := Documents(question, env);
    var names := SourceNames(docs);
    forall k | 0 <= k < |names|
      ensures KeptName(question, env, names[k])
    {
      var d := docs[k];
      assert d in docs;
      var i :| 0 <= i < |env.corpus| && Select(question, env.corpus[i], env.gemini) == Some(d);
      SelectReports(question, env.corpus[i], env.gemini);
      assert names[k] == d.file == env.corpus[i].name;
    }
  }

  /** In on-syllabus mode every file the search keeps is cited. */
  lemma GroundedCitesEveryRelevantFile(question: string, env: Env, i: nat)
    requires i < |env.corpus|
    requires Select(question, env.corpus[i], env.gemini).Some?
    ensures env.corpus[i].name in Process(question, OnSyllabus, env).sources
  {
    SourcesAreSearchResults(question, OnSyllabus, env);
    var docs := Documents(question, env);
    var d := Select(question, env.corpus[i], env.gemini).value;
    assert d in docs;
    var k :| 0 <= k < |docs| && docs[k] == d;
    assert SourceNames(docs)[k] == env.corpus[i].name;
  }

  /** With an empty corpus an on-syllabus question gets no sources and no
      generation call, whoever it is routed to. */
  lemma EmptyCorpusNoGeneration(question: string, env: Env, g: Oracle)
    requires env.corpus == []
    requires SameClassifications(env.gemini, g)
    ensures Process(question, OnSyllabus, env).sources == []
    ensures Process(question, OnSyllabus, env) == Process(question, OnSyllabus, env.(gemini := g))
  {
    var env2 := env.(gemini := g);
    SourcesAreSearchResults(question, OnSyllabus, env);
    RoutingSameClassifications(question, env, g);
    match FindBestAgent(question, env)
    case Delegate(Math) =>
      MathTool.NoDocumentsNoGeneration(question, env, g);
    case Delegate(Physics) =>
      PhysicsAgent.NoDocumentsNoGeneration(question, env, g);
    case SelfHandle =>
      SelfHandleNoDocumentsNoGeneration(question, env, g);
  }

  /** The envelope reports the calculator exactly when the question was
      delegated and some stripped regex match of it was admitted and
      evaluated; a self-handled question reports no tool. */
  lemma CalculatorReported(question: string, mode: string, env: Env)
    ensures CalculatorName in Process(question, mode, env).toolsUsed <==>
      FindBestAgent(question, env).Delegate? &&
      exists e :: e in Expressions(question, env) && Evaluates(e, env.evaluate)
  {
    match FindBestAgent(question, env)
    case Delegate(s) =>
      var info := s.Info();
      assert |info.tools| > 0;
      var pre := ExtractAndCalculate(info, question, env);
      assert s.Process(question, mode, env).toolsUsed == Some(pre.toolsUsed);
    case SelfHandle =>
  }

  /** The agent named in the envelope does not depend on `mode`: routing
      ignores it. */
  lemma RoutingIgnoresMode(question: string, m1: string, m2: string, env: Env)
    ensures Process(question, m1, env).agentUsed == Process(question, m2, env).agentUsed
  {
  }
}
