/** lib/tools/agent.py: the base agent's document search and arithmetic
    pre-step, and the request shape the math and physics agents share. */
module Agent {
  import opened Wrappers
  import opened Text
  import opened Gemini
  import opened Util
  import Seqs

  /** An agent's `name`, `description` and the names of its `tools`. */
  datatype AgentInfo = AgentInfo(name: string, description: string, tools: seq<string>)

  /** Everything outside the tutor's own logic that one request consults. */
  datatype Env = Env(
    /** the files under books/ in walk order; empty when books/ does not exist */
    corpus: seq<FileEntry>,
    /** every generate_content call */
    gemini: Oracle,
    /** eval + float() inside CalculatorTool.execute */
    evaluate: Evaluator,
    /** re.findall of the three arithmetic patterns, concatenated in pattern order */
    findExpressions: string -> seq<string>,
    /** float() of a stripped score reply; None when it raises ValueError */
    parseFloat: string -> Option<real>)

  /** A result dict returned by an agent's `process`; a key the dict lacks is None. */
  datatype AgentResult = AgentResult(answer: string, agentUsed: Option<string>, toolsUsed: Option<seq<string>>, sources: Option<seq<string>>)

  /** The fixed answer of the tutor and of the syllabus tool when nothing relevant is found. */
  const GeneralNotFound := "I couldn't find any relevant content in the syllabus materials to answer your question. Please check if the topic is covered in your course materials or try the off-syllabus mode for general knowledge."
  /** The answer prefix of the tutor and of the syllabus tool when generation fails. */
  const GeneralErrorPrefix := "I encountered an error processing your question: "

  // ---------------------------------------------------------------------
  // _search_documents

  /** What reading a file gave: its text, or an exception that skips the file. */
  datatype Extraction = Extracted(content: string) | Unreadable(reason: string)

  /** One path the walk visits. `suffix` is `Path.suffix` as written on disk. */
  datatype FileEntry = FileEntry(path: string, name: string, suffix: string, isFile: bool, extraction: Extraction)

  /** One entry of the search result: the file name, the excerpt, the path and the full length. */
  datatype RelevantDoc = RelevantDoc(file: string, content: string, fullPath: string, size: nat)

  const SupportedExtensions: set<string> := {".txt", ".md", ".pdf", ".docx", ".doc"}
  const ExcerptLimit: nat := 15000
  const PreviewLimit: nat := 800
  const SubstantialLength: nat := 100
  /** Question terms that switch the storage rule on. */
  const StorageTriggers: seq<string> := ["storage", "disk", "raid", "ssd", "database", "memory"]
  /** Document terms the storage rule looks for. */
  const StorageTerms: seq<string> := ["storage", "disk", "memory", "database", "raid", "ssd", "flash", "magnetic", "performance"]

  function Extension(e: FileEntry): string
  {
    Lower(e.suffix)
  }

  /** The extensions that have a reader. `.doc` is supported but has none and
      is skipped. */
  predicate HasReader(ext: string)
  {
    ext in [".txt", ".md"] || ext == ".pdf" || ext in [".docx"]
  }

  /** The text the relevance rules look at, or None when the walk skips the
      entry first: not a regular file, an unsupported or unread extension,
      a failed extraction, or text that is blank once stripped. */
  function Content(e: FileEntry): Option<string>
  {
    if !e.isFile || Extension(e) !in SupportedExtensions then None
    else if !HasReader(Extension(e)) then None
    else
      match e.extraction
      case Unreadable(_) => None
      case Extracted(content) => if Strip(content) == [] then None else Some(content)
  }

  /** The tokens longer than two characters, lower-cased, in order. */
  function LongWords(tokens: seq<string>): (words: seq<string>)
    ensures |words| <= |tokens|
    ensures forall w :: w in words <==> exists k :: 0 <= k < |tokens| && |tokens[k]| > 2 && w == Lower(tokens[k])
  {
    if |tokens| == 0 then []
    else
      var rest := LongWords(tokens[1..]);
      assert forall k :: 1 <= k < |tokens| ==> tokens[k] == tokens[1..][k - 1];
      (if |tokens[0]| > 2 then [Lower(tokens[0])] else []) + rest
  }

  /** The words the keyword rule looks for. */
  function QuestionWords(question: string): seq<string>
  {
    LongWords(Split(question))
  }

  /** `sum(1 for word in words if word in text)`. */
  function KeywordMatches(words: seq<string>, text: string): nat
  {
    if |words| == 0 then 0
    else (if Contains(text, words[0]) then 1 else 0) + KeywordMatches(words[1..], text)
  }

  /** At least one match is counted exactly when some word occurs in the text. */
  lemma {:induction false} KeywordMatchesPositive(words: seq<string>, text: string)
    ensures KeywordMatches(words, text) >= 1 <==> exists k :: 0 <= k < |words| && Contains(text, words[k])
  {
    if |words| > 0 {
      KeywordMatchesPositive(words[1..], text);
      if exists k :: 0 <= k < |words| && Contains(text, words[k]) {
        var k :| 0 <= k < |words| && Contains(text, words[k]);
        if k > 0 {
          assert words[1..][k - 1] == words[k];
        }
      }
      if exists k :: 0 <= k < |words[1..]| && Contains(text, words[1..][k]) {
        var k :| 0 <= k < |words[1..]| && Contains(text, words[1..][k]);
        assert words[k + 1] == words[1..][k];
      }
    }
  }

  /** Rule 1: some question word occurs in the lower-cased document, or the
      question has no word longer than two characters. */
  predicate KeywordRule(question: string, content: string)
  {
    var words := QuestionWords(question);
    KeywordMatches(words, Lower(content)) >= 1 || |words| == 0
  }

  /** Rule 2: the question is about storage and the document mentions a storage term. */
  predicate StorageRule(question: string, content: string)
  {
    ContainsAny(Lower(question), StorageTriggers) && ContainsAny(Lower(content), StorageTerms)
  }

  /** The classifier call of rule 3: question, file name and an 800-character preview. */
  function RelevancePrompt(question: string, name: string, content: string): Prompt
  {
    Relevance(question, name, Take(content, PreviewLimit))
  }

  /** The relevance decision for one document: rules 1 and 2 first; only when
      both fail is the classifier asked, a YES keeping the document and a
      failed call keeping it when it has more than 100 characters. */
  predicate IsRelevant(question: string, name: string, content: string, gemini: Oracle)
  {
    if KeywordRule(question, content) || StorageRule(question, content) then true
    else
      match gemini(RelevancePrompt(question, name, content))
      case Reply(text) => IsYes(text)
      case Failure(_, _) => |content| > SubstantialLength
  }

  /** The relevance rules stated without the match counter: relevant exactly
      when the question has no long word, or some lower-cased question word is
      a substring of the lower-cased document, or the storage rule fires, or
      (when none of these holds) the classifier says YES, or fails on a
      document of more than 100 characters. */
  lemma RelevanceRules(question: string, name: string, content: string, gemini: Oracle)
    ensures
      var words := QuestionWords(question);
      var rules := |words| == 0 || (exists k :: 0 <= k < |words| && Contains(Lower(content), words[k])) || StorageRule(question, content);
      var verdict := gemini(RelevancePrompt(question, name, content));
      IsRelevant(question, name, content, gemini) <==>
        rules || (verdict.Reply? && IsYes(verdict.text)) || (verdict.Failure? && |content| > 100)
  {
    KeywordMatchesPositive(QuestionWords(question), Lower(content));
  }

  /** The classifier is consulted only when rules 1 and 2 both fail: when
      either holds, the decision is the same whatever the classifier replies. */
  lemma ClassifierOnlyAfterRules(question: string, name: string, content: string, g1: Oracle, g2: Oracle)
    requires KeywordRule(question, content) || StorageRule(question, content)
    ensures IsRelevant(question, name, content, g1) && IsRelevant(question, name, content, g2)
  {
  }

  /** One walk step: the entry's search result when the walk keeps it. A
      kept entry is a supported, readable, non-`.doc` file with non-blank
      text; the excerpt is that text cut at 15000 characters and the size is
      the untruncated length. */
  function Select(question: string, e: FileEntry, gemini: Oracle): (d: Option<RelevantDoc>)
    ensures d.Some? <==> Content(e).Some? && IsRelevant(question, e.name, Content(e).value, gemini)
    ensures d.Some? ==>
      && e.isFile && Extension(e) in SupportedExtensions && Extension(e) != ".doc"
      && e.extraction.Extracted? && !AllSpace(e.extraction.content)
      && d.value.file == e.name && d.value.fullPath == e.path
      && d.value.size == |e.extraction.content|
      && d.value.content == Take(e.extraction.content, ExcerptLimit)
  {
    match Content(e)
    case None => None
    case Some(content) =>
      if IsRelevant(question, e.name, content, gemini)
      then Some(RelevantDoc(e.name, Take(content, ExcerptLimit), e.path, |content|))
      else None
  }

  /** What the walk keeps of one entry: the entry's document, if it is
      selected. */
  function Kept(question: string, e: FileEntry, gemini: Oracle): (docs: seq<RelevantDoc>)
    ensures Select(question, e, gemini).Some? ==> docs == [Select(question, e, gemini).value]
    ensures Select(question, e, gemini).None? ==> docs == []
  {
    match Select(question, e, gemini) case Some(d) => [d] case None => []
  }

  /** `_search_documents(question, subject_filter)`: the kept entries of the
      walk, in walk order. Every result comes from a kept entry and every kept
      entry is in the result. `subjectFilter` is accepted and has no effect:
      the source computes the filter test and then ignores it. */
  function SearchDocuments(question: string, subjectFilter: Option<string>, corpus: seq<FileEntry>, gemini: Oracle): (docs: seq<RelevantDoc>)
    ensures |docs| <= |corpus|
    ensures forall d :: d in docs ==>
              exists i :: 0 <= i < |corpus| && Select(question, corpus[i], gemini) == Some(d)
    ensures forall i :: 0 <= i < |corpus| && Select(question, corpus[i], gemini).Some? ==>
              Select(question, corpus[i], gemini).value in docs
  {
    if |corpus| == 0 then []
    else
      var rest := SearchDocuments(question, subjectFilter, corpus[1..], gemini);
      var docs := Kept(question, corpus[0], gemini) + rest;
      assert forall i :: 1 <= i < |corpus| ==> corpus[i] == corpus[1..][i - 1];
      docs
  }

  /** The walk keeps order: searching two parts of a corpus one after the
      other gives the search of the whole. */
  lemma {:induction false} SearchAppend(question: string, f: Option<string>, a: seq<FileEntry>, b: seq<FileEntry>, gemini: Oracle)
    ensures SearchDocuments(question, f, a + b, gemini) == SearchDocuments(question, f, a, gemini) + SearchDocuments(question, f, b, gemini)
  {
    if |a| == 0 {
      assert a + b == b;
    } else {
      Seqs.HeadAppend(a, b);
      SearchUnfold(question, f, a + b, gemini);
      SearchAppend(question, f, a[1..], b, gemini);
      SearchUnfold(question, f, a, gemini);
      Seqs.AppendAssoc(Kept(question, a[0], gemini), SearchDocuments(question, f, a[1..], gemini), SearchDocuments(question, f, b, gemini));
    }
  }

  lemma SearchUnfold(question: string, f: Option<string>, corpus: seq<FileEntry>, gemini: Oracle)
    requires |corpus| > 0
    ensures SearchDocuments(question, f, corpus, gemini) == Kept(question, corpus[0], gemini) + SearchDocuments(question, f, corpus[1..], gemini)
  {
  }

  /** The search of a one-file corpus is that file's walk step. */
  lemma SearchSingle(question: string, f: Option<string>, e: FileEntry, gemini: Oracle)
    ensures SearchDocuments(question, f, [e], gemini) == (match Select(question, e, gemini) case Some(d) => [d] case None => [])
  {
    assert [e][1..] == [];
  }

  /** The subject filter has no effect on the result. */
  lemma {:induction false} SearchIgnoresSubjectFilter(question: string, f1: Option<string>, f2: Option<string>, corpus: seq<FileEntry>, gemini: Oracle)
    ensures SearchDocuments(question, f1, corpus, gemini) == SearchDocuments(question, f2, corpus, gemini)
  {
    if |corpus| > 0 {
      SearchIgnoresSubjectFilter(question, f1, f2, corpus[1..], gemini);
    }
  }

  /** The search asks the service only classification questions: oracles that
      agree on those give the same result. */
  lemma {:induction false} SearchSameClassifications(question: string, f: Option<string>, corpus: seq<FileEntry>, g1: Oracle, g2: Oracle)
    requires SameClassifications(g1, g2)
    ensures SearchDocuments(question, f, corpus, g1) == SearchDocuments(question, f, corpus, g2)
  {
    if |corpus| > 0 {
      var e := corpus[0];
      if Content(e).Some? {
        var p := RelevancePrompt(question, e.name, Content(e).value);
        assert !p.IsGeneration();
        assert g1(p) == g2(p);
      }
      assert Select(question, e, g1) == Select(question, e, g2);
      SearchSameClassifications(question, f, corpus[1..], g1, g2);
    }
  }

  /** What every search result is: a supported file, never one with the
      `.doc` extension, with non-blank text, reported under its own name with
      the text cut at 15000 characters and its untruncated size. */
  lemma SearchResultFacts(question: string, f: Option<string>, corpus: seq<FileEntry>, gemini: Oracle)
    ensures var docs := SearchDocuments(question, f, corpus, gemini);
      forall k :: 0 <= k < |docs| ==> exists i :: 0 <= i < |corpus| && ReportsEntry(docs[k], corpus[i])
  {
    var docs := SearchDocuments(question, f, corpus, gemini);
    forall k | 0 <= k < |docs|
      ensures exists i :: 0 <= i < |corpus| && ReportsEntry(docs[k], corpus[i])
    {
      var d := docs[k];
      assert d in docs;
      var i :| 0 <= i < |corpus| && Select(question, corpus[i], gemini) == Some(d);
      SelectReports(question, corpus[i], gemini);
    }
  }

  lemma SelectReports(question: string, e: FileEntry, gemini: Oracle)
    requires Select(question, e, gemini).Some?
    ensures ReportsEntry(Select(question, e, gemini).value, e)
  {
  }

  /** `d` is the search entry for the walk entry `e`. */
  predicate ReportsEntry(d: RelevantDoc, e: FileEntry)
  {
    && e.isFile && Extension(e) in SupportedExtensions - {".doc"}
    && e.extraction.Extracted? && !AllSpace(e.extraction.content)
    && d.file == e.name && d.fullPath == e.path
    && d.size == |e.extraction.content|
    && d.content == Take(e.extraction.content, ExcerptLimit)
  }

  /** The file names of a search result, in order. */
  function SourceNames(docs: seq<RelevantDoc>): (names: seq<string>)
    ensures |names| == |docs|
    ensures forall k :: 0 <= k < |docs| ==> names[k] == docs[k].file
  {
    seq(|docs|, k requires 0 <= k < |docs| => docs[k].file)
  }

  /** The excerpts a grounded prompt carries, in order. */
  function Materials(docs: seq<RelevantDoc>): seq<Material>
  {
    seq(|docs|, k requires 0 <= k < |docs| => Material(docs[k].file, docs[k].content))
  }

  // ---------------------------------------------------------------------
  // _extract_and_calculate

  /** `any(op in expr for op in ['+', '-', '*', '/', '^'])`. */
  predicate HasOperator(expr: string)
  {
    exists k :: 0 <= k < |expr| && expr[k] in "+-*/^"
  }

  /** A stripped regex match the pre-step passes to the calculator. */
  predicate Admitted(expr: string)
  {
    HasOperator(expr) && |expr| > 1
  }

  /** A stripped match that is admitted and that the calculator evaluates. */
  predicate Evaluates(expr: string, eval: Evaluator)
  {
    Admitted(expr) && Execute(expr, eval).Ok?
  }

  /** The loop's state: the `calculations` dict and the set of tool names appended. */
  datatype Tally = Tally(calculations: map<string, real>, used: set<string>)

  /** The regex matches with `strip()` applied to each. */
  function StripAll(matches: seq<string>): (exprs: seq<string>)
    ensures |exprs| == |matches|
    ensures forall i :: 0 <= i < |matches| ==> exprs[i] == Strip(matches[i])
  {
    seq(|matches|, i requires 0 <= i < |matches| => Strip(matches[i]))
  }

  /** The loop over the stripped regex matches, after it has seen `exprs`;
      `run` is the agent's first tool, the calculator. A key is recorded
      exactly for the matches that are admitted and that `run` evaluates (and
      only when the agent has a tool), with `run`'s value; failed evaluations
      leave no trace; the calculator is marked used exactly when something was
      recorded. */
  function Calculate(exprs: seq<string>, hasTools: bool, run: string -> Result<real, string>): (t: Tally)
    ensures forall k :: k in t.calculations <==> hasTools && k in exprs && Admitted(k) && run(k).Ok?
    ensures forall k :: k in t.calculations ==> run(k) == Ok(t.calculations[k])
    ensures t.used == if t.calculations == map[] then {} else {CalculatorName}
    decreases |exprs|
  {
    if |exprs| == 0 then Tally(map[], {})
    else
      var n := |exprs| - 1;
      var prior := Calculate(exprs[..n], hasTools, run);
      var expr := exprs[n];
      assert exprs == exprs[..n] + [expr];
      if Admitted(expr) && hasTools then
        match run(expr)
        case Ok(v) => Tally(prior.calculations[expr := v], prior.used + {CalculatorName})
        case Err(_) => prior
      else prior
  }

  /** Matches that are not admitted are never evaluated: calculators that
      agree on the admitted matches give the same tally. */
  lemma {:induction false} CalculateConsultsOnlyAdmitted(exprs: seq<string>, hasTools: bool, run1: string -> Result<real, string>, run2: string -> Result<real, string>)
    requires forall i :: 0 <= i < |exprs| && Admitted(exprs[i]) ==> run1(exprs[i]) == run2(exprs[i])
    ensures Calculate(exprs, hasTools, run1) == Calculate(exprs, hasTools, run2)
    decreases |exprs|
  {
    if |exprs| > 0 {
      var n := |exprs| - 1;
      assert forall i :: 0 <= i < n ==> exprs[..n][i] == exprs[i];
      CalculateConsultsOnlyAdmitted(exprs[..n], hasTools, run1, run2);
    }
  }

  /** The pre-step's return value: the calculations and the deduplicated tool list. */
  datatype Calculation = Calculation(calculations: map<string, real>, toolsUsed: seq<string>)

  /** The stripped regex matches of a question. */
  function Expressions(question: string, env: Env): seq<string>
  {
    StripAll(env.findExpressions(question))
  }

  /** `_extract_and_calculate(question)`. `tools_used` is `[]` or
      `["calculator"]`, and it is `["calculator"]` exactly when the agent has a
      tool and at least one stripped regex match was admitted and evaluated;
      those matches are the keys of `calculations`, each with its value. */
  function ExtractAndCalculate(info: AgentInfo, question: string, env: Env): (r: Calculation)
    ensures r.toolsUsed == [] || r.toolsUsed == [CalculatorName]
    ensures r.toolsUsed == [CalculatorName] <==>
              |info.tools| > 0 && exists e :: e in Expressions(question, env) && Evaluates(e, env.evaluate)
    ensures forall k :: k in r.calculations <==>
              |info.tools| > 0 && k in Expressions(question, env) && Evaluates(k, env.evaluate)
    ensures forall k :: k in r.calculations ==> Execute(k, env.evaluate) == Ok(r.calculations[k])
  {
    var t := Calculate(Expressions(question, env), |info.tools| > 0, e => Execute(e, env.evaluate));
    // `list(set(tools_used))`: the only name ever appended is the calculator's.
    Calculation(t.calculations, if CalculatorName in t.used then [CalculatorName] else [])
  }

  // ---------------------------------------------------------------------
  // The process shape shared by the math and physics agents

  /** `can_handle` of the math and physics agents, given the classifier's
      outcome: YES-parsing of a reply, the indicator list when the call fails. */
  predicate ClassifyOrIndicators(verdict: Outcome, question: string, indicators: seq<string>)
  {
    match verdict
    case Reply(text) => IsYes(text)
    case Failure(_, _) => ContainsAny(Lower(question), indicators)
  }

  /** What distinguishes the math agent from the physics agent in `process`. */
  datatype Profile = Profile(info: AgentInfo, persona: Persona, subjectFilter: string, notFound: string, errorPrefix: string)

  /** The documents a subject agent grounds on in on-syllabus mode. */
  function SubjectDocuments(p: Profile, question: string, env: Env): seq<RelevantDoc>
  {
    SearchDocuments(question, Some(p.subjectFilter), env.corpus, env.gemini)
  }

  /** The generation prompt a subject agent sends when it does send one. */
  function SubjectPrompt(p: Profile, question: string, mode: string, env: Env): Prompt
  {
    var pre := ExtractAndCalculate(p.info, question, env);
    if mode == OnSyllabus then Grounded(p.persona, question, Materials(SubjectDocuments(p, question, env)), pre.calculations)
    else Tutoring(p.persona, question, pre.calculations)
  }

  /** The answer text of a generation call: the reply, or the error text. */
  function AnswerText(o: Outcome, errorPrefix: string): string
  {
    match o
    case Reply(text) => text
    case Failure(message, _) => errorPrefix + message
  }

  /** `process(question, mode)` of the math and physics agents. */
  function SubjectProcess(p: Profile, question: string, mode: string, env: Env): (r: AgentResult)
    ensures r.agentUsed.None?
    ensures r.toolsUsed == Some(ExtractAndCalculate(p.info, question, env).toolsUsed)
    ensures var docs := SubjectDocuments(p, question, env);
      mode == OnSyllabus && |docs| == 0 ==> r.answer == p.notFound && r.sources == Some([])
    ensures var docs := SubjectDocuments(p, question, env);
      mode == OnSyllabus && |docs| > 0 ==> r.sources == Some(SourceNames(docs))
    ensures mode != OnSyllabus ==> r.sources == Some([])
    ensures var docs := SubjectDocuments(p, question, env);
      mode != OnSyllabus || |docs| > 0 ==> r.answer == AnswerText(env.gemini(SubjectPrompt(p, question, mode, env)), p.errorPrefix)
  {
    var pre := ExtractAndCalculate(p.info, question, env);
    var tools := Some(pre.toolsUsed);
    var docs := SubjectDocuments(p, question, env);
    if mode == OnSyllabus && |docs| == 0 then
      AgentResult(p.notFound, None, tools, Some([]))
    else
      var sources := if mode == OnSyllabus then SourceNames(docs) else [];
      match env.gemini(SubjectPrompt(p, question, mode, env))
      case Reply(text) => AgentResult(text, None, tools, Some(sources))
      case Failure(message, _) =>
        AgentResult(p.errorPrefix + message, None, tools, Some(if mode == OnSyllabus then sources else []))
  }

  /** In on-syllabus mode with nothing relevant, a subject agent makes no
      generation call: replacing the service's generation replies changes
      nothing. */
  lemma SubjectNoDocumentsNoGeneration(p: Profile, question: string, env: Env, g: Oracle)
    requires |SubjectDocuments(p, question, env)| == 0
    requires SameClassifications(env.gemini, g)
    ensures SubjectProcess(p, question, OnSyllabus, env) == SubjectProcess(p, question, OnSyllabus, env.(gemini := g))
  {
    SearchSameClassifications(question, Some(p.subjectFilter), env.corpus, env.gemini, g);
  }
}
