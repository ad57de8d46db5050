# Tutor routing and grounding core, in Dafny

This project models the decision logic of the tutor back end in `lib/`. It covers:

- how a question is routed to the math agent, the physics agent or the tutor itself;
- how an answer is grounded in the documents under `books/`;
- how the arithmetic pre-step and the calculator tool validate and record calculations;
- how every agent assembles its answer envelope.

Everything the code obtains from outside becomes an input value of type `Agent.Env`:

- a Gemini call is one `Gemini.Oracle` over an abstract `Prompt` that records what the prompt carries; the wording is left out. The outcome is a reply text or a failure, and a failure records whether it was a `ValueError` raised while reading `.text`;
- the walk of `books/` with each file's extraction result is `corpus`;
- the three `re.findall` calls are `findExpressions`;
- `eval` followed by `float()` in the calculator is `evaluate`;
- `float()` of a score reply is `parseFloat`.

What remains is pure functions over strings, sequences, maps and reals.

"No generation call is made" is stated as independence. `Gemini.SameClassifications(g1, g2)` says two oracles agree on every classification prompt. A result that is the same under `env` and under `env.(gemini := g2)` cannot depend on any reply to a generation prompt.

Python string semantics are modelled explicitly in `Text`:

- `strip()` and `split()` use the `str.isspace()` character set;
- `in` is substring containment;
- `lower()` and `upper()` are restricted to ASCII letters.

Modules follow the source files:

- `Util`: `lib/tools/util.py`
- `Agent`: `lib/tools/agent.py`, plus the process shape shared by the math and physics agents
- `MathTool`: `lib/tools/mathTool.py`
- `PhysicsAgent`: `lib/tools/physicsAgent.py`
- `SyllabusTool`: `lib/tools/syllabusTool.py`
- `Tutor`: `lib/tutor.py`
- `Scenarios`: four end-to-end examples

`Wrappers` holds `Option` and `Result`; `Seqs` holds three facts about sequence concatenation; `Text` holds the string helpers; `Gemini` holds the service interface.

The code behaves as follows on points that are easy to misread, and the model does the same:

- Routing never sends on-syllabus requests to the syllabus agent. `TutorAgent` does not instantiate it, and `mode` plays no part in routing.
- There is no 6.0 delegation threshold. Any scored specialist beats self-handling.
- Ties go to the first maximum in poll order, Math before Physics, because Python's `max` keeps the first maximal element.
- When the tutor handles an on-syllabus question itself, it grounds and cites documents. Its sources are not always empty.
- For the question "2 + 2", the calculations map is keyed by the stripped regex match "2 + 2", spaces included. The calculator evaluates the space-free "2+2".
- The calculator is reported only by an agent that has tools. A question the tutor handles itself reports no tool, whatever it contains.

## Model

| member | source | states |
|---|---|---|
| Text.Strip | lib/tools/agent.py:121 | `strip()`: the result is a slice of the input with only whitespace cut from both ends, its ends are non-whitespace, and it is empty exactly when the input is all whitespace |
| Text.Split | lib/tools/agent.py:131 | `split()` yields only non-empty, whitespace-free tokens |
| Text.SplitUnique | lib/tools/agent.py:131 | whenever a text is written as whitespace gaps and whitespace-free words, with a non-empty gap between any two words, `split()` gives exactly those words |
| Text.SplitTokenises | lib/tools/agent.py:131 | every text can be written that way with its `split()` as the words; with Text.SplitUnique, the tokens are exactly the maximal whitespace-free runs, in order |
| Text.SplitJoin | lib/tools/agent.py:131 | splitting a space-joined list of such tokens gives the list back |
| Text.Lower | lib/tools/agent.py:132 | `lower()` keeps the length and maps each character through ASCII lower-casing |
| Text.Upper | lib/tools/agent.py:162 | `upper()` keeps the length and maps each character through ASCII upper-casing |
| Text.ContainsLower | lib/tools/agent.py:131-133 | a substring occurrence survives lower-casing both sides |
| Text.ContainsChar | lib/tools/mathTool.py:35-36 | a one-character indicator is contained in a string exactly when that character occurs in it |
| Text.Take | lib/tools/agent.py:176 | `s[:n]`: the first min(n, len) characters |
| Text.Without | lib/tools/util.py:34 | `replace(" ", "")`: the characters left are exactly the input's non-space characters |
| Text.WithoutChar | lib/tools/util.py:34 | a one-character string loses its character exactly when it is the removed one |
| Text.WithoutAppend | lib/tools/util.py:34 | removal keeps order: the result for a concatenation is the concatenation of the results |
| Gemini.IsYesIff | lib/tools/agent.py:162 | a reply counts as YES exactly when, once stripped, it is y-e-s in any mix of cases |
| Util.NewQueryRequest | lib/tools/util.py:5-7 | a request without `mode` gets "off-syllabus"; a given mode is kept |
| Util.NewQueryResponse | lib/tools/util.py:9-13 | missing `tools_used` and `sources` default to the empty list; given ones are kept |
| Util.ReplaceCaret | lib/tools/util.py:39 | no `^` is left after the rewrite; every other character survives, and the only new character is `*` |
| Util.ReplaceCaretChar | lib/tools/util.py:39 | a `^` becomes `**` and any other character stays as it is |
| Util.ReplaceCaretAppend | lib/tools/util.py:39 | the rewrite keeps order: the result for a concatenation is the concatenation of the results |
| Util.ReplaceCaretIdentity | lib/tools/util.py:39 | an expression without `^` is left unchanged |
| Util.ReplaceCaretKeepsWhitelist | lib/tools/util.py:35-39 | the rewrite of a whitelisted expression is still whitelisted |
| Util.Execute | lib/tools/util.py:31-44 | succeeds exactly when the space-free text is whitelisted and the evaluator succeeds, with the evaluator's value; any other character gives "Calculation error: Invalid characters in expression"; an evaluator failure gives "Calculation error: " + its message; every error starts with "Calculation error: " |
| Util.EvaluatorInput | lib/tools/util.py:34-41 | the string passed to `eval` is whitelisted and contains no space and no `^` |
| Util.ExecuteRejectsOtherWhitespace | lib/tools/util.py:34-37 | any whitespace other than the space character (tab, newline, …) makes `execute` fail with the invalid-characters error |
| Agent.LongWords | lib/tools/agent.py:131 | the question words are exactly the lower-cased tokens longer than two characters |
| Agent.KeywordMatchesPositive | lib/tools/agent.py:133-136 | the match count is at least one exactly when some word occurs in the text |
| Agent.RelevanceRules | lib/tools/agent.py:127-170 | a document is relevant exactly when one of these holds: the question has no long word; a lower-cased question word occurs in the lower-cased text; the storage rule fires; the classifier says YES; or the classifier call fails on text longer than 100 characters |
| Agent.ClassifierOnlyAfterRules | lib/tools/agent.py:147-148 | when the keyword or the storage rule holds, the document is relevant whatever the classifier would reply |
| Agent.Select | lib/tools/agent.py:37-183 | a walk entry is kept exactly when it has readable, non-blank content that is relevant. A kept entry is a supported file other than `.doc`, reported under its name and path, with its text cut to 15000 characters and its full length as `size` |
| Agent.SearchDocuments | lib/tools/agent.py:25-192 | every result is some walk entry's kept form, every kept entry is in the result, and there are no more results than entries |
| Agent.SearchAppend | lib/tools/agent.py:37-183 | the result keeps walk order: searching two parts of the walk in turn gives the search of the whole |
| Agent.SearchSingle | lib/tools/agent.py:37-183 | searching a one-entry walk gives that entry's kept form or nothing |
| Agent.SearchIgnoresSubjectFilter | lib/tools/agent.py:44-50 | the result does not depend on `subject_filter` |
| Agent.SearchSameClassifications | lib/tools/agent.py:147-170 | the search's only service calls are relevance classifications |
| Agent.SearchResultFacts | lib/tools/agent.py:33-183 | every result entry reports a walk entry that is a file with a supported extension other than `.doc`, has non-blank extracted text, and has the stated name, path, excerpt and size |
| Agent.SourceNames | lib/tools/mathTool.py:76 | `[doc['file'] for doc in relevant_docs]`: one name per document, in order |
| Agent.StripAll | lib/tools/agent.py:208-209 | every regex match is stripped, in order |
| Agent.Calculate | lib/tools/agent.py:206-217 | a key is recorded exactly for an admitted match (has an operator, longer than 1) that the calculator evaluates, and only when the agent has a tool; its value is the calculator's result; failures leave no trace; the calculator is marked used exactly when something was recorded |
| Agent.CalculateConsultsOnlyAdmitted | lib/tools/agent.py:210-213 | matches that are not admitted are never evaluated: calculators that agree on admitted matches give the same result |
| Agent.ExtractAndCalculate | lib/tools/agent.py:194-219 | `tools_used` is `[]` or `["calculator"]`, and it is `["calculator"]` exactly when the agent has a tool and some stripped match was admitted and evaluated; those matches are the keys of `calculations`, each with its value |
| Agent.SubjectProcess | lib/tools/mathTool.py:38-108 | the shared shape of the math and physics `process`; the same statements as MathTool.Process for any subject profile |
| Agent.SubjectNoDocumentsNoGeneration | lib/tools/mathTool.py:41-50 | on-syllabus with nothing relevant, a subject agent makes no generation call |
| MathTool.CanHandle | lib/tools/mathTool.py:13-36 | with a reply: true exactly when the stripped, upper-cased reply is "YES"; when the call fails: true exactly when the lower-cased question contains one of the 12 indicators |
| MathTool.FallbackOnOperator | lib/tools/mathTool.py:33-36 | with the classifier down, any question containing one of + - * / = is a math question |
| MathTool.Process | lib/tools/mathTool.py:38-108 | every result carries the pre-step's `tools_used`. On-syllabus with no documents: the fixed math "couldn't find" answer and no sources. On-syllabus with documents: their file names in order. Any other mode: no sources. The answer is the reply, or "I encountered an error processing your math question: " + the message |
| MathTool.NoDocumentsNoGeneration | lib/tools/mathTool.py:41-50 | on-syllabus with nothing relevant, no generation call is made |
| PhysicsAgent.CanHandle | lib/tools/physicsAgent.py:13-38 | with a reply: true exactly when the stripped, upper-cased reply is "YES"; when the call fails: true exactly when the lower-cased question contains one of the 11 indicators |
| PhysicsAgent.IndicatorsLowerCase | lib/tools/physicsAgent.py:37 | the physics indicators contain no capital letter |
| PhysicsAgent.FallbackIgnoresCase | lib/tools/physicsAgent.py:35-38 | with the classifier down, a question spelling an indicator in capitals is still a physics question |
| PhysicsAgent.Process | lib/tools/physicsAgent.py:40-111 | as MathTool.Process, with the physics "couldn't find" text and "I encountered an error processing your physics question: " |
| PhysicsAgent.NoDocumentsNoGeneration | lib/tools/physicsAgent.py:43-52 | on-syllabus with nothing relevant, no generation call is made |
| SyllabusTool.ToolCanHandle | lib/tools/syllabusTool.py:31-32 | the syllabus tool accepts every question |
| SyllabusTool.AgentCanHandle | lib/tools/syllabusTool.py:12-13 | the syllabus agent accepts every question |
| SyllabusTool.ToolProcess | lib/tools/syllabusTool.py:34-77 | no documents: the fixed "couldn't find" answer with no sources. With documents: their file names in order, kept when generation fails; the answer is the reply or "I encountered an error processing your question: " + the message. No `agent_used` or `tools_used` key |
| SyllabusTool.ToolNoDocumentsNoGeneration | lib/tools/syllabusTool.py:36-42 | with nothing relevant, no generation call is made |
| SyllabusTool.AgentProcess | lib/tools/syllabusTool.py:15-22 | reports "Syllabus Agent" and `["Syllabus Tool"]`, with the tool's answer and sources (default `[]`) |
| SyllabusTool.AgentIgnoresMode | lib/tools/syllabusTool.py:15-16 | the result is the same for every `mode` and always the grounded one |
| Tutor.Score | lib/tutor.py:26-51 | a specialist is scored exactly when it accepts the question and the rating call either returns or fails with a `ValueError` from `.text`; the score is the parsed reply, or 5.0 when the reply does not parse or `.text` raised `ValueError` |
| Tutor.Poll | lib/tutor.py:25-51 | the scored entries are specialists polled with their own scores, and every scorable specialist is among them |
| Tutor.PollAppend | lib/tutor.py:26 | polling keeps the order of `specialized_tools` |
| Tutor.MaxBy | lib/tutor.py:55 | `max` by score: the chosen entry scores at least every entry, and every earlier entry scores strictly less |
| Tutor.FindBestAgent | lib/tutor.py:21-58 | self-handling exactly when no specialist was scored, with no threshold; a delegate is scored, maximal, and the first maximum in poll order |
| Tutor.RoutingTable | lib/tutor.py:13-58 | for Math then Physics: Math when scored and Physics is not scored strictly higher (so ties go to Math); otherwise Physics if scored; otherwise the tutor |
| Tutor.ScoreSameClassifications | lib/tutor.py:28-44 | scoring uses only classification calls |
| Tutor.PollSameClassifications | lib/tutor.py:25-51 | polling uses only classification calls |
| Tutor.RoutingSameClassifications | lib/tutor.py:21-58 | routing uses only classification calls |
| Tutor.Process | lib/tutor.py:60-141 | delegation: the delegate's name, answer, `tools_used` and `sources` (each defaulting to `[]`). Self-handling: "Tutor Agent" with no tools. On-syllabus with no documents: the fixed answer with no sources. With documents: their file names. Any other mode: no sources. The answer is the reply or "I encountered an error processing your question: " + the message |
| Tutor.SelfHandleNoDocumentsNoGeneration | lib/tutor.py:75-85 | a self-handled on-syllabus question with nothing relevant makes no generation call |
| Tutor.SpecialistDocumentsAgree | lib/tutor.py:77 | a specialist's search finds the same documents as the tutor's own search |
| Tutor.SourcesAreSearchResults | lib/tutor.py:64-141 | whoever answers and whether or not generation succeeds, on-syllabus sources are the search result's file names in walk order, and other modes cite nothing |
| Tutor.SourcesAreRelevantFiles | lib/tutor.py:64-141 | every cited source names a walk entry the search kept, and only on-syllabus answers cite |
| Tutor.GroundedCitesEveryRelevantFile | lib/tutor.py:64-141 | in on-syllabus mode every file the search keeps is cited |
| Tutor.EmptyCorpusNoGeneration | lib/tutor.py:60-141 | with no documents at all, an on-syllabus question gets no sources and no generation call, whoever answers |
| Tutor.RoutingIgnoresMode | lib/tutor.py:62 | the agent named in the envelope does not depend on `mode` |
| Tutor.CalculatorReported | lib/tutor.py:64-72 | the envelope lists the calculator exactly when the question was delegated and some stripped match was admitted and evaluated |
| Scenarios.TwoPlusTwo | lib/tools/agent.py:194-219 | with both arithmetic patterns matching "2 + 2" and "2+2" evaluating to 4.0: the only key is "2 + 2", its value is 4.0, and `tools_used` is `["calculator"]` |
| Scenarios.NewtonGoesToPhysics | lib/tutor.py:21-72 | the math classifier says NO, the physics classifier YES and the rating is "9": the physics agent answers off-syllabus and nothing is cited |
| Scenarios.RatingTextErrorStillDelegates | lib/tutor.py:44-49 | the math classifier says YES, reading the rating's `.text` raises `ValueError` and the physics classifier says NO: math is scored 5.0 and answers |
| Scenarios.MomentumFileIsCited | lib/tools/agent.py:121-183 | a `.txt` file mentioning "momentum" is cited for "explain momentum" in on-syllabus mode, whoever answers |

## Left out

- The prompt wording of every Gemini call is left out; each prompt is a `Gemini.Prompt` value carrying the question, the excerpts, the calculations or the agent data it embeds.
- The filesystem walk and text extraction (`rglob`, PyPDF2, pdfplumber, the raw-byte fallback, python-docx) are inputs. Each walk entry carries its extraction result, and a missing `books/` directory is an empty walk.
- `re.findall` over the three arithmetic patterns is an input: the matches of all three patterns, concatenated in pattern order.
- `eval` and `float()` in the calculator, and `float()` of score replies, are inputs. Floating-point rounding, NaN and infinities are not modelled; a score is a `real`.
- `lower()`, `upper()` and the case handling of suffixes cover ASCII letters only; Unicode case mapping is left out.
- The `print` logging, `self.tools[0]` as an object, and the two model handles created in `Agent.__init__` are left out.
- Exceptions that `can_handle` could raise are left out: both specialists catch every exception of their classifier call. So only a failing rating call excludes a specialist, and not when the failure is a `ValueError` raised while reading `.text`, which the inner handler scores 5.0.
- Gemini.Oracle: one oracle gives one fixed outcome per distinct prompt. The code makes an independent call every time, so two same-named files with equal 800-character previews could get different relevance verdicts, and a repeated rating could differ; the model gives them the same one.
- pydantic validation of request and response bodies is left out; only the field defaults are modelled.
- lib/tutor.py:4-5 imports `MathTool` from `lib.tools.mathAgent` and `PhysicsTool` from `lib.tools.physicsAgent`, names that these files do not define. The model uses the evident list: the math agent, then the physics agent.
- server.py (the HTTP routes, upload saving and renaming, the books check and its use of a nonexistent `specialized_agents` at line 62) is not part of this model.
- static/scripts/home.js and static/scripts/on_syllabus.js (the browser UI) are not part of this model.
- `Agent.SearchDocuments` models the walk entries one at a time. An exception while handling one entry skips that entry, and the model expresses this as an `Unreadable` extraction.
