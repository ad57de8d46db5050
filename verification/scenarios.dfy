/** Concrete requests worked through the model: the arithmetic pre-step on
    "2 + 2", routing a physics question, and grounding on a matching file. */
module Scenarios {
  import opened Wrappers
  import opened Text
  import opened Gemini
  import opened Util
  import opened Agent
  import MathTool
  import PhysicsAgent
  import Tutor

  lemma StripTwoPlusTwo()
    ensures Strip("2 + 2") == "2 + 2"
  {
    assert Lead("2 + 2") == 0;
    assert Trail("2 + 2") == 5;
  }

  lemma SanitizeTwoPlusTwo()
    ensures Without("2 + 2", ' ') == "2+2"
    ensures Sanitize("2 + 2") == "2+2"
  {
    var e := "2 + 2";
    assert e[1..] == " + 2" && e[2..] == "+ 2" && e[3..] == " 2" && e[4..] == "2" && e[5..] == "";
    assert Without(e, ' ') == "2+2";
    ReplaceCaretIdentity("2+2");
  }

  lemma ExecuteTwoPlusTwo(eval: Evaluator)
    requires eval("2+2") == Ok(4.0)
    ensures Execute("2 + 2", eval) == Ok(4.0)
  {
    SanitizeTwoPlusTwo();
    assert Whitelisted("2+2");
  }

  lemma AdmittedTwoPlusTwo()
    ensures Admitted("2 + 2")
  {
    assert "2 + 2"[2] == '+';
  }

  lemma ExpressionsTwoPlusTwo(env: Env)
    requires env.findExpressions("2 + 2") == ["2 + 2", "2 + 2"]
    ensures forall k :: k in Expressions("2 + 2", env) <==> k == "2 + 2"
  {
    StripTwoPlusTwo();
    var x := Expressions("2 + 2", env);
    assert |x| == 2 && x[0] == "2 + 2" && x[1] == "2 + 2";
  }

  lemma EvaluatesTwoPlusTwo(env: Env)
    requires env.findExpressions("2 + 2") == ["2 + 2", "2 + 2"]
    requires env.evaluate("2+2") == Ok(4.0)
    ensures forall k :: k in Expressions("2 + 2", env) && Evaluates(k, env.evaluate) <==> k == "2 + 2"
  {
    ExpressionsTwoPlusTwo(env);
    ExecuteTwoPlusTwo(env.evaluate);
    AdmittedTwoPlusTwo();
  }

  lemma TwoPlusTwoKeys(env: Env)
    requires env.findExpressions("2 + 2") == ["2 + 2", "2 + 2"]
    requires env.evaluate("2+2") == Ok(4.0)
    ensures ExtractAndCalculate(MathTool.Info, "2 + 2", env).calculations.Keys == {"2 + 2"}
  {
    EvaluatesTwoPlusTwo(env);
    var r := ExtractAndCalculate(MathTool.Info, "2 + 2", env);
    assert "2 + 2" in r.calculations;
  }

  /** On "2 + 2" the first two arithmetic patterns both match "2 + 2"; the
      calculator removes the spaces and evaluates "2+2". The result is keyed
      by the stripped match, spaces included, and the calculator is reported. */
  lemma TwoPlusTwo(env: Env)
    requires env.findExpressions("2 + 2") == ["2 + 2", "2 + 2"]
    requires env.evaluate("2+2") == Ok(4.0)
    ensures ExtractAndCalculate(MathTool.Info, "2 + 2", env).calculations.Keys == {"2 + 2"}
    ensures ExtractAndCalculate(MathTool.Info, "2 + 2", env).calculations["2 + 2"] == 4.0
    ensures ExtractAndCalculate(MathTool.Info, "2 + 2", env).toolsUsed == ["calculator"]
  {
    TwoPlusTwoKeys(env);
    ExecuteTwoPlusTwo(env.evaluate);
  }

  lemma NewtonMath(env: Env)
    requires env.gemini(Capability(MathSubject, "What is Newton's second law?")) == Reply("NO")
    ensures Tutor.Score(Tutor.Math, "What is Newton's second law?", env) == None
  {
    IsYesIff("NO");
    assert !MathTool.CanHandle("What is Newton's second law?", env.gemini);
  }

  lemma NewtonPhysics(env: Env)
    requires var q := "What is Newton's second law?";
      && env.gemini(Capability(PhysicsSubject, q)) == Reply("YES")
      && env.gemini(Tutor.ConfidencePrompt(Tutor.Physics, q)) == Reply("9")
      && env.parseFloat("9") == Some(9.0)
    ensures Tutor.Score(Tutor.Physics, "What is Newton's second law?", env) == Some(9.0)
  {
    IsYesIff("YES");
    assert PhysicsAgent.CanHandle("What is Newton's second law?", env.gemini);
    assert Strip("9") == "9" by { assert Lead("9") == 0 && Trail("9") == 1; }
  }

  /** "What is Newton's second law?" in off-syllabus mode, with the math
      classifier saying NO, the physics classifier YES and a rating of 9: the
      physics agent answers and nothing is cited. */
  lemma NewtonGoesToPhysics(env: Env)
    requires var q := "What is Newton's second law?";
      && env.gemini(Capability(MathSubject, q)) == Reply("NO")
      && env.gemini(Capability(PhysicsSubject, q)) == Reply("YES")
      && env.gemini(Tutor.ConfidencePrompt(Tutor.Physics, q)) == Reply("9")
      && env.parseFloat("9") == Some(9.0)
    ensures Tutor.Process("What is Newton's second law?", "off-syllabus", env).agentUsed == "Physics Agent"
    ensures Tutor.Process("What is Newton's second law?", "off-syllabus", env).sources == []
  {
    var q := "What is Newton's second law?";
    NewtonMath(env);
    NewtonPhysics(env);
    Tutor.RoutingTable(q, env);
    assert Tutor.FindBestAgent(q, env) == Tutor.Delegate(Tutor.Physics);
    Tutor.SourcesAreSearchResults(q, "off-syllabus", env);
  }

  lemma RatingTextErrorMath(question: string, env: Env, m: string)
    requires env.gemini(Capability(MathSubject, question)) == Reply("YES")
    requires env.gemini(Tutor.ConfidencePrompt(Tutor.Math, question)) == Failure(m, true)
    ensures Tutor.Score(Tutor.Math, question, env) == Some(5.0)
  {
    IsYesIff("YES");
    assert MathTool.CanHandle(question, env.gemini);
  }

  lemma PhysicsDeclines(question: string, env: Env)
    requires env.gemini(Capability(PhysicsSubject, question)) == Reply("NO")
    ensures Tutor.Score(Tutor.Physics, question, env) == None
  {
    IsYesIff("NO");
    assert !PhysicsAgent.CanHandle(question, env.gemini);
  }

  /** The math classifier says YES, reading the math rating's `.text` raises
      a `ValueError`, and the physics classifier says NO: the math agent is
      still scored (5.0) and gets the question. */
  lemma RatingTextErrorStillDelegates(question: string, env: Env, m: string)
    requires env.gemini(Capability(MathSubject, question)) == Reply("YES")
    requires env.gemini(Tutor.ConfidencePrompt(Tutor.Math, question)) == Failure(m, true)
    requires env.gemini(Capability(PhysicsSubject, question)) == Reply("NO")
    ensures Tutor.Score(Tutor.Math, question, env) == Some(5.0)
    ensures Tutor.Process(question, "off-syllabus", env).agentUsed == "Math Agent"
  {
    RatingTextErrorMath(question, env, m);
    PhysicsDeclines(question, env);
    Tutor.RoutingTable(question, env);
    assert Tutor.FindBestAgent(question, env) == Tutor.Delegate(Tutor.Math);
  }

  lemma MomentumSplit()
    ensures Split("explain momentum") == ["explain", "momentum"]
  {
    var words := ["explain", "momentum"];
    assert IsWord("explain") && IsWord("momentum");
    assert Join(words) == "explain momentum";
    SplitJoin(words);
  }

  lemma MomentumLongWords()
    ensures LongWords(["momentum"]) == ["momentum"]
    ensures LongWords(["explain", "momentum"]) == ["explain", "momentum"]
  {
    LowerKeeps("momentum");
    assert ["momentum"][1..] == [];
    assert LongWords(["momentum"]) == ["momentum"];
    LowerKeeps("explain");
    assert ["explain", "momentum"][1..] == ["momentum"];
  }

  lemma MomentumWords()
    ensures QuestionWords("explain momentum") == ["explain", "momentum"]
  {
    MomentumSplit();
    assert QuestionWords("explain momentum") == LongWords(["explain", "momentum"]);
    MomentumLongWords();
  }

  lemma MomentumKeyword(content: string)
    requires Contains(Lower(content), "momentum")
    ensures KeywordRule("explain momentum", content)
  {
    var words := ["explain", "momentum"];
    MomentumWords();
    KeywordMatchesPositive(words, Lower(content));
    assert Contains(Lower(content), words[1]);
  }

  lemma MomentumNotBlank(content: string)
    requires Contains(Lower(content), "momentum")
    ensures !AllSpace(content)
  {
    var j: nat :| j <= |Lower(content)| && OccursAt(Lower(content), "momentum", j);
    assert Lower(content)[j..j + 8][0] == 'm';
    assert LowerChar(content[j]) == 'm';
    assert !IsSpace(content[j]);
  }

  lemma TextFileContent(e: FileEntry)
    requires e.isFile && e.suffix == ".txt"
    requires e.extraction.Extracted? && !AllSpace(e.extraction.content)
    ensures Content(e) == Some(e.extraction.content)
  {
    LowerKeeps(".txt");
    assert Extension(e) == ".txt";
    assert Strip(e.extraction.content) != [];
  }

  lemma MomentumSelected(e: FileEntry, gemini: Oracle)
    requires e.isFile && e.suffix == ".txt"
    requires e.extraction.Extracted? && Contains(Lower(e.extraction.content), "momentum")
    ensures Select("explain momentum", e, gemini).Some?
  {
    var content := e.extraction.content;
    MomentumKeyword(content);
    MomentumNotBlank(content);
    TextFileContent(e);
    assert IsRelevant("explain momentum", e.name, content, gemini);
  }

  /** A text file that mentions "momentum" is cited for "explain momentum" in
      on-syllabus mode, whoever answers. */
  lemma MomentumFileIsCited(env: Env, i: nat)
    requires i < |env.corpus|
    requires var e := env.corpus[i];
      && e.isFile && e.suffix == ".txt"
      && e.extraction.Extracted? && Contains(Lower(e.extraction.content), "momentum")
    ensures env.corpus[i].name in Tutor.Process("explain momentum", "on-syllabus", env).sources
  {
    MomentumSelected(env.corpus[i], env.gemini);
    Tutor.GroundedCitesEveryRelevantFile("explain momentum", env, i);
  }
}
