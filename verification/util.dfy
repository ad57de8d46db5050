/** lib/tools/util.py: the request/response schemas of the HTTP layer and the
    calculator tool. */
module Util {
  import opened Wrappers
  import opened Text

  const OffSyllabus := "off-syllabus"
  const OnSyllabus := "on-syllabus"

  /** The body of a question request. */
  datatype QueryRequest = QueryRequest(question: string, mode: string)

  /** Building a request; a missing `mode` field takes the schema default. */
  function NewQueryRequest(question: string, mode: Option<string>): (r: QueryRequest)
    ensures r.question == question
    ensures mode.None? ==> r.mode == "off-syllabus"
    ensures mode.Some? ==> r.mode == mode.value
  {
    QueryRequest(question, mode.GetOr(OffSyllabus))
  }

  /** The answer envelope returned for every request. */
  datatype QueryResponse = QueryResponse(answer: string, agentUsed: string, toolsUsed: seq<string>, sources: seq<string>)

  /** Building a response; missing list fields default to the empty list. */
  function NewQueryResponse(answer: string, agentUsed: string, toolsUsed: Option<seq<string>>, sources: Option<seq<string>>): (r: QueryResponse)
    ensures r.answer == answer && r.agentUsed == agentUsed
    ensures toolsUsed.None? ==> r.toolsUsed == []
    ensures sources.None? ==> r.sources == []
    ensures toolsUsed.Some? ==> r.toolsUsed == toolsUsed.value
    ensures sources.Some? ==> r.sources == sources.value
  {
    QueryResponse(answer, agentUsed, toolsUsed.GetOr([]), sources.GetOr([]))
  }

  // ---------------------------------------------------------------------
  // CalculatorTool

  const CalculatorName := "calculator"
  const CalculationErrorPrefix := "Calculation error: "
  const InvalidCharacters := "Invalid characters in expression"

  /** Python's `eval` of the sanitized expression followed by `float(...)`:
      the number, or the message of the exception either step raised. */
  type Evaluator = string -> Result<real, string>

  /** The calculator's character whitelist: digits and `+ - * / ( ) . ^`. */
  predicate Allowed(c: char)
  {
    '0' <= c <= '9' || c in "+-*/().^"
  }

  predicate Whitelisted(e: string)
  {
    forall k :: 0 <= k < |e| ==> Allowed(e[k])
  }

  /** `e.replace("^", "**")`: no `^` is left, every other character stays,
      and `*` appears as soon as there was a `^` to rewrite. */
  function ReplaceCaret(e: string): (r: string)
    ensures '^' !in r
    ensures forall x :: x != '^' && x in e ==> x in r
    ensures forall x :: x in r ==> x in e || (x == '*' && '^' in e)
  {
    if |e| == 0 then ""
    else
      assert e == [e[0]] + e[1..];
      (if e[0] == '^' then "**" else [e[0]]) + ReplaceCaret(e[1..])
  }

  /** `replace("^", "**")` works character by character: a `^` becomes
      `**` and any other character stays. */
  lemma ReplaceCaretChar(x: char)
    ensures ReplaceCaret([x]) == if x == '^' then "**" else [x]
  {
    assert [x][1..] == [];
  }

  /** ... and keeps order: the result for a concatenation is the
      concatenation of the results. */
  lemma {:induction false} ReplaceCaretAppend(a: string, b: string)
    ensures ReplaceCaret(a + b) == ReplaceCaret(a) + ReplaceCaret(b)
    decreases |a|
  {
    if |a| == 0 {
      assert a + b == b;
    } else {
      var head := if a[0] == '^' then "**" else [a[0]];
      calc {
        ReplaceCaret(a + b);
        { assert (a + b)[0] == a[0]; }
        head + ReplaceCaret((a + b)[1..]);
        { assert (a + b)[1..] == a[1..] + b; }
        head + ReplaceCaret(a[1..] + b);
        { ReplaceCaretAppend(a[1..], b); }
        head + (ReplaceCaret(a[1..]) + ReplaceCaret(b));
        (head + ReplaceCaret(a[1..])) + ReplaceCaret(b);
        ReplaceCaret(a) + ReplaceCaret(b);
      }
    }
  }

  /** The rewrite leaves an expression without `^` unchanged. */
  lemma {:induction false} ReplaceCaretIdentity(e: string)
    requires '^' !in e
    ensures ReplaceCaret(e) == e
  {
    if |e| > 0 {
      assert e[0] in e;
      assert forall x :: x in e[1..] ==> x in e;
      ReplaceCaretIdentity(e[1..]);
      assert e == [e[0]] + e[1..];
    }
  }

  /** The rewrite keeps the whitelist: besides `*` it introduces no character
      that was not already there. */
  lemma {:induction false} ReplaceCaretKeepsWhitelist(e: string)
    requires Whitelisted(e)
    ensures Whitelisted(ReplaceCaret(e))
  {
    if |e| > 0 {
      ReplaceCaretKeepsWhitelist(e[1..]);
      var head := if e[0] == '^' then "**" else [e[0]];
      assert Whitelisted(head);
      assert ReplaceCaret(e) == head + ReplaceCaret(e[1..]);
    }
  }

  /** The string handed to `eval`: spaces removed, `^` rewritten to `**`. */
  function Sanitize(expression: string): string
  {
    ReplaceCaret(Without(expression, ' '))
  }

  /** `CalculatorTool.execute(expression)`. Only the space character is
      removed before the whitelist check; any other character outside the
      whitelist (a tab, a newline, a letter) makes it fail. Every failure,
      the whitelist's included, is reported with the "Calculation error: "
      prefix, and a successful result is exactly what the evaluator returns
      for the sanitized string. */
  function Execute(expression: string, eval: Evaluator): (r: Result<real, string>)
    ensures r.Err? ==> CalculationErrorPrefix <= r.error
    ensures !Whitelisted(Without(expression, ' ')) ==> r == Err(CalculationErrorPrefix + InvalidCharacters)
    ensures r.Ok? <==> Whitelisted(Without(expression, ' ')) && eval(Sanitize(expression)).Ok?
    ensures r.Ok? ==> eval(Sanitize(expression)) == Ok(r.value)
    ensures Whitelisted(Without(expression, ' ')) && eval(Sanitize(expression)).Err? ==>
              r == Err(CalculationErrorPrefix + eval(Sanitize(expression)).error)
  {
    var e := Without(expression, ' ');
    if !Whitelisted(e) then Err(CalculationErrorPrefix + InvalidCharacters)
    else
      match eval(ReplaceCaret(e))
      case Ok(v) => Ok(v)
      case Err(m) => Err(CalculationErrorPrefix + m)
  }

  /** What the evaluator is ever asked to evaluate: a string of whitelisted
      characters with no space and no `^`. */
  lemma EvaluatorInput(expression: string)
    requires Whitelisted(Without(expression, ' '))
    ensures Whitelisted(Sanitize(expression))
    ensures ' ' !in Sanitize(expression) && '^' !in Sanitize(expression)
  {
    ReplaceCaretKeepsWhitelist(Without(expression, ' '));
  }

  /** Whitespace other than the space character is never accepted. */
  lemma ExecuteRejectsOtherWhitespace(expression: string, eval: Evaluator, c: char)
    requires IsSpace(c) && c != ' ' && c in expression
    ensures Execute(expression, eval) == Err(CalculationErrorPrefix + InvalidCharacters)
  {
    var e := Without(expression, ' ');
    assert c in e;
    var k :| 0 <= k < |e| && e[k] == c;
    assert !Allowed(e[k]);
  }
}
