/** The external text-generation service (Gemini `generate_content`), seen
    from the tutor: a prompt goes in, a reply or a raised exception comes
    out. Prompt wording is not modelled; each prompt kind records the data
    the tutor puts into it. Every call site in the tutor uses one `Oracle`. */
module Gemini {
  import opened Text

  /** The subject whose classification prompt a specialist sends. */
  datatype Subject = MathSubject | PhysicsSubject

  /** Which tutoring prompt text a generation call uses. The general tutor
      and the syllabus tool send the same text. */
  datatype Persona = GeneralTutor | MathTutor | PhysicsTutor

  /** One grounding excerpt as it appears in a grounded prompt: "From <file>:" then the text. */
  datatype Material = Material(file: string, excerpt: string)

  datatype Prompt =
    | Capability(subject: Subject, question: string)
    | Relevance(question: string, fileName: string, preview: string)
    | Confidence(agentName: string, question: string, specialty: string)
    | Grounded(persona: Persona, question: string, materials: seq<Material>, calculations: map<string, real>)
    | Tutoring(persona: Persona, question: string, calculations: map<string, real>)
  {
    /** An answer-generation call, as opposed to a YES/NO or 1-10 classification call. */
    predicate IsGeneration()
    {
      Grounded? || Tutoring?
    }
  }

  /** `response.text` of a successful call, or the message of the exception
      raised by the call or by reading `.text`. `textValueError` records that
      the exception was a `ValueError` raised while reading `.text`: only the
      rating call of the router treats that case differently. */
  datatype Outcome = Reply(text: string) | Failure(message: string, textValueError: bool)

  type Oracle = Prompt -> Outcome

  /** Two oracles that give the same reply to every classification prompt and
      may differ only on generation prompts. */
  ghost predicate SameClassifications(g1: Oracle, g2: Oracle)
  {
    forall p: Prompt :: !p.IsGeneration() ==> g1(p) == g2(p)
  }

  /** `reply.strip().upper() == "YES"`, the test every YES/NO classification uses. */
  predicate IsYes(reply: string)
  {
    Upper(Strip(reply)) == "YES"
  }

  /** A reply reads as YES exactly when, once stripped, it is the three letters
      y, e, s in any mix of cases. */
  lemma IsYesIff(reply: string)
    ensures IsYes(reply) <==>
      var t := Strip(reply);
      |t| == 3 && t[0] in "yY" && t[1] in "eE" && t[2] in "sS"
  {
    var t := Strip(reply);
    var u := Upper(t);
    if |t| == 3 && t[0] in "yY" && t[1] in "eE" && t[2] in "sS" {
      assert u == "YES";
    }
    if IsYes(reply) {
      assert |t| == 3;
      assert u[0] == 'Y' && u[1] == 'E' && u[2] == 'S';
    }
  }
}
