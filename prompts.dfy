/**
 * The two prompts the chatbot sends to the generator: the grounded chat
 * prompt of `generate_prompt`, and the refinement prompt of
 * `refine_response`. Both are fixed templates around the caller's text.
 */
module Prompts {
  import opened Text

  const ContentPreamble := "Here is some content from our website (structured in JSON format):\n"
  const QueryLabel := "\n\nUser query: "
  const ClosingBreak := "\n\n"
  const Closing := "Please respond as a knowledgeable support assistant for Wallingford Financial, based on the above content."

  /**
   * `generate_prompt(userInput, jsonContent)`: the preamble, the serialized
   * page contents, the labelled user query and the closing instruction, laid
   * end to end in that order with nothing else between them.
   */
  function GeneratePrompt(userInput: string, jsonContent: string): (p: string)
    ensures |p| == |ContentPreamble| + |jsonContent| + |QueryLabel| + |userInput| + |ClosingBreak| + |Closing|
    ensures p[..|ContentPreamble|] == ContentPreamble
    ensures p[|ContentPreamble|..|ContentPreamble| + |jsonContent|] == jsonContent
    ensures p[|ContentPreamble| + |jsonContent|..|ContentPreamble| + |jsonContent| + |QueryLabel|] == QueryLabel
    ensures p[|ContentPreamble| + |jsonContent| + |QueryLabel|..|p| - |ClosingBreak| - |Closing|] == userInput
    ensures p[|p| - |ClosingBreak| - |Closing|..] == ClosingBreak + Closing
  {
    var p := ContentPreamble + jsonContent + QueryLabel + userInput + (ClosingBreak + Closing);
    FiveParts(ContentPreamble, jsonContent, QueryLabel, userInput, ClosingBreak + Closing);
    assert ContentPreamble + jsonContent + QueryLabel + userInput + ClosingBreak + Closing == p;
    p
  }

  /** Where each of five strings laid end to end sits in the result. */
  lemma FiveParts(a: string, b: string, c: string, d: string, e: string)
    ensures var p := a + b + c + d + e;
            && |p| == |a| + |b| + |c| + |d| + |e|
            && p[..|a|] == a
            && p[|a|..|a| + |b|] == b
            && p[|a| + |b|..|a| + |b| + |c|] == c
            && p[|a| + |b| + |c|..|p| - |e|] == d
            && p[|p| - |e|..] == e
  {
  }

  /** The grounded prompt carries both the page contents and the user's words, and ends with the closing instruction. */
  lemma PromptCarriesQueryAndContent(userInput: string, jsonContent: string)
    ensures Occurs(jsonContent, GeneratePrompt(userInput, jsonContent))
    ensures Occurs(userInput, GeneratePrompt(userInput, jsonContent))
    ensures Occurs(Closing, GeneratePrompt(userInput, jsonContent))
  {
    FiveParts(ContentPreamble, jsonContent, QueryLabel, userInput, ClosingBreak + Closing);
    PartsOccur(ContentPreamble, jsonContent, QueryLabel, userInput, ClosingBreak, Closing);
  }

  /** The second and fourth of five strings laid end to end, and the end of the fifth, occur in the result. */
  lemma PartsOccur(a: string, b: string, c: string, d: string, e1: string, e2: string)
    ensures Occurs(b, a + b + c + d + (e1 + e2))
    ensures Occurs(d, a + b + c + d + (e1 + e2))
    ensures Occurs(e2, a + b + c + d + (e1 + e2))
  {
    var p := a + b + c + d + (e1 + e2);
    FiveParts(a, b, c, d, e1 + e2);
    OccursFromWitness(b, p, |a|);
    OccursFromWitness(d, p, |a| + |b| + |c|);
    assert p[|p| - |e2|..] == e2 by {
      assert p[|p| - |e2|..] == p[|p| - |e1 + e2|..][|e1|..];
    }
    OccursFromWitness(e2, p, |p| - |e2|);
  }

  /** With the length of the page contents known, the prompt gives back the query and the contents. */
  lemma PromptDeterminesParts(u1: string, j1: string, u2: string, j2: string)
    requires |j1| == |j2|
    requires GeneratePrompt(u1, j1) == GeneratePrompt(u2, j2)
    ensures u1 == u2 && j1 == j2
  {
    var p := GeneratePrompt(u1, j1);
    assert j1 == p[|ContentPreamble|..|ContentPreamble| + |j1|] == j2;
    assert |u1| == |u2|;
  }

  /**
   * Without that length the prompt is ambiguous: a query that itself
   * contains the query label yields the same prompt as other page contents
   * with a shorter query, so the generator cannot tell site text from user
   * text.
   */
  lemma PromptIsAmbiguous(content: string, prefix: string, query: string)
    ensures GeneratePrompt(prefix + QueryLabel + query, content)
         == GeneratePrompt(query, content + QueryLabel + prefix)
  {
  }

  const RefinePrefix := "Refine the following response to make it more clear and helpful: "

  /** The prompt of `refine_response`: the fixed instruction followed by the prior response, unchanged. */
  function RefinementPrompt(priorResponse: string): (p: string)
    ensures |p| == |RefinePrefix| + |priorResponse|
    ensures p[..|RefinePrefix|] == RefinePrefix
    ensures p[|RefinePrefix|..] == priorResponse
  {
    RefinePrefix + priorResponse
  }

  /** Different prior responses give different refinement prompts: the frame loses nothing. */
  lemma RefinementPromptInjective(r1: string, r2: string)
    requires RefinementPrompt(r1) == RefinementPrompt(r2)
    ensures r1 == r2
  {
    assert r1 == RefinementPrompt(r1)[|RefinePrefix|..];
  }
}
