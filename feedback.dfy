/**
 * The `/feedback` view and `refine_response`: both fields are checked first,
 * then the verdict picks a fixed thanks, a refinement, or a refusal.
 */
module FeedbackEndpoint {
  import opened Wrappers
  import opened PyDict
  import opened Services
  import opened Prompts
  import opened Replies

  const FieldsRequired := "Feedback and response are required"
  const ThumbsUp := "thumbs_up"
  const ThumbsDown := "thumbs_down"
  const GladYouLikedIt := "Thank you for your feedback! Glad you liked it!"
  const RefinedIntro := "Thank you for your feedback. Here's a refined response:"
  const InvalidVerdict := "Invalid feedback value. Please use 'thumbs_up' or 'thumbs_down'."
  const RefineErrorPrefix := "Error refining response: "

  /**
   * `refine_response(originalResponse)`: the generator's answer to the
   * refinement prompt, or, when the generator raised, the exception's text
   * behind a fixed prefix. It never raises.
   */
  function RefineResponse(generate: string -> Generation, originalResponse: string): (refined: string)
    ensures var g := generate(RefinementPrompt(originalResponse));
            && (g.Generated? ==> refined == g.text)
            && (g.GenerationRaised? ==>
                  && |refined| == |RefineErrorPrefix| + |g.cause|
                  && refined[..|RefineErrorPrefix|] == RefineErrorPrefix
                  && refined[|RefineErrorPrefix|..] == g.cause)
  {
    match generate(RefinementPrompt(originalResponse))
    case Generated(text) => text
    case GenerationRaised(cause) => RefineErrorPrefix + cause
  }

  /**
   * One POST to `/feedback` whose JSON body has the fields `"feedback"` and
   * `"response"`. The trace holds the one generator call a refinement makes.
   */
  function Feedback(generate: string -> Generation, feedback: Option<string>, response: Option<string>)
    : (r: (Reply, seq<Call>))
    // The two fields are checked before the verdict is looked at.
    ensures Blank(feedback) || Blank(response) ==> r == (ErrorReply(400, FieldsRequired), [])
    // Approval gets the fixed thanks, and the generator is not called.
    ensures !Blank(feedback) && !Blank(response) && feedback.value == ThumbsUp ==>
              r == (ResponseReply(GladYouLikedIt), [])
    // Disapproval calls the generator once, on the refinement prompt; the
    // repeated "response" key leaves only the refined text in the reply.
    ensures !Blank(feedback) && !Blank(response) && feedback.value == ThumbsDown ==>
              && r.0 == ResponseReply(RefineResponse(generate, response.value))
              && r.1 == [GenerateRequest(RefinementPrompt(response.value))]
    // Any other verdict is refused.
    ensures !Blank(feedback) && !Blank(response) && feedback.value != ThumbsUp && feedback.value != ThumbsDown ==>
              r == (ErrorReply(400, InvalidVerdict), [])
  {
    if Blank(feedback) || Blank(response) then
      (ErrorReply(400, FieldsRequired), [])
    else if feedback.value == ThumbsUp then
      (ResponseReply(GladYouLikedIt), [])
    else if feedback.value == ThumbsDown then
      var refined := RefineResponse(generate, response.value);
      RepeatedKeyKeepsLastValue("response", RefinedIntro, refined);
      (Reply(200, FromPairs([("response", RefinedIntro), ("response", refined)])),
       [GenerateRequest(RefinementPrompt(response.value))])
    else
      (ErrorReply(400, InvalidVerdict), [])
  }

  /** What an approval answers does not depend on the response that was rated. */
  lemma ThumbsUpIgnoresResponse(generate: string -> Generation, r1: string, r2: string)
    requires r1 != "" && r2 != ""
    ensures Feedback(generate, Some(ThumbsUp), Some(r1)) == Feedback(generate, Some(ThumbsUp), Some(r2))
  {
  }

  /**
   * A refinement never reaches the client as an exception: whatever the
   * generator does, disapproval of a non-empty response answers 200 with the
   * refined text alone.
   */
  lemma RefinementAlwaysAnswers(generate: string -> Generation, response: string)
    requires response != ""
    ensures var r := Feedback(generate, Some(ThumbsDown), Some(response)).0;
            && r.Reply? && r.status == 200
            && r.body.items == [("response", RefineResponse(generate, response))]
  {
  }
}
