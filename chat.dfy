/**
 * The `/chat` view: validation, the keyword short-circuit, the catalog, the
 * all-or-nothing aggregation of the pages and the one call of the generator.
 */
module ChatEndpoint {
  import opened Wrappers
  import opened PyDict
  import opened Services
  import opened Keywords
  import opened Aggregation
  import opened Prompts
  import opened Replies

  const MessageRequired := "Message is required"

  /**
   * The reply for what `ask_gpt2` did: its text under `"response"`, or the
   * exception, which `chat` does not catch.
   */
  function GenerationReply(g: Generation): (r: Reply)
    ensures g.Generated? ==> r == ResponseReply(g.text)
    ensures g.GenerationRaised? ==> r.Uncaught? && r.cause == g.cause
  {
    match g
    case Generated(text) => ResponseReply(text)
    case GenerationRaised(cause) => Uncaught(cause)
  }

  /**
   * One POST to `/chat` whose JSON body has `message` as its `"message"`
   * field. `calls` lists the oracles consulted, in order.
   */
  method Chat(s: Services, message: Option<string>) returns (reply: Reply, calls: seq<Call>)
    requires WellFormed(s)
    // An absent or empty message is refused before anything else happens.
    ensures Blank(message) ==> reply == ErrorReply(400, MessageRequired) && calls == []
    // The first keyword that fires answers, and no oracle is consulted.
    ensures !Blank(message) && Route(message.value).Some? ==>
              reply == ResponseReply(Route(message.value).value) && calls == []
    // A catalog with an "error" key ends the request after the catalog call alone.
    ensures !Blank(message) && Route(message.value).None? && GetSelectedPages(s.selectedPages).HasKey("error") ==>
              && reply == ErrorReply(500, GetSelectedPages(s.selectedPages).Get("error"))
              && calls == [CatalogRequest]
    // When some page fails, the first failing page ends the request with its
    // error; no later page is fetched and the generator is not called.
    ensures !Blank(message) && Route(message.value).None? && !GetSelectedPages(s.selectedPages).HasKey("error") ==>
              var catalog := GetSelectedPages(s.selectedPages);
              !AllExtract(s.fetchPage, catalog, |catalog.items|) ==>
                exists j: nat ::
                  && FirstFailure(s.fetchPage, catalog, j)
                  && reply == ErrorReply(500, PageAt(s.fetchPage, catalog, j).error)
                  && calls == [CatalogRequest] + PageRequests(Urls(catalog)[..j + 1])
    // When every page extracts, all pages are fetched in order and the generator
    // is called once, on the prompt built from the bundle of all pages.
    ensures !Blank(message) && Route(message.value).None? && !GetSelectedPages(s.selectedPages).HasKey("error") ==>
              var catalog := GetSelectedPages(s.selectedPages);
              AllExtract(s.fetchPage, catalog, |catalog.items|) ==>
                && Collect(s.fetchPage, catalog).0.Success?
                && var bundle := Collect(s.fetchPage, catalog).0.value;
                   var prompt := GeneratePrompt(message.value, s.dumps(bundle));
                   && IsBundleOf(bundle, s.fetchPage, catalog, |catalog.items|)
                   && reply == GenerationReply(s.generate(prompt))
                   && calls == [CatalogRequest] + PageRequests(Urls(catalog)) + [GenerateRequest(prompt)]
  {
    if Blank(message) {
      return ErrorReply(400, MessageRequired), [];
    }
    var userInput := message.value;

    var keywordReply := MatchKeyword(userInput);
    if keywordReply.Some? {
      return ResponseReply(keywordReply.value), [];
    }

    var selectedPages := GetSelectedPages(s.selectedPages);
    calls := [CatalogRequest];
    if selectedPages.HasKey("error") {
      return ErrorReply(500, selectedPages.Get("error")), calls;
    }

    var outcome, requested := CollectContent(s.fetchPage, selectedPages);
    calls := calls + PageRequests(requested);
    CollectPrefixOutcome(s.fetchPage, selectedPages, |selectedPages.items|);
    if outcome.Failure? {
      SomeFirstFailure(s.fetchPage, selectedPages, |selectedPages.items|);
      ghost var j: nat :| j < |selectedPages.items| && FirstFailure(s.fetchPage, selectedPages, j);
      CollectStopsAtFirstFailure(s.fetchPage, selectedPages, j);
      return ErrorReply(500, outcome.error), calls;
    }

    CollectSucceeds(s.fetchPage, selectedPages);
    var jsonContent := s.dumps(outcome.value);
    var prompt := GeneratePrompt(userInput, jsonContent);
    calls := calls + [GenerateRequest(prompt)];
    reply := GenerationReply(s.generate(prompt));
  }
}
