/**
 * The chatbot's boundary with the outside world. The network, the HTML
 * parser, the GPT-2 model and `json.dumps` are not modelled: each is an
 * oracle, a field of `Services`. What the chatbot itself does around them
 * (the status check on the catalog, turning exceptions into `{"error": ...}`
 * dicts) is modelled here.
 */
module Services {
  import opened PyDict
  import opened Text

  /** The seven lists `fetch_website_content` collects from a page, in document order. */
  datatype ContentDocument = ContentDocument(
    h1: seq<string>, h2: seq<string>, h3: seq<string>,
    h4: seq<string>, h5: seq<string>, h6: seq<string>,
    p: seq<string>)

  /**
   * What the GET on the catalog endpoint produced: an HTTP status with the
   * body decoded as a JSON object of page names to URLs, or an exception
   * (transport failure, or a 200 body that is not JSON) with its text.
   */
  datatype CatalogFetch =
    | CatalogAnswered(status: nat, json: Dict<string>)
    | CatalogRaised(cause: string)

  /** What the GET and HTML parse of one page produced. */
  datatype PageFetch = PageParsed(doc: ContentDocument) | PageRaised(cause: string)

  /**
   * `json.loads(fetch_website_content(url))`: the page document, or the
   * `{"error": ...}` object the function returns when it caught an exception.
   */
  datatype Extraction = Extracted(doc: ContentDocument) | ExtractionError(error: string)

  /** One call of `ask_gpt2`: the decoded text, or the exception it raised. */
  datatype Generation = Generated(text: string) | GenerationRaised(cause: string)

  /**
   * The oracles one request sees. `selectedPages` is a value because
   * `get_selected_pages` takes no argument; `dumps` is `json.dumps` on the
   * bundle of page contents, and nothing is assumed about it.
   */
  datatype Services = Services(
    selectedPages: CatalogFetch,
    fetchPage: string -> PageFetch,
    generate: string -> Generation,
    dumps: Dict<ContentDocument> -> string)

  /** A JSON object decoded by `response.json()` is a well-formed dict. */
  ghost predicate WellFormed(s: Services)
  {
    s.selectedPages.CatalogAnswered? ==> s.selectedPages.json.Valid()
  }

  const CatalogStatusPrefix := "Failed to fetch selected pages: "
  const CatalogExceptionPrefix := "Error fetching selected pages: "
  const PageExceptionPrefix := "Error fetching content: "

  /**
   * `get_selected_pages`: the decoded catalog on status 200; otherwise a dict
   * whose only key is "error". A catalog that itself lists a page named
   * "error" is returned as it is, and so looks like a failure to the caller.
   */
  function GetSelectedPages(f: CatalogFetch): (d: Dict<string>)
    requires f.CatalogAnswered? ==> f.json.Valid()
    ensures d.Valid()
    ensures f.CatalogAnswered? && f.status == 200 ==> d == f.json
    ensures f.CatalogAnswered? && f.status != 200 ==>
              d.items == [("error", CatalogStatusPrefix + DecimalString(f.status))]
    ensures f.CatalogRaised? ==>
              d.items == [("error", CatalogExceptionPrefix + f.cause)]
  {
    match f
    case CatalogAnswered(status, json) =>
      if status == 200 then json
      else Single("error", CatalogStatusPrefix + DecimalString(status))
    case CatalogRaised(cause) =>
      Single("error", CatalogExceptionPrefix + cause)
  }

  /** Every way the catalog request can fail leaves the key "error" in its result. */
  lemma CatalogFailureIsErrorKeyed(f: CatalogFetch)
    requires f.CatalogAnswered? ==> f.json.Valid()
    requires f.CatalogRaised? || f.status != 200
    ensures GetSelectedPages(f).HasKey("error")
    ensures f.CatalogAnswered? ==> DecimalValue(GetSelectedPages(f).Get("error")[|CatalogStatusPrefix|..]) == f.status
  {
    if f.CatalogAnswered? {
      var message := GetSelectedPages(f).Get("error");
      assert message[|CatalogStatusPrefix|..] == DecimalString(f.status);
      DecimalRoundTrip(f.status);
    }
  }

  /**
   * The `"error"` test cannot tell a failure from a catalog that lists a page
   * named `"error"`: such a catalog reads as a failure whose message is that
   * page's URL.
   */
  lemma PageNamedErrorReadsAsFailure(f: CatalogFetch)
    requires f.CatalogAnswered? && f.json.Valid()
    requires f.status == 200 && f.json.HasKey("error")
    ensures GetSelectedPages(f).HasKey("error")
    ensures GetSelectedPages(f).Get("error") == f.json.Get("error")
  {
  }

  /**
   * `fetch_website_content(url)` after `json.loads`: the parsed document, or
   * the caught exception's text behind a fixed prefix. There is no check of
   * the page's HTTP status.
   */
  function FetchWebsiteContent(fetchPage: string -> PageFetch, url: string): (e: Extraction)
    ensures e.Extracted? <==> fetchPage(url).PageParsed?
    ensures e.Extracted? ==> e.doc == fetchPage(url).doc
    ensures e.ExtractionError? ==>
              |e.error| >= |PageExceptionPrefix| && e.error[..|PageExceptionPrefix|] == PageExceptionPrefix
              && e.error[|PageExceptionPrefix|..] == fetchPage(url).cause
  {
    match fetchPage(url)
    case PageParsed(doc) => Extracted(doc)
    case PageRaised(cause) => ExtractionError(PageExceptionPrefix + cause)
  }
}
