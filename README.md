# A verified model of the decision logic of the Wallingford support chatbot

`hug.py` is a Flask service with two endpoints. `/chat` answers a
message in one of four ways:
- it refuses an empty message;
- it answers from a table of keyword replies;
- it gives up with the error of the page catalog or of the first page that failed;
- otherwise it builds a prompt from the scraped contents of every catalogued page and returns what GPT-2 generates for it.

`/feedback` thanks the user for a thumbs-up. For a thumbs-down it asks the generator to refine the rated response.

This project models that decision logic in Dafny and proves what it does. The model's
parts:
- **Modelled as oracles** (`Services.Services`):
  - the network;
  - the HTML parser;
  - the GPT-2 model;
  - `json.dumps`.

  Beyond the points listed under "## Left out", nothing is assumed about them.
  Those points are:
  - one request sees one page function, so a URL listed twice gets the same answer;
  - the decoded catalog has distinct keys;
  - the generator is a function of its prompt.
- **Modelled exactly:**
  - the order of the checks;
  - the keyword table and its first-match-wins substring routing, for ASCII input (lower-casing is ASCII only);
  - the turning of exceptions into `{"error": ...}` dicts;
  - the all-or-nothing page loop;
  - the prompt templates;
  - the replies.
- **The call trace:** every endpoint also returns the oracle calls it made, in order. This makes "no page is fetched after a failure" a statement about the trace (`Replies.Call`).

Modules:
- `Text`:
  - ASCII `str.lower()`;
  - the substring test `in`;
  - `str(n)` for a status code.
- `PyDict`: a Python dict as the list of its items in insertion order.
  - `d[k] = v` keeps an existing key in its place.
  - A dict display with a repeated key keeps the last value.
- `Services`:
  - the oracles;
  - `get_selected_pages`;
  - `fetch_website_content` (an exception becomes an error string).
- `Keywords`:
  - `KEYWORD_RESPONSES`;
  - the routing function;
  - the keyword loop as a method.
- `Prompts`: `generate_prompt` and the prompt of `refine_response`.
- `Aggregation`: the loop that fills `content_from_pages`. It is a method proved against a fold over the catalog.
- `Replies`: replies, the call trace, and the "blank field" test.
- `ChatEndpoint`: the `/chat` view.
- `FeedbackEndpoint`: the `/feedback` view and `refine_response`.

Two points of the code are easy to miss, and the model keeps both:
- **Empty strings in page documents.** `get_text(strip=True)` can yield `""`, and the code keeps such strings. Page documents are oracle output with no filter.
- **Generator failures in `/chat`.** `chat` does not catch an exception of `ask_gpt2` (hug.py:123). The model returns `Uncaught(cause)` for that case.

## Model

| member | source | states |
|---|---|---|
| Text.Lower | hug.py:96 | lower-casing keeps the length and lowers each character in place |
| Text.OccursIff | hug.py:96 | `needle in hay` holds exactly when `needle` sits at some position of `hay` |
| Text.Occurs | hug.py:96 | Python's `needle in hay` on strings: the needle is a prefix of the text or occurs in its tail |
| Text.DecimalString | hug.py:46 | `str(n)`: at least one digit, only digits, and a leading `0` only for zero itself |
| Text.DecimalRoundTrip | hug.py:46 | the decimal text of a status code reads back as that status code |
| PyDict.Dict.HasKey | hug.py:102 | Python's `k in d`: some item has key `k` |
| PyDict.Dict.Get | hug.py:103 | Python's `d[k]` on a present key: the value of the item with key `k` |
| PyDict.Dict.Put | hug.py:114 | `d[k] = v` appends a new key at the end and replaces the value of an existing key in its place |
| PyDict.PutSemantics | hug.py:114 | after `d[k] = v` the keys are the old keys plus `k`, still distinct, and `d[k]` is `v` |
| PyDict.FromPairs | hug.py:139 | a dict display yields a dict with distinct keys in which the last pair's key maps to the last pair's value |
| PyDict.RepeatedKeyKeepsLastValue | hug.py:139 | `{k: a, k: b}` is the one-entry dict `{k: b}` |
| Services.GetSelectedPages | hug.py:37-48 | status 200 returns the catalog unchanged; another status gives the single entry "error" with "Failed to fetch selected pages: " and the status; an exception gives "error" with "Error fetching selected pages: " and its text |
| Services.CatalogFailureIsErrorKeyed | hug.py:43-48 | every failed catalog request leaves the key "error", and a status failure's message ends in that status code |
| Services.PageNamedErrorReadsAsFailure | hug.py:102-103 | a healthy catalog that lists a page named "error" reads as a failure whose message is that page's URL |
| Services.FetchWebsiteContent | hug.py:51-70 | a parsed page gives its document; an exception gives "Error fetching content: " followed by the exception's text, and the result is an error exactly when the fetch raised |
| Keywords.KeywordPhrasesAreLowercase | hug.py:25-34 | `KEYWORD_RESPONSES` has eight entries in the source's order, and each phrase is already lower-case, so `keyword.lower()` leaves it as written |
| Keywords.Route | hug.py:95-97 | the canned reply for a message: the reply of the first table entry whose lowered phrase occurs in the lowered message, or none |
| Keywords.RouteFromIsFirstMatch | hug.py:95-97 | scanning from entry `i`: no reply exactly when no later entry fires, otherwise the reply of the first entry that fires |
| Keywords.RouteIsFirstMatch | hug.py:25-34 | over the whole table: no reply exactly when no phrase occurs in the lowered input, otherwise the first such phrase's reply |
| Keywords.MatchKeyword | hug.py:95-97 | the loop with its early return yields exactly the first-match reply of the table |
| Keywords.HiOutranksEverything | hug.py:26 | any input containing "hi" gets the "hi" reply, whatever else it contains |
| Keywords.ThisIsGreeted | hug.py:96 | "what is this" is answered with the greeting for "hi" |
| Prompts.GeneratePrompt | hug.py:73-78 | the prompt is the preamble, the JSON content, "\n\nUser query: ", the query, "\n\n" and the closing sentence, end to end |
| Prompts.PromptCarriesQueryAndContent | hug.py:73-78 | the prompt contains the JSON content, the user's query and the closing sentence |
| Prompts.PromptDeterminesParts | hug.py:73-78 | given the length of the content, the prompt determines both the content and the query |
| Prompts.PromptIsAmbiguous | hug.py:75-76 | a query containing the query label gives the same prompt as different page contents with a shorter query |
| Prompts.RefinementPrompt | hug.py:147 | the refinement prompt is the fixed instruction followed by the response, unchanged |
| Prompts.RefinementPromptInjective | hug.py:147 | different responses give different refinement prompts |
| Aggregation.CollectPrefix | hug.py:106-114 | the state of the page loop after the first `n` catalog entries: the bundle so far or the error that ended it, and the URLs requested, in order |
| Aggregation.Collect | hug.py:106-114 | the outcome of the page loop over the whole catalog, and the URLs it requested |
| Aggregation.CollectPrefixOutcome | hug.py:107-111 | the first `n` pages are collected exactly when each of them extracts |
| Aggregation.CollectPrefixBundle | hug.py:113-114 | a collected prefix holds the catalog's first `n` names in order, each with its own page's document |
| Aggregation.CollectPrefixRequests | hug.py:107-108 | a collected prefix requested exactly those pages' URLs, once each, in order |
| Aggregation.CollectPrefixFails | hug.py:107-111 | after the first failing page, the state is that page's error, and only the URLs up to it were requested |
| Aggregation.BundleIsDetermined | hug.py:113-114 | the pages determine the bundle: two bundles of the same catalog prefix are equal |
| Aggregation.CollectSucceeds | hug.py:106-114 | when every page extracts, the bundle has exactly the catalog's names in order with each page's document, and every URL was requested once, in order |
| Aggregation.CollectStopsAtFirstFailure | hug.py:107-111 | one failing page fails the whole loop with the first failing page's error; later pages are never requested |
| Aggregation.SomeFirstFailure | hug.py:107-111 | when not every page extracts, there is a first page that fails |
| Aggregation.CollectContent | hug.py:106-114 | the loop that fills `content_from_pages` yields exactly the fold over the catalog order: the bundle, or the first error, and the URLs it requested |
| Replies.Blank | hug.py:91 | Python's `not x` on a field read with `request.json.get`: the field is absent or the empty string |
| Replies.ErrorReply | hug.py:92 | an error reply carries the status and a body whose only key is "error", holding the message |
| Replies.ResponseReply | hug.py:97 | a response reply has status 200 and a body whose only key is "response", holding the text |
| ChatEndpoint.GenerationReply | hug.py:123-124 | generated text is returned under "response"; an exception of the generator escapes the view |
| ChatEndpoint.Chat | hug.py:89-124 | a blank message gets 400 before any oracle is called; a keyword hit answers with no oracle call; a catalog with "error" gets 500 with that value after the catalog call alone; when some page fails, the first failing page gets 500 with its error, and no later page and no generator is called; when every page extracts, every page is fetched in order, the bundle has the catalog's names with each page's document, and the generator is called once on the prompt built from the query and that bundle |
| FeedbackEndpoint.RefineResponse | hug.py:145-151 | the generator's answer to the refinement prompt, or "Error refining response: " followed by the exception's text; it never raises |
| FeedbackEndpoint.Feedback | hug.py:127-142 | either field blank gives 400 before the verdict is read; "thumbs_up" gives the fixed thanks with no generator call; "thumbs_down" calls the generator once and replies with the refined text alone; any other verdict gives 400 naming both accepted values |
| FeedbackEndpoint.ThumbsUpIgnoresResponse | hug.py:134-135 | the reply to an approval does not depend on the response that was rated |
| FeedbackEndpoint.RefinementAlwaysAnswers | hug.py:137-139 | a disapproval always answers 200 with the single entry "response" holding the refined text, whatever the generator does |

## Left out

- Flask, `jsonify` beyond a status and a dict body, CORS, `load_dotenv` and the server start-up (hug.py:1-17, 153-155) are framework and configuration code.
- The HTTP requests of `get_selected_pages` and `fetch_website_content` are network I/O. They are the `selectedPages` and `fetchPage` oracles of `Services.Services`.
  - One request sees one `fetchPage` function, so it gets the same answer for a URL listed twice.
- BeautifulSoup and `get_text(strip=True)` (hug.py:54-65) are a foreign library. A parsed page is an oracle-supplied `ContentDocument`.
- `json.dumps` of the bundle is the uninterpreted `dumps` oracle, and nothing is assumed about it.
- The round trip `json.loads(json.dumps(...))` of a page document is taken as the identity. An extracted document never has the key "error", because its keys are h1-h6 and p.
- `ask_gpt2` (the tokenizer, the model and the generation parameters, hug.py:19-22, 81-85) is machine-learning code. It is the `generate` oracle, which may raise.
  - The `generate` oracle is a function of the prompt: the same prompt gives the same answer within one request. Any randomness or state of the model is not modelled.
- Request bodies are restricted:
  - A request body that is not a JSON object (so `request.json` is `None`) is not modelled.
  - Fields that are not strings are not modelled; `message`, `feedback` and `response` are absent or strings.
- The catalog JSON is taken to be an object from names to URL strings with distinct keys.
  - A non-object catalog and non-string values are not modelled.
- Text.Lower: it lowers ASCII letters only, not all of Unicode. Every phrase of the keyword table is lower-case ASCII. A message with a non-ASCII capital can therefore route differently: Python lowers "hİ" (U+0130) to a text that contains "hi", but the model gives it no "hi" reply.
- Exception texts (`str(e)`) are oracle-supplied strings.
- Concurrency and the loading of the model at start-up are not modelled.
