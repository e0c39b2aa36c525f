/**
 * The all-or-nothing loop of `/chat` over the page catalog: pages are
 * extracted in catalog order into `content_from_pages`, and the first page
 * whose extraction failed ends the loop with that page's error.
 */
module Aggregation {
  import opened Wrappers
  import opened PyDict
  import opened Services

  /** The URL of the `i`-th page of the catalog, in catalog order. */
  function PageUrl(catalog: Dict<string>, i: nat): string
    requires i < |catalog.items|
  {
    catalog.items[i].1
  }

  /** All URLs of the catalog, in catalog order. */
  function Urls(catalog: Dict<string>): (urls: seq<string>)
    ensures |urls| == |catalog.items|
    ensures forall i :: 0 <= i < |urls| ==> urls[i] == PageUrl(catalog, i)
  {
    seq(|catalog.items|, i requires 0 <= i < |catalog.items| => PageUrl(catalog, i))
  }

  /** The extraction of the `i`-th page. */
  function PageAt(fetchPage: string -> PageFetch, catalog: Dict<string>, i: nat): Extraction
    requires i < |catalog.items|
  {
    FetchWebsiteContent(fetchPage, PageUrl(catalog, i))
  }

  /** The first `n` pages of the catalog all extract. */
  ghost predicate AllExtract(fetchPage: string -> PageFetch, catalog: Dict<string>, n: nat)
    requires n <= |catalog.items|
  {
    forall i :: 0 <= i < n ==> PageAt(fetchPage, catalog, i).Extracted?
  }

  /** Page `j` is the first page of the catalog whose extraction failed. */
  ghost predicate FirstFailure(fetchPage: string -> PageFetch, catalog: Dict<string>, j: nat)
  {
    && j < |catalog.items|
    && PageAt(fetchPage, catalog, j).ExtractionError?
    && AllExtract(fetchPage, catalog, j)
  }

  /**
   * `bundle` holds the first `n` pages of the catalog: the same names in the
   * same order, each with the document extracted from that page's URL.
   */
  ghost predicate IsBundleOf(bundle: Dict<ContentDocument>, fetchPage: string -> PageFetch,
                             catalog: Dict<string>, n: nat)
    requires n <= |catalog.items|
  {
    && |bundle.items| == n
    && forall i :: 0 <= i < n ==>
         bundle.items[i].0 == catalog.items[i].0 && PageAt(fetchPage, catalog, i) == Extracted(bundle.items[i].1)
  }

  /**
   * The state after the loop has handled the first `n` pages: the outcome so far
   * (the bundle, or the error that ended the loop) and the URLs requested, in
   * order.
   */
  function CollectPrefix(fetchPage: string -> PageFetch, catalog: Dict<string>, n: nat)
    : (Result<Dict<ContentDocument>, string>, seq<string>)
    requires n <= |catalog.items|
    decreases n
  {
    if n == 0 then (Success(Empty()), [])
    else
      var (prior, requested) := CollectPrefix(fetchPage, catalog, n - 1);
      if prior.Failure? then (prior, requested)
      else
        var url := PageUrl(catalog, n - 1);
        match PageAt(fetchPage, catalog, n - 1)
        case ExtractionError(e) => (Failure(e), requested + [url])
        case Extracted(doc) => (Success(prior.value.Put(catalog.items[n - 1].0, doc)), requested + [url])
  }

  /** The first `n` pages are collected exactly when each of them extracts. */
  lemma {:induction false} CollectPrefixOutcome(fetchPage: string -> PageFetch, catalog: Dict<string>, n: nat)
    requires n <= |catalog.items|
    ensures CollectPrefix(fetchPage, catalog, n).0.Success? <==> AllExtract(fetchPage, catalog, n)
    decreases n
  {
    if n > 0 {
      CollectPrefixOutcome(fetchPage, catalog, n - 1);
    }
  }

  /**
   * A collected prefix of a catalog without repeated names holds each of
   * those pages once, in catalog order, with its own page's document.
   */
  lemma {:induction false} CollectPrefixBundle(fetchPage: string -> PageFetch, catalog: Dict<string>, n: nat)
    requires catalog.Valid() && n <= |catalog.items|
    ensures var r := CollectPrefix(fetchPage, catalog, n);
            r.0.Success? ==> IsBundleOf(r.0.value, fetchPage, catalog, n)
    decreases n
  {
    if n > 0 {
      CollectPrefixBundle(fetchPage, catalog, n - 1);
      var prior := CollectPrefix(fetchPage, catalog, n - 1).0;
      if prior.Success? {
        var name := catalog.items[n - 1].0;
        assert prior.value.IndexOf(name).None? by {
          assert forall i :: 0 <= i < n - 1 ==> prior.value.items[i].0 == catalog.items[i].0 != name;
        }
      }
    }
  }

  /** A collected prefix requested exactly those pages' URLs, once each, in catalog order. */
  lemma {:induction false} CollectPrefixRequests(fetchPage: string -> PageFetch, catalog: Dict<string>, n: nat)
    requires n <= |catalog.items|
    ensures var r := CollectPrefix(fetchPage, catalog, n);
            r.0.Success? ==> r.1 == Urls(catalog)[..n]
    decreases n
  {
    if n > 0 {
      CollectPrefixRequests(fetchPage, catalog, n - 1);
      assert Urls(catalog)[..n] == Urls(catalog)[..n - 1] + [PageUrl(catalog, n - 1)];
    }
  }

  /**
   * When page `j` is the first to fail, handling the first `n > j` pages ends
   * with page `j`'s error, and only the URLs up to page `j` were requested.
   */
  lemma {:induction false} CollectPrefixFails(fetchPage: string -> PageFetch, catalog: Dict<string>, n: nat, j: nat)
    requires j < n <= |catalog.items|
    requires FirstFailure(fetchPage, catalog, j)
    ensures CollectPrefix(fetchPage, catalog, n) == (Failure(PageAt(fetchPage, catalog, j).error), Urls(catalog)[..j + 1])
    decreases n
  {
    if n == j + 1 {
      CollectPrefixOutcome(fetchPage, catalog, j);
      CollectPrefixRequests(fetchPage, catalog, j);
      assert Urls(catalog)[..j + 1] == Urls(catalog)[..j] + [PageUrl(catalog, j)];
    } else {
      CollectPrefixFails(fetchPage, catalog, n - 1, j);
    }
  }

  /** The pages determine the bundle: two bundles of the same prefix are equal. */
  lemma BundleIsDetermined(b1: Dict<ContentDocument>, b2: Dict<ContentDocument>,
                           fetchPage: string -> PageFetch, catalog: Dict<string>, n: nat)
    requires n <= |catalog.items|
    requires IsBundleOf(b1, fetchPage, catalog, n) && IsBundleOf(b2, fetchPage, catalog, n)
    ensures b1 == b2
  {
    forall i | 0 <= i < n ensures b1.items[i] == b2.items[i] {
      assert Extracted(b1.items[i].1) == PageAt(fetchPage, catalog, i) == Extracted(b2.items[i].1);
    }
  }

  /** The outcome of collecting the whole catalog, and the URLs requested on the way. */
  function Collect(fetchPage: string -> PageFetch, catalog: Dict<string>): (Result<Dict<ContentDocument>, string>, seq<string>)
  {
    CollectPrefix(fetchPage, catalog, |catalog.items|)
  }

  /**
   * When every page extracts, the collection succeeds; its bundle has exactly
   * the catalog's page names, in catalog order, each with its own page's
   * document, and every page was requested once, in order.
   */
  lemma CollectSucceeds(fetchPage: string -> PageFetch, catalog: Dict<string>)
    requires catalog.Valid()
    requires AllExtract(fetchPage, catalog, |catalog.items|)
    ensures Collect(fetchPage, catalog).0.Success?
    ensures IsBundleOf(Collect(fetchPage, catalog).0.value, fetchPage, catalog, |catalog.items|)
    ensures Collect(fetchPage, catalog).1 == Urls(catalog)
  {
    CollectPrefixOutcome(fetchPage, catalog, |catalog.items|);
    CollectPrefixBundle(fetchPage, catalog, |catalog.items|);
    CollectPrefixRequests(fetchPage, catalog, |catalog.items|);
    assert Urls(catalog)[..|catalog.items|] == Urls(catalog);
  }

  /**
   * One failing page fails the whole collection with the first failing page's
   * error; the pages after it are never requested.
   */
  lemma CollectStopsAtFirstFailure(fetchPage: string -> PageFetch, catalog: Dict<string>, j: nat)
    requires FirstFailure(fetchPage, catalog, j)
    ensures Collect(fetchPage, catalog) == (Failure(PageAt(fetchPage, catalog, j).error), Urls(catalog)[..j + 1])
  {
    CollectPrefixFails(fetchPage, catalog, |catalog.items|, j);
  }

  /** Either every page extracts or some page is the first to fail. */
  lemma {:induction false} SomeFirstFailure(fetchPage: string -> PageFetch, catalog: Dict<string>, n: nat)
    requires n <= |catalog.items|
    requires !AllExtract(fetchPage, catalog, n)
    ensures exists j: nat :: j < n && FirstFailure(fetchPage, catalog, j)
    decreases n
  {
    if AllExtract(fetchPage, catalog, n - 1) {
      assert FirstFailure(fetchPage, catalog, n - 1);
    } else {
      SomeFirstFailure(fetchPage, catalog, n - 1);
    }
  }

  /**
   * The loop of `/chat` that fills `content_from_pages`, returning the bundle
   * or the first error, together with the URLs it requested.
   */
  method CollectContent(fetchPage: string -> PageFetch, catalog: Dict<string>)
    returns (outcome: Result<Dict<ContentDocument>, string>, requested: seq<string>)
    ensures (outcome, requested) == Collect(fetchPage, catalog)
  {
    var contentFromPages := Empty();
    requested := [];
    var i := 0;
    while i < |catalog.items|
      invariant 0 <= i <= |catalog.items|
      invariant CollectPrefix(fetchPage, catalog, i) == (Success(contentFromPages), requested)
    {
      var (pageName, pageUrl) := catalog.items[i];
      var jsonContent := FetchWebsiteContent(fetchPage, pageUrl);
      requested := requested + [pageUrl];
      if jsonContent.ExtractionError? {
        CollectPrefixOutcome(fetchPage, catalog, i);
        CollectPrefixRequests(fetchPage, catalog, i);
        assert Urls(catalog)[..i + 1] == Urls(catalog)[..i] + [pageUrl];
        CollectStopsAtFirstFailure(fetchPage, catalog, i);
        return Failure(jsonContent.error), requested;
      }
      contentFromPages := contentFromPages.Put(pageName, jsonContent.doc);
      i := i + 1;
    }
    outcome := Success(contentFromPages);
  }
}
