/** `POST /api/firecrawl` (app/api/firecrawl/route.ts): validate the URL,
    ask the scraping service for the page as markdown, and assemble the
    content the generator page feeds to the chat route. */
module Firecrawl {
  import opened Optional
  import opened JsString

  /** One scraped page: its `markdown`, absent when the service sent none. */
  datatype Page = Page(markdown: Option<string>)

  /** The `data` field of the service's answer: an array of pages, a single
      page object, or absent (`null`/`undefined`). */
  datatype Payload = Pages(pages: seq<Page>) | Single(markdown: Option<string>) | NoData

  /** The service's answer: its HTTP status, the JSON text of its error body
      and, when it succeeded, its payload. */
  datatype Upstream = Upstream(status: nat, errorJson: string, payload: Payload)

  /** `response.ok` */
  predicate Ok(u: Upstream) {
    200 <= u.status <= 299
  }

  /** The JSON body sent to the scraping service. */
  datatype ScrapeRequest = ScrapeRequest(url: string, formats: seq<string>, onlyMainContent: bool, timeout: int)

  /** The route's JSON answer `{ success, content?, error? }` with its status. */
  datatype Response = Response(status: int, success: bool, content: Option<string>, error: Option<string>)

  /** What the route did: the request it sent upstream, if any, and its answer. */
  datatype Outcome = Outcome(request: Option<ScrapeRequest>, response: Response)

  const Separator := "\n\n---\n\n"
  const NoContent := "No content found"
  const UrlRequired := "URL is required"
  const ApiErrorPrefix := "Firecrawl API error: "

  /** `page.markdown` as `Array.join` renders it: an absent value becomes "". */
  function Markdowns(ps: seq<Page>): (r: seq<string>)
    ensures |r| == |ps|
    ensures forall k :: 0 <= k < |ps| ==> r[k] == ps[k].markdown.GetOr("")
  {
    seq(|ps|, k requires 0 <= k < |ps| => ps[k].markdown.GetOr(""))
  }

  /** The `content` of a successful answer. */
  function Content(payload: Payload): string {
    match payload
    case Pages(ps) => Join(Markdowns(ps), Separator)
    case Single(m) => OrElse(m, NoContent)
    case NoData => NoContent
  }

  /** The error message thrown for a non-ok upstream status. */
  function ApiError(u: Upstream): string {
    ApiErrorPrefix + Decimal(u.status) + " " + u.errorJson
  }

  /** The route, for a request body whose `url` is `url`. */
  function Post(url: Option<string>, upstream: Upstream): (r: Outcome)
    ensures !Truthy(url) ==>
      r.request.None? && r.response == Response(400, false, None, Some(UrlRequired))
    ensures Truthy(url) ==> r.request == Some(ScrapeRequest(url.value, ["markdown"], true, 60000))
    ensures Truthy(url) && !Ok(upstream) ==>
      r.response == Response(500, false, None, Some(ApiError(upstream)))
    ensures Truthy(url) && Ok(upstream) ==>
      r.response == Response(200, true, Some(Content(upstream.payload)), None)
    ensures r.response.success <==> r.response.status == 200
  {
    if !Truthy(url) then
      Outcome(None, Response(400, false, None, Some(UrlRequired)))
    else
      var request := ScrapeRequest(url.value, ["markdown"], true, 60000);
      if !Ok(upstream) then
        Outcome(Some(request), Response(500, false, None, Some(ApiError(upstream))))
      else
        Outcome(Some(request), Response(200, true, Some(Content(upstream.payload)), None))
  }

  /** An empty page array gives empty content, still reported as a success. */
  lemma EmptyArrayGivesEmpty()
    ensures Content(Pages([])) == ""
  {
  }

  /** A payload that is not an array never gives empty content: a falsy
      markdown becomes the fallback text. */
  lemma NonArrayNeverEmpty(payload: Payload)
    requires !payload.Pages?
    ensures Content(payload) != ""
    ensures Content(payload) != NoContent ==>
      payload.Single? && Truthy(payload.markdown) && Content(payload) == payload.markdown.value
  {
  }

  /** Pages appear in order: adding a page appends a separator and its markdown. */
  lemma PagesInOrder(ps: seq<Page>, p: Page)
    requires |ps| > 0
    ensures Content(Pages(ps + [p])) == Content(Pages(ps)) + Separator + p.markdown.GetOr("")
  {
    assert Markdowns(ps + [p]) == Markdowns(ps) + [p.markdown.GetOr("")];
    JoinSnoc(Markdowns(ps), p.markdown.GetOr(""), Separator);
  }

  /** `n` pages give their markdown plus `n - 1` separators. */
  lemma ContentLength(ps: seq<Page>)
    requires |ps| > 0
    ensures |Content(Pages(ps))| == SumLen(Markdowns(ps)) + (|ps| - 1) * |Separator|
  {
    JoinLength(Markdowns(ps), Separator);
  }

  /** When no page's markdown holds a line break, splitting the content on
      the separator gives back each page's markdown, in order. */
  lemma ContentSplitsIntoPages(ps: seq<Page>)
    requires |ps| > 0
    requires forall k :: 0 <= k < |ps| ==> '\n' !in ps[k].markdown.GetOr("")
    ensures Split(Content(Pages(ps)), Separator) == Markdowns(ps)
  {
    SplitJoin(Markdowns(ps), Separator);
  }

  /** Keeping the separator itself out of every page is not enough for that
      round trip: a page that ends with all of the separator but its last
      line break runs into the real separator, so the split finds a
      separator one character early and cuts the first page short. */
  lemma PartialSeparatorBreaksSplit()
    ensures !Includes("a\n\n---\n", Separator)
    ensures Split(Content(Pages([Page(Some("a\n\n---\n")), Page(Some("b"))])), Separator)[0] == "a"
  {
    var first := "a\n\n---\n";
    assert forall i :: 0 <= i <= |first| ==> !OccursAt(first, Separator, i) by {
      assert first[0] != Separator[0];
    }
    var ps := [Page(Some(first)), Page(Some("b"))];
    var s := first + Separator + "b";
    assert Markdowns(ps) == [first, "b"];
    assert [first, "b"][1..] == ["b"];
    assert Join([first, "b"], Separator) == first + Separator + Join(["b"], Separator);
    assert Content(Pages(ps)) == Join(Markdowns(ps), Separator);
    assert Content(Pages(ps)) == s;
    assert OccursAt(s, Separator, 1) by {
      assert s[1..1 + |Separator|] == Separator;
    }
    assert !OccursAt(s, Separator, 0) by {
      assert s[0] != Separator[0];
    }
    var i := IndexOf(s, Separator);
    assert i == 1;
    SplitStep(s, Separator, i);
    assert s[..1] == "a";
  }

  /** A non-ok status gives a 500 whose message carries the status in decimal,
      right after the fixed prefix and followed by a space. */
  lemma ErrorCarriesStatus(url: Option<string>, upstream: Upstream)
    requires Truthy(url) && !Ok(upstream)
    ensures var e := Post(url, upstream).response.error.value;
      var d := |ApiErrorPrefix|;
      var n := |Decimal(upstream.status)|;
      d + n < |e| && e[..d] == ApiErrorPrefix && e[d + n] == ' '
      && (forall k :: d <= k < d + n ==> '0' <= e[k] <= '9')
      && DecimalValue(e[d..d + n]) == upstream.status
  {
    var e := Post(url, upstream).response.error.value;
    var s := Decimal(upstream.status);
    var d := |ApiErrorPrefix|;
    assert e == ApiErrorPrefix + s + " " + upstream.errorJson;
    assert e[d..d + |s|] == s;
    DecimalRoundTrip(upstream.status);
  }

  /** The service is called exactly when the URL is truthy. */
  lemma FetchIffUrl(url: Option<string>, upstream: Upstream)
    ensures Post(url, upstream).request.Some? <==> Truthy(url)
  {
  }
}
