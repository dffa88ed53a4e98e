/** The question generator page (app/app/page.tsx): form validation, the
    client side of scraping, reading the model's stream into the question
    list, and the usage increment written after a completed stream. */
module GeneratorPage {
  import opened Optional
  import opened JsString
  import opened Profiles
  import opened Questions
  import opened Quota
  import Chat
  import Firecrawl

  // ---------------------------------------------------------------------
  // Form validation

  datatype InputType = BioInput | UrlInput

  /** What `new URL(text)` made of the URL field: it threw, or it parsed and
      has this `protocol`. */
  datatype ParsedUrl = Unparsable | Parsed(protocol: string)

  /** `isValidUrl`: the text parses and its protocol is `http:` or `https:`. */
  predicate IsValidUrl(u: ParsedUrl) {
    u.Parsed? && (u.protocol == "http:" || u.protocol == "https:")
  }

  /** The shortest bio accepted, in UTF-16 code units (`input.length`). */
  const MinBioLength := 20

  /** `isFormValid` */
  predicate IsFormValid(inputType: InputType, input: string, url: ParsedUrl) {
    if inputType == BioInput then Utf16Length(input) >= MinBioLength else IsValidUrl(url)
  }

  /** `input.length` counts code units: any 20 characters make a valid bio,
      fewer than 10 never do, and in between it depends on how many of them
      lie outside the Basic Multilingual Plane. The submit handler's own
      check (`input.length < 20`) rejects exactly the bios the form
      considers invalid. */
  lemma BioLengthBounds(input: string, url: ParsedUrl)
    ensures |input| >= MinBioLength ==> IsFormValid(BioInput, input, url)
    ensures |input| < MinBioLength / 2 ==> !IsFormValid(BioInput, input, url)
    ensures Utf16Length(input) < MinBioLength <==> !IsFormValid(BioInput, input, url)
  {
  }

  /** In URL mode only the parsed protocol matters, not the bio text. */
  lemma UrlModeIgnoresBio(a: string, b: string, url: ParsedUrl)
    ensures IsFormValid(UrlInput, a, url) == IsFormValid(UrlInput, b, url)
    ensures IsFormValid(UrlInput, a, url) ==> url.Parsed? && |url.protocol| >= 5
  {
  }

  /** URLs the page refuses to send for scraping: those containing
      `linkedin.com`, searched from the start. */
  predicate IsLinkedIn(url: string) {
    OccursFrom(url, "linkedin.com", 0)
  }

  /** The refusal is exactly `url.includes('linkedin.com')`. */
  lemma LinkedInIsIncludes(url: string)
    ensures IsLinkedIn(url) <==> Includes(url, "linkedin.com")
  {
    OccursFromIndex(url, "linkedin.com", 0);
  }

  // ---------------------------------------------------------------------
  // Errors and the scrape answer

  /** A thrown `Error`: its `name` and `message`. */
  datatype JsError = JsError(name: string, message: string)

  function PlainError(message: string): JsError {
    JsError("Error", message)
  }

  const AbortErrorName := "AbortError"

  /** What `fetch('/api/firecrawl')` gave the page: an answer with its `ok`
      flag and JSON body, or a rejection. */
  datatype ScrapeAnswer =
    | Replied(ok: bool, success: bool, content: Option<string>, error: Option<string>)
    | Rejected(e: JsError)

  /** What `handleUrlScrape` resolves to (`null` or the content) or throws. */
  datatype ScrapeOutcome = NoContent | Content(content: string) | Threw(e: JsError)

  /** The page's reading of an answer that arrived while it was mounted. */
  function AcceptReply(a: ScrapeAnswer): (r: ScrapeOutcome)
    requires a.Replied?
    ensures r.Content? <==> a.ok && a.success && Truthy(a.content)
    ensures r.Content? ==> r.content == a.content.value && r.content != ""
    ensures !a.ok ==> r == Threw(PlainError("Failed to scrape URL"))
    ensures a.ok && !(a.success && Truthy(a.content)) ==> r == Threw(PlainError(OrElse(a.error, "No content found")))
    ensures !r.NoContent?
  {
    if !a.ok then Threw(PlainError("Failed to scrape URL"))
    else if a.success && Truthy(a.content) then Content(a.content.value)
    else Threw(PlainError(OrElse(a.error, "No content found")))
  }

  /** The answer of the page's own scrape route as the page receives it. */
  function FromRoute(r: Firecrawl.Response): ScrapeAnswer {
    Replied(200 <= r.status <= 299, r.success, r.content, r.error)
  }

  /** End to end: a page whose pages are all empty (or an empty page array)
      is reported by the route as a success with empty content, and the page
      turns that into 'No content found'; an upstream failure reaches the
      page only as 'Failed to scrape URL', its status and details dropped;
      any other upstream success is passed on as content. */
  lemma ScrapeEndToEnd(url: Option<string>, upstream: Firecrawl.Upstream)
    requires Truthy(url)
    ensures var page := AcceptReply(FromRoute(Firecrawl.Post(url, upstream).response));
      (!Firecrawl.Ok(upstream) ==> page == Threw(PlainError("Failed to scrape URL")))
      && (Firecrawl.Ok(upstream) && Firecrawl.Content(upstream.payload) == "" ==>
            page == Threw(PlainError("No content found")))
      && (Firecrawl.Ok(upstream) && Firecrawl.Content(upstream.payload) != "" ==>
            page == Content(Firecrawl.Content(upstream.payload)))
  {
  }

  /** A missing URL never reaches the scraping service, and the page would
      report the route's own message. */
  lemma MissingUrlEndToEnd(upstream: Firecrawl.Upstream)
    ensures var o := Firecrawl.Post(None, upstream);
      o.request.None? && AcceptReply(FromRoute(o.response)) == Threw(PlainError("Failed to scrape URL"))
  {
  }

  // ---------------------------------------------------------------------
  // The model's stream

  datatype StreamEnd = Done | Throws(e: JsError)

  /** The chunks `reader.read()` yields, already decoded, and how it ends. */
  datatype Reader = Reader(chunks: seq<string>, end: StreamEnd)

  /** The chunks laid end to end: the buffer after reading them. */
  function Concat(cs: seq<string>): string {
    if |cs| == 0 then "" else Concat(cs[..|cs| - 1]) + cs[|cs| - 1]
  }

  /** One more chunk appends it to the buffer. */
  lemma ConcatSnoc(cs: seq<string>, i: nat)
    requires i < |cs|
    ensures Concat(cs[..i + 1]) == Concat(cs[..i]) + cs[i]
  {
    assert cs[..i + 1][..i] == cs[..i];
  }

  /** The buffer only grows: after more chunks, the earlier buffer is a prefix. */
  lemma {:induction false} ConcatGrows(cs: seq<string>, i: nat, j: nat)
    requires i <= j <= |cs|
    decreases j - i
    ensures |Concat(cs[..i])| <= |Concat(cs[..j])|
    ensures Concat(cs[..j])[..|Concat(cs[..i])|] == Concat(cs[..i])
  {
    if i < j {
      ConcatGrows(cs, i, j - 1);
      assert cs[..j][..j - 1] == cs[..j - 1];
      assert Concat(cs[..j]) == Concat(cs[..j - 1]) + cs[j - 1];
    }
  }

  /** How a read of the stream ended: stopped because the page was gone, ran
      to the end, or threw. */
  datatype StreamOutcome = Unmounted | Finished | Errored(e: JsError)

  /** What the page shows of a generation: the question list, the streamed
      text and its copy of the signed-in profile. */
  datatype View = View(questions: seq<string>, streamed: string, user: Option<Profile>)

  /** How a read of `reader` ends with `k` reads of `isMounted` left: each
      chunk takes one read, so more chunks than reads means the page was
      found gone. */
  function StreamResult(reader: Reader, k: nat): StreamOutcome {
    if |reader.chunks| > k then Unmounted
    else if reader.end.Throws? then Errored(reader.end.e)
    else Finished
  }

  /** The number of chunks a read shows with `k` reads left. */
  function Shown(chunks: seq<string>, k: nat): nat {
    if |chunks| <= k then |chunks| else k
  }

  /** The list and the text after a read of `chunks` with `k` reads of
      `isMounted` left, from view `v` to view `v'`: they follow the chunks
      shown, and stay as they were when none is. */
  predicate ShowsChunks(chunks: seq<string>, k: nat, v: View, v': View) {
    var m := Shown(chunks, k);
    if m == 0 then v'.questions == v.questions && v'.streamed == v.streamed
    else v'.questions == Parse(Concat(chunks[..m])) && v'.streamed == Concat(chunks[..m])
  }

  /** A view that shows the first `m` chunks, `m` being the number a read
      shows, is the one `ShowsChunks` describes. */
  lemma ShowsFirst(chunks: seq<string>, k: nat, m: nat, v: View, v': View)
    requires m == Shown(chunks, k)
    requires m > 0 ==> v'.questions == Parse(Concat(chunks[..m])) && v'.streamed == Concat(chunks[..m])
    requires m == 0 ==> v'.questions == v.questions && v'.streamed == v.streamed
    ensures ShowsChunks(chunks, k, v, v')
  {
  }

  /** The store and the page's copy of the profile after the increment
      that follows `done`, with `k` reads of `isMounted` left, signed in as
      `user`: a signed-in page that is still there writes the copy's count
      plus one into that user's row and adopts the returned row; otherwise
      nothing changes. */
  predicate CommitsUsage(k: nat, rows: map<string, Profile>, user: Option<Profile>,
                         rows': map<string, Profile>, user': Option<Profile>)
  {
    if k > 0 && user.Some? then
      var u := user.value;
      rows' == WithImagesGenerated(rows, u.id, Used(u) + 1)
      && user' == (if u.id in rows then Some(rows'[u.id]) else user)
    else
      rows' == rows && user' == user
  }

  /** The store and the page's copy of the profile after a read of `reader`
      with `k` reads left, signed in as `user`: only a stream that reaches
      `done` while the page is there goes on to the increment, with the
      reads its chunks left over. */
  predicate WritesUsage(reader: Reader, k: nat, rows: map<string, Profile>, user: Option<Profile>,
                        rows': map<string, Profile>, user': Option<Profile>)
  {
    if |reader.chunks| <= k && reader.end.Done? then CommitsUsage(k - |reader.chunks|, rows, user, rows', user')
    else rows' == rows && user' == user
  }

  /** What a read of `reader` with `k` reads of `isMounted` left does, from
      view `v` over table `rows` to view `v'` over table `rows'`. */
  predicate AfterStream(reader: Reader, k: nat, rows: map<string, Profile>, v: View,
                        rows': map<string, Profile>, v': View)
  {
    ShowsChunks(reader.chunks, k, v, v') && WritesUsage(reader, k, rows, v.user, rows', v'.user)
  }

  /** The reads of `isMounted` left after a read of `reader` that started
      with `k`: one per chunk, and one more for the increment after `done`
      when a user is signed in; none once a read has seen the page gone. */
  function ChecksAfterStream(reader: Reader, k: nat, user: Option<Profile>): nat {
    var n := |reader.chunks|;
    if n > k then 0
    else if reader.end.Done? && user.Some? && k - n > 0 then k - n - 1
    else k - n
  }

  /** The cases of a read, spelled out: an unmount or a throw writes
      nothing; with `n` chunks and `k` reads left the list is the parse of
      the first `min(n, k)` chunks, and stays as it was when that is none; a
      signed-in read that reaches `done` with a read to spare writes the
      copy's count plus one and adopts the returned row, and one with no read
      to spare writes nothing. */
  lemma AfterStreamCases(reader: Reader, k: nat, rows: map<string, Profile>, v: View,
                         rows': map<string, Profile>, v': View)
    requires AfterStream(reader, k, rows, v, rows', v')
    ensures StreamResult(reader, k).Unmounted? || StreamResult(reader, k).Errored? ==>
      rows' == rows && v'.user == v.user
    ensures 0 < |reader.chunks| <= k ==>
      v'.questions == Parse(Concat(reader.chunks)) && v'.streamed == Concat(reader.chunks)
    ensures 0 < k < |reader.chunks| ==>
      v'.questions == Parse(Concat(reader.chunks[..k])) && v'.streamed == Concat(reader.chunks[..k])
    ensures k == 0 || |reader.chunks| == 0 ==> v'.questions == v.questions && v'.streamed == v.streamed
    ensures StreamResult(reader, k) == Finished && v.user.Some? && |reader.chunks| < k ==>
      var u := v.user.value;
      rows' == WithImagesGenerated(rows, u.id, Used(u) + 1)
      && v'.user == if u.id in rows then Some(rows'[u.id]) else v.user
    ensures |reader.chunks| == k ==> rows' == rows && v'.user == v.user
  {
    assert reader.chunks[..|reader.chunks|] == reader.chunks;
  }

  /** A read writes at most the signed-in user's own row, and only its count:
      no row appears or disappears, and every other row is kept. */
  lemma AfterStreamWritesOwnRow(reader: Reader, k: nat, rows: map<string, Profile>, v: View,
                                rows': map<string, Profile>, v': View)
    requires AfterStream(reader, k, rows, v, rows', v')
    ensures rows'.Keys == rows.Keys
    ensures rows' != rows ==> v.user.Some? && reader.end.Done? && |reader.chunks| < k
    ensures forall id :: id in rows && (v.user.None? || id != v.user.value.id) ==> rows'[id] == rows[id]
    ensures v.user.Some? && v.user.value.id in rows ==>
      rows'[v.user.value.id].(imagesGenerated := rows[v.user.value.id].imagesGenerated) == rows[v.user.value.id]
  {
  }

  /** How a submission ended. */
  datatype SubmitOutcome =
    | BioTooShort            // toast 'Bio too short', nothing sent
    | Stopped                // no content, or the page is gone
    | Toasted(message: string) // the outer catch: 'Error processing request'
    | GateStopped            // `onResponse` found the quota used up
    | Streamed(out: Option<StreamOutcome>)

  /** Whether the URL path gets as far as the chat route with `k` reads of
      `isMounted` left: the URL is not LinkedIn, the scrape route answered
      with content, and the page was still there for the three reads in
      `handleUrlScrape` and the one after it. */
  predicate UrlReachesChat(url: string, scrape: ScrapeAnswer, k: nat) {
    !IsLinkedIn(url) && k >= 4 && scrape.Replied? && AcceptReply(scrape).Content?
  }

  /** The message of the error `handleUrlScrape` throws with `k` reads left,
      when it throws: a rejection other than an abort, a non-ok answer seen
      while mounted, or an ok answer without content seen while mounted. */
  function ScrapeError(url: string, scrape: ScrapeAnswer, k: nat): Option<string> {
    if k == 0 || IsLinkedIn(url) then None
    else if scrape.Rejected? then (if scrape.e.name == AbortErrorName then None else Some(scrape.e.message))
    else if AcceptReply(scrape).Threw? && (k >= 3 || (k >= 2 && !scrape.ok)) then Some(AcceptReply(scrape).e.message)
    else None
  }

  /** The outcomes `handleUrlScrape` can have with `k` reads left, read
      against the two summaries: it throws exactly when `ScrapeError` names a
      message, and gives content only when the page was there for all three
      reads and the answer has content. */
  lemma ScrapeStages(url: string, scrape: ScrapeAnswer, k: nat, out: ScrapeOutcome, fetched: bool)
    requires fetched <==> k > 0 && !IsLinkedIn(url)
    requires !fetched ==> out == NoContent
    requires fetched && scrape.Rejected? ==>
      out == if scrape.e.name == AbortErrorName then NoContent else Threw(scrape.e)
    requires fetched && scrape.Replied? && k < 2 ==> out == NoContent
    requires fetched && scrape.Replied? && !scrape.ok && k >= 2 ==> out == Threw(PlainError("Failed to scrape URL"))
    requires fetched && scrape.Replied? && scrape.ok && k == 2 ==> out == NoContent
    requires fetched && scrape.Replied? && scrape.ok && k >= 3 ==> out == AcceptReply(scrape)
    ensures out.Threw? <==> ScrapeError(url, scrape, k).Some?
    ensures out.Threw? ==> out.e.message == ScrapeError(url, scrape, k).value
    ensures out.Content? ==> k >= 3 && !IsLinkedIn(url) && scrape.Replied? && AcceptReply(scrape).Content?
    ensures out.NoContent? ==> !UrlReachesChat(url, scrape, k)
  {
  }

  /** A LinkedIn URL never reaches the chat route and throws nothing: the
      submission just stops. */
  lemma LinkedInStops(url: string, scrape: ScrapeAnswer, k: nat)
    requires IsLinkedIn(url)
    ensures !UrlReachesChat(url, scrape, k) && ScrapeError(url, scrape, k).None?
  {
  }

  /** What the URL path makes of its read of the stream: an unmount stops
      the submission, and the outer catch shows any throw but an abort. */
  function UrlStreamSubmit(o: StreamOutcome): SubmitOutcome {
    match o
    case Unmounted => Stopped
    case Errored(e) => if e.name != AbortErrorName then Toasted(e.message) else Streamed(Some(o))
    case Finished => Streamed(Some(o))
  }

  /** The state of one mounted generator page. `mountChecksLeft` stands for
      `isMounted.current`: the next that many reads see `true`, later reads
      see `false` (the page was unmounted in between). */
  class Page {
    var questions: seq<string>
    var streamedResponse: string
    var currentUser: Option<Profile>
    var mountChecksLeft: nat

    constructor (user: Option<Profile>, checks: nat)
      ensures questions == [] && streamedResponse == "" && currentUser == user && mountChecksLeft == checks
    {
      questions := [];
      streamedResponse := "";
      currentUser := user;
      mountChecksLeft := checks;
    }

    /** A read of `isMounted.current`. */
    method IsMounted() returns (m: bool)
      modifies this
      ensures m == (old(mountChecksLeft) > 0)
      ensures mountChecksLeft == if m then old(mountChecksLeft) - 1 else 0
      ensures questions == old(questions) && streamedResponse == old(streamedResponse)
      ensures currentUser == old(currentUser)
    {
      m := mountChecksLeft > 0;
      if m {
        mountChecksLeft := mountChecksLeft - 1;
      } else {
        mountChecksLeft := 0;
      }
    }

    /** The reading loop; `onResponse` and the URL path of
        `handleFormSubmit` each carry an identical copy of it. Each chunk
        is appended to the buffer; if the page is gone the read stops,
        otherwise the question list is rebuilt from the whole buffer. With
        `k` reads of `isMounted` left, the first `min(k, n)` of the `n`
        chunks are shown. */
    method ReadChunks(chunks: seq<string>) returns (completed: bool)
      modifies this
      ensures completed <==> |chunks| <= old(mountChecksLeft)
      ensures mountChecksLeft == if completed then old(mountChecksLeft) - |chunks| else 0
      ensures currentUser == old(currentUser)
      ensures ShowsChunks(chunks, old(mountChecksLeft), old(View(questions, streamedResponse, currentUser)),
                          View(questions, streamedResponse, currentUser))
    {
      ghost var before := View(questions, streamedResponse, currentUser);
      var accumulated := "";
      var i := 0;
      while i < |chunks|
        invariant 0 <= i <= |chunks| && i <= old(mountChecksLeft)
        invariant mountChecksLeft == old(mountChecksLeft) - i
        invariant accumulated == Concat(chunks[..i])
        invariant i > 0 ==> questions == Parse(accumulated) && streamedResponse == accumulated
        invariant i == 0 ==> questions == old(questions) && streamedResponse == old(streamedResponse)
        invariant currentUser == old(currentUser)
      {
        ConcatSnoc(chunks, i);
        accumulated := accumulated + chunks[i];
        var mounted := IsMounted();
        if !mounted {
          ShowsFirst(chunks, old(mountChecksLeft), i, before, View(questions, streamedResponse, currentUser));
          return false;
        }
        questions := Parse(accumulated);
        streamedResponse := accumulated;
        i := i + 1;
      }
      ShowsFirst(chunks, old(mountChecksLeft), i, before, View(questions, streamedResponse, currentUser));
      completed := true;
    }

    /** The increment after `done`: a signed-in, still mounted page writes
        `images_generated + 1`, computed from its own copy of the profile,
        and takes the row the store returns. */
    method CommitUsage(table: ProfileTable)
      requires table.Valid()
      modifies this, table
      ensures table.Valid()
      ensures questions == old(questions) && streamedResponse == old(streamedResponse)
      ensures CommitsUsage(old(mountChecksLeft), old(table.rows), old(currentUser), table.rows, currentUser)
      ensures mountChecksLeft ==
        if old(currentUser).Some? && old(mountChecksLeft) > 0 then old(mountChecksLeft) - 1 else old(mountChecksLeft)
    {
      var user := currentUser;
      if user.Some? {
        var mounted := IsMounted();
        if mounted {
          var data := table.SetImagesGenerated(user.value.id, Used(user.value) + 1);
          if data.Some? {
            currentUser := data;
          }
        }
      }
    }

    /** The read of a response body: the chunks, then, when the stream
        reports `done`, the increment. An unmount or a throwing stream
        writes nothing. */
    method ReadStream(reader: Reader, table: ProfileTable) returns (out: StreamOutcome)
      requires table.Valid()
      modifies this, table
      ensures table.Valid()
      ensures out == StreamResult(reader, old(mountChecksLeft))
      ensures AfterStream(reader, old(mountChecksLeft), old(table.rows), old(View(questions, streamedResponse, currentUser)),
                          table.rows, View(questions, streamedResponse, currentUser))
      ensures mountChecksLeft == ChecksAfterStream(reader, old(mountChecksLeft), old(currentUser))
    {
      var completed := ReadChunks(reader.chunks);
      if !completed {
        return Unmounted;
      }
      if reader.end.Throws? {
        return Errored(reader.end.e);
      }
      CommitUsage(table);
      out := Finished;
    }

    /** `onResponse`: the quota gate, then the read of the response body
        (absent when the response has none). Errors the read throws are
        shown as a toast and go no further. */
    method OnResponse(body: Option<Reader>, table: ProfileTable) returns (blocked: bool, out: Option<StreamOutcome>)
      requires table.Valid()
      modifies this, table
      ensures table.Valid()
      ensures blocked == GateBlocks(old(currentUser))
      ensures blocked || body.None? ==>
        out.None? && table.rows == old(table.rows) && questions == old(questions)
        && streamedResponse == old(streamedResponse) && currentUser == old(currentUser) && mountChecksLeft == old(mountChecksLeft)
      ensures !blocked && body.Some? ==>
        out == Some(StreamResult(body.value, old(mountChecksLeft)))
        && AfterStream(body.value, old(mountChecksLeft), old(table.rows), old(View(questions, streamedResponse, currentUser)),
                       table.rows, View(questions, streamedResponse, currentUser))
      ensures !blocked && body.Some? && 0 < |body.value.chunks| <= old(mountChecksLeft) ==>
        questions == Parse(Concat(body.value.chunks))
    {
      if GateBlocks(currentUser) {
        return true, None;
      }
      if body.None? {
        return false, None;
      }
      var o := ReadStream(body.value, table);
      assert body.value.chunks[..|body.value.chunks|] == body.value.chunks;
      return false, Some(o);
    }

    /** `handleUrlScrape`. `fetched` tells whether the scrape route was called. */
    method HandleUrlScrape(url: string, answer: ScrapeAnswer) returns (out: ScrapeOutcome, fetched: bool)
      modifies this
      ensures questions == old(questions) && streamedResponse == old(streamedResponse)
      ensures currentUser == old(currentUser)
      ensures fetched <==> old(mountChecksLeft) > 0 && !IsLinkedIn(url)
      ensures !fetched ==> out == NoContent
      ensures fetched && answer.Rejected? ==>
        out == if answer.e.name == AbortErrorName then NoContent else Threw(answer.e)
      ensures fetched && answer.Replied? && old(mountChecksLeft) < 2 ==> out == NoContent
      ensures fetched && answer.Replied? && !answer.ok && old(mountChecksLeft) >= 2 ==>
        out == Threw(PlainError("Failed to scrape URL"))
      ensures fetched && answer.Replied? && answer.ok && old(mountChecksLeft) == 2 ==> out == NoContent
      ensures fetched && answer.Replied? && answer.ok && old(mountChecksLeft) >= 3 ==>
        out == AcceptReply(answer) && mountChecksLeft == old(mountChecksLeft) - 3
      ensures out.Content? ==> answer.Replied? && answer.ok && answer.success && out.content == answer.content.value
    {
      var mounted := IsMounted();
      if !mounted {
        return NoContent, false;
      }
      if IsLinkedIn(url) {
        return NoContent, false;
      }
      fetched := true;
      if answer.Rejected? {
        out := if answer.e.name == AbortErrorName then NoContent else Threw(answer.e);
        return;
      }
      mounted := IsMounted();
      if !mounted {
        return NoContent, true;
      }
      if !answer.ok {
        return AcceptReply(answer), true;
      }
      mounted := IsMounted();
      if !mounted {
        return NoContent, true;
      }
      out := AcceptReply(answer);
    }

    /** The URL branch of `handleFormSubmit`, after the list and the text
        are cleared: scrape, then, with the page
        still there, send the content to the chat route and read its stream
        here, with no quota gate. Any throw but an abort ends in the outer
        catch's toast; a non-ok chat answer throws 'Failed to generate
        questions'. */
    method SubmitUrl(table: ProfileTable, kv: Chat.Kv, url: string, vibe: string, scrape: ScrapeAnswer,
                     kvFails: bool, reply: Reader)
      returns (res: SubmitOutcome)
      requires table.Valid()
      modifies this, table, kv
      ensures table.Valid()
      ensures !UrlReachesChat(url, scrape, old(mountChecksLeft)) ==>
        res == (var e := ScrapeError(url, scrape, old(mountChecksLeft)); if e.Some? then Toasted(e.value) else Stopped)
        && questions == [] && streamedResponse == "" && table.rows == old(table.rows)
        && currentUser == old(currentUser) && kv.coffeecounter == old(kv.coffeecounter)
      ensures UrlReachesChat(url, scrape, old(mountChecksLeft)) && kvFails ==>
        res == Toasted("Failed to generate questions")
        && questions == [] && streamedResponse == "" && table.rows == old(table.rows)
        && currentUser == old(currentUser) && kv.coffeecounter == old(kv.coffeecounter)
      ensures UrlReachesChat(url, scrape, old(mountChecksLeft)) && !kvFails ==>
        kv.coffeecounter == old(kv.coffeecounter) + 1
        && res == UrlStreamSubmit(StreamResult(reply, old(mountChecksLeft) - 4))
        && AfterStream(reply, old(mountChecksLeft) - 4, old(table.rows), View([], "", old(currentUser)),
                       table.rows, View(questions, streamedResponse, currentUser))
    {
      questions := [];
      streamedResponse := "";
      ghost var k, rows, before := mountChecksLeft, table.rows, View(questions, streamedResponse, currentUser);
      var scraped, fetched := HandleUrlScrape(url, scrape);
      ScrapeStages(url, scrape, k, scraped, fetched);
      if scraped.Threw? {
        return Toasted(scraped.e.message);
      }
      if scraped.NoContent? {
        return Stopped;
      }
      var mounted := IsMounted();
      if !mounted {
        return Stopped;
      }
      assert UrlReachesChat(url, scrape, k) && mountChecksLeft == k - 4;
      assert View(questions, streamedResponse, currentUser) == before && table.rows == rows;
      res := SendScraped(table, kv, vibe, scraped.content, kvFails, reply);
    }

    /** The URL branch once the content is in hand: the direct call to the
        chat route, whose failure throws 'Failed to generate questions', then
        the read of its stream, where an unmount stops the submission and any
        throw but an abort is shown. */
    method SendScraped(table: ProfileTable, kv: Chat.Kv, vibe: string, content: string, kvFails: bool, reply: Reader)
      returns (res: SubmitOutcome)
      requires table.Valid()
      modifies this, table, kv
      ensures table.Valid()
      ensures kvFails ==>
        res == Toasted("Failed to generate questions")
        && questions == old(questions) && streamedResponse == old(streamedResponse) && table.rows == old(table.rows)
        && currentUser == old(currentUser) && kv.coffeecounter == old(kv.coffeecounter)
      ensures !kvFails ==>
        kv.coffeecounter == old(kv.coffeecounter) + 1
        && res == UrlStreamSubmit(StreamResult(reply, old(mountChecksLeft)))
        && AfterStream(reply, old(mountChecksLeft), old(table.rows), old(View(questions, streamedResponse, currentUser)),
                       table.rows, View(questions, streamedResponse, currentUser))
    {
      var sent, seen := Chat.Post(kv, vibe, content, kvFails);
      if sent.None? {
        return Toasted("Failed to generate questions");
      }
      var o := ReadStream(reply, table);
      res := UrlStreamSubmit(o);
    }

    /** The bio branch of `handleFormSubmit`, after the list and the text
        are cleared: a bio shorter than 20 code
        units is refused; otherwise the chat route is called and its answer
        goes through `onResponse`. A failed route reaches no `onResponse`. */
    method SubmitBio(table: ProfileTable, kv: Chat.Kv, input: string, vibe: string, kvFails: bool, reply: Reader)
      returns (res: SubmitOutcome)
      requires table.Valid()
      modifies this, table, kv
      ensures table.Valid()
      ensures Utf16Length(input) < MinBioLength || kvFails ==>
        res == (if Utf16Length(input) < MinBioLength then BioTooShort else Streamed(None))
        && questions == [] && streamedResponse == "" && table.rows == old(table.rows)
        && currentUser == old(currentUser) && kv.coffeecounter == old(kv.coffeecounter)
      ensures Utf16Length(input) >= MinBioLength && !kvFails ==> kv.coffeecounter == old(kv.coffeecounter) + 1
      ensures Utf16Length(input) >= MinBioLength && !kvFails && GateBlocks(old(currentUser)) ==>
        res == GateStopped
        && questions == [] && streamedResponse == "" && table.rows == old(table.rows)
        && currentUser == old(currentUser)
      ensures Utf16Length(input) >= MinBioLength && !kvFails && !GateBlocks(old(currentUser)) ==>
        res == Streamed(Some(StreamResult(reply, old(mountChecksLeft))))
        && AfterStream(reply, old(mountChecksLeft), old(table.rows), View([], "", old(currentUser)),
                       table.rows, View(questions, streamedResponse, currentUser))
    {
      questions := [];
      streamedResponse := "";
      if Utf16Length(input) < MinBioLength {
        return BioTooShort;
      }
      var sent, seen := Chat.Post(kv, vibe, input, kvFails);
      if sent.None? {
        return Streamed(None);
      }
      var blocked, o := OnResponse(Some(reply), table);
      if blocked {
        return GateStopped;
      }
      res := Streamed(o);
    }

    /** `handleFormSubmit`: the question list and the streamed text are
        cleared, and the branch for the input type runs. `kvFails`
        stands for the counter store rejecting the increment, which fails
        the chat route. */
    method Submit(table: ProfileTable, kv: Chat.Kv, inputType: InputType, input: string, url: string,
                  vibe: string, scrape: ScrapeAnswer, kvFails: bool, reply: Reader)
      returns (res: SubmitOutcome)
      requires table.Valid()
      modifies this, table, kv
      ensures table.Valid()
      ensures kv.coffeecounter == old(kv.coffeecounter) || kv.coffeecounter == old(kv.coffeecounter) + 1
      ensures inputType == BioInput && (Utf16Length(input) < MinBioLength || kvFails) ==>
        res == (if Utf16Length(input) < MinBioLength then BioTooShort else Streamed(None))
        && questions == [] && streamedResponse == "" && table.rows == old(table.rows)
        && currentUser == old(currentUser) && kv.coffeecounter == old(kv.coffeecounter)
      ensures inputType == BioInput && Utf16Length(input) >= MinBioLength && !kvFails ==>
        kv.coffeecounter == old(kv.coffeecounter) + 1
      ensures inputType == BioInput && Utf16Length(input) >= MinBioLength && !kvFails
              && GateBlocks(old(currentUser)) ==>
        res == GateStopped && questions == [] && streamedResponse == "" && table.rows == old(table.rows)
        && currentUser == old(currentUser)
      ensures inputType == BioInput && Utf16Length(input) >= MinBioLength && !kvFails
              && !GateBlocks(old(currentUser)) ==>
        res == Streamed(Some(StreamResult(reply, old(mountChecksLeft))))
        && AfterStream(reply, old(mountChecksLeft), old(table.rows), View([], "", old(currentUser)),
                       table.rows, View(questions, streamedResponse, currentUser))
      ensures inputType == UrlInput && !UrlReachesChat(url, scrape, old(mountChecksLeft)) ==>
        res == (var e := ScrapeError(url, scrape, old(mountChecksLeft)); if e.Some? then Toasted(e.value) else Stopped)
        && questions == [] && streamedResponse == "" && table.rows == old(table.rows)
        && currentUser == old(currentUser) && kv.coffeecounter == old(kv.coffeecounter)
      ensures inputType == UrlInput && UrlReachesChat(url, scrape, old(mountChecksLeft)) && kvFails ==>
        res == Toasted("Failed to generate questions") && questions == [] && streamedResponse == ""
        && table.rows == old(table.rows) && currentUser == old(currentUser) && kv.coffeecounter == old(kv.coffeecounter)
      ensures inputType == UrlInput && UrlReachesChat(url, scrape, old(mountChecksLeft)) && !kvFails ==>
        kv.coffeecounter == old(kv.coffeecounter) + 1
        && res == UrlStreamSubmit(StreamResult(reply, old(mountChecksLeft) - 4))
        && AfterStream(reply, old(mountChecksLeft) - 4, old(table.rows), View([], "", old(currentUser)),
                       table.rows, View(questions, streamedResponse, currentUser))
    {
      if inputType == UrlInput {
        res := SubmitUrl(table, kv, url, vibe, scrape, kvFails, reply);
      } else {
        res := SubmitBio(table, kv, input, vibe, kvFails, reply);
      }
    }
  }

  /** The increment is computed from the page's copy of the profile: when
      that copy is the stored row, the row afterwards is that profile
      committed once, its count one higher and every other field as before. */
  lemma CommitFromFreshCopy(rows: map<string, Profile>, u: Profile)
    requires u.id in rows && rows[u.id] == u
    ensures WithImagesGenerated(rows, u.id, Used(u) + 1)[u.id] == Committed(u)
    ensures Used(WithImagesGenerated(rows, u.id, Used(u) + 1)[u.id]) == Used(rows[u.id]) + 1
    ensures forall id :: id in rows && id != u.id ==> WithImagesGenerated(rows, u.id, Used(u) + 1)[id] == rows[id]
  {
  }

  /** With a stale copy the write ignores generations recorded since it was
      read: the stored count becomes the copy's count plus one, whatever it was. */
  lemma CommitFromStaleCopy(rows: map<string, Profile>, u: Profile)
    requires u.id in rows && Used(rows[u.id]) > Used(u)
    ensures Used(WithImagesGenerated(rows, u.id, Used(u) + 1)[u.id]) <= Used(rows[u.id])
  {
  }
}
