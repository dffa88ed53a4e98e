# CoffeeChatAI in Dafny

A Dafny model of CoffeeChatAI's core. The web application takes a biography or a profile URL and streams interview questions from a language model. The model covers the following pieces:

- **Question projection** (`Questions`). After each chunk of the model's stream, the generator page rebuilds its question list from the whole buffer: split on `'\n'`, trim each line, drop blank ones. The module also covers the text copied to the clipboard.
- **Quota** (`Quota`). An unpaid profile gets two free generations. The model covers the gate in `onResponse`, the submit button's state and label, the "generations left" counter, and the `images_generated + 1` written after a completed stream.
- **The generator page** (`GeneratorPage`). It covers form validation and the LinkedIn pre-screen, and how the page reads the scrape route's answer. Its `Page` class holds the stream-reading loop, the usage increment after `done`, `onResponse` and `handleFormSubmit`. `isMounted.current` is modelled as a count of reads that still see `true`.
- **Routes.**
  - `/api/firecrawl` (`Firecrawl`): URL check, upstream error mapping, and content assembly from the scraped pages.
  - `/api/chat` (`Chat`): the prompt template, and the `coffeecounter` increment made before the model call.
  - `/api/create-profile` (`CreateProfile`): get-or-create on the profile table.
  - `/api/cancel-subscription` (`CancelSubscription`): auth guard, the payment-provider call, then a bulk update of the profile table.
- **The legacy home page** (`LegacyPage`). It shows the last assistant message cut by `substring(indexOf("1") + 3).split("2.")`.
- **Support.**
  - `JsString` models the ECMAScript string operations the code relies on, with their edge cases: `trim`, `indexOf` returning -1, `substring` clamping, `split`/`join`, UTF-16 `length`, `toLowerCase` and decimal rendering.
  - `Profiles` is the `profiles` table: a map from user id to row, updated in place.
  - `Optional` provides absent values, JavaScript truthiness and `||`/`??`.

External services are parameters:
- A flag says whether a store write, a payment-provider call or a counter increment fails.
- A value gives the scrape route's answer.
- A `Reader` gives the model's stream as chunks already decoded, then how it ends.

The model follows the code, which behaves as follows:
- The quota gate runs in `onResponse`, which is after the chat route has already bumped the counter and called the model.
- The URL path of `handleFormSubmit` never consults the gate.
- Paid profiles also get `images_generated + 1`.
- A rejected `kv.incr` fails the chat request instead of being ignored.
- The counter is bumped before the model call, not after a successful generation.
- `abortControllerRef` is never assigned, so unmounting aborts nothing. The mount checks alone stop the page's work.

## Model

| member | source | states |
|---|---|---|
| JsString.Trim | app/app/page.tsx:112 | the result has no leading or trailing ECMAScript white space, is no longer than the input, and is empty exactly when the input is all white space |
| JsString.TrimIdempotent | app/app/page.tsx:112 | trimming twice is trimming once |
| JsString.IndexOf | app/page.tsx:161 | the first index where the pattern occurs, or -1 exactly when it occurs nowhere |
| JsString.OccursFromIndex | app/app/page.tsx:248 | a position-by-position search finds the pattern exactly when `indexOf` from that position finds it |
| JsString.Substring | app/page.tsx:161 | `substring(start)` clamps `start` into the string: the whole string for a negative start, `""` past the end, otherwise the suffix from `start` |
| JsString.Split | app/app/page.tsx:111 | a split always has at least one piece |
| JsString.JoinSplit | app/page.tsx:162 | joining the pieces of a split with the separator gives back the original string |
| JsString.SplitPiecesFree | app/page.tsx:162 | no piece of a split contains the separator |
| JsString.SplitJoin | app/app/page.tsx:588-590 | splitting a join gives back the pieces when the separator's first character occurs in none of them |
| JsString.SplitConcat | app/app/page.tsx:111 | splitting on a character distributes over a concatenation joined by that character |
| JsString.JoinLength | app/api/firecrawl/route.ts:48 | a join of n pieces has the pieces' total length plus n - 1 separators |
| JsString.JoinSnoc | app/api/firecrawl/route.ts:48 | adding a piece appends one separator and the piece, at the end |
| JsString.Utf16Length | app/app/page.tsx:74 | `length` counts UTF-16 code units: between one and two per character |
| JsString.ToLower | app/api/chat/route.ts:27 | same length, each character lower-cased |
| JsString.Decimal | app/api/firecrawl/route.ts:41 | the decimal rendering of a number is a non-empty string of digits |
| JsString.DecimalRoundTrip | app/api/firecrawl/route.ts:41 | reading the rendered digits back gives the number |
| Questions.Parse | app/app/page.tsx:110-113 | the list shown for a buffer: split on `'\n'`, each line trimmed, blank lines dropped; what it promises is stated by the lemmas below |
| Questions.ParseWellFormed | app/app/page.tsx:110-113 | every shown question is non-empty, already trimmed and free of `'\n'` |
| Questions.NonBlankConcat | app/app/page.tsx:112-113 | trimming and dropping blank lines keeps order: it distributes over concatenation |
| Questions.ParseLine | app/app/page.tsx:110-113 | a one-line buffer shows that line trimmed, or nothing when it is blank |
| Questions.ParseConcat | app/app/page.tsx:106-113 | the questions of `a + "\n" + b` are those of `a` followed by those of `b`, so a completed line is never revised by later chunks |
| Questions.ParseJoinLines | app/app/page.tsx:110-113 | a list of well-formed questions written one per line parses back to itself |
| Questions.ParseIdempotent | app/app/page.tsx:110-113 | parsing the written-out parsed list gives the same list |
| Questions.TwoLines | app/app/page.tsx:110-113 | two well-formed lines, with or without a final newline, show as themselves |
| Questions.StreamScenario | app/app/page.tsx:97-117 | the list after each chunk of "Q1?\n", "Q2", "?\n": the partial line is shown, then revised |
| Questions.LineShownApart | app/app/page.tsx:106-113 | parsing a late chunk on its own would show a split line as two questions |
| Questions.LineShownWhole | app/app/page.tsx:106-113 | parsing the whole buffer shows the line whole |
| Questions.WholeBufferMatters | app/app/page.tsx:106-113 | parsing the whole buffer and appending the parse of the last chunk differ |
| Questions.Bullets | app/app/page.tsx:589 | each question prefixed with `• `, in order |
| Questions.ClipboardText | app/app/page.tsx:588-590 | the copied text: the bulleted questions joined with blank lines; its round trip is `ClipboardRoundTrip` |
| Questions.ClipboardRoundTrip | app/app/page.tsx:588-590 | the copied text splits on blank lines into the bulleted questions, and reading it back gives the questions |
| Questions.ClipboardOfParse | app/app/page.tsx:570-590 | the copy of any non-empty shown list reads back as that list |
| Profiles.Cancelled | app/api/cancel-subscription/route.ts:27-33 | the rows after the bulk cancel; `CancelledSpec` states which rows and fields change |
| Profiles.CancelledSpec | app/api/cancel-subscription/route.ts:27-33 | exactly the rows holding the subscription lose `paid` and `subscription_id` and keep all else; other rows and the set of users are unchanged |
| Profiles.CancelledIdempotent | app/api/cancel-subscription/route.ts:27-33 | cancelling twice equals cancelling once |
| Profiles.CancelledKeyed | app/api/cancel-subscription/route.ts:27-33 | the bulk update keeps every row under its own id |
| Profiles.WithImagesGenerated | app/app/page.tsx:121-128 | the same users afterwards; only that id's row changes, and only its `images_generated`, which becomes the written value |
| Profiles.ProfileTable.SelectById | app/api/create-profile/route.ts:21-25 | the row of the id when there is one, nothing otherwise |
| Profiles.ProfileTable.Insert | app/api/create-profile/route.ts:32-45 | inserts the row exactly when the store does not fail and the id is new; otherwise the table is unchanged |
| Profiles.ProfileTable.SetImagesGenerated | app/app/page.tsx:121-128 | sets `images_generated` of that id's row only, and returns the updated row when there is one |
| Profiles.ProfileTable.CancelSubscriptionRows | app/api/cancel-subscription/route.ts:27-33 | on success the table becomes the bulk-cancelled table, on failure it is unchanged |
| Quota.GateBlocks | app/app/page.tsx:88 | the `onResponse` guard: a signed-in, unpaid profile with two or more generations; `GateAgreesWithButton`, `PaidNeverBlocked` and `RemainingIsExact` state its consequences |
| Quota.ButtonDisabled | app/app/page.tsx:550-554 | disabled exactly when the form is invalid, while loading, or when `onResponse`'s gate would block the profile |
| Quota.ButtonLabel | app/app/page.tsx:557-566 | the upgrade label exactly when the gate blocks; otherwise the ready label exactly when not loading, and while loading the extracting label exactly when scraping |
| Quota.GateAgreesWithButton | app/app/page.tsx:550-554 | the button's quota term and the `onResponse` gate agree for every profile, present or absent |
| Quota.PaidNeverBlocked | app/app/page.tsx:88-95 | a paid profile is never blocked by the gate or the button, whatever its count |
| Quota.Remaining | app/app/page.tsx:425 | shown count plus used count is 2, and for an unpaid profile the count is positive exactly when the gate lets it through |
| Quota.Committed | app/app/page.tsx:123-126 | the post-stream write raises the used count by exactly one and leaves every other field, including `paid`, as it was |
| Quota.CommittedTimesUsed | app/app/page.tsx:123-126 | after k completed generations the used count is k higher |
| Quota.RemainingIsExact | app/app/page.tsx:425 | an unpaid profile is let through after k more generations exactly when k is below the shown count |
| Quota.FreshProfileGetsTwo | app/app/page.tsx:88 | a new profile is let through twice and blocked at the third generation |
| CreateProfile.LocalPart | app/api/create-profile/route.ts:37 | `email.split('@')[0]` is the prefix before the first `'@'`, or the whole email without one, and holds no `'@'` |
| CreateProfile.NewProfile | app/api/create-profile/route.ts:34-41 | the inserted row: `images_generated` 0, not paid, no subscription, `avatar_url` defaulted to `''`, name from `fullName` or the email; it throws exactly when both the name and the email are missing |
| CreateProfile.DefaultName | app/api/create-profile/route.ts:37 | the default name holds no `'@'` and is followed by the first `'@'` of the email |
| CreateProfile.Post | app/api/create-profile/route.ts:20-53 | an existing profile is returned unchanged with no write; otherwise only the new user's row is added, and a thrown split or an insert error gives a 500 with the table unchanged |
| CreateProfile.PostTwice | app/api/create-profile/route.ts:20-29 | once a request answered 200, repeating it returns the same answer |
| CancelSubscription.Billing.Cancel | app/api/cancel-subscription/route.ts:24 | a successful cancel is recorded; a failed one records nothing |
| CancelSubscription.Post | app/api/cancel-subscription/route.ts:12-43 | no user gives 404 before any provider call or table change; a provider failure gives 500 with the table unchanged; an update error gives 500; otherwise 200 and the table is the bulk-cancelled table |
| CancelSubscription.DoneClearsSubscription | app/api/cancel-subscription/route.ts:27-33 | after a cancel no row holds the subscription; affected rows keep count, name, email and avatar; other rows are unchanged |
| CancelSubscription.RetryChangesNothing | app/api/cancel-subscription/route.ts:27-33 | repeating a successful cancel changes no further rows |
| Firecrawl.Markdowns | app/api/firecrawl/route.ts:48 | one entry per page, in order, an absent markdown rendered as `""` |
| Firecrawl.Content | app/api/firecrawl/route.ts:47-49 | the success content: the pages' markdown joined with the separator, a single page's markdown or the fallback text; its properties are the lemmas below |
| Firecrawl.Post | app/api/firecrawl/route.ts:4-63 | a falsy URL gives 400 and no upstream request; otherwise the request asks for markdown, main content only and a 60000 ms timeout; a non-ok status gives 500 with the status in the message; else 200 with the assembled content |
| Firecrawl.EmptyArrayGivesEmpty | app/api/firecrawl/route.ts:47-48 | an empty page array gives empty content |
| Firecrawl.NonArrayNeverEmpty | app/api/firecrawl/route.ts:49 | a non-array payload never gives empty content; anything but the fallback text is its truthy markdown |
| Firecrawl.PagesInOrder | app/api/firecrawl/route.ts:48 | pages appear in order, one separator between neighbours |
| Firecrawl.ContentLength | app/api/firecrawl/route.ts:48 | n pages give their markdown plus n - 1 separators |
| Firecrawl.ContentSplitsIntoPages | app/api/firecrawl/route.ts:48 | with single-line markdown, splitting on the separator gives each page's markdown back |
| Firecrawl.PartialSeparatorBreaksSplit | app/api/firecrawl/route.ts:48 | keeping the separator out of every page is not enough for the round trip: a page ending with all of the separator but its last line break makes the split cut that page short |
| Firecrawl.ErrorCarriesStatus | app/api/firecrawl/route.ts:34-41 | the 500 message holds the status in decimal right after the fixed prefix, and it reads back as the status |
| Firecrawl.FetchIffUrl | app/api/firecrawl/route.ts:9-32 | the service is called exactly when the URL is truthy |
| Chat.Prompt | app/api/chat/route.ts:26-33 | the user message: the fixed template with the bio, the lower-cased vibe and the tone sentence in their slots; the lemmas below state what every prompt holds |
| Chat.BioQuotedVerbatim | app/api/chat/route.ts:26 | the biography appears verbatim between double quotes right after the opening sentence |
| Chat.AsksForTwo | app/api/chat/route.ts:27 | the prompt asks to "generate two" questions in the lower-cased vibe |
| Chat.FixedConstraints | app/api/chat/route.ts:31-32 | every prompt holds the under-250-characters rule and the do-not-make-up-a-person fallback |
| Chat.ToneChosenByVibe | app/api/chat/route.ts:28-30 | the prompt closes with the humour sentence exactly when the vibe is "Funny", and with the thoughtful one exactly otherwise |
| Chat.PageVibesAreThoughtful | app/api/chat/route.ts:28-30 | "Professional" and "Casual", the vibes the page offers, always get the thoughtful sentence |
| Chat.Completion | app/api/chat/route.ts:20-36 | one user-role message holding the prompt, to `gpt-3.5-turbo`, streamed |
| Chat.Kv.Incr | app/api/chat/route.ts:15 | the counter rises by one, or is unchanged when the store rejects |
| Chat.Kv.Get | app/api/chat/route.ts:16 | reads the counter |
| Chat.Post | app/api/chat/route.ts:13-41 | the counter has risen by exactly one when the model is called, and stays risen; a rejected increment fails the request before the model call |
| Chat.PostTwice | app/api/chat/route.ts:15 | two requests raise the counter by two |
| LegacyPage.GeneratedBios | app/page.tsx:71-73 | the last message's content only when the last message is the assistant's |
| LegacyPage.Pieces | app/page.tsx:161-162 | the text after the start index cut at each `"2."`; `PiecesPartitionBody`, `SplitCount` and `CardCount` state its properties |
| LegacyPage.Cards | app/page.tsx:149-162 | something is rendered exactly when that content is truthy, and then the cards are the pieces of that content, at least one |
| LegacyPage.UserLastRendersNothing | app/page.tsx:71-73 | nothing is rendered when the last message is the user's |
| LegacyPage.NoOneStartsAtTwo | app/page.tsx:161 | with no `"1"` the text is shown from index 2 |
| LegacyPage.StartPastEnd | app/page.tsx:161-162 | a start past the end gives `""`, one empty card |
| LegacyPage.BodyAfterFirstOne | app/page.tsx:161 | otherwise the text starts three places after the first `"1"` |
| LegacyPage.PiecesPartitionBody | app/page.tsx:162 | no card holds `"2."`, and the cards joined with `"2."` give the text back |
| LegacyPage.SplitCount | app/page.tsx:162 | splitting on `"2."` gives one more piece than there are occurrences of `"2."` |
| LegacyPage.CardCount | app/page.tsx:160-162 | the number of cards is the number of `"2."` in the text plus one |
| GeneratorPage.IsFormValid | app/app/page.tsx:72-78 | a bio of at least 20 UTF-16 code units, or a URL that parses with an `http:` or `https:` protocol; `BioLengthBounds` and `UrlModeIgnoresBio` state its properties |
| GeneratorPage.IsValidUrl | app/app/page.tsx:234-241 | the URL parses and its protocol is `http:` or `https:` |
| GeneratorPage.IsLinkedIn | app/app/page.tsx:248 | the URL contains `linkedin.com`, searched position by position; `LinkedInIsIncludes` states that this is `url.includes` |
| GeneratorPage.LinkedInIsIncludes | app/app/page.tsx:248 | the refusal test holds exactly when `url.includes('linkedin.com')` does |
| GeneratorPage.BioLengthBounds | app/app/page.tsx:72-78 | any 20 characters make a valid bio and fewer than 10 never do; the submit check rejects exactly the bios the form calls invalid |
| GeneratorPage.UrlModeIgnoresBio | app/app/page.tsx:234-241 | in URL mode validity depends only on the parsed protocol, `http:` or `https:` |
| GeneratorPage.AcceptReply | app/app/page.tsx:266-282 | content is accepted exactly when the answer is ok, successful and has truthy content; otherwise it throws 'Failed to scrape URL', the route's error, or 'No content found' |
| GeneratorPage.ScrapeEndToEnd | app/app/page.tsx:266-282 | an upstream failure reaches the page only as 'Failed to scrape URL'; empty assembled content becomes 'No content found'; other content is passed on |
| GeneratorPage.MissingUrlEndToEnd | app/api/firecrawl/route.ts:9-14 | a missing URL never reaches the service, and the page reports 'Failed to scrape URL' |
| GeneratorPage.ConcatGrows | app/app/page.tsx:106 | the buffer only grows: an earlier buffer is a prefix of every later one |
| GeneratorPage.AfterStreamCases | app/app/page.tsx:97-133 | the cases of a read: an unmount or a throw writes nothing; the list is the parse of the first `min(n, k)` chunks, unchanged when that is none; a signed-in read that reaches `done` with a check to spare writes the copy's count plus one and adopts the returned row, and one without a check to spare writes nothing |
| GeneratorPage.AfterStreamWritesOwnRow | app/app/page.tsx:119-133 | a read keeps the set of users, writes no row but the signed-in user's, and changes only that row's count |
| GeneratorPage.ScrapeStages | app/app/page.tsx:243-292 | `handleUrlScrape` throws exactly when the page was still there to see a non-abort rejection, a non-ok answer or an answer without content, and gives content only when mounted for all three checks |
| GeneratorPage.LinkedInStops | app/app/page.tsx:248-255 | a LinkedIn URL neither reaches the chat route nor throws, so the submission stops with nothing sent |
| GeneratorPage.Page.IsMounted | app/app/page.tsx:49-54 | once a read sees the page gone, every later read does too |
| GeneratorPage.Page.ReadChunks | app/app/page.tsx:97-117 | with `k` mount checks left and `n` chunks, the read completes exactly when `n <= k`; after the first `min(k, n)` chunks the list is the parse of their concatenation and the streamed text is that concatenation; no check left or no chunk leaves both untouched |
| GeneratorPage.Page.CommitUsage | app/app/page.tsx:119-133 | no signed-in user or an unmounted page writes nothing; otherwise the stored usage becomes the local copy's usage plus one and the local copy becomes the returned row when there is one; one mount check is used when a user is signed in |
| GeneratorPage.Page.ReadStream | app/app/page.tsx:97-133 | the outcome is the read's outcome; the list, text, table and copy of the profile are what `AfterStream` says of the read; the mount checks used are one per chunk plus one for the increment |
| GeneratorPage.Page.OnResponse | app/app/page.tsx:86-144 | a blocked profile or a missing body changes nothing; otherwise the outcome is the read's outcome and the list, text, table and copy of the profile are what `AfterStream` says of the read: an unmount, a throw or no user writes nothing |
| GeneratorPage.Page.HandleUrlScrape | app/app/page.tsx:243-292 | the scrape route is called exactly when mounted and not LinkedIn; an abort gives `null`, other rejections rethrow; each mount check that fails gives `null`; when mounted throughout, the outcome is the page's reading of the answer |
| GeneratorPage.Page.Submit | app/app/page.tsx:294-399 | clears the list and text, then: a short bio sends nothing; a failed chat route writes nothing; a blocked bio stops after the counter bump; an unblocked bio streams and writes as `AfterStream` says; a URL that does not reach the chat route ends in the scrape error's toast or a stop; one that does streams, with four checks used and no quota gate, as `AfterStream` says; the counter rises by at most one |
| GeneratorPage.Page.SubmitUrl | app/app/page.tsx:303-375 | not reaching the chat route leaves everything unchanged, with the scrape error's toast or a stop; a failed chat route gives 'Failed to generate questions'; otherwise the counter rises by one and the read, four checks later, streams and writes as `AfterStream` says, an unmount stopping and any throw but an abort shown |
| GeneratorPage.Page.SendScraped | app/app/page.tsx:313-375 | a failed chat route gives 'Failed to generate questions' and changes nothing; otherwise the counter rises by one and the read streams and writes as `AfterStream` says, an unmount stopping the submission and any throw but an abort shown |
| GeneratorPage.Page.SubmitBio | app/app/page.tsx:376-387 | a bio under 20 code units or a failed chat route changes nothing; otherwise the counter rises by one, a blocked profile stops with nothing written, and an unblocked one streams and writes as `AfterStream` says |
| GeneratorPage.CommitFromFreshCopy | app/app/page.tsx:121-128 | with an up-to-date copy the stored row becomes that profile committed once, and other rows are unchanged |
| GeneratorPage.CommitFromStaleCopy | app/app/page.tsx:121-128 | with a stale copy the write does not raise the stored count: generations recorded since are lost |

## Left out

- Rendering, toasts, scrolling, loading flags, the clipboard write itself and the `counter-coffee` refresh are UI effects. Only the formatted clipboard string is modelled.
- `new URL` is modelled as a given parse result: either unparsable, or a protocol. The WHATWG URL parser itself is not part of this model.
- `TextDecoder` is not modelled: the stream arrives as chunks that are already decoded.
- The network, the language model, the scraping service, the payment provider, the key-value store and the relational store are parameters or failure flags.
- JSON parse failures of request and response bodies are left out. So are fetch rejections of calls other than the scrape fetch.
- `useChat` internals are left out: the model assumes that a bio submission is sent with the bio text. `onFinish`/`onError` only reset loading flags.
- GeneratorPage.Page.SubmitBio: a failed chat route is modelled as reaching no `onResponse`. The `useChat` hook may call `onResponse` before it checks the status, in which case a failed answer would pass the gate and its body would be read into the list. That hook is not part of this model, so this stays a possible gap.
- The client-side get-or-create in `getCurrentUser` (app/app/page.tsx:180-216) is left out. It is a second copy of the create-profile route with other defaults.
- Concurrency is left out. The read-then-write usage increment can lose updates across tabs. `CommitFromStaleCopy` shows the effect for one stale copy; interleavings are not modelled.
- JsString.ToLower: only ASCII letters are lower-cased. Full Unicode case mapping is not modelled.
- LegacyPage.Pieces: indices count Unicode scalar values, not UTF-16 code units. Text with characters outside the Basic Multilingual Plane before the first `"1"` would start at a different place.
- CreateProfile.Post: a `.single()` lookup error other than "no row" is treated as "no row".
- CancelSubscription.Post: a missing `subscription_id` in the body is not modelled. The route also does not check that the subscription belongs to the signed-in user, and the model does not express that.
- Profiles.ProfileTable.SetImagesGenerated: a store error on the post-stream update is not modelled. The code ignores the error, and the row would then stay as it was.
- GeneratorPage.Page.SubmitUrl: a chat answer without a body (`response.body` absent) is not modelled; the reply is always read.
