# AI Answer Engine — request pipeline in Dafny

This project models the request pipeline of the AI Answer Engine, a Next.js chat application. A
user asks a question, possibly about a web page or an uploaded document. The server optionally
scrapes the page, builds a prompt, and forwards it to a hosted language model together with the
conversation history. The browser then shows the reply as it streams in, and keeps the
conversation in local storage.

The model covers four source files, one module each:

- `ChatRoute` (src/app/api/chat/route.ts) is the `POST` handler with its I/O removed. It covers URL
  detection, the scrape outcome, query normalisation, the choice between the three prompt
  templates, the response body and the 500 reply. The parsed request body, the scrape outcome and
  the completion outcome are inputs.
- `UrlPattern` and `Scrapers` (src/app/utils/scrapers.ts) model two things:
  - the anchored, case-insensitive `urlPattern`, as a deterministic parser that is proved
    equivalent to a group-by-group reading of the regular expression;
  - `cleanText` and the success and failure records of `scrapeURL`. The strings the HTML
    selectors return are an input.
- `GroqClient` (src/app/utils/groqClient.ts) builds the `messages` list that is sent to the
  completion service. `BuildMessages` is a loop proved against the function `MessagesFor`.
- `ChatPage` (src/app/page.tsx) covers the page's logic:
  - document truncation and the message that is sent;
  - the typewriter tick;
  - the stream read loop and the way a request ends;
  - what is saved to and restored from local storage, and `getDisplayContent`;
  - the send guard and the upload checks.

  The page's state (input, message list, loading flag, pending document) is the class
  `ChatSession`, and each handler is a method on it.

`JsText` holds the JavaScript string semantics these modules rely on:

- the `\s` / `trim()` whitespace set;
- ASCII case folding under `/i`;
- `indexOf`, and `replace` with a string pattern;
- `slice`, `join`, and the decimal rendering of a number in a template literal.

A string is a sequence of UTF-16 code units, one `char` per code unit. `Wrappers` holds `Option`;
`None` stands for JavaScript's `null` or `undefined`.

### Behaviour of the code worth knowing

- **URL detection.** `urlPattern` is anchored with `^…$` and has no `g` or `m` flag, so a URL is
  detected only when the whole message is one URL. Two consequences are proved:
  - a message containing any whitespace never yields a URL (`ChatRoute.SpacedMessageHasNoUrl`);
  - whenever a URL is detected, removing it leaves nothing, so the query is always the fixed
    fallback (`ChatRoute.DetectedUrlGivesFallback`).

  The boilerplate and "this site" rewriting therefore only ever runs on the empty string.
- **Scraper name.** The route reads `scraperUsed` from the scrape result, a field `scrapeURL`
  never sets, so the reply never carries it (`ChatRoute.HandlePost`).
- **Cleaning the fields.** `scrapeURL` joins the raw fields with spaces and cleans the join once.
  `Scrapers.CleanTextOfJoin` proves this equals cleaning each field and joining the non-empty
  results with single spaces.
- **The filtered greeting.** The history filter drops entries whose content is
  "Hello! How can I help you today?". That is not the page's greeting, so the page's greeting is
  forwarded to the model (`ChatPage.GreetingIsForwarded`). When the question itself is that
  text, the filter drops it and `slice(0, -1)` then drops the entry before it
  (`GroqClient.SentinelQuestionDropsEarlier`).
- **One reply.** The route returns one JSON object. Only the page's reading of a response body
  as a sequence of chunks is modelled.

## Model

| member | source | states |
|---|---|---|
| JsText.Trim | src/app/utils/scrapers.ts:7 | `trim()` leaves no whitespace at either end, and gives the empty string exactly for all-whitespace input |
| JsText.TrimSlice | src/app/api/chat/route.ts:34 | `trim()` returns a slice of its input, with only whitespace cut off on either side |
| JsText.TrimIdempotent | src/app/api/chat/route.ts:40 | trimming twice is trimming once |
| JsText.IndexOfFrom | src/app/api/chat/route.ts:34 | `indexOf` finds an occurrence at or after the start index, and none lies before it; `None` means there is no occurrence |
| JsText.RemoveFirst | src/app/api/chat/route.ts:34 | `replace(str, "")` leaves the string alone when the pattern does not occur; otherwise it cuts out exactly the first occurrence, keeping what comes before and after it |
| JsText.RemoveWhole | src/app/api/chat/route.ts:34 | removing a string from itself leaves the empty string |
| JsText.SliceTo | src/app/api/chat/route.ts:80 | `substring(0, n)` is a prefix, of length `min(n, len)` |
| JsText.SliceLast | src/app/page.tsx:239 | `slice(-n)` is a suffix, of length `min(n, len)` |
| JsText.AsciiUpper | src/app/page.tsx:168 | `toUpperCase()` keeps the length; it upper-cases ASCII letters and leaves every other character alone |
| JsText.DecimalString | src/app/page.tsx:240 | a number in a template literal renders as one or more decimal digits, with no leading zero |
| JsText.DecimalRoundTrip | src/app/page.tsx:240 | the rendered digits read back as the same number |
| JsText.DecimalLengthBound | src/app/page.tsx:240 | a number of two or more digits has at most half as many digits as its value |
| UrlPattern.Span | src/app/utils/scrapers.ts:4 | the longest run of matching characters: all of it matches, and the next character does not |
| UrlPattern.SplitDots | src/app/utils/scrapers.ts:4 | splitting a host at its dots gives at least one piece, and no piece contains a dot |
| UrlPattern.DottedSplit | src/app/utils/scrapers.ts:4 | the pieces of a split host, dotted and joined again, give back the host |
| UrlPattern.SplitDotted | src/app/utils/scrapers.ts:4 | dot-free labels and a TLD, written with their dots, split back into the same labels and TLD |
| UrlPattern.SchemeSound | src/app/utils/scrapers.ts:4 | a recognised scheme is `http` or `https` in any case, followed by `://` |
| UrlPattern.SchemeComplete | src/app/utils/scrapers.ts:4 | every `http`/`https` spelling followed by `://` is recognised, with its own length |
| UrlPattern.SplitHostSound | src/app/utils/scrapers.ts:4 | the host pieces, put back together with their dots, followed by what comes after the host, spell out the input |
| UrlPattern.SplitHostComplete | src/app/utils/scrapers.ts:4 | a dotted run of labels and a TLD, followed by a non-host character or the end, splits into exactly those labels, that TLD and the rest |
| UrlPattern.PortAndTailSound | src/app/utils/scrapers.ts:4 | an accepted remainder is an optional `:` with 2–5 digits, followed by an empty tail or a `/?#`-led tail with no whitespace or quotes |
| UrlPattern.PortAndTailComplete | src/app/utils/scrapers.ts:4 | every such port and tail is accepted and read back unchanged |
| UrlPattern.Canonical | src/app/utils/scrapers.ts:4 | the optional `www.` group adds no new strings: moving it into the label list keeps the parts well formed and the text unchanged |
| UrlPattern.Parse | src/app/utils/scrapers.ts:4 | no contract of its own; `ParseSound`, `ParseComplete` and `ParseCanonical` relate it to the groups of the expression |
| UrlPattern.IsUrl | src/app/utils/scrapers.ts:4 | no contract of its own; `MatchesIffGrammar` and `UrlHasNoSpace` state which strings match |
| UrlPattern.ParseSound | src/app/utils/scrapers.ts:4 | every string the parser accepts decomposes into the groups of the expression |
| UrlPattern.ParseComplete | src/app/utils/scrapers.ts:4 | every string the groups spell out is accepted, and the parser recovers its parts |
| UrlPattern.ParseCanonical | src/app/utils/scrapers.ts:4 | parts without an explicit `www.` are recovered exactly from their text |
| UrlPattern.MatchesIffGrammar | src/app/utils/scrapers.ts:4 | a string matches `urlPattern` if and only if some well-formed choice of groups spells it out |
| UrlPattern.RenderNoSpace | src/app/utils/scrapers.ts:4 | the text of well-formed groups contains no whitespace |
| UrlPattern.UrlHasNoSpace | src/app/utils/scrapers.ts:4 | a matching string is non-empty and contains no whitespace |
| Scrapers.CollapseSpaces | src/app/utils/scrapers.ts:7 | `replace(/\s+/g, ' ')` is empty only for empty input, and starts with whitespace exactly when its input does |
| Scrapers.CollapseSpacesCollapsed | src/app/utils/scrapers.ts:7 | after the replace, every whitespace character is a plain space and no two are adjacent |
| Scrapers.CleanText | src/app/utils/scrapers.ts:6-8 | no contract of its own; `CleanTextNormalized`, `CleanTextIsJoinedWords`, `CleanTextIdempotent` and `BlankIffAllSpace` state what `cleanText` returns |
| Scrapers.CleanTextNormalized | src/app/utils/scrapers.ts:6-8 | `cleanText` output has single plain spaces between words and none at either end |
| Scrapers.TakeWord | src/app/utils/scrapers.ts:6-8 | the first word is a whitespace-free prefix, ended by whitespace or by the end of the text |
| Scrapers.Words | src/app/utils/scrapers.ts:6-8 | the words of a text are non-empty and contain no whitespace |
| Scrapers.WordsAroundSpace | src/app/utils/scrapers.ts:6-8 | a whitespace character separates the words on its two sides |
| Scrapers.WordsCollapse | src/app/utils/scrapers.ts:7 | collapsing whitespace runs keeps the words |
| Scrapers.WordsTrimStart | src/app/utils/scrapers.ts:7 | trimming the start keeps the words |
| Scrapers.WordsTrimEnd | src/app/utils/scrapers.ts:7 | trimming the end keeps the words |
| Scrapers.NormalizedIsJoinedWords | src/app/utils/scrapers.ts:6-8 | a normalized text is its words joined by single spaces |
| Scrapers.CleanTextIsJoinedWords | src/app/utils/scrapers.ts:6-8 | `cleanText(s)` is the words of `s` joined by single spaces |
| Scrapers.CleanTextIdempotent | src/app/utils/scrapers.ts:6-8 | `cleanText(cleanText(s)) == cleanText(s)` |
| Scrapers.CleanTextAroundSpace | src/app/utils/scrapers.ts:6-8 | cleaning `a + " " + b` joins the cleaned sides with one space, and an empty side adds nothing |
| Scrapers.BlankIffAllSpace | src/app/utils/scrapers.ts:6-8 | `cleanText` returns the empty string exactly for all-whitespace input |
| Scrapers.CollapseAllSpace | src/app/utils/scrapers.ts:7 | the collapsed text is all whitespace exactly when the input is |
| Scrapers.CleanedPieces | src/app/utils/scrapers.ts:26-27 | the kept cleaned fields are all non-empty |
| Scrapers.CleanTextOfJoin | src/app/utils/scrapers.ts:26-27 | cleaning texts joined by spaces equals joining their non-empty cleaned forms with single spaces |
| Scrapers.CleanedPiecesEmpty | src/app/utils/scrapers.ts:26-27 | no cleaned field is kept exactly when every field is whitespace only |
| Scrapers.Fields | src/app/utils/scrapers.ts:17-26 | there are eight fields, title first and the meta description (`''` when absent) second |
| Scrapers.ScrapeUrl | src/app/utils/scrapers.ts:10-51 | the URL is returned unchanged, and there is an error exactly on failure. Failure gives empty texts and "Failed to scrape the URL.". Success gives content that is a prefix of the cleaned join of the eight fields, at most 40,000 long and the whole of it when that fits, with title, headings and meta each cleaned from their own field |
| Scrapers.ScrapedContentFields | src/app/utils/scrapers.ts:26-27 | on success the content is the non-empty cleaned fields, in their fixed order, joined by single spaces and cut at 40,000 |
| Scrapers.ScrapedContentEmpty | src/app/utils/scrapers.ts:26-27 | on success the content is empty exactly when every field is whitespace only |
| GroqClient.FilterOut | src/app/utils/groqClient.ts:26 | the filter never lengthens the history |
| GroqClient.Keep | src/app/utils/groqClient.ts:26 | one entry is kept, unchanged, exactly when its content is not the dropped text |
| GroqClient.FilterOutDrops | src/app/utils/groqClient.ts:26 | no kept entry has the dropped content |
| GroqClient.FilterAppend | src/app/utils/groqClient.ts:26 | the filter commutes with concatenation, so kept entries stay in their relative order |
| GroqClient.FilterSingle | src/app/utils/groqClient.ts:26 | a single entry is kept exactly when its content is not the dropped text |
| GroqClient.DropLast | src/app/utils/groqClient.ts:27 | `slice(0, -1)` is the prefix one shorter, or empty for an empty list |
| GroqClient.ToChatMessage | src/app/utils/groqClient.ts:29-32 | `ai` maps to `assistant` and every other role to `user`; the content is unchanged |
| GroqClient.MessagesFor | src/app/utils/groqClient.ts:18-35 | no contract of its own; `BuildMessages`, `PrimerFirstPromptLast`, `MessageCount`, `NoSentinelForwarded` and `TranslationInOrder` state the list |
| GroqClient.BuildMessages | src/app/utils/groqClient.ts:18-35 | the loop builds exactly the primer, the translated forwarded history in order, then the prompt as a user message |
| GroqClient.GetGroqResponse | src/app/utils/groqClient.ts:17-42 | the list sent uses an empty history when none is given, and the answer is the completion's outcome for that list |
| GroqClient.PrimerFirstPromptLast | src/app/utils/groqClient.ts:18-35 | the first message is the system primer and the last is `{user, message}` |
| GroqClient.MessageCount | src/app/utils/groqClient.ts:25-35 | there are `2 + max(0, filtered - 1)` messages |
| GroqClient.DefaultHistory | src/app/utils/groqClient.ts:17 | with the default empty history there are exactly the primer and the prompt |
| GroqClient.NoSentinelForwarded | src/app/utils/groqClient.ts:25-33 | no message between the primer and the prompt is a system message or has the sentinel content |
| GroqClient.QuestionLastIsDropped | src/app/utils/groqClient.ts:25-27 | when the history ends with the current question, the dropped entry is that question, and every earlier non-sentinel entry is forwarded |
| GroqClient.SentinelQuestionDropsEarlier | src/app/utils/groqClient.ts:25-27 | when the question's content is the filtered text, the question itself is filtered out and the last kept earlier entry is dropped in its place |
| GroqClient.TranslationInOrder | src/app/utils/groqClient.ts:27-33 | each forwarded entry, in order, keeps its content and gets `assistant` exactly when its role is `ai` |
| ChatRoute.DetectUrl | src/app/api/chat/route.ts:16-17 | a URL is found exactly when the whole message matches `urlPattern`, and it is then the whole (non-empty) message |
| ChatRoute.SpacedMessageHasNoUrl | src/app/api/chat/route.ts:16-17 | a message with whitespace anywhere in it yields no URL |
| ChatRoute.FirstPrefix | src/app/api/chat/route.ts:38-39 | no contract of its own; `FirstPrefixIsFirst` states which alternative it picks |
| ChatRoute.ReplacePrefix | src/app/api/chat/route.ts:38-39 | no contract of its own; `ReplacePrefixMeaning` states the result |
| ChatRoute.FirstPrefixIsFirst | src/app/api/chat/route.ts:38-39 | the alternative an anchored, case-insensitive alternation picks starts the string and no earlier alternative does; when none is chosen, none starts it |
| ChatRoute.ReplacePrefixMeaning | src/app/api/chat/route.ts:38-39 | with no alternative starting the string it is unchanged; otherwise the first alternative that starts it, in any case, is replaced by the replacement and the rest is kept |
| ChatRoute.NoPrefixOfEmpty | src/app/api/chat/route.ts:38-39 | non-empty alternatives never match the empty string |
| ChatRoute.FallbackAccepted | src/app/api/chat/route.ts:42-43 | the fallback is non-empty, not punctuation-only, and not padded with whitespace |
| ChatRoute.OrFallback | src/app/api/chat/route.ts:42-44 | the result is never empty or `[.,!?;:\s]`-only; an acceptable input is returned unchanged, and anything else becomes the fallback; an unpadded input gives an unpadded result |
| ChatRoute.UserQuery | src/app/api/chat/route.ts:34-45 | without a URL the query is the trimmed message; with one it is never empty or punctuation-only |
| ChatRoute.UserQueryTrimmed | src/app/api/chat/route.ts:34-45 | the query has no whitespace at either end, with or without a URL |
| ChatRoute.Rewrite | src/app/api/chat/route.ts:37-40 | the rewritten text has no whitespace at either end; `RewriteEmpty` states what it does to the empty string |
| ChatRoute.RewriteEmpty | src/app/api/chat/route.ts:37-40 | the boilerplate and self-reference rewriting leaves the empty string empty |
| ChatRoute.DetectedUrlGivesFallback | src/app/api/chat/route.ts:34-44 | whenever a URL is detected, the query is the fallback |
| ChatRoute.ComposePrompt | src/app/api/chat/route.ts:47-74 | no contract of its own; `PromptParts`, `PromptQuotesQuery`, `PromptCarriesContent`, `PromptCarriesError` and `PromptDeterminesQuery` state what the prompt contains |
| ChatRoute.PromptParts | src/app/api/chat/route.ts:47-74 | the prompt is the quoted query under the branch's label, then the branch's tail. The branch is website when there is content, else error when there is an error, else general |
| ChatRoute.PromptQuotesQuery | src/app/api/chat/route.ts:47-74 | every branch embeds the query verbatim between double quotes right after its label |
| ChatRoute.PromptCarriesContent | src/app/api/chat/route.ts:48-58 | the website prompt carries the scraped content verbatim after its heading |
| ChatRoute.PromptCarriesError | src/app/api/chat/route.ts:59-67 | the error prompt carries the error text verbatim inside its note |
| ChatRoute.QuotedReadBack | src/app/api/chat/route.ts:47-74 | a quoted query between a fixed label and a fixed tail can be read back |
| ChatRoute.PromptDeterminesQuery | src/app/api/chat/route.ts:47-74 | for the same page outcome, equal prompts mean equal queries |
| ChatRoute.Preview | src/app/api/chat/route.ts:80 | the preview is `null` exactly for empty content; otherwise it is exactly the first `min(len, 200)` characters of the content followed by `...` |
| ChatRoute.HandlePost | src/app/api/chat/route.ts:12-90 | an unreadable body gives status 500 with the fixed message, and so does a failed completion of the messages built from the plan's prompt and the history; a reply never carries `scraperUsed` |
| ChatRoute.PageOutcome | src/app/api/chat/route.ts:19-32 | without a URL there is no content and no error; there is an error exactly when a URL's fetch failed, and it is then the fixed failure text with no content; a successful fetch gives the scraped content |
| ChatRoute.MakePlan | src/app/api/chat/route.ts:16-74 | no contract of its own; `NoUrlPlan`, `UrlPlan` and `ScrapeOutcome` state the plan in each case |
| ChatRoute.NoUrlPlan | src/app/api/chat/route.ts:19-74 | without a URL nothing is fetched (the plan ignores the fetch), the query is the trimmed message, and the prompt is the general "User Message" one |
| ChatRoute.ScrapeOutcome | src/app/api/chat/route.ts:19-32 | a failed scrape gives its error, no content and the error branch; a successful one gives its content, no error, and the website branch exactly when the content is non-empty |
| ChatRoute.UrlPlan | src/app/api/chat/route.ts:16-74 | with a URL, the URL is the message, the query is the fallback, and the prompt is composed from the scrape of the message |
| ChatRoute.ReplyContents | src/app/api/chat/route.ts:76-83 | a successful reply carries the model's answer, the preview of the content used and the scrape error |
| ChatPage.OrElse | src/app/page.tsx:407-409 | JavaScript's or-else on an optional string gives the string when it is non-empty, else the alternative |
| ChatPage.GreetingIsForwarded | src/app/page.tsx:23 | the page's greeting is not the sentinel, so a history starting with it forwards it to the model |
| ChatPage.TruncateDocument | src/app/page.tsx:235-241 | a document of at most 80,000 characters is passed through unchanged |
| ChatPage.TruncationKeepsEnds | src/app/page.tsx:237-241 | a longer document becomes its first 48,000 characters, a marker whose number reads back as the omitted middle's length, and its last 16,000; the result is shorter than the document |
| ChatPage.MarkerShorter | src/app/page.tsx:240 | the marker is shorter than any middle it stands for |
| ChatPage.MessageToSend | src/app/page.tsx:232-245 | without a document the raw question is sent unchanged; `DocumentMessageParts` and `QuestionComesLast` state the message with a document |
| ChatPage.DocumentMessageParts | src/app/page.tsx:243 | with a document, the message reads back in order as the fixed opening, the filename, the content heading, the truncated document, the question heading and the question, each at its own offsets |
| ChatPage.QuestionComesLast | src/app/page.tsx:243 | whatever is attached, the question ends the message unchanged |
| ChatPage.Tick | src/app/page.tsx:91-103 | a tick keeps the number of messages; `TickAdvancesByOne` and `TypewriterConverges` state what it shows |
| ChatPage.TickAdvancesByOne | src/app/page.tsx:91-103 | a tick shows one more character of the content as a prefix, and leaves the content and every other message unchanged |
| ChatPage.TypewriterConverges | src/app/page.tsx:87-110 | from any shown prefix, as many ticks as characters remain show the whole content, and then no further tick is scheduled |
| ChatPage.DisplayContent | src/app/page.tsx:405-410 | no contract of its own; `DisplayIsPrefix` states what it shows |
| ChatPage.DisplayIsPrefix | src/app/page.tsx:405-410 | while the shown text is a prefix of the content, `getDisplayContent` never shows more than the content; a finished message with nothing shown shows all of it |
| ChatPage.ToSave | src/app/page.tsx:65-68 | the saved list is no longer than the message list |
| ChatPage.ToSaveAppend | src/app/page.tsx:65-68 | saving works message by message, in order |
| ChatPage.ToSaveSingle | src/app/page.tsx:65-68 | a streaming message is never saved; any other is saved as its role, content, error flag, sources and attachment |
| ChatPage.Restore | src/app/page.tsx:45-49 | restoring keeps the number of messages |
| ChatPage.RestoreThenSave | src/app/page.tsx:45-68 | saving what was restored gives back what was stored |
| ChatPage.RestoredShowContent | src/app/page.tsx:45-49 | a restored message shows its whole content |
| ChatPage.InitialMessages | src/app/page.tsx:39-61 | the stored messages when there are some, which save back to what was stored; otherwise the greeting alone |
| ChatPage.CanSend | src/app/page.tsx:208 | no contract of its own; `ChatSession.Send` states that nothing is sent unless the trimmed input is non-empty and no request is running |
| ChatPage.CheckUpload | src/app/page.tsx:120-143 | an upload passes exactly when it is a PDF or DOCX of at most 10 MB; a wrong type is reported before size |
| ChatPage.Outcome | src/app/page.tsx:259-349 | no contract of its own; `CompletedReply`, `AbortWritesNoError` and `FailuresAreFlagged` state the reply for each way a request ends |
| ChatPage.CompletedReply | src/app/page.tsx:318-331 | a completed stream shows its whole content, is finished and is saved |
| ChatPage.AbortWritesNoError | src/app/page.tsx:334-337 | an abort writes no error: the reply stays as far as it got, still streaming, and is not saved |
| ChatPage.FailuresAreFlagged | src/app/page.tsx:259-349 | an error status or a connection failure replaces the reply with a finished, flagged text starting `[ERROR] ` |
| ChatPage.StreamOnlyGrows | src/app/page.tsx:294-299 | the accumulated content only grows as chunks arrive |
| ChatPage.UploadSummary | src/app/page.tsx:168 | no contract of its own; `UploadSummaryParts` states the notice |
| ChatPage.UploadSummaryParts | src/app/page.tsx:168 | the upload notice starts with the tag, the filename, the type label and the upper-cased type, ends with the ready status, and has a pages part between them exactly when the page count is present and non-zero |
| ChatPage.ChatSession.constructor | src/app/page.tsx:39-61 | the session starts with an empty input, not loading, no document, and the initial messages |
| ChatPage.ChatSession.Send | src/app/page.tsx:207-354 | a blank input or a running request sends nothing and changes nothing. Otherwise the body carries the message to send and the history with the question; the list gains the question and the request's outcome; the input and document are cleared and loading ends |
| ChatPage.ChatSession.Submit | src/app/page.tsx:210-354 | the question and the reply's outcome are appended; the body, the cleared input and the cleared document are as in `Send` |
| ChatPage.ChatSession.Receive | src/app/page.tsx:247-353 | the reply placeholder ends up as the outcome of the request, and nothing else changes |
| ChatPage.ChatSession.ReadStream | src/app/page.tsx:292-316 | the full content is the in-order concatenation of the chunks, and the last message holds it, still streaming |
| ChatPage.ChatSession.TypewriterTick | src/app/page.tsx:91-104 | the message list becomes its tick; the other fields are unchanged |
| ChatPage.ChatSession.NewChat | src/app/page.tsx:356-367 | back to the greeting alone, with an empty input, no loading and no document |
| ChatPage.ChatSession.HandleFileUpload | src/app/page.tsx:119-186 | a rejected file only adds its error notice, and loading is untouched. Otherwise loading ends: an uploaded file is kept and a summary is added, and a failed upload adds an "Upload failed" notice |

## Left out

- Network and platform calls are not modelled. These are `axios.get`, the `cheerio` parse and
  selection, the Groq SDK call, `req.json()`, `NextResponse`, `fetch`, `localStorage`, `JSON`
  and `TextDecoder`. Their results are inputs:
  - the selected page strings (`PageText`);
  - `Fetch`, the `complete` function and `Transport`/`UploadOutcome`;
  - the decoded chunks;
  - the `Stored` contents.
- A body that fails to parse, or one whose `message` is not a string or whose `history` is not
  absent or an array, is the single input `None`. Each of these throws inside the `try` and
  ends in the same 500 reply.
- React scheduling and timers are not modelled (`useEffect`, `setTimeout`, `AbortController`).
  `Send` runs a request to its end with no typewriter ticks in between, and `NewChat` is not
  interleaved with a running request. The typewriter's step and the read loop's step are
  modelled separately, as `TypewriterTick` and `ReadStream`.
- ChatPage.ChatSession.TypewriterTick: the source writes `last.displayedContent` in place on a
  message object that the previous array shares. The model replaces the message by value, so
  that aliasing is not captured.
- ChatPage.ChatSession.ReadStream: the source keeps `displayedContent || ""` of the message
  being replaced. With no ticks interleaved this is always the placeholder's empty text, which is
  what the model writes.
- Characters outside the Basic Multilingual Plane are not modelled: a `char` is one UTF-16 code
  unit, as JavaScript string lengths count them.
- JsText.AsciiUpper: `toUpperCase()` is modelled on ASCII letters only, because full Unicode case
  mapping is not modelled.
- JSON's distinction between `undefined` (omitted) and `null` is not kept. Both are `None`, for
  example for `scraperUsed` in the reply.
- Floating point is not modelled: `Math.floor(80000 * 0.6)` and `Math.floor(80000 * 0.2)` are
  the integers 48000 and 16000.
- Not modelled:
  - the `stream: true` flag and the `X-Sources` header the page sends and reads, since the route
    ignores both (the parsed header is the `sources` input of `Transport`);
  - chat export, message formatting, drag and drop and the rest of the UI;
  - `src/middleware.ts`, a pass-through, and `src/app/layout.tsx`, markup only.
- ChatPage.ChatSession.HandleFileUpload: the file's size and type are inputs. The upload route is
  not part of this model.
