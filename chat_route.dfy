/** The `POST` handler of src/app/api/chat/route.ts with its I/O taken out: the parsed request
    body, the outcome of fetching the page and the outcome of the completion call are inputs,
    and the handler's decisions (URL pick, query normalisation, prompt branch, response shape)
    are functions of them. */
module ChatRoute {
  import opened Wrappers
  import opened JsText
  import opened UrlPattern
  import opened Scrapers
  import opened GroqClient

  /** The JSON body: `message` and the optional `history`.  A body that does not parse, or
      whose `message` is not a string, is `None` at the handler's input. */
  datatype ChatRequest = ChatRequest(message: string, history: Option<seq<FrontendMessage>>)

  // ---------------------------------------------------------------------------------------
  // URL pick

  /** `message.match(urlPattern)?.[0]`: the pattern is anchored at both ends and has no `g`
      flag, so the match, when there is one, is the whole message. */
  function DetectUrl(message: string): (url: Option<string>)
    ensures url.Some? <==> IsUrl(message)
    ensures url.Some? ==> url.value == message && url.value != ""
  {
    if IsUrl(message) then
      UrlHasNoSpace(message);
      Some(message)
    else None
  }

  /** A message with whitespace anywhere in it, such as a sentence around a link, holds no URL. */
  lemma SpacedMessageHasNoUrl(message: string, k: nat)
    requires k < |message| && IsSpace(message[k])
    ensures DetectUrl(message) == None
  {
    if IsUrl(message) {
      UrlHasNoSpace(message);
    }
  }

  // ---------------------------------------------------------------------------------------
  // Query normalisation

  /** The alternatives of the boilerplate regular expression, in the order they are tried. */
  const Boilerplate: seq<string> := [
    "give me a summary of this site:", "summarize this site:", "tell me about this site:",
    "what is this site about:", "analyze this website:", "review this website:"]

  /** The alternatives of the expression rewritten to "it", in the order they are tried. */
  const SelfReferences: seq<string> := ["this site", "this website", "this page", "this url"]

  /** Used when nothing but punctuation is left of the question. */
  const Fallback: string := "Please" + " provide a comprehensive summary and analysis of this " + "website"

  /** The alternative an anchored, case-insensitive `^(p0|p1|...)` matches: the index of the
      first one, in list order, that starts the string. */
  function FirstPrefix(s: string, ps: seq<string>): Option<nat> {
    if ps == [] then None
    else if StartsWithIgnoringCase(s, ps[0]) then Some(0)
    else
      match FirstPrefix(s, ps[1..])
      case None => None
      case Some(i) => Some(i + 1)
  }

  /** The alternative found starts the string and none before it does; when none is found,
      no alternative starts the string. */
  lemma {:induction false} FirstPrefixIsFirst(s: string, ps: seq<string>)
    ensures var r := FirstPrefix(s, ps);
      && (r.Some? ==> r.value < |ps| && StartsWithIgnoringCase(s, ps[r.value]))
      && (r.Some? ==> forall j :: 0 <= j < r.value ==> !StartsWithIgnoringCase(s, ps[j]))
      && (r.None? ==> forall j :: 0 <= j < |ps| ==> !StartsWithIgnoringCase(s, ps[j]))
  {
    if ps != [] && !StartsWithIgnoringCase(s, ps[0]) {
      FirstPrefixIsFirst(s, ps[1..]);
      assert forall j :: 1 <= j < |ps| ==> ps[j] == ps[1..][j - 1];
    }
  }

  /** Only an empty alternative can start the empty string. */
  lemma {:induction false} NoPrefixOfEmpty(ps: seq<string>)
    requires forall j :: 0 <= j < |ps| ==> ps[j] != ""
    ensures FirstPrefix("", ps) == None
  {
    if ps != [] {
      assert !StartsWithIgnoringCase("", ps[0]);
      NoPrefixOfEmpty(ps[1..]);
    }
  }

  /** `s.replace(/^(p0|p1|...)/i, replacement)`: the matched alternative, if any, is
      replaced. */
  function ReplacePrefix(s: string, ps: seq<string>, replacement: string): string {
    match FirstPrefix(s, ps)
    case None => s
    case Some(i) => if i < |ps| && |ps[i]| <= |s| then replacement + s[|ps[i]|..] else s
  }

  /** Without a matching alternative nothing changes; otherwise the first alternative that
      starts the string, and only it, is replaced. */
  lemma ReplacePrefixMeaning(s: string, ps: seq<string>, replacement: string)
    ensures FirstPrefix(s, ps).None? ==> ReplacePrefix(s, ps, replacement) == s
    ensures FirstPrefix(s, ps).Some? ==>
      var i := FirstPrefix(s, ps).value;
      && i < |ps| && StartsWithIgnoringCase(s, ps[i])
      && (forall j :: 0 <= j < i ==> !StartsWithIgnoringCase(s, ps[j]))
      && ReplacePrefix(s, ps, replacement) == replacement + s[|ps[i]|..]
  {
    FirstPrefixIsFirst(s, ps);
  }

  /** `/^[.,!?;:\s]*$/`: nothing but these punctuation marks and whitespace. */
  predicate PunctuationOnly(s: string) {
    forall k :: 0 <= k < |s| ==> s[k] in ".,!?;:" || IsSpace(s[k])
  }

  /** The fallback is itself an acceptable query. */
  lemma FallbackAccepted()
    ensures Fallback != "" && !PunctuationOnly(Fallback)
    ensures !IsSpace(Fallback[0]) && !IsSpace(Fallback[|Fallback| - 1])
  {
    assert Fallback[0] == "Please"[0] == 'P';
    assert Fallback[|Fallback| - 1] == "website"[6] == 'e';
  }

  /** The rewriting applied to what is left after the URL is removed: one request among
      `requests` dropped, then one leading self-reference among `selfRefs` turned into "it",
      then trimmed.  The route uses `Boilerplate` and `SelfReferences`. */
  function Rewrite(rest: string, requests: seq<string>, selfRefs: seq<string>): (r: string)
    ensures Trimmed(r)
  {
    Trim(ReplacePrefix(ReplacePrefix(Trim(rest), requests, ""), selfRefs, "it"))
  }

  /** The last step: an empty or punctuation-only query is replaced by the fallback. */
  function OrFallback(q: string): (r: string)
    ensures r != "" && !PunctuationOnly(r)
    ensures r == q || r == Fallback
    ensures q != "" && !PunctuationOnly(q) ==> r == q
    ensures Trimmed(q) ==> Trimmed(r)
  {
    FallbackAccepted();
    if q == "" || PunctuationOnly(q) then Fallback else q
  }

  /** `userQuery` (route.ts lines 34-45).  Without a URL it is the trimmed message; with one,
      the URL is removed, one boilerplate request and then one self-reference are rewritten at
      the front, and a result that is empty or only punctuation becomes the fallback. */
  function UserQuery(message: string, url: Option<string>): (q: string)
    ensures url.None? ==> q == Trim(message)
    ensures url.Some? ==> q != "" && !PunctuationOnly(q)
  {
    match url
    case None => Trim(message)
    case Some(u) => OrFallback(Rewrite(RemoveFirst(message, u), Boilerplate, SelfReferences))
  }

  /** The query never starts or ends with whitespace, with or without a URL. */
  lemma UserQueryTrimmed(message: string, url: Option<string>)
    ensures Trimmed(UserQuery(message, url))
  {
    match url
    case None =>
    case Some(u) =>
      var rest := RemoveFirst(message, u);
      assert UserQuery(message, url) == OrFallback(Rewrite(rest, Boilerplate, SelfReferences));
      RewrittenQueryTrimmed(rest, Boilerplate, SelfReferences);
  }

  /** Rewriting and the fallback leave no space at either end, whatever the prefix lists. */
  lemma RewrittenQueryTrimmed(rest: string, requests: seq<string>, selfRefs: seq<string>)
    ensures Trimmed(OrFallback(Rewrite(rest, requests, selfRefs)))
  {
  }

  /** Nothing but the empty string is left when the URL is the whole message, and the
      rewriting leaves it empty. */
  lemma RewriteEmpty()
    ensures Rewrite("", Boilerplate, SelfReferences) == ""
  {
    assert Trim("") == "";
    BoilerplateNonEmpty();
    NoPrefixOfEmpty(Boilerplate);
    NoPrefixOfEmpty(SelfReferences);
  }

  lemma BoilerplateNonEmpty()
    ensures forall j :: 0 <= j < |Boilerplate| ==> Boilerplate[j] != ""
    ensures forall j :: 0 <= j < |SelfReferences| ==> SelfReferences[j] != ""
  {
  }

  /** With a detected URL the message is the URL, removing it leaves nothing, and the query is
      always the fallback. */
  lemma DetectedUrlGivesFallback(message: string)
    requires DetectUrl(message).Some?
    ensures UserQuery(message, DetectUrl(message)) == Fallback
  {
    RemoveWhole(message);
    RewriteEmpty();
  }

  // ---------------------------------------------------------------------------------------
  // Prompt

  datatype PromptBranch = WebsiteBranch | ErrorBranch | GeneralBranch

  /** JavaScript truthiness of the two route variables. */
  predicate HasError(scrapeError: Option<string>) {
    scrapeError.Some? && scrapeError.value != ""
  }

  /** The branch taken: scraped content first, then a scrape error, then the general prompt. */
  function Branch(scrapedContent: string, scrapeError: Option<string>): PromptBranch {
    if scrapedContent != "" then WebsiteBranch
    else if HasError(scrapeError) then ErrorBranch
    else GeneralBranch
  }

  const QuestionLabel: string := "User Question: "
  const MessageLabel: string := "User Message: "

  /** The opening of every prompt: a label and the query in double quotes. */
  function Quoted(lbl: string, q: string): string {
    lbl + "\"" + q + "\""
  }

  const WebsiteHeading: string := "\n\nWEBSITE CONTENT:\n"

  const WebsiteInstructions: string :=
    "\n\nInstructions:\n"
    + "- Analyze the website content thoroughly and provide a comprehensive answer\n"
    + "- Cite specific information from the content\n"
    + "- Clearly indicate that your response is based on the scraped website data\n"
    + "- If the content doesn't fully answer the question, state this limitation"

  const ErrorOpening: string := "\n\nNote: Unable to access webpage content (Error: "

  const ErrorInstructions: string :=
    ")\n\nInstructions:\n"
    + "- Provide a helpful answer using general knowledge\n"
    + "- Mention that you couldn't access the specific webpage\n"
    + "- Offer alternative suggestions if appropriate"

  const GeneralInstructions: string :=
    "\n\nInstructions:\n"
    + "- Provide a helpful, conversational response\n"
    + "- Use your general knowledge to answer the question"

  /** The label the prompt starts with: "User Question" when a page was involved. */
  function Label(b: PromptBranch): string {
    if b == GeneralBranch then MessageLabel else QuestionLabel
  }

  /** What follows the quoted query in the branch taken. */
  function Tail(scrapedContent: string, scrapeError: Option<string>): string {
    match Branch(scrapedContent, scrapeError)
    case WebsiteBranch => WebsiteHeading + scrapedContent + WebsiteInstructions
    case ErrorBranch => ErrorOpening + scrapeError.value + ErrorInstructions
    case GeneralBranch => GeneralInstructions
  }

  /** The prompt of route.ts lines 47-74: the template of the branch taken, with the query in
      quotes after the label, then the page content, the error text, or nothing. */
  function ComposePrompt(q: string, scrapedContent: string, scrapeError: Option<string>): string {
    if scrapedContent != "" then
      Quoted(QuestionLabel, q) + (WebsiteHeading + scrapedContent + WebsiteInstructions)
    else if HasError(scrapeError) then
      Quoted(QuestionLabel, q) + (ErrorOpening + scrapeError.value + ErrorInstructions)
    else Quoted(MessageLabel, q) + GeneralInstructions
  }

  /** Every template is the label of its branch, the quoted query, and the branch's tail. */
  lemma PromptParts(q: string, scrapedContent: string, scrapeError: Option<string>)
    ensures ComposePrompt(q, scrapedContent, scrapeError)
      == Quoted(Label(Branch(scrapedContent, scrapeError)), q) + Tail(scrapedContent, scrapeError)
  {
  }

  lemma Regroup(a: string, b: string, m: string, y: string)
    ensures a + (b + m + y) == (a + b) + m + y
  {
  }

  lemma SliceMiddle(x: string, m: string, y: string)
    ensures (x + m + y)[|x|..|x| + |m|] == m
  {
    assert forall k :: 0 <= k < |m| ==> (x + m + y)[|x| + k] == m[k];
  }

  /** Every prompt opens with its label followed by the query in double quotes, so the query
      is embedded verbatim. */
  lemma PromptQuotesQuery(q: string, scrapedContent: string, scrapeError: Option<string>)
    ensures var p := ComposePrompt(q, scrapedContent, scrapeError);
      var l := Label(Branch(scrapedContent, scrapeError));
      |l| + |q| + 2 <= |p| && p[..|l| + 1] == l + "\"" && p[|l| + 1..|l| + 1 + |q|] == q
      && p[|l| + 1 + |q|] == '"'
  {
    PromptParts(q, scrapedContent, scrapeError);
    QuotedPrefix(Label(Branch(scrapedContent, scrapeError)), q, Tail(scrapedContent, scrapeError));
  }

  lemma QuotedPrefix(l: string, q: string, t: string)
    ensures var p := Quoted(l, q) + t;
      |l| + |q| + 2 <= |p| && p[..|l| + 1] == l + "\"" && p[|l| + 1..|l| + 1 + |q|] == q
      && p[|l| + 1 + |q|] == '"'
  {
    var p := Quoted(l, q) + t;
    assert p == (l + "\"") + q + ("\"" + t);
    SliceMiddle(l + "\"", q, "\"" + t);
  }

  /** The website prompt carries the scraped content right after its heading. */
  lemma PromptCarriesContent(q: string, scrapedContent: string, scrapeError: Option<string>)
    requires scrapedContent != ""
    ensures var p := ComposePrompt(q, scrapedContent, scrapeError);
      var at := |Quoted(QuestionLabel, q) + WebsiteHeading|;
      at + |scrapedContent| <= |p| && p[at..at + |scrapedContent|] == scrapedContent
  {
    var x := Quoted(QuestionLabel, q) + WebsiteHeading;
    Regroup(Quoted(QuestionLabel, q), WebsiteHeading, scrapedContent, WebsiteInstructions);
    SliceMiddle(x, scrapedContent, WebsiteInstructions);
  }

  /** The error prompt carries the error text inside its note. */
  lemma PromptCarriesError(q: string, scrapeError: Option<string>)
    requires HasError(scrapeError)
    ensures var p := ComposePrompt(q, "", scrapeError);
      var at := |Quoted(QuestionLabel, q) + ErrorOpening|;
      at + |scrapeError.value| <= |p| && p[at..at + |scrapeError.value|] == scrapeError.value
  {
    var x := Quoted(QuestionLabel, q) + ErrorOpening;
    Regroup(Quoted(QuestionLabel, q), ErrorOpening, scrapeError.value, ErrorInstructions);
    SliceMiddle(x, scrapeError.value, ErrorInstructions);
  }

  /** A quoted text between a fixed label and a fixed tail can be read back. */
  lemma QuotedReadBack(l: string, q1: string, q2: string, t: string)
    requires Quoted(l, q1) + t == Quoted(l, q2) + t
    ensures q1 == q2
  {
    var p := Quoted(l, q1) + t;
    assert |q1| == |q2|;
    assert p == (l + "\"") + q1 + ("\"" + t);
    assert p == (l + "\"") + q2 + ("\"" + t);
    SliceMiddle(l + "\"", q1, "\"" + t);
    SliceMiddle(l + "\"", q2, "\"" + t);
  }

  /** For the same page outcome, different queries give different prompts: the query can be
      read back from the prompt. */
  lemma PromptDeterminesQuery(q1: string, q2: string, scrapedContent: string, scrapeError: Option<string>)
    requires ComposePrompt(q1, scrapedContent, scrapeError) == ComposePrompt(q2, scrapedContent, scrapeError)
    ensures q1 == q2
  {
    PromptParts(q1, scrapedContent, scrapeError);
    PromptParts(q2, scrapedContent, scrapeError);
    QuotedReadBack(Label(Branch(scrapedContent, scrapeError)), q1, q2, Tail(scrapedContent, scrapeError));
  }

  // ---------------------------------------------------------------------------------------
  // The handler

  /** The length of the content preview in the response. */
  const PreviewLength: nat := 200

  /** `scrapedContent ? scrapedContent.substring(0, 200) + "..." : null`. */
  function Preview(scrapedContent: string): (r: Option<string>)
    ensures r.None? <==> scrapedContent == ""
    ensures r.Some? ==> |r.value| <= PreviewLength + 3
    ensures r.Some? ==>
      var n := if |scrapedContent| < PreviewLength then |scrapedContent| else PreviewLength;
      |r.value| == n + 3 && r.value[..n] == scrapedContent[..n] && r.value[n..] == "..."
  {
    if scrapedContent == "" then None
    else
      var head := SliceTo(scrapedContent, PreviewLength);
      Some(head + "...")
  }

  /** What the handler decides before calling the model. */
  datatype Plan = Plan(url: Option<string>, scrapedContent: string, scrapeError: Option<string>,
                       userQuery: string, prompt: string)

  /** Lines 19-32: the content and the error a request leaves after the optional fetch.  The
      page is fetched, through `scrapeURL`, only when a URL was found; an error record supplies
      the error and no content. */
  function PageOutcome(url: Option<string>, fetch: Fetch): (page: (string, Option<string>))
    ensures url.None? ==> page == ("", None)
    ensures page.1.Some? <==> url.Some? && fetch.FetchFailed?
    ensures page.1.Some? ==> page == ("", Some(ScrapeFailureMessage))
    ensures url.Some? && fetch.Fetched? ==> page.0 == ScrapeUrl(url.value, fetch).content
  {
    match url
    case None => ("", None)
    case Some(u) =>
      assert ScrapeFailureMessage[0] == 'F';
      var r := ScrapeUrl(u, fetch);
      if HasError(r.scrapeError) then ("", r.scrapeError) else (r.content, None)
  }

  /** Lines 16-74 for one request: URL detection, the page outcome, the query and the prompt. */
  function MakePlan(message: string, fetch: Fetch): Plan {
    var url := DetectUrl(message);
    var page := PageOutcome(url, fetch);
    var q := UserQuery(message, url);
    Plan(url, page.0, page.1, q, ComposePrompt(q, page.0, page.1))
  }

  /** The JSON body of a successful reply.  `scraperUsed` is read from a field `scrapeURL`
      never sets, so it is always absent. */
  datatype Reply = Reply(message: Option<string>, scrapedContent: Option<string>,
                         scrapeError: Option<string>, scraperUsed: Option<string>)

  datatype Response = Ok(body: Reply) | ServerError(status: nat, message: string)

  const ServerErrorMessage: string := "An error occurred processing your request"

  /** `POST(req)`: a body that cannot be read or a failed completion call is caught and turned
      into a 500 reply with a fixed message. */
  function HandlePost(req: Option<ChatRequest>, fetch: Fetch, complete: seq<ChatMessage> -> Completion)
    : (resp: Response)
    ensures req.None? ==> resp == ServerError(500, ServerErrorMessage)
    ensures resp.ServerError? ==> resp == ServerError(500, ServerErrorMessage)
    ensures resp.Ok? ==> resp.body.scraperUsed.None?
    ensures req.Some? &&
      complete(MessagesFor(MakePlan(req.value.message, fetch).prompt, req.value.history.GetOr([]))).CompletionFailed?
      ==> resp == ServerError(500, ServerErrorMessage)
  {
    match req
    case None => ServerError(500, ServerErrorMessage)
    case Some(r) =>
      var plan := MakePlan(r.message, fetch);
      match complete(MessagesFor(plan.prompt, r.history.GetOr([])))
      case CompletionFailed => ServerError(500, ServerErrorMessage)
      case Completed(answer) =>
        Ok(Reply(answer, Preview(plan.scrapedContent), plan.scrapeError, None))
  }

  // ---------------------------------------------------------------------------------------
  // Properties of the handler

  /** Without a URL nothing is fetched: the query is the trimmed message, the prompt is the
      general one, and the plan does not depend on what a fetch would return. */
  lemma NoUrlPlan(message: string, fetch1: Fetch, fetch2: Fetch)
    requires !IsUrl(message)
    ensures MakePlan(message, fetch1) == MakePlan(message, fetch2)
    ensures var plan := MakePlan(message, fetch1);
      && plan.url == None && plan.scrapedContent == "" && plan.scrapeError == None
      && plan.userQuery == Trim(message)
      && Branch(plan.scrapedContent, plan.scrapeError) == GeneralBranch
      && plan.prompt == Quoted(MessageLabel, Trim(message)) + GeneralInstructions
  {
  }

  /** A failed scrape supplies its error and no content, and the error prompt is chosen; a
      successful one its content and no error, and the website prompt is chosen exactly when
      that content is not empty. */
  lemma ScrapeOutcome(u: string, fetch: Fetch)
    ensures var page := PageOutcome(Some(u), fetch);
      && (fetch.FetchFailed? ==>
            page == ("", Some(ScrapeFailureMessage)) && Branch(page.0, page.1) == ErrorBranch)
      && (fetch.Fetched? ==>
            && page == (ScrapeUrl(u, fetch).content, None)
            && Branch(page.0, page.1) == (if page.0 == "" then GeneralBranch else WebsiteBranch))
  {
    assert ScrapeFailureMessage[0] == 'F';
  }

  /** With a URL the URL is the message, the query is the fallback, and the page outcome is
      that of fetching the message. */
  lemma UrlPlan(message: string, fetch: Fetch)
    requires IsUrl(message)
    ensures var plan := MakePlan(message, fetch);
      && plan.url == Some(message)
      && plan.userQuery == Fallback
      && (plan.scrapedContent, plan.scrapeError) == PageOutcome(Some(message), fetch)
      && plan.prompt == ComposePrompt(Fallback, plan.scrapedContent, plan.scrapeError)
  {
    DetectedUrlGivesFallback(message);
  }

  /** A successful reply carries the model's answer for the composed prompt, a preview of the
      content sent and the scrape error, if any. */
  lemma ReplyContents(r: ChatRequest, fetch: Fetch, complete: seq<ChatMessage> -> Completion)
    requires complete(MessagesFor(MakePlan(r.message, fetch).prompt, r.history.GetOr([]))).Completed?
    ensures var plan := MakePlan(r.message, fetch);
      HandlePost(Some(r), fetch, complete)
        == Ok(Reply(complete(MessagesFor(plan.prompt, r.history.GetOr([]))).content,
                    Preview(plan.scrapedContent), plan.scrapeError, None))
  {
  }
}
