/** The logic of the chat page, src/app/page.tsx, with React, timers, the network and local
    storage taken out: the message list and the input are the fields of a `ChatSession`,
    each handler is a method on it, and what a request or the storage returns is an input. */
module ChatPage {
  import opened Wrappers
  import opened JsText
  import opened GroqClient

  // ---------------------------------------------------------------------------------------
  // Messages

  datatype Role = UserRole | AiRole

  datatype Source = Source(url: string, scraperUsed: Option<string>, error: Option<string>)

  datatype Attachment = Attachment(filename: string, fileType: string)

  /** A message of the list; the optional fields of the page's `Message` type are `Option`s,
      `None` standing for `undefined`. */
  datatype Message = Message(role: Role, content: string, displayedContent: Option<string>,
                             isError: Option<bool>, isStreaming: Option<bool>,
                             sources: Option<seq<Source>>, attachment: Option<Attachment>)

  /** The document waiting to be sent with the next question. */
  datatype UploadedFile = UploadedFile(content: string, filename: string, fileType: string)

  const Greeting: string := "Ready" + " to analyze websites, documents, and answer queries."

  function GreetingMessage(): Message {
    Message(AiRole, Greeting, Some(Greeting), None, None, None, None)
  }

  /** JavaScript's `x || alt` for an optional string: the empty string counts as missing. */
  function OrElse(x: Option<string>, alt: string): (r: string)
    ensures x.Some? && x.value != "" ==> r == x.value
    ensures x.None? || x.value == "" ==> r == alt
  {
    if x.Some? && x.value != "" then x.value else alt
  }

  predicate Truthy(b: Option<bool>) {
    b == Some(true)
  }

  /** What the browser sends as a history entry: the route reads only the role and content. */
  function ToFrontend(m: Message): FrontendMessage {
    FrontendMessage(if m.role == AiRole then "ai" else "user", m.content)
  }

  /** The page's greeting is not the string the completion client filters out, so a history
      that starts with it forwards it to the model. */
  lemma GreetingIsForwarded(question: Message)
    requires question.content != Sentinel
    ensures Forwarded([ToFrontend(GreetingMessage()), ToFrontend(question)])
      == [FrontendMessage("ai", Greeting)]
  {
    assert Greeting[0] == 'R';
    assert Sentinel[0] == 'H';
    QuestionLastIsDropped([ToFrontend(GreetingMessage())], ToFrontend(question));
  }

  // ---------------------------------------------------------------------------------------
  // Document truncation and the message sent (page.tsx lines 232-245)

  const MaxDocLength: nat := 80000
  /** `Math.floor(MAX_DOC_LENGTH * 0.6)` and `Math.floor(MAX_DOC_LENGTH * 0.2)`. */
  const HeadLength: nat := 48000
  const TailLength: nat := 16000

  /** The marker put where the middle of a long document was cut out. */
  function Marker(omitted: nat): string {
    "\n\n[... " + DecimalString(omitted) + " characters truncated ...]\n\n"
  }

  /** A document longer than 80,000 characters keeps its first 48,000 and its last 16,000,
      with a marker giving the number of characters left out between them. */
  function TruncateDocument(doc: string): (r: string)
    ensures |doc| <= MaxDocLength ==> r == doc
  {
    if |doc| > MaxDocLength then
      var first := SliceTo(doc, HeadLength);
      var last := SliceLast(doc, TailLength);
      first + Marker(|doc| - |first| - |last|) + last
    else doc
  }

  /** A long document is cut into head, omitted middle and tail; the result is the head, the
      marker, whose number reads back as the middle's length, and the tail, and it is shorter
      than the document. */
  lemma TruncationKeepsEnds(doc: string)
    requires |doc| > MaxDocLength
    ensures var middle := doc[HeadLength..|doc| - TailLength];
      && doc == doc[..HeadLength] + middle + doc[|doc| - TailLength..]
      && TruncateDocument(doc) == doc[..HeadLength] + Marker(|middle|) + doc[|doc| - TailLength..]
      && DecimalValue(DecimalString(|middle|)) == |middle|
      && |TruncateDocument(doc)| < |doc|
  {
    var n := |doc| - HeadLength - TailLength;
    DecimalRoundTrip(n);
    TruncationShape(doc);
    MarkerShorter(n);
    assert doc == doc[..HeadLength] + doc[HeadLength..|doc| - TailLength] + doc[|doc| - TailLength..];
  }

  lemma TruncationShape(doc: string)
    requires |doc| > MaxDocLength
    ensures TruncateDocument(doc)
      == doc[..HeadLength] + Marker(|doc| - HeadLength - TailLength) + doc[|doc| - TailLength..]
  {
  }

  /** The marker is shorter than any middle it can stand for. */
  lemma MarkerShorter(n: nat)
    requires n > 100
    ensures |Marker(n)| < n
  {
    DecimalLengthBound(n);
    assert |Marker(n)| == 35 + |DecimalString(n)|;
  }

  const DocumentOpening: string := "[Analyzing uploaded document: "
  const DocumentHeading: string := "]\n\nDocument content:\n"
  const QuestionHeading: string := "\n\nUser question: "

  /** `messageToSend`: the question alone, or, with a document attached, the document's name
      and (truncated) content followed by the question. */
  function MessageToSend(current: string, file: Option<UploadedFile>): (r: string)
    ensures file.None? ==> r == current
  {
    match file
    case None => current
    case Some(f) =>
      DocumentOpening + f.filename + DocumentHeading + TruncateDocument(f.content)
      + QuestionHeading + current
  }

  /** With a document attached, the message reads back as the opening, the file name, the
      heading, the (truncated) document, and the question with its heading, in that order. */
  lemma DocumentMessageParts(current: string, f: UploadedFile)
    ensures var r := MessageToSend(current, Some(f));
      var d := TruncateDocument(f.content);
      var a := |DocumentOpening|;
      var b := a + |f.filename| + |DocumentHeading|;
      && |r| == b + |d| + |QuestionHeading| + |current|
      && r[..a] == DocumentOpening
      && r[a..a + |f.filename|] == f.filename
      && r[a + |f.filename|..b] == DocumentHeading
      && r[b..b + |d|] == d
      && r[b + |d|..] == QuestionHeading + current
  {
    var d := TruncateDocument(f.content);
    assert MessageToSend(current, Some(f))
      == DocumentOpening + f.filename + DocumentHeading + d + QuestionHeading + current;
    TemplateParts(DocumentOpening, f.filename, DocumentHeading, d, QuestionHeading, current);
  }

  /** The parts of the document template read back by position. */
  lemma TemplateParts(o: string, n: string, h: string, d: string, qh: string, q: string)
    ensures var r := o + n + h + d + qh + q;
      var a := |o|;
      var b := a + |n| + |h|;
      && |r| == b + |d| + |qh| + |q|
      && r[..a] == o && r[a..a + |n|] == n && r[a + |n|..b] == h
      && r[b..b + |d|] == d && r[b + |d|..] == qh + q
  {
    var r := o + n + h + d + qh + q;
    assert r == (o + n + h) + d + (qh + q);
    assert (o + n + h) == o + n + h;
  }

  /** Whatever is attached, the question comes last, unchanged. */
  lemma QuestionComesLast(current: string, file: Option<UploadedFile>)
    ensures var r := MessageToSend(current, file);
      |current| <= |r| && r[|r| - |current|..] == current
  {
    var r := MessageToSend(current, file);
    if file.Some? {
      var pre := DocumentOpening + file.value.filename + DocumentHeading
                 + TruncateDocument(file.value.content) + QuestionHeading;
      assert r == pre + current;
    }
  }

  // ---------------------------------------------------------------------------------------
  // Typewriter (page.tsx lines 87-110)

  /** `displayedContent || ""`; its length is also `displayedContent?.length || 0`. */
  function Shown(m: Message): string {
    m.displayedContent.GetOr("")
  }

  /** A tick is scheduled while the last message is the model's and shows less than all of it. */
  predicate TickPending(ms: seq<Message>) {
    |ms| > 0 && ms[|ms| - 1].role == AiRole && |Shown(ms[|ms| - 1])| < |ms[|ms| - 1].content|
  }

  /** The tick's new shown length, `Math.min(shown + 1, content.length)`. */
  function NextLength(m: Message): nat {
    if |Shown(m)| + 1 < |m.content| then |Shown(m)| + 1 else |m.content|
  }

  /** The message list after one tick: the last message shows the content up to the new
      length; nothing changes when no tick is pending. */
  function Tick(ms: seq<Message>): (r: seq<Message>)
    ensures |r| == |ms|
  {
    if TickPending(ms) then
      var last := ms[|ms| - 1];
      ms[..|ms| - 1] + [last.(displayedContent := Some(last.content[..NextLength(last)]))]
    else ms
  }

  /** A tick reveals exactly one more character of the content: the shown text stays a
      prefix, every other message is untouched. */
  lemma TickAdvancesByOne(ms: seq<Message>)
    requires TickPending(ms)
    ensures var r := Tick(ms); var n := |ms| - 1;
      && r[..n] == ms[..n]
      && Shown(r[n]) == ms[n].content[..|Shown(ms[n])| + 1]
      && r[n].content == ms[n].content
  {
  }

  /** `n` ticks in a row. */
  function TickTimes(ms: seq<Message>, n: nat): (r: seq<Message>)
    ensures |r| == |ms|
    decreases n
  {
    if n == 0 then ms else TickTimes(Tick(ms), n - 1)
  }

  /** Started from any prefix of its content, the last message shows all of it after as many
      ticks as characters remain, and then no further tick is scheduled. */
  lemma {:induction false} TypewriterConverges(ms: seq<Message>)
    requires |ms| > 0 && ms[|ms| - 1].role == AiRole
    requires Shown(ms[|ms| - 1]) <= ms[|ms| - 1].content
    ensures var r := TickTimes(ms, |ms[|ms| - 1].content| - |Shown(ms[|ms| - 1])|);
      && r[..|ms| - 1] == ms[..|ms| - 1]
      && r[|ms| - 1].content == ms[|ms| - 1].content
      && Shown(r[|ms| - 1]) == ms[|ms| - 1].content
      && !TickPending(r)
    decreases |ms[|ms| - 1].content| - |Shown(ms[|ms| - 1])|
  {
    var last := ms[|ms| - 1];
    if |Shown(last)| < |last.content| {
      TickAdvancesByOne(ms);
      var t := Tick(ms);
      assert Shown(t[|t| - 1]) == last.content[..|Shown(last)| + 1];
      TypewriterConverges(t);
    } else {
      assert Shown(last) == last.content;
    }
  }

  // ---------------------------------------------------------------------------------------
  // Showing, saving and restoring messages

  /** `getDisplayContent` (lines 405-410). */
  function DisplayContent(m: Message): string {
    if Truthy(m.isStreaming) then OrElse(m.displayedContent, "") else OrElse(m.displayedContent, m.content)
  }

  /** While the typewriter keeps the shown text a prefix of the content, the page never shows
      more than the content; a finished message with nothing shown yet shows all of it. */
  lemma DisplayIsPrefix(m: Message)
    requires Shown(m) <= m.content
    ensures DisplayContent(m) <= m.content
    ensures !Truthy(m.isStreaming) && Shown(m) == "" ==> DisplayContent(m) == m.content
  {
  }

  /** What local storage holds for one message: role, content, error flag, sources and
      attachment. */
  datatype SavedMessage = SavedMessage(role: Role, content: string, isError: Option<bool>,
                                       sources: Option<seq<Source>>, attachment: Option<Attachment>)

  function Project(m: Message): SavedMessage {
    SavedMessage(m.role, m.content, m.isError, m.sources, m.attachment)
  }

  /** The persisted list (lines 65-68): streaming messages are dropped, the rest projected. */
  function ToSave(ms: seq<Message>): (r: seq<SavedMessage>)
    ensures |r| <= |ms|
  {
    if ms == [] then []
    else (if Truthy(ms[0].isStreaming) then [] else [Project(ms[0])]) + ToSave(ms[1..])
  }

  /** The restored list (lines 45-49): every saved message shown in full and not streaming. */
  function Restore(saved: seq<SavedMessage>): (r: seq<Message>)
    ensures |r| == |saved|
  {
    seq(|saved|, i requires 0 <= i < |saved| =>
      var s := saved[i];
      Message(s.role, s.content, Some(s.content), s.isError, Some(false), s.sources, s.attachment))
  }

  /** Saving is taken message by message, in order. */
  lemma {:induction false} ToSaveAppend(a: seq<Message>, b: seq<Message>)
    ensures ToSave(a + b) == ToSave(a) + ToSave(b)
  {
    if a == [] {
      assert a + b == b;
    } else {
      var m, rest := a[0], a[1..];
      ToSaveAppend(rest, b);
      AppendAssoc([m], rest, b);
      assert a == [m] + rest;
      ToSaveCons(m, rest + b);
      ToSaveCons(m, rest);
      AppendAssoc(ToSave([m]), ToSave(rest), ToSave(b));
    }
  }

  lemma ToSaveCons(m: Message, rest: seq<Message>)
    ensures ToSave([m] + rest) == ToSave([m]) + ToSave(rest)
  {
    assert ([m] + rest)[1..] == rest;
    assert [m][1..] == [];
  }

  /** A streaming message is never saved; any other is saved as its projection. */
  lemma ToSaveSingle(m: Message)
    ensures ToSave([m]) == if Truthy(m.isStreaming) then [] else [Project(m)]
  {
    assert [m][1..] == [];
  }

  /** Restoring and then saving gives back what was stored. */
  lemma {:induction false} RestoreThenSave(saved: seq<SavedMessage>)
    ensures ToSave(Restore(saved)) == saved
  {
    if saved != [] {
      var r := Restore(saved);
      assert r[1..] == Restore(saved[1..]);
      RestoreThenSave(saved[1..]);
      assert saved == [saved[0]] + saved[1..];
    }
  }

  /** A restored message shows its whole content. */
  lemma RestoredShowContent(saved: seq<SavedMessage>, i: nat)
    requires i < |saved|
    ensures DisplayContent(Restore(saved)[i]) == saved[i].content
  {
  }

  /** What local storage held when the page loaded: nothing, something that is not a JSON
      array, or an array of saved messages. */
  datatype Stored = NothingStored | Unreadable | StoredArray(items: seq<SavedMessage>)

  /** The first list (lines 39-61): the stored messages when there are any, else the greeting. */
  function InitialMessages(stored: Stored): (ms: seq<Message>)
    ensures |ms| >= 1
    ensures stored.StoredArray? && stored.items != [] ==> ToSave(ms) == stored.items
    ensures !(stored.StoredArray? && stored.items != []) ==> ms == [GreetingMessage()]
  {
    if stored.StoredArray? && stored.items != [] then
      RestoreThenSave(stored.items);
      Restore(stored.items)
    else [GreetingMessage()]
  }

  // ---------------------------------------------------------------------------------------
  // Guards and upload checks

  /** Line 208: a question is sent only when it is not blank and no request is running. */
  predicate CanSend(input: string, isLoading: bool) {
    Trim(input) != "" && !isLoading
  }

  const PdfType: string := "application/pdf"
  const DocxType: string := "application/vnd.openxmlformats-officedocument.wordprocessingml.document"
  /** `10 * 1024 * 1024` bytes. */
  const MaxUploadSize: nat := 10485760

  const InvalidTypeText: string := "[ERROR] Invalid file type. Accepted formats: PDF, DOCX"
  const TooLargeText: string := "[ERROR] File exceeds 10MB limit."

  /** Lines 120-143: the type is checked before the size. */
  function CheckUpload(fileType: string, size: nat): (err: Option<string>)
    ensures err.None? <==> (fileType == PdfType || fileType == DocxType) && size <= MaxUploadSize
    ensures err == Some(InvalidTypeText) <==> fileType != PdfType && fileType != DocxType
  {
    if fileType != PdfType && fileType != DocxType then Some(InvalidTypeText)
    else if size > MaxUploadSize then
      assert |TooLargeText| != |InvalidTypeText|;
      Some(TooLargeText)
    else None
  }

  /** An error notice added by the page itself. */
  function Notice(text: string): Message {
    Message(AiRole, text, Some(text), Some(true), None, None, None)
  }

  /** An error written over the message being streamed: flagged, finished, without sources or
      attachment. */
  function FailedReply(text: string): Message {
    Message(AiRole, text, Some(text), Some(true), Some(false), None, None)
  }

  /** The mark every error text written by the page starts with. */
  const ErrorTag: string := "[ERROR] "

  const ConnectionFailedText: string := ErrorTag + "Connection failed. Check network and retry."

  // ---------------------------------------------------------------------------------------
  // What the network returns

  datatype Failure = AbortError | OtherError

  /** The outcome of the chat request: the request rejected; an error status with the `error`
      field of its body, if readable; or a body read chunk by chunk (already decoded), with the
      sources header, possibly interrupted after the chunks listed. */
  datatype Transport =
    | Rejected(failure: Failure)
    | NotOk(status: nat, error: Option<string>)
    | Streamed(sources: Option<seq<Source>>, chunks: seq<string>, interrupted: Option<Failure>)

  /** The outcome of the upload request. */
  datatype UploadOutcome =
    | Uploaded(content: string, filename: string, fileType: string, pageCount: Option<nat>)
    | UploadRejected(error: Option<string>)
    | UploadThrew(message: Option<string>)

  function UserMessage(text: string): Message {
    Message(UserRole, text, Some(text), None, None, None, None)
  }

  function AttachmentOf(file: Option<UploadedFile>): Option<Attachment> {
    match file
    case None => None
    case Some(f) => Some(Attachment(f.filename, f.fileType))
  }

  /** The placeholder appended before the request is made. */
  function Placeholder(att: Option<Attachment>): Message {
    Message(AiRole, "", Some(""), None, Some(true), None, att)
  }

  /** The last message while `chunks` have been read: their concatenation, still streaming. */
  function Streaming(chunks: seq<string>, sources: Option<seq<Source>>, att: Option<Attachment>): Message {
    if chunks == [] then Placeholder(att)
    else Message(AiRole, Concat(chunks), Some(""), None, Some(true), sources, att)
  }

  /** The text of the error written for a failed status. */
  function StatusErrorText(status: nat, error: Option<string>): string {
    ErrorTag + OrElse(error, "Request failed: " + DecimalString(status))
  }

  /** Where the last message ends up once the request is over. */
  function Outcome(t: Transport, att: Option<Attachment>): Message {
    match t
    case Rejected(AbortError) => Placeholder(att)
    case Rejected(OtherError) => FailedReply(ConnectionFailedText)
    case NotOk(status, error) => FailedReply(StatusErrorText(status, error))
    case Streamed(sources, chunks, None) =>
      Message(AiRole, Concat(chunks), Some(Concat(chunks)), None, Some(false), sources, att)
    case Streamed(sources, chunks, Some(AbortError)) => Streaming(chunks, sources, att)
    case Streamed(_, _, Some(OtherError)) => FailedReply(ConnectionFailedText)
  }

  /** A completed stream shows the whole reply, is finished and is saved. */
  lemma CompletedReply(sources: Option<seq<Source>>, chunks: seq<string>, att: Option<Attachment>)
    ensures var m := Outcome(Streamed(sources, chunks, None), att);
      && m.content == Concat(chunks) && DisplayContent(m) == Concat(chunks)
      && !Truthy(m.isStreaming) && ToSave([m]) == [Project(m)]
  {
    ToSaveSingle(Outcome(Streamed(sources, chunks, None), att));
  }

  /** An abort writes no error: the reply stays as far as it got, still marked streaming, and
      is therefore not saved. */
  lemma AbortWritesNoError(t: Transport, att: Option<Attachment>)
    requires t == Rejected(AbortError) || (t.Streamed? && t.interrupted == Some(AbortError))
    ensures var m := Outcome(t, att);
      && m.isError == None && Truthy(m.isStreaming) && ToSave([m]) == []
      && (t.Streamed? ==> m.content == Concat(t.chunks))
  {
    ToSaveSingle(Outcome(t, att));
  }

  /** Every other failure replaces the reply with a flagged error text starting "[ERROR] ". */
  lemma FailuresAreFlagged(t: Transport, att: Option<Attachment>)
    requires t == Rejected(OtherError) || t.NotOk? || (t.Streamed? && t.interrupted == Some(OtherError))
    ensures var m := Outcome(t, att);
      && Truthy(m.isError) && !Truthy(m.isStreaming)
      && |m.content| >= |ErrorTag| && m.content[..|ErrorTag|] == ErrorTag
  {
    var m := Outcome(t, att);
    var rest := if t.NotOk? then OrElse(t.error, "Request failed: " + DecimalString(t.status))
                else "Connection failed. Check network and retry.";
    assert m.content == ErrorTag + rest;
    assert (ErrorTag + rest)[..|ErrorTag|] == ErrorTag;
  }

  /** The content of the stream only grows as chunks arrive. */
  lemma {:induction false} StreamOnlyGrows(chunks: seq<string>, i: nat, j: nat)
    requires i <= j <= |chunks|
    ensures Concat(chunks[..i]) <= Concat(chunks[..j])
    decreases j - i
  {
    if i < j {
      StreamOnlyGrows(chunks, i, j - 1);
      assert chunks[..j][..j - 1] == chunks[..j - 1];
    }
  }

  /** The request body sent to the chat route. */
  datatype RequestBody = RequestBody(message: string, history: seq<Message>)

  const UploadTag: string := "[UPLOAD] "
  const TypeLabel: string := "\nType: "
  const PagesLabel: string := " | Pages: "
  const ReadyStatus: string := "\nStatus: Ready for analysis"

  /** The notice added after a successful upload (page.tsx line 168).  A page count of 0 or
      none is falsy, so the pages part is left out. */
  function UploadSummary(filename: string, fileType: string, pageCount: Option<nat>): string {
    UploadTag + filename + TypeLabel + AsciiUpper(fileType)
    + (if pageCount.Some? && pageCount.value != 0 then PagesLabel + DecimalString(pageCount.value) else "")
    + ReadyStatus
  }

  /** The notice names the file and its upper-cased type first and ends with the ready status;
      something stands between them exactly when the page count is truthy. */
  lemma UploadSummaryParts(filename: string, fileType: string, pageCount: Option<nat>)
    ensures var s := UploadSummary(filename, fileType, pageCount);
      var head := UploadTag + filename + TypeLabel + AsciiUpper(fileType);
      && |s| >= |head| + |ReadyStatus|
      && s[..|head|] == head
      && s[|s| - |ReadyStatus|..] == ReadyStatus
      && (|s| == |head| + |ReadyStatus| <==> pageCount.None? || pageCount.value == 0)
  {
    var head := UploadTag + filename + TypeLabel + AsciiUpper(fileType);
    var pages := if pageCount.Some? && pageCount.value != 0 then PagesLabel + DecimalString(pageCount.value) else "";
    assert UploadSummary(filename, fileType, pageCount) == head + pages + ReadyStatus;
    assert pages == [] <==> pageCount.None? || pageCount.value == 0;
    FrameParts(head, pages, ReadyStatus);
  }

  lemma FrameParts(h: string, p: string, t: string)
    ensures |h + p + t| == |h| + |p| + |t|
    ensures (h + p + t)[..|h|] == h && (h + p + t)[|h + p + t| - |t|..] == t
  {
  }

  function UploadFailedText(message: string): string {
    "[ERROR] Upload failed: " + message
  }

  // ---------------------------------------------------------------------------------------
  // The page state

  lemma PushTwo(ms: seq<Message>, a: Message, b: Message)
    ensures ms + [a] + [b] == ms + [a, b]
  {
  }

  class ChatSession {
    var input: string
    var messages: seq<Message>
    var isLoading: bool
    var uploadedFile: Option<UploadedFile>

    /** The first render after loading: an empty input, and the saved messages or the
        greeting. */
    constructor(stored: Stored)
      ensures input == "" && !isLoading && uploadedFile == None
      ensures messages == InitialMessages(stored)
    {
      input := "";
      messages := InitialMessages(stored);
      isLoading := false;
      uploadedFile := None;
    }

    /** `handleSend` (lines 207-354) for one request, run to its end without interleaved
        ticks.  Returns the body sent, or nothing when the guard stops the send. */
    method Send(t: Transport) returns (request: Option<RequestBody>)
      modifies this
      ensures !CanSend(old(input), old(isLoading)) ==> request == None && unchanged(this)
      ensures CanSend(old(input), old(isLoading)) ==>
        && request == Some(RequestBody(MessageToSend(old(input), old(uploadedFile)),
                                       old(messages) + [UserMessage(old(input))]))
        && messages == old(messages) + [UserMessage(old(input)), Outcome(t, AttachmentOf(old(uploadedFile)))]
        && input == "" && !isLoading && uploadedFile == None
    {
      if !CanSend(input, isLoading) {
        return None;
      }
      var body := Submit(t);
      request := Some(body);
    }

    /** Lines 216-354 once the guard has passed: the question and a placeholder for the reply
        are shown, the input and the document are cleared, and the reply is received. */
    method Submit(t: Transport) returns (body: RequestBody)
      modifies this
      ensures body == RequestBody(MessageToSend(old(input), old(uploadedFile)),
                                  old(messages) + [UserMessage(old(input))])
      ensures messages == old(messages) + [UserMessage(old(input)), Outcome(t, AttachmentOf(old(uploadedFile)))]
      ensures input == "" && !isLoading && uploadedFile == None
    {
      var current := input;
      var updated := messages + [UserMessage(current)];
      messages := updated;
      input := "";
      isLoading := true;
      var att := AttachmentOf(uploadedFile);
      messages := messages + [Placeholder(att)];
      body := RequestBody(MessageToSend(current, uploadedFile), updated);
      uploadedFile := None;

      Receive(updated, t, att);
      isLoading := false;
      PushTwo(old(messages), UserMessage(current), Outcome(t, att));
    }

    /** Lines 247-353 up to the `finally`: the reply placeholder ends up as the outcome of the
        request. */
    method Receive(updated: seq<Message>, t: Transport, att: Option<Attachment>)
      requires messages == updated + [Placeholder(att)]
      modifies this
      ensures messages == updated + [Outcome(t, att)]
      ensures input == old(input) && isLoading == old(isLoading) && uploadedFile == old(uploadedFile)
    {
      match t {
        case Rejected(f) =>
          if f == OtherError {
            messages := updated + [FailedReply(ConnectionFailedText)];
          }
        case NotOk(status, error) =>
          messages := updated + [FailedReply(StatusErrorText(status, error))];
        case Streamed(sources, chunks, interrupted) =>
          var fullContent := ReadStream(updated, sources, chunks, att);
          match interrupted {
            case None =>
              messages := updated + [Message(AiRole, fullContent, Some(fullContent), None, Some(false), sources, att)];
            case Some(f) =>
              if f == OtherError {
                messages := updated + [FailedReply(ConnectionFailedText)];
              }
          }
      }
    }

    /** The read loop (lines 292-316): each chunk is appended to the reply so far, and the last
        message, the model's, is replaced by one holding it, still streaming. */
    method ReadStream(updated: seq<Message>, sources: Option<seq<Source>>, chunks: seq<string>,
                      att: Option<Attachment>)
      returns (fullContent: string)
      requires messages == updated + [Placeholder(att)]
      modifies this
      ensures fullContent == Concat(chunks)
      ensures messages == updated + [Streaming(chunks, sources, att)]
      ensures input == old(input) && isLoading == old(isLoading) && uploadedFile == old(uploadedFile)
    {
      fullContent := "";
      var i := 0;
      while i < |chunks|
        invariant 0 <= i <= |chunks|
        invariant fullContent == Concat(chunks[..i])
        invariant messages == updated + [Streaming(chunks[..i], sources, att)]
        invariant input == old(input) && isLoading == old(isLoading) && uploadedFile == old(uploadedFile)
      {
        fullContent := fullContent + chunks[i];
        assert chunks[..i + 1][..i] == chunks[..i];
        var last := messages[|messages| - 1];
        if last.role == AiRole {
          messages := messages[..|messages| - 1]
            + [Message(AiRole, fullContent, Some(OrElse(last.displayedContent, "")), None, Some(true),
                       sources, last.attachment)];
        }
        i := i + 1;
      }
      assert chunks[..|chunks|] == chunks;
    }

    /** One typewriter tick (lines 91-104). */
    method TypewriterTick()
      modifies this
      ensures messages == Tick(old(messages))
      ensures input == old(input) && isLoading == old(isLoading) && uploadedFile == old(uploadedFile)
    {
      if TickPending(messages) {
        var n := |messages| - 1;
        var last := messages[n];
        var newLength := if |Shown(last)| + 1 < |last.content| then |Shown(last)| + 1 else |last.content|;
        messages := messages[..n] + [last.(displayedContent := Some(last.content[..newLength]))];
      }
    }

    /** `handleNewChat` (lines 356-367): back to the greeting alone. */
    method NewChat()
      modifies this
      ensures messages == [GreetingMessage()] && input == "" && !isLoading && uploadedFile == None
    {
      messages := [GreetingMessage()];
      input := "";
      isLoading := false;
      uploadedFile := None;
    }

    /** `handleFileUpload` (lines 119-186): a file of the wrong type or size only adds an error
        notice; otherwise the upload's outcome adds a summary and keeps the document for the
        next question, or adds an error notice. */
    method HandleFileUpload(fileType: string, size: nat, outcome: UploadOutcome)
      modifies this
      ensures input == old(input)
      ensures CheckUpload(fileType, size).Some? ==>
        && messages == old(messages) + [Notice(CheckUpload(fileType, size).value)]
        && isLoading == old(isLoading) && uploadedFile == old(uploadedFile)
      ensures CheckUpload(fileType, size).None? ==> !isLoading
      ensures CheckUpload(fileType, size).None? && outcome.Uploaded? ==>
        && uploadedFile == Some(UploadedFile(outcome.content, outcome.filename, outcome.fileType))
        && var text := UploadSummary(outcome.filename, outcome.fileType, outcome.pageCount);
           messages == old(messages)
             + [Message(AiRole, text, Some(text), None, None, None,
                        Some(Attachment(outcome.filename, outcome.fileType)))]
      ensures CheckUpload(fileType, size).None? && outcome.UploadRejected? ==>
        && uploadedFile == old(uploadedFile)
        && messages == old(messages) + [Notice(UploadFailedText(OrElse(outcome.error, "Upload failed")))]
      ensures CheckUpload(fileType, size).None? && outcome.UploadThrew? ==>
        && uploadedFile == old(uploadedFile)
        && messages == old(messages) + [Notice(UploadFailedText(outcome.message.GetOr("Unknown error")))]
    {
      var err := CheckUpload(fileType, size);
      if err.Some? {
        messages := messages + [Notice(err.value)];
        return;
      }
      isLoading := true;
      match outcome {
        case Uploaded(content, filename, ft, pageCount) =>
          uploadedFile := Some(UploadedFile(content, filename, ft));
          var text := UploadSummary(filename, ft, pageCount);
          messages := messages + [Message(AiRole, text, Some(text), None, None, None, Some(Attachment(filename, ft)))];
        case UploadRejected(error) =>
          messages := messages + [Notice(UploadFailedText(OrElse(error, "Upload failed")))];
        case UploadThrew(message) =>
          messages := messages + [Notice(UploadFailedText(message.GetOr("Unknown error")))];
      }
      isLoading := false;
    }
  }
}
