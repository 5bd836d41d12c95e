/** The construction of the chat-completion `messages` list in `getGroqResponse`
    (src/app/utils/groqClient.ts).  The completion request itself is a network call to an
    external service; its outcome is the input `complete`. */
module GroqClient {
  import opened Wrappers

  datatype ChatRole = System | User | Assistant

  /** One entry of the list sent to the completion service. */
  datatype ChatMessage = ChatMessage(role: ChatRole, content: string)

  /** One entry of the history sent by the browser.  The role is whatever string the request
      body carries; the page sends "user" or "ai". */
  datatype FrontendMessage = FrontendMessage(role: string, content: string)

  /** The model asked for. */
  const ModelName: string := "llama-3.1-8b-instant"

  /** The fixed instructions placed first in every request. */
  const SystemPrimer: string :=
    "You are an AI assistant specialized in analyzing web content and answering questions. "
    + "When provided with scraped website content, analyze it thoroughly and cite specific "
    + "information. When answering general questions, provide helpful responses using your "
    + "knowledge. Always be clear about whether your response is based on provided website "
    + "content or general knowledge."

  /** History entries with exactly this content are never forwarded. */
  const Sentinel: string := "Hello! How can I help you today?"

  /** `history.filter(msg => msg.content !== drop)`. */
  function FilterOut(history: seq<FrontendMessage>, drop: string): (kept: seq<FrontendMessage>)
    ensures |kept| <= |history|
  {
    if history == [] then [] else Keep(history[0], drop) + FilterOut(history[1..], drop)
  }

  /** What the filter keeps of one entry. */
  function Keep(m: FrontendMessage, drop: string): (kept: seq<FrontendMessage>)
    ensures kept == [] <==> m.content == drop
    ensures kept != [] ==> kept == [m]
  {
    if m.content == drop then [] else [m]
  }

  /** No kept entry has the dropped content. */
  lemma {:induction false} FilterOutDrops(history: seq<FrontendMessage>, drop: string)
    ensures forall i :: 0 <= i < |FilterOut(history, drop)| ==> FilterOut(history, drop)[i].content != drop
  {
    if history != [] {
      FilterOutDrops(history[1..], drop);
    }
  }

  /** The filter applied to the history: entries equal to the sentinel are dropped. */
  function FilterSentinel(history: seq<FrontendMessage>): seq<FrontendMessage> {
    FilterOut(history, Sentinel)
  }

  /** `xs.slice(0, -1)`: everything but the last entry; nothing when there is at most one. */
  function DropLast(xs: seq<FrontendMessage>): (r: seq<FrontendMessage>)
    ensures |r| == if |xs| == 0 then 0 else |xs| - 1
    ensures r == xs[..|r|]
  {
    if xs == [] then [] else xs[..|xs| - 1]
  }

  /** The role map of the `forEach`: "ai" becomes the assistant, any other role the user. */
  function ToChatMessage(m: FrontendMessage): (c: ChatMessage)
    ensures c.content == m.content
    ensures c.role == Assistant <==> m.role == "ai"
    ensures c.role == User <==> m.role != "ai"
  {
    ChatMessage(if m.role == "ai" then Assistant else User, m.content)
  }

  /** The history entries that are forwarded, in their original order. */
  function Forwarded(history: seq<FrontendMessage>): seq<FrontendMessage> {
    DropLast(FilterSentinel(history))
  }

  /** The list the loop below builds: the primer, the forwarded history translated entry by
      entry, then the prompt as a user message. */
  function MessagesFor(message: string, history: seq<FrontendMessage>): seq<ChatMessage> {
    var fwd := Forwarded(history);
    [ChatMessage(System, SystemPrimer)]
    + seq(|fwd|, i requires 0 <= i < |fwd| => ToChatMessage(fwd[i]))
    + [ChatMessage(User, message)]
  }

  /** Lines 18-35 of `getGroqResponse`: start from the primer, push each forwarded history
      entry, push the prompt. */
  method BuildMessages(message: string, history: seq<FrontendMessage>)
    returns (messages: seq<ChatMessage>)
    ensures messages == MessagesFor(message, history)
  {
    messages := [ChatMessage(System, SystemPrimer)];
    var fwd := DropLast(FilterSentinel(history));
    var i := 0;
    while i < |fwd|
      invariant 0 <= i <= |fwd|
      invariant |messages| == i + 1 && messages[0] == ChatMessage(System, SystemPrimer)
      invariant forall j :: 0 <= j < i ==> messages[j + 1] == ToChatMessage(fwd[j])
    {
      messages := messages + [ToChatMessage(fwd[i])];
      i := i + 1;
    }
    messages := messages + [ChatMessage(User, message)];
  }

  /** The outcome of the completion call: it failed (the promise rejected), or it answered
      with the first choice's content, which the service may leave null. */
  datatype Completion = CompletionFailed | Completed(content: Option<string>)

  /** `getGroqResponse(message, history)`: the default history is empty; the answer is the
      completion's content for the list built above. */
  method GetGroqResponse(message: string, history: Option<seq<FrontendMessage>>,
                         complete: seq<ChatMessage> -> Completion)
    returns (sent: seq<ChatMessage>, answer: Completion)
    ensures sent == MessagesFor(message, history.GetOr([]))
    ensures answer == complete(sent)
  {
    sent := BuildMessages(message, history.GetOr([]));
    answer := complete(sent);
  }

  // ---------------------------------------------------------------------------------------
  // Properties of the list

  /** The primer comes first and the prompt last, as a user message. */
  lemma PrimerFirstPromptLast(message: string, history: seq<FrontendMessage>)
    ensures |MessagesFor(message, history)| >= 2
    ensures MessagesFor(message, history)[0] == ChatMessage(System, SystemPrimer)
    ensures MessagesFor(message, history)[|MessagesFor(message, history)| - 1]
      == ChatMessage(User, message)
  {
  }

  /** Exactly one entry of the filtered history, its last, is left out. */
  lemma MessageCount(message: string, history: seq<FrontendMessage>)
    ensures var n := |FilterSentinel(history)|;
      |MessagesFor(message, history)| == 2 + (if n == 0 then 0 else n - 1)
  {
  }

  /** Without a history the request holds just the primer and the prompt. */
  lemma DefaultHistory(message: string)
    ensures MessagesFor(message, []) == [ChatMessage(System, SystemPrimer), ChatMessage(User, message)]
  {
  }

  /** Between the primer and the prompt there is no system message and nothing equal to the
      sentinel. */
  lemma NoSentinelForwarded(message: string, history: seq<FrontendMessage>)
    ensures var ms := MessagesFor(message, history);
      forall i :: 1 <= i < |ms| - 1 ==> ms[i].role != System && ms[i].content != Sentinel
  {
    var fwd := Forwarded(history);
    FilterOutDrops(history, Sentinel);
    assert forall j :: 0 <= j < |fwd| ==> fwd[j] == FilterSentinel(history)[j];
  }

  /** Filtering is taken piece by piece: it commutes with concatenation and keeps a single
      entry exactly when its content is not the dropped text.  Together these determine it
      and show that the kept entries stay in their relative order. */
  lemma {:induction false} FilterAppend(a: seq<FrontendMessage>, b: seq<FrontendMessage>, drop: string)
    ensures FilterOut(a + b, drop) == FilterOut(a, drop) + FilterOut(b, drop)
  {
    if |a| == 0 {
      assert a + b == b;
    } else {
      var m, rest := a[0], a[1..];
      FilterAppend(rest, b, drop);
      AppendAssoc([m], rest, b);
      assert a == [m] + rest;
      FilterOutCons(m, rest + b, drop);
      FilterOutCons(m, rest, drop);
      AppendAssoc(Keep(m, drop), FilterOut(rest, drop), FilterOut(b, drop));
    }
  }

  lemma AppendAssoc<T>(x: seq<T>, y: seq<T>, z: seq<T>)
    ensures x + (y + z) == (x + y) + z
  {
  }

  lemma FilterOutCons(m: FrontendMessage, rest: seq<FrontendMessage>, drop: string)
    ensures FilterOut([m] + rest, drop) == Keep(m, drop) + FilterOut(rest, drop)
  {
    assert ([m] + rest)[1..] == rest;
  }

  lemma FilterSingle(m: FrontendMessage, drop: string)
    ensures FilterOut([m], drop) == if m.content == drop then [] else [m]
  {
  }

  /** The page sends its history with the current question as the last entry; the dropped
      entry is that question, so every earlier non-sentinel entry is forwarded. */
  lemma QuestionLastIsDropped(earlier: seq<FrontendMessage>, question: FrontendMessage)
    requires question.content != Sentinel
    ensures Forwarded(earlier + [question]) == FilterSentinel(earlier)
  {
    FilterAppend(earlier, [question], Sentinel);
    FilterSingle(question, Sentinel);
  }

  /** A question that is itself the sentinel is filtered out before the last entry is dropped,
      so the entry dropped is the last earlier non-sentinel one instead. */
  lemma SentinelQuestionDropsEarlier(earlier: seq<FrontendMessage>, question: FrontendMessage)
    requires question.content == Sentinel
    ensures Forwarded(earlier + [question]) == DropLast(FilterSentinel(earlier))
  {
    FilterAppend(earlier, [question], Sentinel);
    FilterSingle(question, Sentinel);
    assert FilterSentinel(earlier + [question]) == FilterSentinel(earlier) + [];
  }

  /** Every forwarded entry keeps its content and has the role the map gives it, in order. */
  lemma TranslationInOrder(message: string, history: seq<FrontendMessage>)
    ensures var ms := MessagesFor(message, history);
      var fwd := Forwarded(history);
      |ms| == |fwd| + 2 &&
      forall j :: 0 <= j < |fwd| ==>
        ms[j + 1].content == fwd[j].content && (ms[j + 1].role == Assistant <==> fwd[j].role == "ai")
  {
  }
}
