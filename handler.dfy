/** The `app.message` handler (app.js:35-108) for one inbound message, with the
    two reply helpers it calls (app.js:110-146).

    The network is outside the model: the replies conversations.replies would
    return and the choices openai.complete would return are parameters, and the
    handler's outcome records the requests it makes, in the order it makes them:
    the history fetch, then the completion, then the post. */
module Handler {
  import opened Wrappers
  import opened Templates
  import opened JsText
  import opened Prompt
  import opened Routing
  import opened Completion
  import SimpleHash

  /** The fields of the message event the handler reads; `user` is absent on
      some messages (for instance those posted by bots), `text` on others. */
  datatype Message = Message(
    channel: string,
    ts: string,
    threadTs: Option<string>,
    user: Option<seq<SimpleHash.CodeUnit>>,
    text: Option<string>)

  /** conversations.replies({channel, ts}). */
  datatype FetchRequest = FetchRequest(channel: string, ts: string)

  /** chat.postMessage({channel, thread_ts, ts?, text}): replyToReply passes the
      message's own `ts`, replyToParent does not. */
  datatype PostRequest = PostRequest(channel: string, threadTs: string, replyTs: Option<string>, text: string)

  /** Why a handler invocation stops early. `UserNotIterable`: `Array.from` of an
      absent user id throws before anything is sent. `NoCandidates`: the
      completion returned no choices, so `choices[0].text` throws and nothing
      is posted. */
  datatype Failure = UserNotIterable | NoCandidates

  /** What one invocation did: the requests it issued and how it ended. */
  datatype Outcome = Outcome(
    fetch: Option<FetchRequest>,
    request: Option<Request>,
    post: Option<PostRequest>,
    failure: Option<Failure>)

  /** The thread a message belongs to: its thread root if it has one, else itself. */
  function ThreadOf(m: Message): string {
    if m.threadTs.Some? then m.threadTs.value else m.ts
  }

  predicate IsContinuation(m: Message) {
    m.threadTs.Some? && m.threadTs.value != m.ts
  }

  /** The post replyToReply or replyToParent makes for the route. */
  function PostFor(m: Message, route: Route, answer: string): PostRequest {
    match route
    case Continuation(_, thread, replyTs) => PostRequest(m.channel, thread, Some(replyTs), answer)
    case NewTopic(thread) => PostRequest(m.channel, thread, None, answer)
  }

  /** The prompt for the route: the transcript of the fetched history on the
      continuation path, the message text on the new-topic path. */
  function PromptFor(f: Fragments, m: Message, route: Route, history: seq<Reply>): string {
    if route.Continuation? then ContinuationPrompt(f, history) else NewTopicPrompt(f, m.text)
  }

  /** One invocation of the handler, given the thread history the fetch
      returns (read only on the continuation path) and the completion's choices. */
  function Handle(f: Fragments, m: Message, history: seq<Reply>, choices: seq<Choice>): (o: Outcome)
    // an absent user id stops the handler before any request
    ensures o.failure == Some(UserNotIterable) <==> m.user.None?
    ensures m.user.None? ==> o.fetch.None? && o.request.None? && o.post.None?
    // the history is fetched exactly on the continuation path, from the thread root
    ensures o.fetch.Some? <==> m.user.Some? && IsContinuation(m)
    ensures o.fetch.Some? ==> o.fetch.value == FetchRequest(m.channel, m.threadTs.value)
    // one completion request, with the prompt of the path and the hashed user id
    ensures m.user.Some? ==> o.request.Some?
    ensures o.request.Some? ==>
              o.request.value.user == SimpleHash.Hash(m.user.value)
              && o.request.value.engine == Engine
              && o.request.value.maxTokens == MaxTokens
              && o.request.value.stop == Stop
              && o.request.value.prompt
                 == (if IsContinuation(m) then ContinuationPrompt(f, history) else NewTopicPrompt(f, m.text))
    // an answer is posted exactly when there is a candidate, else the handler fails
    ensures o.post.Some? <==> m.user.Some? && choices != []
    ensures m.user.Some? && choices == [] ==> o.failure == Some(NoCandidates)
    ensures o.post.Some? ==> o.failure.None?
    // the answer goes to the message's channel and thread, trimmed
    ensures o.post.Some? ==>
              o.post.value.channel == m.channel
              && o.post.value.threadTs == ThreadOf(m)
              && o.post.value.replyTs == (if IsContinuation(m) then Some(m.ts) else None)
              && o.post.value.text == Trim(choices[0].text)
              && IsTrimmed(o.post.value.text)
  {
    if m.user.None? then
      Outcome(None, None, None, Some(UserNotIterable))
    else
      var tag := SimpleHash.Hash(m.user.value);
      var route := Classify(m.ts, m.threadTs);
      var fetch := if route.Continuation? then Some(FetchRequest(m.channel, route.historyTs)) else None;
      var request := MakeRequest(PromptFor(f, m, route, history), tag);
      match ExtractAnswer(choices)
      case Err(_) => Outcome(fetch, Some(request), None, Some(NoCandidates))
      case Ok(answer) => Outcome(fetch, Some(request), Some(PostFor(m, route, answer)), None)
  }

  /** The handler body as it runs: classify, fetch the history on the
      continuation path and build its prompt with the accumulating loop, or
      build the new-topic prompt; request the completion, extract the answer,
      and post it. */
  method HandleMessage(f: Fragments, m: Message, history: seq<Reply>, choices: seq<Choice>)
    returns (o: Outcome)
    ensures o == Handle(f, m, history, choices)
  {
    if m.user.None? {
      return Outcome(None, None, None, Some(UserNotIterable));
    }
    var emailHash := SimpleHash.Hash(m.user.value);
    var isThreaded := m.threadTs.Some?;
    var isParent := m.threadTs == Some(m.ts);
    var fetch: Option<FetchRequest> := None;
    var prompt: string;
    if isThreaded && !isParent {
      fetch := Some(FetchRequest(m.channel, m.threadTs.value));
      prompt := BuildContinuationPrompt(f, history);
    } else {
      prompt := f.threadReplyTemplate;
      prompt := f.promptTemplate + Render(m.text) + f.promptAnswer;
    }
    var request := MakeRequest(prompt, emailHash);
    if choices == [] {
      return Outcome(fetch, Some(request), None, Some(NoCandidates));
    }
    var answer := Trim(choices[0].text);
    var post := if isThreaded && !isParent
      then PostRequest(m.channel, m.threadTs.value, Some(m.ts), answer)
      else PostRequest(m.channel, m.ts, None, answer);
    o := Outcome(fetch, Some(request), Some(post), None);
  }

  /** On the new-topic path the history plays no part. */
  lemma NewTopicIgnoresHistory(f: Fragments, m: Message, h1: seq<Reply>, h2: seq<Reply>, choices: seq<Choice>)
    requires !IsContinuation(m)
    ensures Handle(f, m, h1, choices) == Handle(f, m, h2, choices)
  {
  }

  /** Only the first candidate of the completion matters. */
  lemma OnlyFirstChoiceMatters(f: Fragments, m: Message, history: seq<Reply>, c: Choice, r1: seq<Choice>, r2: seq<Choice>)
    ensures Handle(f, m, history, [c] + r1) == Handle(f, m, history, [c] + r2)
  {
    assert ([c] + r1)[0] == c == ([c] + r2)[0];
  }

  /** A new-topic message "Hi" at ts "100.1" in channel "C1", answered " Hello\n":
      no history fetch, one completion request with the new-topic prompt of "Hi",
      and "Hello" posted into the thread rooted at "100.1". */
  lemma NewTopicScenario(f: Fragments, user: seq<SimpleHash.CodeUnit>)
    ensures var o := Handle(f, Message("C1", "100.1", None, Some(user), Some("Hi")), [], [Choice(" Hello\n")]);
            o.fetch.None?
            && o.request == Some(MakeRequest(f.promptTemplate + "Hi" + f.promptAnswer, SimpleHash.Hash(user)))
            && o.post == Some(PostRequest("C1", "100.1", None, "Hello"))
            && o.failure.None?
  {
    assert " Hello\n" == " " + "Hello" + "\n";
    TrimPadded(" ", "Hello", "\n");
  }

  /** A reply "R" at ts "200.2" in the thread rooted at "100.1": the history is
      fetched from "100.1", and the answer goes to that thread as a reply to "200.2". */
  lemma ContinuationScenario(f: Fragments, user: seq<SimpleHash.CodeUnit>, history: seq<Reply>)
    ensures var o := Handle(f, Message("C1", "200.2", Some("100.1"), Some(user), Some("R")), history, [Choice("A")]);
            o.fetch == Some(FetchRequest("C1", "100.1"))
            && o.request.value.prompt == ContinuationPrompt(f, history)
            && o.post == Some(PostRequest("C1", "100.1", Some("200.2"), "A"))
  {
    TrimOfTrimmed("A");
  }
}
