/** How the message handler classifies an inbound message and where its
    answer goes (app.js:36-46, 51-54, 76-83, 106, 110-146). */
module Routing {
  import opened Wrappers

  /** The continuation path fetches the thread's history at `historyTs` and
      answers with replyToReply; the new-topic path answers with replyToParent.
      `replyThread` is the thread the answer is posted into. */
  datatype Route =
    | Continuation(historyTs: string, replyThread: string, replyTs: string)
    | NewTopic(replyThread: string)

  /** The handler's test `is_threaded && !is_parent` on `message.ts` and
      `message.thread_ts`. */
  function Classify(ts: string, threadTs: Option<string>): (r: Route)
    ensures r.Continuation? <==> threadTs.Some? && threadTs.value != ts
    ensures r.replyThread == if threadTs.Some? then threadTs.value else ts
    ensures r.Continuation? ==> r.historyTs == r.replyThread && r.replyTs == ts
  {
    var isThreaded := threadTs.Some?;
    var isParent := threadTs == Some(ts);
    if isThreaded && !isParent then Continuation(threadTs.value, threadTs.value, ts)
    else NewTopic(ts)
  }

  /** A message outside any thread and the root of a thread both start a new topic. */
  lemma UnthreadedAndRootAreNewTopics(ts: string)
    ensures Classify(ts, None).NewTopic?
    ensures Classify(ts, Some(ts)).NewTopic?
    ensures Classify(ts, None).replyThread == ts == Classify(ts, Some(ts)).replyThread
  {
  }
}
