/** The two prompts the bot sends to the completion API (app.js:56-69 and 101-102),
    over the fragments `f` (in the bot, `Templates.Bot`). */
module Prompt {
  import opened Wrappers
  import opened Templates
  import opened JsText

  /** One message of a thread as conversations.replies returns it: `bot_id`
      is set on messages the bot posted; `text` may be absent. */
  datatype Reply = Reply(botId: Option<string>, text: Option<string>)

  /** The truthiness test `if (reply.bot_id)`: present and not the empty string. */
  predicate FromBot(r: Reply) {
    r.botId.Some? && r.botId.value != ""
  }

  /** The marker that introduces a reply in the transcript. */
  function Marker(f: Fragments, r: Reply): string {
    if FromBot(r) then f.aiThreadReply else f.userThreadReply
  }

  /** What one reply adds to the prompt: its marker, then its text. */
  function Turn(f: Fragments, r: Reply): string {
    Marker(f, r) + Render(r.text)
  }

  /** The turns of the replies, in the order the platform returned them. */
  function Transcript(f: Fragments, replies: seq<Reply>): string
    decreases |replies|
  {
    if replies == [] then "" else Turn(f, replies[0]) + Transcript(f, replies[1..])
  }

  /** The framing sentence and the few-shot block that open every continuation prompt. */
  function ContinuationHeader(f: Fragments): string {
    f.threadReplyTemplate + f.promptTemplate
  }

  /** The continuation prompt: header, transcript, and a bare AI cue. */
  function ContinuationPrompt(f: Fragments, replies: seq<Reply>): string {
    ContinuationHeader(f) + Transcript(f, replies) + f.aiThreadReply
  }

  /** The transcript of a concatenation is the concatenation of the transcripts. */
  lemma {:induction false} TranscriptAppend(f: Fragments, a: seq<Reply>, b: seq<Reply>)
    ensures Transcript(f, a + b) == Transcript(f, a) + Transcript(f, b)
    decreases |a|
  {
    if a != [] {
      assert (a + b)[1..] == a[1..] + b;
      TranscriptAppend(f, a[1..], b);
    } else {
      assert a + b == b;
    }
  }

  lemma TurnIsTranscript(f: Fragments, r: Reply)
    ensures Transcript(f, [r]) == Turn(f, r)
  {
    assert [r][1..] == [];
  }

  /** Extending the prefix of the replies by one extends the transcript by that reply's turn. */
  lemma AppendTurn(f: Fragments, replies: seq<Reply>, i: nat)
    requires i < |replies|
    ensures Transcript(f, replies[..i + 1]) == Transcript(f, replies[..i]) + Turn(f, replies[i])
  {
    assert replies[..i + 1] == replies[..i] + [replies[i]];
    TranscriptAppend(f, replies[..i], [replies[i]]);
    TurnIsTranscript(f, replies[i]);
  }

  /** Reply order is kept: the i-th reply's turn sits between the turns of the
      replies before it and those after it. */
  lemma TranscriptAt(f: Fragments, replies: seq<Reply>, i: nat)
    requires i < |replies|
    ensures Transcript(f, replies)
         == Transcript(f, replies[..i]) + Turn(f, replies[i]) + Transcript(f, replies[i + 1..])
  {
    assert replies == replies[..i] + ([replies[i]] + replies[i + 1..]);
    TranscriptAppend(f, replies[..i], [replies[i]] + replies[i + 1..]);
    assert ([replies[i]] + replies[i + 1..])[1..] == replies[i + 1..];
  }

  /** The body of the `replies.messages.map` callback and the final append:
      `prompt` starts as the header, every reply appends its marker and text in
      order, and the AI cue comes last. */
  method BuildContinuationPrompt(f: Fragments, replies: seq<Reply>) returns (prompt: string)
    ensures prompt == ContinuationPrompt(f, replies)
  {
    prompt := f.threadReplyTemplate;
    prompt := prompt + f.promptTemplate;
    assert prompt == ContinuationHeader(f) + Transcript(f, replies[..0]);
    for i := 0 to |replies|
      invariant prompt == ContinuationHeader(f) + Transcript(f, replies[..i])
    {
      var reply := replies[i];
      ghost var before := prompt;
      if FromBot(reply) {
        prompt := prompt + f.aiThreadReply + Render(reply.text);
        assert prompt == before + Turn(f, reply);
      } else {
        prompt := prompt + f.userThreadReply + Render(reply.text);
        assert prompt == before + Turn(f, reply);
      }
      AppendTurn(f, replies, i);
    }
    assert replies[..|replies|] == replies;
    prompt := prompt + f.aiThreadReply;
  }

  /** Every continuation prompt, for any history including the empty one,
      opens with the framing sentence and the few-shot block and ends with the
      AI cue and nothing after it. */
  lemma ContinuationPromptEnds(f: Fragments, replies: seq<Reply>)
    ensures ContinuationHeader(f) <= ContinuationPrompt(f, replies)
    ensures var p := ContinuationPrompt(f, replies);
            p[|p| - |f.aiThreadReply|..] == f.aiThreadReply
  {
    var p := ContinuationPrompt(f, replies);
    assert p == ContinuationHeader(f) + (Transcript(f, replies) + f.aiThreadReply);
    assert p == (ContinuationHeader(f) + Transcript(f, replies)) + f.aiThreadReply;
  }

  /** Between header and cue, a continuation prompt holds each reply's turn in order. */
  lemma ContinuationPromptShape(f: Fragments, replies: seq<Reply>, i: nat)
    requires i < |replies|
    ensures ContinuationPrompt(f, replies)
         == ContinuationHeader(f) + Transcript(f, replies[..i]) + Turn(f, replies[i])
            + Transcript(f, replies[i + 1..]) + f.aiThreadReply
  {
    TranscriptAt(f, replies, i);
  }

  /** The two-reply thread [user "Q1", bot "A1"]: the user turn, then the bot
      turn, then the empty AI cue. */
  lemma ContinuationExample(f: Fragments)
    ensures ContinuationPrompt(f, [Reply(None, Some("Q1")), Reply(Some("B01"), Some("A1"))])
         == f.threadReplyTemplate + f.promptTemplate
            + f.userThreadReply + "Q1" + f.aiThreadReply + "A1" + f.aiThreadReply
  {
    var rs := [Reply(None, Some("Q1")), Reply(Some("B01"), Some("A1"))];
    assert rs[1..][1..] == [];
  }

  /** The new-topic prompt (app.js:102): few-shot block, the message text, the
      answer cue, with nothing between them. The framing sentence assigned on
      the line before is overwritten and never reaches it. */
  function NewTopicPrompt(f: Fragments, text: Option<string>): string {
    f.promptTemplate + Render(text) + f.promptAnswer
  }

  /** The question a new-topic prompt carries: what lies between the few-shot
      block and the answer cue. */
  function QuestionOf(f: Fragments, prompt: string): (q: string)
    requires |f.promptTemplate| + |f.promptAnswer| <= |prompt|
  {
    prompt[|f.promptTemplate|..|prompt| - |f.promptAnswer|]
  }

  /** The message text is recoverable from the new-topic prompt, so distinct
      texts give distinct prompts. */
  lemma NewTopicPromptRoundTrip(f: Fragments, text: Option<string>)
    ensures |f.promptTemplate| + |f.promptAnswer| <= |NewTopicPrompt(f, text)|
    ensures QuestionOf(f, NewTopicPrompt(f, text)) == Render(text)
    ensures f.promptTemplate <= NewTopicPrompt(f, text)
    ensures var p := NewTopicPrompt(f, text); p[|p| - |f.promptAnswer|..] == f.promptAnswer
  {
  }
}
