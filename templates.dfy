/** The prompt fragments of the bot, as fixed strings (app.js:161-210).
    The prompt builders are stated and proved for any choice of fragments
    (a `Fragments` value); `Bot` is the choice the bot is configured with. */
module Templates {
  /** The five strings a prompt is assembled from. */
  datatype Fragments = Fragments(
    promptTemplate: string,
    promptAnswer: string,
    threadReplyTemplate: string,
    userThreadReply: string,
    aiThreadReply: string)

  /** The fragments the bot uses. */
  const Bot: Fragments :=
    Fragments(PromptTemplate, PromptAnswer, ThreadReplyTemplate, UserThreadReply, AIThreadReply)

  /** The few-shot block: one question and its answer, opened by the "###" delimiter. */
  const PromptTemplate: string := JoinLines(PromptTemplateLines)

  /** The lines of the few-shot block's template literal; the block ends with a line break. */
  const PromptTemplateLines: seq<string> := [
    "###",
    "",
    "",
    "User:",
    "How do I navigate programmatically in React?",
    "",
    "I know I can create <Link /> objects to click and navigate, but how do I navigate based on a programmatic event happening?",
    "",
    "###",
    "AI:",
    "You can use the `useHistory` hook to programmatically navigate pages in React. This only works in the new functional React style. ",
    "",
    "Here's an example:",
    "``` JS",
    "import { useHistory } from \"react-router-dom\";",
    "",
    "function HomeButton() {",
    "  const history = useHistory();",
    "",
    "  function handleClick() {",
    "    history.push(\"/home\");",
    "  }",
    "",
    "  return (",
    "    <button type=\"button\" onClick={handleClick}>",
    "      Go home",
    "    </button>",
    "  );",
    "}",
    "```",
    "",
    "Here's a link to the official [documentation](https://v5.reactrouter.com/web/api/Hooks/usehistory]",
    "",
    ""
  ]

  /** The text of a multi-line template literal: its lines joined by line breaks. */
  function JoinLines(lines: seq<string>): string
    decreases |lines|
  {
    if lines == [] then ""
    else if |lines| == 1 then lines[0]
    else lines[0] + "\n" + JoinLines(lines[1..])
  }

  /** The cue after a new-topic question. */
  const PromptAnswer: string :=
    "\n\nAnswer text:"

  /** The framing sentence that opens a continuation prompt. */
  const ThreadReplyTemplate: string :=
    "The following is a conversation between a React engineer and a helpful AI pair programmer:"

  /** The marker before a user turn of a thread. */
  const UserThreadReply: string :=
    "\n###\nUser:\n"

  /** The marker before a bot turn, and the final cue of a continuation prompt. */
  const AIThreadReply: string :=
    "\n###\nAI:\n"
}
