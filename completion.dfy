/** The completion call (app.js:148-159) and the extraction of the answer
    `aiResponse.data.choices[0].text.trim()` (app.js:74, 104). */
module Completion {
  import opened Wrappers
  import opened JsText

  /** The engine, token budget and stop sequence of every request. */
  const Engine: string := "davinci-plus"
  const MaxTokens: nat := 256
  const Stop: string := "###"

  /** The request getAIResponse sends; `user` is the hashed user id. The
      temperature (0.5) and topP (1) are passed through unchanged and not modelled. */
  datatype Request = Request(engine: string, prompt: string, maxTokens: nat, stop: string, user: string)

  function MakeRequest(prompt: string, userTag: string): Request {
    Request(Engine, prompt, MaxTokens, Stop, userTag)
  }

  /** One candidate of the completion response. */
  datatype Choice = Choice(text: string)

  /** Indexing `choices[0]` of an empty list yields undefined, and reading
      `.text` of it throws. */
  datatype CompletionError = NoChoices

  /** The answer the bot posts: the first candidate's text, trimmed. */
  function ExtractAnswer(choices: seq<Choice>): (r: Result<string, CompletionError>)
    ensures r.Err? <==> choices == []
    ensures r.Ok? ==> IsTrimmed(r.value)
    ensures r.Ok? ==> exists i, j :: TrimmedAt(choices[0].text, i, j) && r.value == choices[0].text[i..j]
  {
    if choices == [] then Err(NoChoices) else Ok(Trim(choices[0].text))
  }

  /** Only the first candidate matters, and an answer that is already trimmed
      comes back unchanged. */
  lemma ExtractAnswerOfTrimmed(answer: string, rest: seq<Choice>)
    requires IsTrimmed(answer)
    ensures ExtractAnswer([Choice(answer)] + rest) == Ok(answer)
  {
    TrimOfTrimmed(answer);
    assert ([Choice(answer)] + rest)[0] == Choice(answer);
  }

  /** Leading and trailing blanks and line breaks of the candidate are dropped. */
  lemma ExtractAnswerExample()
    ensures ExtractAnswer([Choice("  The sky is blue because...  \n")]) == Ok("The sky is blue because...")
  {
    var core := "The sky is blue because...";
    assert "  The sky is blue because...  \n" == "  " + core + "  \n";
    TrimPadded("  ", core, "  \n");
  }
}
