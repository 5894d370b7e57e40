# tangie-slack message handler, modelled in Dafny

The bot answers Slack messages with an OpenAI completion. For each inbound message it:

- hashes the author's user id into an opaque `user` tag for the completion API (`simple_hash`);
- classifies the message as a new topic (no thread, or the thread root itself) or a continuation (a reply inside a thread);
- on a continuation, fetches the thread's history and turns it into a transcript prompt;
- on a new topic, wraps the message text between a few-shot block and an answer cue;
- takes the trimmed text of the first completion choice as the answer;
- posts it into the message's thread.

The model covers that logic. What the network returns (the thread history and the completion choices) is a parameter of the model; the requests the handler issues are part of the `Outcome` that `Handle` returns.

Modules (one file each):

- `Int32` (`int32.dfy`): ECMA-262 ToInt32 (section 7.1.6), which `0 | x` applies.
- `Decimal` (`decimal.dfy`): `Number.prototype.toString` on safe integers (magnitude below 2^53, where it writes the exact digits; every 32-bit value qualifies), plus a parser that serves as its inverse.
- `SimpleHash` (`simple_hash.dfy`): how `Array.from` splits the id into code points, the `reduce` fold, and the rendering.
- `JsText` (`js_text.dfy`): `String.prototype.trim` over the ECMA-262 white-space set, and how `undefined` renders when concatenated.
- `Templates` (`templates.dfy`): the five prompt fragments, with their exact values, as a `Fragments` record. `Bot` is the instance the bot uses.
- `Prompt` (`prompt.dfy`): the continuation prompt, built by an accumulating loop and proved equal to a recursive transcript; also the new-topic prompt.
- `Routing` (`routing.dfy`): classification and reply routing.
- `Completion` (`completion.dfy`): the request's constants and answer extraction.
- `Handler` (`handler.dfy`): one invocation of the `app.message` handler. It is written as a specification function (`Handle`) and as the imperative handler body (`HandleMessage`) proved equal to it.

The prompt builders and the handler are stated for any `Fragments` value. The bot's own templates are fixed strings, and the lemmas hold for them as one instance.

The model follows these details of the code:

- The new-topic prompt is `promptTemplate + text + promptAnswer`, with no extra line break (app.js:102). The template itself already ends with two line breaks.
- The framing sentence assigned on app.js:101 is overwritten on the next line. It never reaches the new-topic prompt.
- The answer is trimmed at both ends (`trim`, app.js:74 and 104).
- The hash folds the first UTF-16 code unit of each code point (`charCodeAt(0)` on the elements of `Array.from`).
- An empty `choices` list has no explicit error in the code. Indexing `choices[0].text` throws, and nothing is posted. The model records this as the failure `NoCandidates` after the completion request.
- The code has no guard against a missing `message.user`. `Array.from(undefined)` throws before any request is made. The model records this as the failure `UserNotIterable`.

## Model

| member | source | states |
|---|---|---|
| Int32.ToInt32 | app.js:214 | the result of the bitwise or with 0 lies in [-2^31, 2^31-1] and has the same bit pattern modulo 2^32 as x |
| Int32.ToInt32Unique | app.js:214 | any value in the signed range with x's bit pattern is ToInt32(x), so the two properties above define the conversion |
| Int32.ToInt32Step | app.js:214 | truncating the accumulator before `31 * acc + code` gives the same result as truncating only afterwards |
| Decimal.NatToString | app.js:215 | a non-negative value renders as digits with no leading zero, and as "0" exactly when it is zero |
| Decimal.IntToString | app.js:215 | `toString` of a safe integer (below 2^53 in magnitude) is a canonical decimal literal, with a minus sign exactly for negative values |
| Decimal.ParseIntToString | app.js:215 | for safe integers, parsing the rendered string gives back the integer, so the rendering loses nothing |
| Decimal.IntToStringInjective | app.js:215 | distinct safe integers render as distinct strings |
| SimpleHash.LeadUnits | app.js:213-214 | `Array.from` followed by `charCodeAt(0)` yields at most one code per code unit and keeps the first unit |
| SimpleHash.LeadUnitsAreSegmentHeads | app.js:213-214 | the string splits into code points (a high surrogate followed by a low one always forms one two-unit segment, every other unit is a segment of its own) that join back to it in order, and the fold sees exactly the first unit of each |
| SimpleHash.LeadUnitsWithoutPairs | app.js:213-214 | a string with no surrogate pair, such as an ASCII Slack id, is folded unit by unit |
| SimpleHash.SurrogatePairHashesAsHighHalf | app.js:213-214 | a surrogate pair hashes exactly like its high half alone |
| SimpleHash.Step | app.js:214 | one reducer step yields a signed 32-bit value congruent to `31 * acc + code` |
| SimpleHash.StepIsExactInDouble | app.js:214 | with a 32-bit accumulator, `31 * acc + code` stays within 2^53, so the double arithmetic is exact |
| SimpleHash.Fold | app.js:213-214 | the reduce result is a signed 32-bit value whenever the input is non-empty or the start value is in range |
| SimpleHash.Accumulators | app.js:214 | the reduce passes through exactly one accumulator per code |
| SimpleHash.AccumulatorsArePrefixFolds | app.js:214 | the i-th accumulator of the reduce is the fold of the first i + 1 codes |
| SimpleHash.AccumulatorsInRange | app.js:214 | every intermediate accumulator lies in the signed 32-bit range, and the last one is the fold's result |
| SimpleHash.FoldSnoc | app.js:214 | folding one more code is one more reducer step on the previous result |
| SimpleHash.HashAccSnoc | app.js:214 | prefix recurrence: hashAcc(s + [c]) == ToInt32(31 * hashAcc(s) + c) |
| SimpleHash.HashAccEmpty | app.js:214 | the fold of the empty input is the initial value 0 |
| SimpleHash.HashAccIsTruncatedPolynomial | app.js:213-214 | the wrapping fold equals ToInt32 of the polynomial sum of c_i * 31^(n-1-i) over unbounded integers |
| SimpleHash.Hash | app.js:212-216 | `simple_hash` returns a canonical decimal integer literal |
| SimpleHash.HashMeaning | app.js:212-216 | the tag parses back to the 32-bit truncation of the polynomial hash of the folded codes, and the empty id gives "0" |
| SimpleHash.HashTagDeterminesAccumulator | app.js:212-216 | equal tags come only from equal 32-bit accumulators, so the rendering adds no collisions |
| JsText.TrimStart | app.js:74 | the result is a suffix of the input, with only white space removed and no white space at its start |
| JsText.TrimEnd | app.js:74 | the result is a prefix of the input, with only white space removed and no white space at its end |
| JsText.Trim | app.js:74 | the result has no white space at either end and is a substring of the input with only white space outside it |
| JsText.TrimUnique | app.js:74 | any substring with those properties is the trim, so the characterisation is complete |
| JsText.TrimPadded | app.js:74 | trimming white-space padding around a trimmed core gives back exactly the core |
| JsText.TrimOfTrimmed | app.js:74 | a string without white space at its ends is its own trim |
| JsText.TrimIdempotent | app.js:74 | trimming twice is the same as trimming once |
| Prompt.TranscriptAppend | app.js:59-67 | the transcript of concatenated reply lists is the concatenation of their transcripts |
| Prompt.AppendTurn | app.js:59-67 | one more reply extends the transcript by that reply's marker and text |
| Prompt.TranscriptAt | app.js:59-67 | reply order is kept: each reply's turn sits between the turns of the replies before it and after it |
| Prompt.BuildContinuationPrompt | app.js:56-69 | the accumulating loop produces exactly the framing sentence, then the few-shot block, then each reply's turn in order, then the AI cue |
| Prompt.ContinuationPromptEnds | app.js:56-69 | every continuation prompt, for any history including the empty one, starts with the framing sentence and few-shot block and ends with a bare AI cue |
| Prompt.ContinuationPromptShape | app.js:56-69 | a continuation prompt holds the i-th reply's turn after the header and earlier turns and before the later turns and the AI cue |
| Prompt.ContinuationExample | app.js:56-69 | the thread [user "Q1", bot "A1"] gives the header, then the user marker and "Q1", then the AI marker and "A1", then the AI cue |
| Prompt.NewTopicPromptRoundTrip | app.js:101-102 | the new-topic prompt starts with the few-shot block, ends with the answer cue, and carries the message text between them, so the text can be recovered |
| Routing.Classify | app.js:36-46 | continuation exactly when `thread_ts` is present and differs from `ts`; the history is read from `thread_ts`; the reply goes to `thread_ts` if present, else to `ts` |
| Routing.UnthreadedAndRootAreNewTopics | app.js:41-46 | an unthreaded message and a thread root both take the new-topic path and are answered in their own thread |
| Completion.ExtractAnswer | app.js:74 | an empty choices list is the only failure; otherwise the answer is the trim of the first choice's text |
| Completion.ExtractAnswerOfTrimmed | app.js:104 | choices after the first are ignored, and an already trimmed first text is returned unchanged |
| Completion.ExtractAnswerExample | app.js:104 | "  The sky is blue because...  \n" yields "The sky is blue because..." |
| Handler.Handle | app.js:35-146 | a missing user id stops the handler before any request; the history is fetched from the thread root exactly on a continuation; one completion request carries the path's prompt, the hashed id, and the fixed engine, maxTokens and stop sequence; an answer is posted exactly when a choice exists, trimmed, into the message's channel and thread, and, exactly on a continuation, as a reply to the message's own `ts` |
| Handler.HandleMessage | app.js:35-108 | the imperative handler body, with the prompt loop and the dead assignment of line 101, has exactly the outcome `Handle` specifies |
| Handler.NewTopicIgnoresHistory | app.js:84-107 | on the new-topic path the thread history has no effect |
| Handler.OnlyFirstChoiceMatters | app.js:74 | choices after the first have no effect on the outcome |
| Handler.NewTopicScenario | app.js:84-107 | "Hi" at ts "100.1" in "C1" fetches nothing, requests the new-topic prompt of "Hi", and posts the trimmed answer into thread "100.1" |
| Handler.ContinuationScenario | app.js:46-83 | a reply at "200.2" in thread "100.1" fetches "100.1", requests the continuation prompt of the history, and posts into "100.1" as a reply to "200.2" |

## Left out

- App construction, credential selection between development and production, socket mode and port (app.js:1-32): configuration and SDK bootstrapping.
- The startup block and all logging (app.js:70, 218-228): side effects with no bearing on the results.
- Network calls: `conversations.replies`, `chat.postMessage` and `openai.complete` (app.js:51-54, 113-120, 131-139, 149-157). The model takes the replies and choices these return as parameters and records each request it issues. Transport failures of these calls are not modelled.
- The commented-out backend request (app.js:91-97): it is not code that runs.
- The fallback messages on a failed post (app.js:121-126, 139-145) are not modelled, because their text embeds a foreign exception. The fallback is `say` with the text "Rosie had an error in replyToParent: " or "Rosie had an error in replyToReply: ", followed by the error.
- Generation parameters temperature 0.5 and topP 1 (app.js:153-154): floating-point values passed through to the library. The engine, maxTokens and stop sequence are modelled.
- Overlapping asynchronous invocations of the handler, and the SDK's own filtering of events before the handler runs. No state is shared between invocations.
- Response shapes without a `messages` or `choices` field, and a choice without `text`. The model assumes these fields exist.
- Integers of magnitude 2^53 or more, which toString writes with the shortest round-tripping digits or in exponent form: the hash only renders 32-bit values.
- Text outside the user id is a Dafny `string` of Unicode scalar values, so lone surrogates in message text are not representable. The user id is a sequence of UTF-16 code units, so `simple_hash` is modelled on all inputs.
- The bot's literal templates are not unfolded in proofs: the prompt builders and the handler are proved for every choice of prompt fragments, which includes the bot's own. The bot's values are `Templates.Bot`.
