# Chatbot conversation turns, in Dafny

This project models the conversation logic of a small chatbot web app. The
same logic appears twice in the app: in an Express server (`server.js`) and
in a serverless handler (`api/chat.js`). Each session keeps an in-memory
history of `{role, content}` turns, seeded with one system turn. The
serverless handler first refuses any request that is not a POST with a 405,
before any session is touched (api/chat.js:82-85). Otherwise, on a `/chat`
request the handler does the following:

- appends the user's turn;
- sends the history to a chat-completion service, trimmed to ten turns; if
  that call fails, it answers 500 and the history keeps only the user's new
  turn (server.js:270-272);
- calls the image service when the completion starts with the sentinel
  `GENERATE_IMAGE:`, or when the message looks like a change to the last
  image ("make it darker") and an earlier image prompt exists; an image is
  attached only when that call succeeds;
- appends one assistant turn (the image announcement, an apology after a
  failed sentinel image call, or the completion's text) and answers 200 with
  a JSON reply.

To change an earlier image, the handler scans the history backwards for the
last stored image reply. It then enriches that reply's prompt from a fixed
keyword table.

The logic is modelled once, module by module:

- `Js` holds the JavaScript built-ins the handler relies on: truthiness of a
  possibly-missing string, `||`, `toLowerCase`, `includes`, `startsWith`,
  `trim`, `slice` and regular-expression line terminators.
- `History` models turns, the system prompt, `cleanupConversation`, the
  image-reply regular expression and `getLastImagePrompt`. The last is both a
  specification function (`LastImagePrompt`) and the backward loop proved
  against it (`GetLastImagePrompt`).
- `Intent` models the two word-boundary regular expressions behind
  `isLikelyImageModification`.
- `Enhancer` models `enhanceImagePrompt`: the table loop (`EnhanceImagePrompt`)
  is proved against the function `EnhancedPrompt`.
- `Chat` holds the outcome of one turn as a function (`Respond`) and the
  handler's branching as a method proved against it (`ComposeReply`). It also
  has the session store, a class holding the session map, with
  `initializeConversation` and the `/chat` handler (`HandleChat`).
  - The completion call and the image call are parameters: the completion
    either failed or gave optional content, and the image call was ok (with
    its base64 data), not ok, or threw.
  - The session id that `generateSessionId` would draw is the parameter
    `generatedId`.
  - `guardMethod` selects the serverless handler's 405 check.
- `ChatProperties` holds what a whole turn promises: how the history grows,
  which branch calls the image service with which prompt, and the round trip
  from an image turn back to the prompt the next scan finds.

Two consequences of the code are worth stating outright:

- A request such as "make it more colorful" contains both the `colorful` and
  the `more colorful` keyword (server.js:78-79), and the table loop appends a
  phrase for every keyword the request contains (server.js:92-96). So the
  colour phrase is appended twice (`Enhancer.MoreColorfulAppendsPhraseTwice`).
- The regular expression that recovers a stored prompt has no anchor
  (server.js:60). A stored image reply is therefore recognised wherever the
  marker "I've generated an image for you: " occurs in an assistant turn, not
  only at its start.

## Model

| member | source | states |
|---|---|---|
| Js.ToLowerCase | server.js:89 | the result has the input's length and every character lowered (ASCII letters only) |
| Js.LowerChar | server.js:89 | the per-character fold behind `toLowerCase` and the `/i` flag (server.js:117-118): an ASCII capital becomes its small letter, every other character is kept (defines) |
| Js.IncludesFrom | server.js:93 | true iff the needle occurs at some index at or after the start index |
| Js.Includes | server.js:93 | `s.includes(t)` is true iff `t` occurs at some index of `s` |
| Js.LeadingWhiteSpace | server.js:138 | the count of leading white-space characters: all of them are white space and the next one is not |
| Js.TrimEnd | server.js:138 | a prefix of the input, followed only by white space, and not ending in white space |
| Js.Trim | server.js:138 | the input with the white space at both ends removed: a slice starting right after the leading white space, followed only by white space, and neither starting nor ending with white space |
| Js.TrimAfterSpace | server.js:138 | trimming `" " + p` gives back `p` when `p` neither starts nor ends with white space |
| Js.Slice | server.js:47 | `slice(start)` returns the suffix whose length the (possibly negative) start selects, element for element |
| Js.IsLineTerminator | server.js:60 | the characters the regular expression's `.` does not match: line feed, carriage return, U+2028 and U+2029 (defines) |
| Js.IsWhiteSpace | server.js:138 | the characters `trim` removes: tab, vertical tab, form feed, space, no-break space, byte-order mark, the other space separators and the line terminators (defines) |
| Js.Truthy | server.js:71 | a possibly-missing string is truthy iff it is present and non-empty, the test behind `!originalPrompt` and `if (lastPrompt)` (defines) |
| Js.OrElse | server.js:111 | the logical-or default for a possibly-missing string: the string when truthy, the fallback otherwise, as for the session id and at server.js:134 for the completion (defines) |
| Js.StartsWith | server.js:137 | `s.startsWith(t)`: `t` is no longer than `s` and is its prefix (defines) |
| History.Cleanup | server.js:43-51 | a history of at most ten turns is returned unchanged; a longer one gives exactly ten turns: the first turn, then the last nine in order |
| History.CleanupKeepsEnds | api/chat.js:29-36 | the trimmed history is non-empty, at most ten long, and keeps the first and the newest turn |
| History.FindMarker | server.js:60 | the leftmost index at or after `i` where the marker is followed by a non-line-terminator; none before it; none at all when the result is None |
| History.LineEnd | server.js:60 | where the greedy `.+` stops: the first line terminator at or after `j`, or the end |
| History.MarkerMatchAt | server.js:60 | the regular expression matches at `i`: the marker occurs there and is followed by at least one non-line-terminator (defines) |
| History.MarkerCapture | server.js:60-63 | the regular expression's capture is never empty and never holds a line terminator |
| History.ScanHit | server.js:58-63 | one step of the backward scan: an assistant turn passing the `includes` guard yields the regular expression's capture, any other turn nothing (defines) |
| History.LastImagePrompt | server.js:54-67 | a found prompt is non-empty and holds no line terminator |
| History.GetLastImagePrompt | server.js:54-67 | the backward index loop with its early return computes `LastImagePrompt` |
| History.LastImagePromptNoneIff | api/chat.js:38-52 | the scan returns null exactly when no turn is an assistant turn passing the guard and the regular expression |
| History.NewestHitExtends | api/chat.js:39-49 | appending a turn that is no hit keeps the newest hit the newest |
| History.LastImagePromptIsNewestHit | api/chat.js:38-52 | a found prompt is the capture of the newest matching turn, and no newer turn matches |
| History.LastImagePromptAppend | api/chat.js:39-49 | after one more turn, that turn's capture wins if it has one; otherwise the old answer stands |
| History.LastImagePromptSkipsNonAssistant | api/chat.js:42 | appending a user or system turn never changes the scan's answer |
| History.IncludesGuardImplied | api/chat.js:41-45 | whenever the regular expression matches, the `includes` guard in front of it passes, so the guard hides no match |
| History.CaptureOfImageReply | api/chat.js:45-47 | the capture of `ImageMarker + p` is `p` up to its first line terminator |
| History.LineEndShift | server.js:60 | a prefix in front of the scanned text shifts where `.+` stops by its length only |
| History.ImageReplyRoundTrip | api/chat.js:137 | after an image reply for a non-empty single-line prompt `p`, the scan returns exactly `p` |
| History.EmptyImageReplySkipped | api/chat.js:45-46 | the marker with an empty prompt is not a match, and the scan skips such a turn |
| History.LastImagePromptExample | server.js:54-67 | a system turn, a request and an image reply for "a cat, watercolor style" yield that prompt |
| Intent.TestFrom | server.js:117 | the search from `p` succeeds iff an alternative matches at some index at or after `p` |
| Intent.Test | server.js:117-118 | `regex.test(s)` is true iff an alternative matches at some index |
| Intent.IsLikelyImageModification | server.js:117-118 | true iff some modification keyword matches on word boundaries, ignoring case, and no fresh-request keyword does |
| Intent.NoKeywordInsideWord | api/chat.js:90-91 | no keyword starts between two word characters |
| Intent.KeywordNeedsLetter | api/chat.js:90-91 | a keyword starting with a letter does not match at a non-word character |
| Intent.NoKeywordAtNonWordChar | api/chat.js:90-91 | no keyword of either pattern starts at a non-word character |
| Intent.IsWordChar | server.js:117 | `\w`: an ASCII letter, digit or underscore (defines) |
| Intent.IsWordBoundary | server.js:117 | `\b` at a position: exactly one neighbour is a word character, with the outside counting as non-word (defines) |
| Intent.KeywordAt | server.js:117 | `\bword\b` under `/i` at a position: boundaries on both sides and the lowered text equals the keyword (defines) |
| Intent.PatternAt | server.js:117-118 | some alternative of the modification pattern, or of the fresh-request pattern, matches at a position (defines) |
| Intent.NoKeywordAtEnd | api/chat.js:90-91 | no keyword matches at the end of the message |
| Intent.KeywordMismatch | api/chat.js:90-91 | a keyword does not match where a lowered character differs from it |
| Intent.SingleWordMatchesOnlyAtStart | api/chat.js:90 | in a one-word message a pattern can only match at the start |
| Intent.MakeItIsNotFresh | server.js:118 | a message opening with "make it" does not open with a fresh-request keyword |
| Intent.MakeItMoreColorfulOpensWithMakeIt | server.js:117 | "make it more colorful" matches the modification pattern at its start |
| Intent.MakeItMoreColorfulHasNoFreshWord | server.js:118 | "make it more colorful" holds no fresh-request keyword |
| Intent.MakeItMoreColorfulIsModification | server.js:117-118 | "make it more colorful" is flagged as a modification |
| Intent.GenerateKeywordAtStart | server.js:118 | "generate" followed by a space matches the fresh-request pattern at the start |
| Intent.GenerateOpensFreshRequest | server.js:117-118 | a message opening with "generate " is never a modification, whatever style it names |
| Intent.GenerateAnImageIsNotModification | server.js:117-118 | "generate an image of a cat" is not flagged |
| Intent.ColorfulStartsWithNoModification | server.js:117 | "colorful" does not start with a modification keyword |
| Intent.ColorfulIsNotModification | server.js:117-118 | "colorful" alone is not flagged: `\bcolor\b` does not match inside the word |
| Intent.DarkerStartsWithNoModification | server.js:117 | "darker" does not start with a modification keyword |
| Intent.DarkerIsNotModification | server.js:117-118 | "darker" alone is not flagged: `\bdark\b` does not match inside the word |
| Enhancer.Piece | server.js:92-96 | an entry contributes nothing iff its keyword is absent, and otherwise a piece starting with ", " |
| Enhancer.Enhancement | server.js:88-96 | the accumulated `enhancement`: the pieces of the table's entries, in table order (defines) |
| Enhancer.EnhancedPrompt | server.js:70-104 | a falsy original prompt gives the third argument unchanged; otherwise the original is a proper prefix of the result |
| Enhancer.EnhancementSnoc | server.js:92-96 | visiting one more table entry appends exactly that entry's piece |
| Enhancer.EnhanceImagePrompt | api/chat.js:54-79 | the loop over the table computes `EnhancedPrompt` |
| Enhancer.EnhancementEmptyIff | server.js:92-101 | the table adds nothing iff the lowered request contains none of its keywords |
| Enhancer.EnhancedWithKeyword | server.js:88-103 | when some keyword is contained, the result is the original plus the table's pieces in table order, and the request is not appended |
| Enhancer.EnhancedWithoutKeyword | server.js:98-103 | when no keyword is contained, the result is `original + ", " + request`, in the request's own case |
| Enhancer.NotIncludedWithoutChar | server.js:93 | a keyword holding a character the request lacks is not contained in it |
| Enhancer.FirstTwoPieces | server.js:92-96 | a table whose first two keywords, and no others, are contained yields exactly those two pieces |
| Enhancer.MoreColorfulIncludesColorful | server.js:78-79 | a request containing "more colorful" also contains "colorful" |
| Enhancer.MoreColorfulAppendsPhraseTwice | server.js:77-103 | a request containing "more colorful" and no later keyword gets the colour phrase appended twice |
| Enhancer.RequestWithoutKeywordLettersIsAppended | server.js:98-103 | a request without the letters b, c and d is appended as typed |
| Chat.Respond | api/chat.js:96-212 | completion failure gives 500 "Something went wrong", no assistant turn and no image call; otherwise 200 with the session id, and the reply is the assistant turn; an image is attached iff the image service was called and succeeded, and then the reply is the marker plus the prompt |
| Chat.ImageResponse | server.js:177-182 | the 200 body of a successful image call: the marker plus the prompt as reply, the session id, the PNG data URI and the prompt (api/chat.js:139-144) (defines) |
| Chat.TextResponse | server.js:265-268 | the 200 body `{reply, sessionId}` of a plain reply or an apology (server.js:191-194, 204-207) (defines) |
| Chat.ComposeReply | server.js:134-269 | the handler's branching after the user's turn computes `Respond` |
| Chat.AssistantTurns | server.js:172 | the assistant turn a turn pushes (server.js:172, 186, 199, 260), or none when the completion failed (defines) |
| Chat.SessionStore.constructor | server.js:22 | an empty store whose sessions are seeded with the system turn |
| Chat.SessionStore.Valid | server.js:31-37 | the store invariant: every stored history is non-empty and starts with the seed turn, as seeding and append-only `push` keep it (defines) |
| Chat.SessionStore.History | server.js:30-40 | the history of an id, stored or freshly seeded, is non-empty and starts with the store's seed turn, which the constructor sets to the system turn |
| Chat.SessionStore.InitializeConversation | server.js:30-40 | an unseen id gets a history of the system turn alone; a seen id and every other session are left unchanged; the returned history is the stored one |
| Chat.SessionStore.Push | server.js:121-124 | `push` appends one turn to the session's stored history and changes nothing else |
| Chat.SessionStore.HandleChat | api/chat.js:81-213 | a non-POST request under the guard gets 405 and touches no session; otherwise only the session's history changes, to its old history plus the user's turn plus the outcome's assistant turns; the completion service is sent the cleaned-up history; the response and the image prompt are those of `Respond` |
| ChatProperties.TurnAppendsUserThenAssistant | server.js:121-124 | a turn keeps the old history, appends the user's turn, and appends the reply as one assistant turn unless the completion failed; failure iff status 500 |
| ChatProperties.After | server.js:121-124 | the stored history after one turn: the old history, the user's turn, then the assistant turns of the outcome, the new map entry of `HandleChat` (defines) |
| ChatProperties.CompletionRequestShape | server.js:129 | the completion request is non-empty, at most ten turns, starts with the system turn and ends with the user's turn |
| ChatProperties.PlainReply | api/chat.js:206-207 | without the sentinel, and unless the message is flagged with an earlier prompt, the completion's text (or "No response") is both the stored assistant turn and the 200 reply, and the image service is not called, whatever it would answer (server.js:260-268) |
| ChatProperties.EmptyCompletionRepliesNoResponse | api/chat.js:103 | a missing or empty completion is answered with "No response" when the heuristic branch does not apply |
| ChatProperties.ImageCallIff | api/chat.js:103-167 | for any completion content, present, empty or missing: the image service is called iff the content, or "No response" in its place, starts with the sentinel, or the message is flagged and an earlier prompt exists |
| ChatProperties.ImagePrompt | api/chat.js:103-111 | for any completion content: the prompt is the enhanced earlier prompt when the message is flagged and an earlier prompt exists (the completion's own prompt is then dropped); otherwise it is the content after the sentinel, trimmed |
| ChatProperties.SentinelImageFailureApologizes | api/chat.js:146-162 | after the sentinel, a failed image call is answered with the apology, which is also the stored turn, with status 200 |
| ChatProperties.HeuristicImageFailureFallsThrough | api/chat.js:164-208 | a failed image call of the heuristic branch is silent: the completion text is the stored turn and the reply |
| ChatProperties.ImagePromptStart | api/chat.js:105-109 | an image prompt does not start with a line terminator |
| ChatProperties.ImageReplyRecovered | api/chat.js:137 | the scan finds a stored image reply's prompt up to its first line terminator |
| ChatProperties.ImageTurnRoundTrip | api/chat.js:132-145 | after a turn that attached an image, the next scan finds its prompt (up to a line terminator), or the earlier prompt when the prompt was empty |
| ChatProperties.FreshImageRequestScenario | server.js:137-182 | an unflagged message whose completion is the sentinel, a space and a prompt, with a working image service, gives the marker reply, the data URI and the prompt |

## Left out

- The chat-completion call, the image-service `fetch` and the `Buffer` base64 encoding are foreign network and library calls. Their results are parameters (`Completion`, `ImageCall`). The request arguments (model name, `max_tokens`, `temperature`, `guidance_scale`, image size) are opaque to them and not modelled. Only the history sent and the image prompt are returned.
- Express routing, static file serving, `app.listen` and the `/generate-image` endpoint are not modelled. The endpoint is a network pass-through with a trivial 400 check.
- `generateSessionId` draws from `Math.random`. Its value is the `generatedId` parameter of `HandleChat`.
- Concurrent requests sharing the session map are not modelled: one turn runs at a time.
- `console.error` logging and the hard-coded image-service credential are not modelled.
- `Js.ToLowerCase` folds ASCII letters only. JavaScript's `toLowerCase` also lowers non-ASCII letters, so `enhanceImagePrompt` on a request with such letters is modelled only for the ASCII part. The regular expressions carry no `u` flag, so their ASCII case folding is exact.
- `Js.IsWhiteSpace` enumerates the space separators of Unicode's Zs category as of the current standard. Future additions to that category are not covered.
- Non-string request fields are not modelled: the request type makes `message` and `sessionId` strings. In the source a numeric `sessionId` behaves differently: `0` is falsy and draws a generated id, and `42` is a map key distinct from `"42"`.
- JavaScript strings are sequences of UTF-16 code units, and a JSON body can carry a lone surrogate. Dafny's `char` is a Unicode scalar value, so such strings are not represented.
- The handler's `messages` array is aliased with the stored history and updated by `push`. The model writes the grown history back into the session map. That is the same observable state, but no JavaScript reference is modelled.
- In `server.js`, `res.json` answers with the default status 200, while `api/chat.js` sets 200 explicitly. The model has one status field.
- `Enhancer.EnhancedPrompt` is not evaluated on the literal requests "make it sparkly" and "make it more colorful". `Enhancer.RequestWithoutKeywordLettersIsAppended` and `Enhancer.MoreColorfulAppendsPhraseTwice` prove the result for every request of those shapes.
