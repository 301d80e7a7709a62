# Chat view of the AI assistant front end

This project models the chat view of a single-page AI assistant: the React component in
`app.jsx`. It holds the conversation, the text input and three flags: `loading`, `darkMode` and
`isListening`. Its handlers are:

- submit a question and read the streamed reply;
- upload a file and announce its extracted text;
- start speech recognition and take its transcript;
- toggle the colour theme.

The project has three modules:

- `JsString` (`js_string.dfy`) models the JavaScript string operations the view relies on:
  `split` on one character, `startsWith`, `includes` and `trim` (with the white-space set of
  `String.prototype.trim`). It also defines `Join`, which the view never calls. It is there only
  as the inverse against which `Split` is pinned down (`JoinSplit`, `SplitJoin`).
- `Frames` (`frames.dfy`) models the streamed-reply rule as pure functions:
  - each decoded chunk is cut at `'\n'`;
  - a line is accepted when it starts with `data:`, contains no `[DONE]` anywhere, and its payload
    parses;
  - an accepted line contributes `choices[0]?.delta?.content || ''`;
  - the reply is the in-order concatenation of those tokens (`Reply`).
- `Chat` (`chat_view.dfy`) has the class `ChatView`, whose fields are the component's state. Each
  handler is a method with `modifies` and an `ensures` that states the whole new state. The
  submit handler is `Submit`, built from:
  - `Send`: the guard, the user message, the cleared input and the request body;
  - `OpenReply`: the empty assistant message;
  - `ReceiveStream`, `ReceiveChunk` and `ReceiveLine`: the read loop and the per-line loop;
  - `Finish`: the `catch` and `finally` blocks.

  The streaming methods are proved against `Frames.Reply`.

Abstractions:

- `JSON.parse` plus the `choices[0]?.delta?.content` lookup is a parameter
  `parse: string -> Option<Field>`. `None` means the expression threw. A `Field` is absent, a
  string, or some other JSON value with its string form and truthiness.
- The network's behaviour is a parameter:
  - `ChatOutcome` is either `ConnectFailed` or `Streamed(chunks, broken)`.
    - `ConnectFailed` means anything thrown before the empty assistant message goes in: `fetch`,
      or `getReader` on a response without a body.
    - `Streamed` carries the decoded chunks, and whether reading then threw.
  - `UploadOutcome` is either `UploadFailed` or `Uploaded(text)`.
    - `UploadFailed` means the request threw, `res.json()` threw, or the `text` lookup threw on a
      JSON `null`.
    - In `Uploaded(text)`, `text` is absent when the JSON has no `text` field.
- Whether a speech recogniser exists is a constant `hasRecognizer`, fixed at construction.

## Model

| member | source | states |
|---|---|---|
| JsString.Split | app.jsx:63 | `split('\n')` always yields at least one piece and no piece contains the separator |
| JsString.JoinSplit | app.jsx:63 | joining the pieces of a split with the separator gives back the chunk: splitting loses no character |
| JsString.SplitJoin | app.jsx:63 | separator-free pieces joined and split again give back the same pieces, so the lines of a chunk are exactly its newline-separated parts |
| JsString.SplitAtSeparator | app.jsx:63 | splitting `x + sep + y` gives the pieces of `x` followed by the pieces of `y` |
| JsString.SplitCount | app.jsx:63 | a chunk with n newlines gives n + 1 lines, empty ones included |
| JsString.Join | app.jsx:63 | `pieces.join(sep)`; not called by the view, it is the inverse that `JoinSplit` and `SplitJoin` relate `Split` to |
| JsString.StartsWith | app.jsx:66 | `s.startsWith(prefix)`: the prefix fits and the first characters of `s` are exactly the prefix |
| JsString.Includes | app.jsx:66 | `s.includes(sub)`: `sub` is a prefix of `s` or of some suffix of it; `IncludesIff` relates it to an occurrence at an index |
| JsString.IncludesIff | app.jsx:66 | `includes` holds exactly when the substring occurs at some index |
| JsString.NotIncludesWithoutChar | app.jsx:66 | a line lacking any one character of `[DONE]` does not include it |
| JsString.TrimStart | app.jsx:35 | the result is a suffix of the input; everything removed is white space; the result does not start with white space |
| JsString.TrimEnd | app.jsx:35 | the result is a prefix of the input; everything removed is white space; the result does not end with white space |
| JsString.Trim | app.jsx:35 | `s.trim()`: leading white space removed by `TrimStart`, then trailing white space by `TrimEnd` |
| JsString.TrimEmptyIff | app.jsx:35 | `input.trim()` is empty exactly when every character of the input is white space |
| Frames.Truthy | app.jsx:69 | JavaScript truthiness of the looked-up `content`: absent is falsy, a string is truthy when non-empty, another value carries its own truthiness |
| Frames.TokenOf | app.jsx:69 | `content \|\| ''`: a missing or falsy content gives `""`; a string gives itself; a truthy non-string gives its string form |
| Frames.Payload | app.jsx:68 | `slice(5)` on a `data:` line is what follows the prefix: prefix + payload is the line |
| Frames.IsDataLine | app.jsx:66 | the line guard: the line starts with `data:` and does not include `[DONE]` |
| Frames.LineToken | app.jsx:66-76 | the token a line contributes: `None` when the guard fails or parsing the payload throws (the empty `catch`), otherwise `TokenOf` of the parsed field; `LineAccepted` states it in raw terms |
| Frames.LineAccepted | app.jsx:66-69 | a line yields a token exactly when it is at least 5 long, begins with `data:`, has `[DONE]` at no position and its payload parses; the token is then `TokenOf` of the parsed field |
| Frames.TokensOf | app.jsx:66-76 | a line's contribution as a run of tokens: none for a skipped line, one for an accepted line |
| Frames.AcceptedTokens | app.jsx:65-78 | the accepted tokens of the lines, one at most per line |
| Frames.Lines | app.jsx:58-65 | the lines read from a run of chunks, at least one per chunk |
| Frames.Concat | app.jsx:54-70 | `reply`, starting from `''` and extended by `reply += token`: the tokens appended in order; `ConcatAppend` is its law |
| Frames.Reply | app.jsx:54-79 | the value of `reply` after reading the given chunks: the concatenated tokens of the accepted lines of all chunks, in order; `ReceiveStream` is proved to compute it |
| Frames.AcceptedTokensAppend | app.jsx:65-78 | the tokens of two runs of lines are the tokens of the first followed by those of the second, so the lines are processed in order and independently |
| Frames.ConcatAppend | app.jsx:70 | `reply += token` over two runs of tokens concatenates their texts |
| Frames.LinesAppend | app.jsx:58-63 | the lines of two runs of chunks are the lines of the first run followed by those of the second; no line spans two chunks |
| Frames.LineContribution | app.jsx:65-78 | each line contributes exactly its own token, if any, between the text of the lines before and after it |
| Frames.SkippedLineIgnored | app.jsx:66-76 | a line that fails the guard or whose payload fails to parse can be removed without changing the reply: the loop goes on past it |
| Frames.DoneLineDoesNotEndStream | app.jsx:66 | a line containing `[DONE]` adds nothing, and the lines after it are still read |
| Frames.ReplyStep | app.jsx:58-79 | reading one more chunk extends the reply by exactly that chunk's accepted tokens |
| Frames.TokensStep | app.jsx:65-77 | one more line of a chunk extends the accepted tokens by that line's token, if any |
| Frames.ReplyLineStep | app.jsx:65-77 | one more line extends the running reply by its token, and leaves "no line accepted yet" true only when the line is skipped |
| Frames.ChunkBoundaryAfterNewline | app.jsx:62-66 | cutting a chunk into two right after a newline leaves the reply unchanged: the extra empty line is skipped |
| Frames.FrameSplitInPrefixIsLost | app.jsx:62-66 | a parseable frame that arrives whole contributes its token, but the same frame cut by a chunk boundary inside `data:` contributes nothing, because partial lines are not buffered across chunks |
| Frames.ReplyOfOneLine | app.jsx:63-70 | a chunk that is a single line without a newline yields exactly that line's token |
| Frames.WholeFrameKept | app.jsx:66-70 | a `data:` frame without `[DONE]`, arriving whole, contributes its parsed content |
| Frames.CutFrameHalves | app.jsx:63-66 | both halves of a frame cut inside its `data:` prefix fail the line guard |
| Frames.ThreeLineChunk | app.jsx:63 | a chunk of three newline-terminated lines splits into those lines and a final empty one |
| Frames.ExampleLineTokens | app.jsx:66-69 | two content frames yield their tokens; the `data: [DONE]` frame and the empty line yield none |
| Frames.TwoTokensThenSkipped | app.jsx:65-78 | two accepted lines followed by two skipped ones give the two tokens concatenated |
| Frames.HelloStream | app.jsx:58-79 | the chunk `data: …"He"…`, `data: …"llo"…`, `data: [DONE]`, each newline-terminated, gives the reply `Hello` |
| Chat.CanSubmit | app.jsx:35 | the submit guard passes: the input is not all white space (so `input.trim()` is non-empty, by `TrimEmptyIff`) and no reply is loading |
| Chat.SetLast | app.jsx:71-75 | only the last message changes: the same length, every earlier message unchanged, the last keeps its role and takes the new content |
| Chat.SetLastTwice | app.jsx:71-75 | overwriting the last content twice leaves only the second write, so each update shows the whole reply so far |
| Chat.SetLastAppended | app.jsx:56-75 | overwriting the placeholder appended after a conversation gives that conversation plus an assistant message with the new content |
| Chat.Shown | app.jsx:104 | how the template literal shows `data.text`: the text itself, or `undefined` when the field is absent |
| Chat.UploadText | app.jsx:104 | the upload announcement: the fixed lead, the file name, the fixed middle, the shown text and the fixed tail |
| Chat.UploadTextQuotes | app.jsx:104 | the upload announcement includes both the file name and the returned text |
| Chat.ChatView.Valid | app.jsx:5-7 | the conversation is never empty: it starts with the greeting and every handler only appends to it or rewrites its last message |
| Chat.ChatView.constructor | app.jsx:5-11 | the conversation is the greeting alone; the input is empty; every flag is false |
| Chat.ChatView.EditInput | app.jsx:179 | the input becomes the typed text |
| Chat.ChatView.Send | app.jsx:35-49 | a request is sent exactly when the trimmed input is non-empty and not loading. Otherwise nothing changes. On a send, the request carries the input and the conversation from before the update, one user message is appended, the input is cleared and `loading` is set |
| Chat.ChatView.OpenReply | app.jsx:56 | exactly one empty assistant message is appended |
| Chat.ChatView.ReceiveLine | app.jsx:66-77 | the reply grows by the line's token, if any; an accepted line overwrites the last message's content with the new reply; a skipped line changes nothing |
| Chat.ChatView.ReceiveChunk | app.jsx:62-78 | after a chunk the reply has grown by that chunk's accepted tokens. The conversation is unchanged if none was accepted, and otherwise differs only in the last content, which is the new reply |
| Chat.ChatView.ReceiveStream | app.jsx:52-79 | after all chunks the reply is `Reply(parse, chunks)`, and the conversation is the earlier one plus one assistant message holding that reply |
| Chat.ChatView.Finish | app.jsx:80-87 | on a thrown error exactly one connect-failure message is appended; `loading` always ends false |
| Chat.ChatView.Submit | app.jsx:33-88 | the whole submit handler: the guard as in `Send`; if `fetch` or `getReader` throws, the user message then the failure message; if the stream is read, the user message, the assistant message holding the reply, and the failure message when reading threw; `loading` ends false; the request carries the pre-submit input and conversation |
| Chat.ChatView.UploadFile | app.jsx:90-111 | no file: nothing changes; success: one assistant message with the name and the text in the fixed template, the text shown as `undefined` when absent; failure: one read-failure message |
| Chat.ChatView.StartListening | app.jsx:114-119 | listening starts exactly when a recogniser exists and it is not already listening |
| Chat.ChatView.Recognized | app.jsx:22-25 | the transcript replaces the input and listening is left as it was |
| Chat.ChatView.RecognitionEnded | app.jsx:27-29 | listening stops |
| Chat.ChatView.ToggleTheme | app.jsx:136 | the theme flips |
| Chat.ToggleThemeTwice | app.jsx:136 | toggling twice restores the theme and leaves the conversation and input untouched |
| Chat.DictateOver | app.jsx:22-119 | start listening, a result and the end: the transcript replaces what was typed and listening has stopped |

## Left out

- The HTTP requests (`fetch`, the request headers, `FormData`) and the response reader. Their outcomes are method parameters (`ChatOutcome`, `UploadOutcome`). The request body is the `Request` value that `Send` returns; its JSON encoding is not modelled.
- `TextDecoder.decode` is a foreign library. Chunks arrive already decoded, one string per read.
- JSON parsing and the property lookup on the parsed value are foreign. They are the `parse` parameter, and JavaScript's string conversion of a non-string `content` is a field of its result.
- Strings are sequences of Unicode scalar values rather than UTF-16 code units. Only `'\n'`, `data:`, `[DONE]` and white space are inspected, so no UTF-16 surrogate can match any of them.
- The browser's speech-recognition engine and its feature detection are an environment capability. They are the constant `hasRecognizer`. The recogniser's `continuous`/`interimResults` settings and the `start()` call have no modelled state.
- Rendering is presentation, not state: the JSX, CSS classes, the "Thinking..." indicator and scrolling to the bottom.
- Handlers are atomic and sequential. React's batching of state updates, its asynchronous scheduling and two overlapping submits are not modelled.
- The `disabled` attributes on the input and the button are not preconditions. The guard in `Send` handles a submit while loading, as the handler itself does.
- UploadFile: a `text` field that is present but not a string (a number, `null`) is not distinguished. The template's string conversion of such values is not modelled; only absence, rendered as `undefined`, is.
- A read that throws after some chunks is modelled as the chunks read so far plus `broken`. A throw in the middle of a chunk is not separately modelled, since the loop handles a whole chunk synchronously.
- `vite.config.js` is bundler configuration with no logic, and it is not part of this model.
