# Math tutor chat: a Dafny model of the conversation core

The application is a single-page chat in which a student sends a math
question. The question is text, an attached image or PDF, or both. The
student gets back a structured answer in three parts: theory, hint and
worked solution. This project models the three pieces of the application
that hold logic:

- **The conversation controller** (`App` module, from `App.tsx`). Its state
  is the transcript, the draft text, the pending file and the loading flag.
  The file-select and clear handlers and the draft edit are pure functions
  over that state. The submit handler is split into two phases:
  - `Begin`: the guard, the file encoding, the user message, the reset of
    the inputs, and the solve call it issues.
  - `Settle`: the answer or apology message and the `finally` that clears
    the loading flag.

  `Submit` composes the two phases. The outcome of the file encoding and
  the outcome of the solve call are inputs. `Run` folds a sequence of user
  events over the state.
- **Request assembly** (`GeminiService`, from `services/geminiService.ts`).
  It checks the API key, builds the ordered `parts` list, applies the
  fallback prompt and rejects an empty reply. The SDK call is a function
  parameter `Request -> Transport`, and so is `JSON.parse`
  (`string -> Option<MathResponseData>`). The result records which request
  went out, if any, and what the call settled to.
- **Bubble view selection** (`MessageBubble`, from
  `components/MessageBubble.tsx`). It maps a message and the bubble's active
  tab to one of three views: a user bubble (image preview, file chip, text),
  the error panel, or the tabbed panel.

Supporting modules:

- `Wrappers`: `Option` and `Result`.
- `Types`: the records of `types.ts`.
- `JsText`: JavaScript's `trim` with its exact whitespace set,
  `startsWith`, and the truthiness of a possibly-undefined string.
- `Session`: lemmas that span modules. They cover the request a submission
  produces and the bubbles a well-formed transcript renders into.

Behaviour of the code worth knowing:

- The parsed reply is not checked for its fields. The code casts the
  result of `JSON.parse` to the answer type. The model cannot express a
  parsed value that lacks `theory`, `hint` or `solution`, because its three
  fields are typed strings. Whatever the parser parameter returns is the
  answer; see the `JSON.parse` line under "Left out".
- The stored error message carries text (the apology string). The bubble
  does not show that text. It shows its own fixed notice.
- The controller does not choose the fallback prompt. It always passes
  the raw draft. The service substitutes the fallback only for the empty
  string. A whitespace-only draft sent with a file goes out unchanged.
- A file whose declared MIME type is empty is still shown in the
  transcript, but it is not sent to the model. The inline part needs a
  truthy MIME type. `Session.StartedSubmissionRequest` states this.

## Model

| member | source | states |
|---|---|---|
| JsText.LeadingWhitespace | App.tsx:39 | Counts the maximal leading whitespace run: every character before the count is whitespace, and the character at the count is not (or the string ends). |
| JsText.TrailingWhitespace | App.tsx:39 | Counts the maximal trailing whitespace run: every character after the cut is whitespace, and the character just before it is not (or the string starts). |
| JsText.Trim | App.tsx:39 | `trim()` returns an infix of the input. Everything outside it is whitespace, and its first and last characters are not whitespace. |
| JsText.BlankIffAllWhitespace | App.tsx:39 | `!input.trim()` holds exactly when every character of the draft is JavaScript whitespace. |
| GeminiService.FinalPrompt | services/geminiService.ts:51-53 | The text sent is never empty. A non-empty prompt, including a whitespace-only one, is sent verbatim. Any other text is the fixed fallback instruction. |
| GeminiService.BuildParts | services/geminiService.ts:38-57 | The list has 1 or 2 parts. The last part is always the text part. The inline-data part appears, first, if and only if both the base64 text and the MIME type are truthy, and it carries exactly those two values. |
| GeminiService.Solve | services/geminiService.ts:25-85 | A missing or empty key fails with no request sent. Otherwise exactly the built request is sent. A transport error, an empty or absent reply, or a parser failure each fails with its own cause. A success happens only when every stage succeeded, and it equals the parse of the reply text. |
| GeminiService.MissingKeyIgnoresBackend | services/geminiService.ts:31-34 | Without a key the outcome does not depend on the model or the parser. |
| App.Blocked | App.tsx:39 | The submit guard holds exactly when the draft is all whitespace and no file is pending, or when a request is in flight. |
| App.PromptOf | App.tsx:73 | The fallback to `""` passes a defined text on unchanged, the empty one included. Only an undefined text becomes the empty prompt. |
| App.SelectFiles | App.tsx:24-28 | An empty file list changes nothing. Otherwise the first file becomes the pending one. Transcript, draft and flag are unchanged. |
| App.ClearFile | App.tsx:30-35 | The pending file becomes null, and nothing else changes. |
| App.EditInput | App.tsx:200 | The draft becomes the typed text, and nothing else changes. |
| App.UserMessage | App.tsx:56-63 | The message has the user role, the given id and the untrimmed draft. File name and MIME type are present exactly when a file is. The preview is present exactly for `image/` types and is then the encoded file. There are no data and no error flag. |
| App.Begin | App.tsx:37-73 | It is ignored exactly when the guard holds. It aborts exactly when a pending file fails to encode. Otherwise it appends one user message and keeps the old transcript as a prefix. It clears the draft and the file, sets loading, and calls solve with the raw draft and, when a file was pending, its encoding and type. |
| App.BotMessage | App.tsx:75-89 | The message has the model role and no file fields. On success it carries exactly the returned data. On failure it carries the error flag and the apology text, and no data. |
| App.Settle | App.tsx:81-93 | It appends exactly one model message and keeps the transcript as a prefix. Loading ends false. The draft and the pending file are untouched. |
| App.Submit | App.tsx:37-94 | No call is made exactly when the guard or the encoding stops the submission, and then the state is unchanged. Otherwise exactly two messages are appended, user then model. The prompt is the draft, loading ends false, and the inputs end empty. |
| App.SubmitAppends | App.tsx:65-90 | A submission that made its call appends the user message `Begin` built, then the model message for the outcome. |
| App.Step | App.tsx:24-94 | Each event goes to its handler: `EditInput`, `SelectFiles`, `ClearFile` or `Submit`. No event removes or rewrites a transcript entry, and none adds more than two. |
| App.Run | App.tsx:24-94 | The events are applied in order. The transcript is append-only: the old entries stay unchanged and in place, and each event adds at most two. |
| App.InitialIsIdle | App.tsx:9-12 | The mounted state is idle with an empty transcript. |
| App.SubmitKeepsIdle | App.tsx:37-94 | A submission from an idle, well-formed state ends idle and well-formed: roles alternate user/model, and model entries carry either data or the error flag with the apology. |
| App.RunKeepsIdle | App.tsx:24-94 | Any sequence of edits, file selections, clears and submissions from an idle state ends idle, with the transcript alternating user/model. |
| App.SubmitKeepsIdsDistinct | App.tsx:57-86 | With two fresh, different ids, a submission keeps all transcript ids pairwise distinct. |
| App.ClearUndoesSelect | App.tsx:24-35 | Selecting files and then clearing gives the same state as clearing alone. |
| App.ClearedFileIsNotSent | App.tsx:42-63 | After a clear, the next submission sends no file and its user message has no file name or preview. |
| MessageBubble.Render | components/MessageBubble.tsx:10-136 | A user role gives the user bubble. A model message with the error flag gives the fixed error panel. Anything else gives three tab buttons in order, with only the active one highlighted. The preview appears exactly when the image is truthy, and it is then `DataUrl` of the message's MIME type and image. The file chip appears exactly when the file name is truthy and the image is not, so it never appears with the preview. There are sections only when data is present: each shows its field and is visible exactly when it is the active tab. |
| MessageBubble.DataUrl | components/MessageBubble.tsx:25 | The preview `src` is `data:`, the interpolated MIME type (`Interpolate`, where an undefined value prints as `undefined`), `;base64,` and the payload, each at a fixed offset, so both fields can be read back. |
| MessageBubble.Visible | components/MessageBubble.tsx:104-120 | Keeps exactly the sections with the `block` class rather than `hidden`: every kept section is visible and comes from the list, and every visible section is kept. |
| MessageBubble.ActiveTab | components/MessageBubble.tsx:12-87 | The tab state starts at theory. Each click (`ClickTab`, the `setActiveTab` of the button) sets it to that button's own tab, so after any clicks it is the last button clicked. |
| MessageBubble.ExactlyOneSectionVisible | components/MessageBubble.tsx:102-130 | With data present, the visible sections are exactly one: the active tab's, with that tab's field. |
| MessageBubble.FreshBubbleShowsTheory | components/MessageBubble.tsx:12 | A bubble with data that no one has clicked shows the theory section. |
| MessageBubble.ClickShowsItsSection | components/MessageBubble.tsx:62-97 | After any non-empty sequence of clicks, the only visible section is the last clicked tab's, whatever was clicked before it. |
| MessageBubble.NoDataNoSection | components/MessageBubble.tsx:59-102 | A non-error model message without data shows the tab bar and no visible section. |
| MessageBubble.ErrorPanelIgnoresContent | components/MessageBubble.tsx:54-57 | Every error message renders the same fixed panel, whatever its stored text, data or active tab. |
| Session.StartedSubmissionRequest | App.tsx:42-73 | With a key, a started submission sends the draft (or the fallback) as the last part. The file part comes first exactly when a file was pending with a non-empty encoding and a non-empty declared type. |
| Session.ImageWithoutText | App.tsx:56-73 | An image sent with an empty draft is previewed and named in the user message. The parts are the image followed by the fallback prompt. |
| Session.FailureShowsErrorPanel | App.tsx:83-93 | Any solve failure ends the cycle not loading, and the newest bubble is the error panel. |
| Session.TranscriptRendersCleanly | App.tsx:143-145 | In an idle state every user bubble's preview names the file's real MIME type, never `undefined`. Every model bubble is the error panel or a tabbed panel with exactly one visible section. |

## Left out

- `components/MathRenderer.tsx` sets `innerHTML` and calls the global MathJax typesetter. That is a DOM effect with no logic of its own, so a section's content is modelled as the string handed to it.
- The Gemini SDK call, the response schema, the system instruction and the temperature are not modelled. They are foreign code and network I/O. The call is a function parameter that replies or fails.
- `JSON.parse` is a parameter that either yields a `MathResponseData` or fails. A parse that succeeds with a non-object value (such as `null`) or with missing fields cannot be represented, because the three fields are typed strings. The code passes such values through unchecked.
- `fileToBase64` and `generateId` come from `utils/fileUtils`, which is not part of this model. An encoding is an input outcome (`Encoded` or `EncodeFailed`), and ids are input strings.
- The DOM reset of the file input's `value` is not modelled. Neither are JSX, styling, scrolling, the `alert` and `console` calls, the Enter-key handler, the suggestion buttons, the empty-state screen and the footer's pending-file chip. All of this is presentation.
- Async interleaving and React's batching of state updates are not modelled: each submission is one atomic step. In the source, the loading flag is still false while `fileToBase64` is pending, so a second submit in that window would pass the guard. The atomic model cannot express that window.
- A `null` file list and an empty one are the same input to `App.SelectFiles`.
- A `role` string other than `user` or `model` cannot occur in the model, because `Role` has two constructors. `MessageBubble.Render` still states that every non-user role takes the model branch.
- Strings are sequences of Unicode scalar values, not UTF-16 code units. Every character that `trim` removes lies in the Basic Multilingual Plane, so the guard is unaffected.
