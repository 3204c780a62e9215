# Chat widget of the college chatbot extension, in Dafny

The extension's content script (`content.js`) injects a chat widget into every
page. This project models the two parts of it that have real logic:

- **Rendering message text.** Every regular message is decoded repeatedly with
  the browser's HTML-entity decoder. Decoding stops once a pass changes
  nothing, or after five passes. The decoded text then goes through six global
  regular-expression substitutions, in a fixed order:
  - `**x**` and `__x__` become bold;
  - `*x*` and `_x_` become italic;
  - a literal backslash-`n` becomes a line break;
  - a non-empty `"x"` becomes a highlighted span.

  The substitutions follow JavaScript's `replace` semantics: the scan runs left
  to right and matches do not overlap. A lazy `(.*?)` takes the shortest match
  and does not cross a line terminator.
- **The widget's state machine.** The model covers:
  - opening the widget, which starts a session if none exists;
  - closing it;
  - sending the typed text;
  - clicking a quick reply;
  - the two backend calls, a session start and a chat query.

  Each handler runs to completion. The backend's answer is an abstract
  `Outcome`:
  - the fetch itself failed;
  - the response was not ok, and its body was read as text;
  - reading the body failed;
  - the body was received and parsed.

Modules:

| file | module | what it holds |
|---|---|---|
| `basics.dfy` | `Basics` | `Option` |
| `jstext.dfy` | `JsText` | line terminators, `String.prototype.trim`, decimal printing of a status code |
| `markup.dfy` | `Markup` | the six substitutions as functions over `seq<char>`, and their properties |
| `unescape.dfy` | `Unescape` | the bounded decode loop, as a function and as the source's `while` loop |
| `backend.dfy` | `Backend` | the outcomes of the two backend calls, the fixed strings and the error messages |
| `chat.dfy` | `Chat` | the widget state as a value: one function per helper and handler, and the lemmas |
| `widget.dfy` | `Widget` | the widget as an object (`ChatWidget`), with the script's variables as fields |

Each `ChatWidget` method is proved to move the object exactly where the
matching `Chat` function moves its state value. The `Chat` lemmas therefore
hold of the object as well.

The state value keeps a ghost `trace` of observable steps:
- entries added and removed;
- quick replies removed;
- controls toggled;
- requests issued.

The trace records the order in which a handler acts. For example, the typing
indicator is removed before the reply is appended.

Two facts about the code are worth knowing:

- User text goes through the same unescape-and-markup pipeline as bot text
  (content.js:249 adds the typed text as a regular message).
- Between handlers, the two controls are enabled exactly when a session is
  active (`ControlsFollowSession`). This holds only because a session start
  runs only when no session exists.

## Model

| member | source | states |
|---|---|---|
| JsText.TrimStart | content.js:247 | the result is a suffix of the input; everything cut off is whitespace or a line terminator; the result does not start with one |
| JsText.TrimEnd | content.js:247 | the result is a prefix of the input; everything cut off is whitespace or a line terminator; the result does not end with one |
| JsText.Trim | content.js:247 | `String.prototype.trim`; specified by `TrimIsMaximalSlice` and `TrimEmptyIff` |
| JsText.TrimIsMaximalSlice | content.js:247 | `trim` leaves a contiguous slice of the input; the slice is bounded by non-whitespace characters and everything outside it is whitespace |
| JsText.TrimEmptyIff | content.js:247-248 | trimmed text is empty exactly when every character is whitespace, so exactly such input is ignored |
| JsText.Decimal | content.js:109 | the status code spliced into an error message is its shortest decimal form: digits only, no leading zero, reading back as the number |
| Markup.ScanEnd | content.js:42-47 | searching from a position finds the least closing position of the pattern, or reports that none exists |
| Markup.MatchEnd | content.js:42-47 | the match anchored at a position closes at the least possible position (lazy group); there is no match exactly when no closing position exists |
| Markup.ReplaceSpans | content.js:42-47 | one wrapping substitution with the global flag; specified by `ReplaceAtMatch` (a span matches here) and `CopyStep` (none does, including a delimiter nobody closes), lifted along the text by `SpansAfterPlainPrefix`, `SpanReplaced` and `SpanReplacedAfter` |
| Markup.ReplaceLiteral | content.js:46 | one step of the literal replacement: at an occurrence of the pattern the output starts with the replacement, elsewhere the first character is copied; every input splits into a stretch without an occurrence (`LiteralAfterPlainPrefix`) and an occurrence (`LiteralAtStart`), so these two fix the whole result |
| Markup.Render | content.js:41-47 | the six substitutions in source order; specified by `RenderAfterBold`, `RenderPlainText` and `BoldBeforeItalic` |
| Markup.CopyStep | content.js:42-47 | where no span matches (no delimiter, or one that opens a span nobody closes), the global replace copies one character and moves on |
| Markup.SpansAfterTriggerFree | content.js:42-47 | text without the delimiter's first character has no match at any position, so it is copied unchanged and the replacement continues on the rest |
| Markup.UnclosedStarCopied | content.js:44 | the lone `*` of `5 * 3` opens no italic span, and the text comes through unchanged |
| Markup.UnclosedQuoteCopied | content.js:47 | the unclosed quote of `He said "hi` highlights nothing, and the text comes through unchanged |
| Markup.SpansAfterPlainPrefix | content.js:42-47 | text at none of whose positions a span matches (unclosed delimiters included) is copied unchanged, and the replacement continues on the rest |
| Markup.SpanReplacedAfter | content.js:42-47 | a span anywhere after delimiter-free text is wrapped in place: `a D x D t` becomes `a open x close` followed by the replacement of `t` |
| Markup.LiteralAtStart | content.js:46 | an occurrence of the pattern is replaced and the scan resumes right after it |
| Markup.LiteralAfterPlainPrefix | content.js:46 | text at none of whose positions the pattern occurs is copied unchanged, and the replacement continues on the rest |
| Markup.LineBreakReplaced | content.js:46 | each backslash-`n` after text without one becomes `<br>` in place (a stray backslash before it is kept), and the scan goes on after it |
| Markup.NoLineBreakBefore | content.js:46 | a trailing backslash of the text before an occurrence does not pair with the occurrence's backslash |
| Markup.StrayBackslashKept | content.js:46 | `\x\n` keeps its `\x` and only the backslash-`n` becomes `<br>` |
| Markup.ReplaceAtMatch | content.js:42-47 | at a match, the global replace emits open tag, group, close tag, and resumes after the closing delimiter |
| Markup.SpanMatchEnd | content.js:42-47 | in `D x D t` with `x` admitted and free of `D`, the match closes right after `x` |
| Markup.SpanReplaced | content.js:42-47 | `D x D t` becomes `open x close` followed by the replacement of `t` |
| Markup.ApplyWithoutTrigger | content.js:42-47 | a substitution leaves unchanged any text lacking the first character of its pattern |
| Markup.ApplyAllWithoutTriggers | content.js:41-47 | a chain of substitutions leaves unchanged text that lacks all their first characters |
| Markup.RenderPlainText | content.js:41-47 | text with none of `*`, `_`, backslash or `"` is rendered unchanged |
| Markup.QuotedEndUnique | content.js:47 | the quoted pattern has at most one closing position, so greedy `[^"]+` and the least match agree |
| Markup.QuotedHighlighted | content.js:47 | a non-empty quoted run without inner quotes is wrapped in `<mark>"…"</mark>` |
| Markup.EmptyQuotesNotHighlighted | content.js:47 | an empty pair `""` is not highlighted: the first quote is copied and the scan moves on |
| Markup.NoEscapeAfterLineBreak | content.js:46 | after the line-break step, no literal backslash-`n` is left |
| Markup.LiteralAbsentUnchanged | content.js:46 | a literal replacement leaves unchanged text with no occurrence of its pattern |
| Markup.LineBreakIdempotent | content.js:46 | applying the line-break step twice equals applying it once |
| Markup.RenderAfterBold | content.js:41-42 | rendering is the `**` step followed by the other five, in order |
| Markup.BoldSpan | content.js:42 | `**x**`, with `x` free of `*` and line terminators, becomes `<strong>x</strong>` |
| Markup.BoldBeforeItalic | content.js:42-44 | because bold runs first, plain `**x**` renders as `<strong>x</strong>`, not as emphasis |
| Unescape.PassesFrom | content.js:11-18 | the loop stops at most at pass 5; every pass before the stopping pass changed the text; stopping before 5 means the last pass changed nothing |
| Unescape.Passes | content.js:8-11 | at most five passes; no pass at all exactly when the input is empty, since it equals the initial `previousString` |
| Unescape.Unescaped | content.js:7-19 | the input decoded `Passes` times; specified by the `Passes` lemmas below and computed by `FullyUnescape` |
| Unescape.FullyUnescape | content.js:7-19 | the loop returns the input decoded exactly `Passes` times |
| Unescape.EarlyStopIsFixedPoint | content.js:11-18 | on an early stop the result is a fixed point of the decoder |
| Unescape.NoPrematureStop | content.js:11-17 | every pass before the last one changed the text |
| Unescape.DecodedTextUnchanged | content.js:11-18 | text the decoder leaves alone comes back unchanged, after exactly one pass |
| Unescape.NeverStableGivesFivePasses | content.js:11 | text whose decoding never settles is decoded exactly five times |
| Backend.QueryErrorMessage | content.js:107-110 | the `message` a failed query is caught with: the fetch's own message, `API error: ` with status, status text and body, or the body-reading error; see `QueryReplyText` |
| Backend.SessionErrorMessage | content.js:157-163 | the `message` a failed session start is caught with, including the fixed text for a missing `session`; see `StartWithBaseUrl` |
| Backend.SessionEstablished | content.js:157-163 | the session start succeeds exactly when the response is ok, its body parses and its `session` is truthy; `StartWithBaseUrl` states that success and the stored session follow it |
| Backend.OrElse | content.js:113 | `value || fallback` for a string: a missing or empty value gives the fallback; its uses are stated by `QueryReplyText` and `SessionDefaults` |
| Backend.ListOrElse | content.js:114 | `value || fallback` for an array: any array given, even an empty one, is kept; stated by `QueryReplyText` and `SessionDefaults` |
| Chat.AddMessage | content.js:38-73 | appends one regular message, its text unescaped and marked up; specified by `Widget.ChatWidget.AddMessage` and the handler lemmas |
| Chat.ClearReplies | content.js:63 | the quick-reply buttons of one entry are removed; `QuickReplyFirstEchoes` states where this falls among the click's steps |
| Chat.QueryText | content.js:113-122 | the text of the reply to a query: the response or the apology, or `Error: ` and the message; stated by `QueryReplyText` |
| Chat.QueryButtons | content.js:114-122 | the reply's quick replies: those received, none when absent, none on failure; stated by `QueryReplyText` |
| Chat.SessionText | content.js:166-187 | the text of the session start's reply: the welcome or the default greeting, or the `Error starting chat:` text; stated by `SessionDefaults` and `StartWithBaseUrl` |
| Chat.SessionButtons | content.js:167-187 | the quick replies under the welcome: those received or the four default topics, none on failure; stated by `SessionDefaults` |
| Chat.InitialValid | content.js:4-5 | the injected widget is idle, has no session, and has both controls disabled, so it meets `Valid` and `ControlsFollowSession` |
| Chat.ShowTyping | content.js:31-36 | appends an indicator under a fresh id; specified by `HideShown` |
| Chat.HideTyping | content.js:101-105 | the indicator lookup and removal; specified by `HideShown` and `HideTypingIdempotent` |
| Chat.SendBotRequest | content.js:76-128 | the chat query; specified by `SendWithoutSession`, `SendWithSession`, `SendAppendsOne` and `QueryStepsSend` |
| Chat.Answer | content.js:101-122 | the part of a query after the request; specified by `AnswerAppendsReply` |
| Chat.InitializeChatSession | content.js:130-192 | the session start; specified by `StartWithoutBaseUrl`, `StartWithBaseUrl`, `StartSteps` and `StartKeepsValid` |
| Chat.Conclude | content.js:151-190 | the part of a session start after the request; specified by `ConcludeAppendsReply` |
| Chat.OpenChat | content.js:225-236 | the icon's click handler; specified by `OpenChatActs`, `WidgetKeepsValid` and `OpenCloseKeepControls` |
| Chat.CloseChat | content.js:240-244 | the close button's click handler; specified by `CloseKeepsSession` |
| Chat.HandleSendMessage | content.js:246-252 | the send handler; specified by `SendBlankIgnored` and `SendTypedText` |
| Chat.SendIfEnabled | content.js:254-259 | the send button's click and Enter key both send only while the button is enabled; specified by `SendKeepsValid` and `SendKeepsControls` |
| Chat.ClickQuickReply | content.js:61-64 | the quick-reply click handler; specified by `QuickReplyFirstEchoes` |
| Chat.QuerySteps | content.js:80-127 | the steps of a query in order; see `SendAppendsOne` |
| Chat.QueryStepsSend | content.js:91-99 | a query issues a request exactly when a session is active, and the request carries the current session and exactly the text given |
| Chat.FirstIndex | content.js:101-104 | the lookup by id finds the first entry with that id |
| Chat.RemoveFirst | content.js:101-104 | removing the indicator deletes exactly its first occurrence, or nothing if it is not shown |
| Chat.RemoveAppended | content.js:89 | removing a just-appended indicator gives back the transcript as it was |
| Chat.HideShown | content.js:101-105 | hiding right after showing removes exactly that indicator and forgets its id; the second lookup (content.js:117-121) does nothing |
| Chat.HideTypingIdempotent | content.js:117-121 | hiding twice is hiding once; hiding removes only an indicator entry and forgets the id |
| Chat.SendWithoutSession | content.js:80-83 | with no session: exactly one bot entry ("Session not active…"); no request, no indicator, controls untouched |
| Chat.AnswerAppendsReply | content.js:101-122 | once the indicator is gone for good, every outcome appends exactly its reply entry |
| Chat.SendWithSession | content.js:85-127 | with a session, in order: disable controls, show indicator, issue the query with the current session, remove the indicator, append the reply, enable controls, whatever the outcome; no indicator is left |
| Chat.QueryReplyText | content.js:109-122 | a missing or empty `response` gives the fixed apology; failures show `Error: ` and the message (with status, status text and body for a non-ok response) and no quick replies |
| Chat.StartWithoutBaseUrl | content.js:131-137 | with no base URL: the configuration message, controls disabled, no request, result false |
| Chat.StartWithBaseUrl | content.js:139-191 | success exactly on an ok response with a truthy `session`, which is then stored and leaves the controls enabled; otherwise the session is unchanged and the controls end disabled |
| Chat.StartSteps | content.js:139-191 | in order: disable controls, show indicator, issue the session request, remove the indicator, append the reply, set the controls; no indicator is left |
| Chat.ConcludeAppendsReply | content.js:151-190 | once the indicator is gone for good, a session start appends exactly its reply and stores the session only on success |
| Chat.SessionDefaults | content.js:166-173 | a missing welcome gives the fixed greeting; missing `quick_replies` gives the four topics in order; given replies are kept, even an empty list |
| Chat.OpenChatActs | content.js:225-236 | opening acts only on a hidden widget and starts a session only when none is active |
| Chat.CloseKeepsSession | content.js:240-244 | closing hides the widget and changes nothing else: session, indicator id, controls, input text, transcript, base URL, id counter and trace are all kept |
| Chat.SendAppendsOne | content.js:76-128 | with or without a session, a query keeps the earlier transcript, extends the trace by exactly `QuerySteps`, appends exactly one entry, and keeps the session and the invariant |
| Chat.SendBlankIgnored | content.js:247-248 | blank typed text changes nothing |
| Chat.EchoThenSend | content.js:249-251 | the echoed user entry comes first in the trace, followed by exactly the steps of the query for the same text; the input box is cleared, and the query's entry follows the echo |
| Chat.SendTypedText | content.js:246-252 | non-blank text is trimmed and appended as a user entry; then come exactly the steps of the query for the trimmed text, which `QueryStepsSend` shows is the text sent; the input is cleared |
| Chat.QuickReplyFirstEchoes | content.js:61-64 | a click appends a user entry with the button's caption, then removes that entry's buttons, then takes exactly the steps of the query for the caption |
| Chat.StartKeepsValid | content.js:130-192 | a session start leaves no indicator behind and never stores an empty session id |
| Chat.WidgetKeepsValid | content.js:225-244 | opening and closing keep that invariant |
| Chat.SendKeepsValid | content.js:246-259 | sending by button or by Enter keeps that invariant |
| Chat.OpenCloseKeepControls | content.js:225-236 | between handlers, opening and closing keep the controls enabled together and exactly when a session is active |
| Chat.SendKeepsControls | content.js:123-127 | sending by button, by Enter or by quick reply keeps the controls enabled together and exactly when a session is active |
| Widget.ChatWidget.constructor | content.js:2-5 | injection starts hidden, with no session and no indicator, both controls disabled and nothing shown |
| Widget.ChatWidget.AddMessage | content.js:21-74 | appends one message whose HTML is the marked-up, fully unescaped text |
| Widget.ChatWidget.ShowTyping | content.js:31-36 | appends an indicator under a fresh id and remembers the id |
| Widget.ChatWidget.HideTyping | content.js:101-105 | removes the remembered indicator if it is shown and forgets its id; otherwise does nothing |
| Widget.ChatWidget.SetControls | content.js:85-86 | sets both `disabled` flags |
| Widget.ChatWidget.Issue | content.js:97-99 | records the request sent |
| Widget.ChatWidget.SendBotRequest | content.js:76-128 | the object ends where `Chat.SendBotRequest` takes its state |
| Widget.ChatWidget.InitializeChatSession | content.js:130-192 | the object and the result are those of `Chat.InitializeChatSession` |
| Widget.ChatWidget.OpenChat | content.js:225-236 | the object ends where `Chat.OpenChat` takes its state |
| Widget.ChatWidget.CloseChat | content.js:240-244 | only the visibility flag changes |
| Widget.ChatWidget.HandleSendMessage | content.js:246-252 | the object ends where `Chat.HandleSendMessage` takes its state |
| Widget.ChatWidget.ClickSend | content.js:254 | a click sends only while the send button is enabled, since a disabled button receives no click |
| Widget.ChatWidget.PressEnter | content.js:255-259 | Enter sends only while the send button is enabled |
| Widget.ChatWidget.ClickQuickReply | content.js:60-64 | the object ends where `Chat.ClickQuickReply` takes its state |

## Left out

- The HTTP exchange (content.js:92-99, 108, 112, 146-149, 158, 162) is left out: building the URL, `fetch`, reading the body as text or JSON. The caller supplies its result as an abstract `Outcome`.
- The browser's entity decoder (content.js:13-15) cannot be seen. It is the parameter `decode`, an arbitrary total function on strings.
- DOM construction, CSS classes, the indicator's markup, scrolling and `focus()` (content.js:22-36, 73, 126, 177, 194-223, 228-229, 233, 242-243) are left out. A transcript entry keeps its sender, text, rendered HTML and quick replies.
- `Date.now()` indicator ids are modelled as a counter, so ids are always distinct. Two indicators created within one millisecond, which would share an id, are not modelled.
- Loading the endpoint from `chrome.storage`, the first-visit flag in `sessionStorage`, the `setTimeout` auto-open and console logging (content.js:261-277) are left out. They are storage, timers and logging. The base URL is a constructor argument, and a missing one is the empty string (both falsy).
- Async interleaving is left out; each handler runs to completion. This excludes overlapping requests from repeated triggers, and a request that never completes and so leaves the controls disabled.
- `popup.js` is not part of this model. It only trims the endpoint, checks it with `new URL`, and stores it.
- A session id is modelled as an optional string. A truthy non-string `session` value (a number, say) is not modelled.
- A quick reply is modelled by its `text` field only. A reply object without `text` is not modelled.
- Strings are sequences of Unicode scalar values, not UTF-16 code units. Text with surrogate pairs, and a lone surrogate, which `.` would match as one unit, are not modelled.
- The user editing the input box is `ChatWidget.Type`, which has no counterpart in the script. It requires the input to be enabled, because a disabled input cannot be edited.
- Chat.StartWithBaseUrl: assumes well-formed reply lists. In the source, a `quick_replies` value that is a non-empty string, or a list holding `null`, makes `addMessageToChatUI` throw at content.js:57-60. That happens after content.js:165 has stored the session. The catch at content.js:180-190 then shows an error and disables the controls while the session stays stored. This case is not modelled, and `ControlsFollowSession` would fail in it.
- Chat.SendWithSession: assumes well-formed reply lists. The same throw in the query path (content.js:114) shows an `Error: ` entry instead of the reply. This case is not modelled.
- Other JSON shapes, such as a non-string `response` or `welcome_message`, are not modelled: every field is an optional string or list of strings.
