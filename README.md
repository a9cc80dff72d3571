# RexBot chat relay: conversation store, fallback responder and resolver

RexBot is an AI receptionist served over HTTP. A request to `POST /api/chat` carries
a user message and a conversation id. The server keeps an in-memory map from
conversation id to history. It then produces a reply in one of two ways:

- **Live path.** A generation credential is configured. The server renders a prompt
  from the persona text, the stored history and the new message, and sends it to
  the Gemini generation service.
- **Demo mode.** No credential is configured. A keyword responder answers instead.

A successful reply is recorded as a user/assistant pair. The history is capped at
ten turns by dropping the oldest pair. If the generation call fails, the user gets
a fixed apology.

This project models that core in Dafny, in four modules:

- `Text` (`text.dfy`) models the three string primitives the server uses: ASCII
  lower-casing for `toLowerCase`, substring search for `includes`, and `join`.
- `History` (`history.dfy`) models one conversation's history:
  - turns, roles and exchanges;
  - the update with eviction, `Appended`;
  - lemmas about any number of updates.
- `Fallback` (`fallback.dfy`) is the demo-mode keyword responder. It uses the same
  keywords, priority order and reply strings as the source. The random greeting is
  chosen by an index that the caller supplies.
- `Relay` (`relay.dfy`) holds:
  - the credential check and the prompt renderer;
  - the `ConversationStore` class, whose `conversations: map<string, seq<Turn>>`
    field is updated in place;
  - the `Resolve` method, which models `generateResponse`;
  - the `HandleChat` method, which models the request guard of `POST /api/chat`.

The generation service is a function parameter `api: string -> ApiResult`: it takes
the prompt and returns `Success(text)` or `Failure`. `Resolve` also returns `sent`,
which is the prompt actually passed to `api`, or `None` when no call was made.

Two behaviours of the code are worth stating explicitly:

- **A failed generation call leaves the store unchanged.** The exception escapes
  before `push`, and the `catch` returns the apology (server.js:149-174).
- **The classifier has four keyword categories.** It checks scheduling, then
  clock-in/clock-out/time, then office, then message, and otherwise picks a pool
  greeting (server.js:99-110).

## Model

| member | source | states |
|---|---|---|
| `Text.LowerAscii` | server.js:97 | The result has the same length as the input. Each character is the ASCII lower-case form of the input character. The result contains no upper-case letter. |
| `Text.LowerAsciiIdempotent` | server.js:97 | Lower-casing an already lower-cased message changes nothing. |
| `Text.Contains` | server.js:99-107 | `includes`: the empty word is found in every text, and a word that is found is no longer than the text. |
| `Text.ContainsIff` | server.js:99-107 | `includes` is true exactly when the word occurs at some index of the text. |
| `Text.ContainsInfix` | server.js:99-107 | A word placed anywhere inside a text is found by `includes`. |
| `Text.Join` | server.js:135 | `join`: an empty list gives the empty string, and otherwise the result starts with the first part and ends with the last part. |
| `Text.ContainsLowered` | server.js:97-107 | A word found in the raw message, in any letter case, is found in lower-cased form after the message is lower-cased. |
| `Text.JoinSnoc` | server.js:135 | Joining one more line appends the separator and that line to the joined text. |
| `History.Appended` | server.js:113-121 | After an update, the history is a suffix of the old history followed by the new pair. Its length is the old length when old length + 2 > 10, and old length + 2 otherwise. Its last two turns are `user: message` then `assistant: reply`. Even length and at most 10 turns is preserved. |
| `History.AppendedKeepsOrder` | server.js:113-121 | The turns before the new pair are exactly the old history, in order. The oldest two are dropped only when old length + 2 > 10. |
| `History.AppendAllBounded` | server.js:113-121 | From a history with even length and at most 10 turns, any number of updates keeps even length and at most 10 turns. |
| `History.AppendAllFromEmpty` | server.js:113-121 | Starting from empty, the history after N updates is exactly the last min(2N, 10) turns of everything exchanged, oldest first. |
| `History.AppendAllLength` | server.js:118-121 | Starting from empty, the length after N updates is min(2N, 10). |
| `History.AppendAllKeepsLastFive` | server.js:118-121 | After at least five updates from empty, the history is exactly the turns of the five most recent exchanges. For eleven messages, the first six pairs are gone. |
| `Fallback.MentionsScheduling` | server.js:99 | The `||` chain is true exactly when one of "schedule", "meeting", "appointment" occurs. |
| `Fallback.MentionsTimeTracking` | server.js:101 | The `||` chain is true exactly when one of "clock in", "clock out", "time" occurs. |
| `Fallback.MentionsOffice` | server.js:103 | The `||` chain is true exactly when one of "office", "hours", "location" occurs. |
| `Fallback.MentionsMessage` | server.js:105 | The `||` chain is true exactly when one of "message", "note" occurs. |
| `Fallback.MatchesNothing` | server.js:99-109 | The final `else` is reached exactly when none of the eleven keywords occurs. |
| `Fallback.Classify` | server.js:99-110 | Each category is chosen exactly when its keywords occur in the lower-cased message and no earlier category's do. The order is schedule/meeting/appointment, then clock in/clock out/time, then office/hours/location, then message/note. The greeting branch is taken exactly when nothing matches. |
| `Fallback.ReplyText` | server.js:87-109 | The greeting branch returns one of the five pool strings. |
| `Fallback.FallbackReply` | server.js:97-110 | For the lower-cased message: a scheduling keyword gives the scheduling offer; otherwise a time-tracking keyword gives the time-tracking reply; otherwise an office keyword gives the office reply; otherwise a message keyword gives the take-a-message reply; when no keyword occurs, the reply is the pool greeting at the supplied index. |
| `Fallback.FallbackIgnoresCase` | server.js:97 | The reply depends only on the lower-cased message. |
| `Fallback.SchedulingWins` | server.js:97-100 | A message that contains "schedule", "meeting" or "appointment" in any letter case gets the scheduling reply, whatever else it contains. For example, "Meeting" beats "time". |
| `Fallback.TimeTrackingWins` | server.js:97-102 | A message that contains "clock in", "clock out" or "time" in any letter case, and no scheduling keyword, gets the time-tracking reply. |
| `Fallback.ScheduleRequestExample` | server.js:99-100 | Any message of the form text + "schedule" + text gets the scheduling offer, whatever the surrounding text contains. |
| `Fallback.UpperCaseMeetingExample` | server.js:97-100 | Any message of the form text + "MEETING" + text gets the scheduling offer. |
| `Fallback.HelloMatchesNothing` | server.js:99-109 | "hello" matches no category, so it gets a pool greeting. |
| `Fallback.HelloGetsGreeting` | server.js:99-109 | "hello" gets the pool greeting at the supplied index. |
| `Relay.HasCredential` | server.js:85 | The live path is refused exactly when the key is absent, empty, or equal to `your_gemini_api_key_here`. |
| `Relay.RenderTurn` | server.js:135 | A transcript line is the role name, ": ", then the turn's content. |
| `Relay.RenderLines` | server.js:135 | The `map` gives one line per turn, in order, each line the rendering of that turn. |
| `Relay.RenderHistory` | server.js:135 | The rendered history is empty for an empty history, and otherwise starts with the oldest turn's line and ends with the newest turn's line. |
| `Relay.RenderHistorySnoc` | server.js:135 | Rendering a history with one more turn appends a newline and that turn's `role: content` line. |
| `Relay.RenderPrompt` | server.js:135 | The prompt is the persona text with the "Conversation history:" header, then the rendered history, then `\n\nUser: ` and the message, with exactly these three parts in this order. |
| `Relay.ResolvedReply` | server.js:85-174 | Without a credential, the reply is the fallback reply. With a credential, it is the generated text when the call succeeds and the fixed apology when it fails. |
| `Relay.Records` | server.js:113-171 | The exchange is recorded on every fallback request. It is not recorded exactly when a credential is present and the generation call fails. |
| `Relay.Present` | server.js:182 | A field fails the guard exactly when it is absent or the empty string. |
| `Relay.ConversationStore.constructor` | server.js:15 | The store starts empty, which satisfies the store invariant. |
| `Relay.ConversationStore.Get` | server.js:71 | An id with no stored history reads as the empty history. Otherwise the stored history is returned. In a valid store it has even length and at most 10 turns. |
| `Relay.ConversationStore.Append` | server.js:113-123 | The id's entry becomes `Appended` of its old history. Every other id reads as before. The last two turns are the new pair. The invariant "every history has even length and at most 10 turns" is preserved. |
| `Relay.ConversationStore.Resolve` | server.js:68-175 | The generation call is made (`sent` is the rendered prompt) exactly when a credential is configured. The reply is `ResolvedReply`. The exchange is recorded on the fallback path and after a successful call, and the store is left unchanged after a failed call. Other ids are untouched and the invariant is kept. |
| `Relay.ConversationStore.HandleChat` | server.js:178-194 | A request with a missing or empty `message` or `conversationId` gets the 400 body "Message and conversationId are required". No call is made and the store is unchanged. Otherwise the response carries the resolved reply and the id, and the store changes as `Resolve` says. |
| `Relay.OpenConversation` | server.js:178-194 | On a fresh store in demo mode, one meeting request leaves exactly the user turn and the scheduling offer under `c1`, and the store invariant holds. |
| `Relay.FollowUpScenario` | server.js:178-194 | On a fresh store in demo mode, a meeting request followed by "hello" leaves exactly 4 turns for `c1`, oldest first: the meeting request, the scheduling offer, "hello", and the chosen greeting. |

## Left out

- HTTP plumbing: Express setup, CORS, JSON body parsing, static files, the health endpoint, port binding, startup messages and the `500` handler (server.js:1-12, 195-232). `generateResponse` catches every error itself, so the `500` branch cannot be reached from the modelled core.
- The Gemini HTTP call and the extraction of `candidates[0].content.parts[0].text` (server.js:149-155): this is a foreign network call, so it is modelled as the `api` parameter. A response whose text field is merely absent (so the reply is `undefined` rather than an exception) is not distinguished from a successful text.
- `generationConfig` (temperature, topP, topK, maxOutputTokens, server.js:140-145): floating-point and tuning values passed through to the service.
- `Math.random` (server.js:109): replaced by the caller-supplied index `pick < 5`.
- The unused `messages` array (server.js:74-78): it has no effect on behaviour.
- Console logging and response timestamps (server.js:172, 190-194): these are I/O.
- Concurrent requests interleaving at the `await` on the shared map: each request is modelled as one atomic method call. Because of this, the aliasing of the stored array with the local `conversation` variable has no observable effect. The model stores sequence values.
- `PersonaPrompt` holds only the persona's opening sentence. The prompt properties do not depend on its text.
- `Text.LowerAscii`: lower-cases only the ASCII letters A-Z, not full Unicode `toLowerCase`.
- `Relay.Present`: request fields are `Option<string>`. JSON values of other types that JavaScript treats as falsy (`0`, `false`) or truthy (numbers, objects) are not modelled.
