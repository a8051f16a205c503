# Chat relay history and prompt model

A Dafny model of the decision logic of a small Telegram chat relay (`main.py`).
For each text message other than the `/start` command the relay:

- looks up the sender's history in the module-level dictionary `user_histories`;
- builds the request's message list: the fixed persona as a `system` turn, the
  last ten stored turns, and the new text as a `user` turn;
- sends that list to a chat-completion endpoint and takes the first choice's
  content, or a fixed fallback text if anything goes wrong;
- appends the user turn and the assistant turn to the sender's history;
- replies with the assistant text.

Modules:

- `Wrappers` (`wrappers.dfy`): `Option` and `Result`.
- `Turns` (`turns.dfy`): roles, turns, the persona constant `SystemPrompt`, and
  the invariant `Alternating`. The invariant says a history is made of whole
  user/assistant exchanges.
- `Prompt` (`prompt.dfy`): the message-list assembly, as a pure function. It is
  related to a reference definition (`Recent`) that evicts the oldest turns.
- `Completion` (`completion.dfy`): the guarded request. The network result is an
  input (`HttpOutcome`), not HTTP. It is mapped to a `Result` with one error
  kind per way the call fails, and then to the reply text.
- `Histories` (`histories.dfy`): the history map as a class with a `map` field.
  `HandleText` is its in-place handler. `Record` is the pure step that
  specifies it. `Replay` and `Transcript` describe any sequence of messages,
  taken in the order in which their handlers got past the typing indicator
  (main.py:71). The dispatcher runs handlers as concurrent tasks, so two quick
  messages from one user may be recorded in the reverse of the order they were
  sent; the lemmas hold for every order.

Histories grow without bound; only the request window is limited to ten
turns. Every text message except `/start` is routed to `handle_text` and
handled, with no group or mention gating. The key is always
`message.from_user.id` (main.py:67). If the typing indicator sent at
main.py:71 raises, the handler stops before touching the map: nothing is
requested, recorded or replied.

## Model

| member | source | states |
|---|---|---|
| `Prompt.SliceFrom` | main.py:41 | Python's `s[start:]` is a suffix of `s`; with a negative start its length is `min(-start, len(s))` |
| `Prompt.BuildMessages` | main.py:39-43 | length is `2 + min(10, len(history))`; first turn is `system` with the persona; last turn is `user` with the new text; the middle is the last `min(10, len(history))` history turns, in order; an empty history gives exactly `[system, user]` |
| `Prompt.RecentIsSuffix` | main.py:41 | evicting the oldest turns until at most `n` remain leaves exactly the last `min(n, len)` turns |
| `Prompt.BuildMessagesIsWindow` | main.py:39-43 | the request is the persona, then the history with its oldest turns evicted down to ten, then the user turn |
| `Prompt.BuildMessagesPosition` | main.py:40-43 | each of the last ten history turns sits unchanged in the request at its position shifted past the system turn |
| `Prompt.RoleAt` | main.py:39-43 | for a history of whole exchanges, request turn `j >= 1` is `user` when `j` is odd and `assistant` when `j` is even |
| `Prompt.BuildMessagesAlternates` | main.py:39-43 | for a history of whole exchanges, the request is `system` followed by strictly alternating `user`/`assistant` turns that end with `user` |
| `Turns.SystemPromptIsTripleQuoted` | main.py:17-22 | `SystemPrompt` is the triple-quoted literal at main.py:17-22, character for character; the lemma checks that it starts and ends with a line break |
| `Turns.Exchange` | main.py:79-80 | the two appended turns form one exchange: `user` with the text, then `assistant` with the response |
| `Turns.AlternatingAppend` | main.py:79-80 | appending one exchange keeps a history made of whole exchanges |
| `Completion.Field` | main.py:56 | `data[key]` succeeds iff `data` is an object that has `key`, and then yields that field's value |
| `Completion.First` | main.py:56 | `data[0]` succeeds iff `data` is a non-empty array, and then yields its first item; Python also indexes a non-empty string, but the chain's next step `['message']` then raises, so the chain fails on the same inputs |
| `Completion.ContentOf` | main.py:56 | `data['choices'][0]['message']['content']` yields a text iff `data` carries a string at that path (whatever other fields it has), and the text is that string |
| `Completion.IsErrorStatus` | main.py:54 | `raise_for_status` raises exactly for statuses in the 4xx and 5xx classes |
| `Completion.FallbackIsVisible` | main.py:59 | `Fallback` is the literal at main.py:59, character for character; the lemma checks that it is non-empty |
| `Completion.Complete` | main.py:52-57 | a transport failure gives `TransportError`; a 4xx/5xx status gives `HttpError(status)`; any other failure is `MalformedResponse`; success holds iff the status is not an error, the body decodes, and `choices[0].message.content` is a string, and then the result is that string |
| `Completion.AiResponse` | main.py:52-59 | every failure gives the fixed fallback text; a success gives the content unchanged |
| `Completion.ContentOfCompletionBody` | main.py:56 | the minimal body built around a text carries the content path, and extracting it gives back that text |
| `Completion.AiResponseVerbatim` | main.py:52-56 | any non-error status with a body carrying a string at `choices[0].message.content`, whatever other fields it has, yields exactly that string, even when it equals the fallback text |
| `Histories.HistoryOf` | main.py:73-74 | a user with no entry has the empty history; a user with an entry has the stored one |
| `Histories.Record` | main.py:73-80 | the sender's key is present afterwards; the sender's history is the old one (or empty) plus exactly two turns, `user` text then `assistant` response; the old prefix is kept; every other key keeps its history; no key is removed |
| `Histories.RecordKeepsAlternating` | main.py:79-80 | recording an exchange keeps every history made of whole exchanges |
| `Histories.ReplayIsTranscript` | main.py:71-80 | after any sequence of messages, a user's history is exactly that user's own handled exchanges in order; the user has an entry iff one of their messages got past the typing indicator |
| `Histories.TranscriptLength` | main.py:79-80 | a user's history has two turns per handled message they sent; there is no cap |
| `Histories.ReplayAlternating` | main.py:79-80 | after any sequence of messages every history is made of whole exchanges |
| `Histories.HistoryStore.constructor` | main.py:31 | the map starts empty |
| `Histories.HistoryStore.HandleText` | main.py:65-82 | if the typing indicator raises, nothing is returned and the map is unchanged; otherwise the request is built from the sender's history as it was before this message (empty if absent) and alternates user/assistant after the system turn, the reply is the completion text or the fallback, and the map becomes `Record` of the old map with that reply, so the reply equals the recorded assistant turn; the invariant is kept |

## Left out

- Telegram transport: `Bot`, `Dispatcher`, polling and `message.answer`. The reply is only returned by `HandleText`. The typing indicator (`send_chat_action`) is reduced to whether it raised, an input of `HandleText`.
- The `/start` command handler (main.py:61-63). It sends a fixed greeting and touches no state. Because it is registered first, a `/start` message never reaches `handle_text` and is never recorded; `HandleText` and `Replay` describe only the messages routed to `handle_text`.
- The `F.text` filter that routes only messages with text to `handle_text`. `HandleText` always receives a text.
- The HTTP request: URL, headers, bearer token, the 30-second timeout, JSON encoding and decoding. Its result is the input `HttpOutcome`; an undecodable body is `Response(status, None)`.
- The payload fields `model`, `temperature` and `max_tokens`. They are constants and no logic depends on them.
- Environment loading (`load_dotenv`, `os.getenv`) and logging of the caught error.
- A failure of `message.answer` (main.py:82) after the append. It raises out of the handler but leaves the recorded exchange in place, which is what the model's new map already says.
- `get_deepseek_response` called with `history=None`: the model takes a sequence, and `None` behaves like the empty sequence (`if history:` skips both).
- Concurrency is not modelled, and nothing is lost by that: `requests.post` (main.py:53) blocks and `get_deepseek_response` never awaits, so from the membership test (main.py:73) to the second append (main.py:80) the handler never yields. Its only suspension points, main.py:71 and main.py:82, lie outside that read-modify-write, so each message's update of the map is atomic in the source as in the model.
- JSON numbers are modelled as integers. They never appear on the extraction path.
- Completion.Complete: a `content` field that holds a JSON value other than a string is a `MalformedResponse` here (fallback text). The source would return that value as it is.
- The `outcome` input of `HandleText` is independent of `prompt` in the model. The dependence of the remote answer on the request is not modelled.
