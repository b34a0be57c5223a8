# Chat client session model

A Dafny model of the session state machine inside the chat client's single
React view (`my-chat/client/src/App.jsx`). The view keeps six state cells:
the username, the auth token, the active channel, the message sequence,
the composer text and the map of users who are typing. Socket handlers
fold pushed events into those cells, a history fetch replaces the message
sequence, and four user actions (`doLogin`, `onTyping`, `sendMessage`,
`sendFile`) change the cells and emit socket events.

Layout:

- `wrappers.dfy`, module `Wrappers`: `Option`, used for every external
  answer that may fail.
- `feed.dfy`, module `Feed`: the `Message` record and the copy-based
  updaters the socket handlers pass to the setters. `Append` handles
  `message`, `SystemMessage` handles `system` and `TypingUpdate` handles
  `typing`. `Step` and `Replay` fold a whole stream of pushed events, and
  lemmas say what such a stream leaves behind.
- `render.dfy`, module `Render`: `StartsWith`, `EndsWith` and
  `IsImageUrl`, the test that decides whether a message is drawn as an
  image.
- `chat_app.dfy`, module `ChatApp`: class `App`, whose fields are the
  six state cells plus `outbox`. The outbox records every `socket.emit`
  as `Join`, `SendText` (the `message` emit) or `Typing`, each with its
  channel and username.
  Every handler is a method with a `modifies` frame naming only the cells
  it sets. `Valid()` is the invariant every method keeps: the typing map
  holds only `true` and never the key "__proto__", and a stored token
  implies a `join` was emitted.
  `ShowsLogin()` is the `!token` gate that picks the login form.
  Four methods at the end replay whole sessions.

External inputs become parameters:

- the login answer is `Option<string>`, the token or a failure;
- the history answer is `Option<seq<Message>>`;
- the file input is a `bool` saying whether a file is selected;
- the upload answer is `Option<string>`, the URL or a failure;
- the clock reading for a system notice is `Clock(millis, iso)`.

## Model

| member | source | states |
|---|---|---|
| `Feed.Append` | my-chat/client/src/App.jsx:18 | the `message` updater adds exactly one element, the payload, at the end; every earlier message is unchanged |
| `Feed.SystemMessage` | my-chat/client/src/App.jsx:19 | a `system` notice becomes a message from "system" with the notice's text and the ISO reading as timestamp; its id is "sys" followed by digits only, with no leading zero unless it is the single digit, that decode to the millisecond reading, which fixes it as the decimal text of `Date.now()` |
| `Feed.DecimalString` | my-chat/client/src/App.jsx:19 | the millisecond count in the system id is written as a non-empty run of decimal digits with no leading zero |
| `Feed.DecimalRoundTrip` | my-chat/client/src/App.jsx:19 | reading the digits of a system id back gives the clock's milliseconds |
| `Feed.DecimalInjective` | my-chat/client/src/App.jsx:19 | distinct millisecond counts have distinct decimal texts |
| `Feed.SystemIdsCollide` | my-chat/client/src/App.jsx:19 | two system messages get the same id exactly when their millisecond readings are equal: distinct readings give distinct ids, and two notices in the same millisecond collide |
| `Feed.TypingUpdate` | my-chat/client/src/App.jsx:20-25 | after a `typing` notice the user is present exactly when the flag is true, even if the user was never present; the key "__proto__" is never stored, since assigning it on a plain object goes to the prototype setter, and a false notice still removes it; other users' entries are unchanged; only `true` is ever stored |
| `Feed.TypingUpdateIdempotent` | my-chat/client/src/App.jsx:20-25 | applying the same typing notice twice gives the same map as applying it once |
| `Feed.TypingUpdateCommutes` | my-chat/client/src/App.jsx:20-25 | notices about two different users give the same map in either order |
| `Feed.Step` | my-chat/client/src/App.jsx:17-26 | one pushed event adds exactly the messages it delivers to the end of the sequence; only a typing notice changes the typing map |
| `Feed.Replay` | my-chat/client/src/App.jsx:17-26 | handling a stream one event at a time keeps the earlier messages as a prefix; a stream of typing notices only leaves the messages unchanged |
| `Feed.ReplayMessages` | my-chat/client/src/App.jsx:17-26 | after a stream of pushed events, the message sequence is the previous one followed by the messages of the `message` and `system` events, in arrival order, with none dropped |
| `Feed.ReplayTyping` | my-chat/client/src/App.jsx:20-25 | after a stream of pushed events, a user other than "__proto__" is in the typing map exactly when the user's last typing notice said true, or no notice about the user arrived and the user was present before |
| `Feed.ReplayProtoKey` | my-chat/client/src/App.jsx:20-25 | after a stream, "__proto__" is in the typing map exactly when it was there before and no false notice about it arrived |
| `Feed.ReplayKeepsAllTrue` | my-chat/client/src/App.jsx:20-25 | no stream of events puts a value other than `true` into the typing map |
| `Render.StartsWith` | my-chat/client/src/App.jsx:102 | JavaScript `startsWith`: the prefix fits in the text and matches it character by character from the start |
| `Render.EndsWith` | my-chat/client/src/App.jsx:102 | JavaScript `endsWith`: the suffix fits in the text and matches it character by character up to the end |
| `Render.IsImageUrl` | my-chat/client/src/App.jsx:102 | the image test; an accepted text starts with 'h' and is at least eight characters long, because "http" and a dot extension cannot overlap |
| `Render.StartsWithIff` | my-chat/client/src/App.jsx:102 | `startsWith(p)` holds exactly when the text is `p` followed by something |
| `Render.EndsWithIff` | my-chat/client/src/App.jsx:102 | `endsWith(x)` holds exactly when the text is something followed by `x` |
| `Render.IsImageUrlIff` | my-chat/client/src/App.jsx:102 | a text is drawn as an image exactly when it is "http" followed by anything and ends in one of `.png`, `.jpg`, `.jpeg`, `.gif` |
| `Render.IsImageUrlExamples` | my-chat/client/src/App.jsx:102 | "http://x/y.png", "https://cdn/a.jpeg" and "httpfoo.gif" are drawn as images |
| `Render.IsImageUrlCounterexamples` | my-chat/client/src/App.jsx:102 | an upper-case extension, an "ftp" prefix and a `.pdf` are drawn as text |
| `ChatApp.App.constructor` | my-chat/client/src/App.jsx:9-14 | initial state: empty username, no token, channel "general", no messages, empty composer, empty typing map, nothing emitted |
| `ChatApp.App.ShowsLogin` | my-chat/client/src/App.jsx:75 | the `!token` gate: the login form is shown while no token or an empty one is stored, and in a valid state it is gone only after a `join` was emitted |
| `ChatApp.App.SetUsername` | my-chat/client/src/App.jsx:79 | the login input sets the username and nothing else |
| `ChatApp.App.SelectChannel` | my-chat/client/src/App.jsx:90-91 | a channel click sets the active channel and nothing else |
| `ChatApp.App.ReceiveMessage` | my-chat/client/src/App.jsx:18 | a `message` event appends its payload; the typing map, composer and outbox are unchanged |
| `ChatApp.App.ReceiveSystem` | my-chat/client/src/App.jsx:19 | a `system` event appends its synthesized message and changes nothing else |
| `ChatApp.App.ReceiveTyping` | my-chat/client/src/App.jsx:20-26 | a `typing` event updates only the typing map, as `TypingUpdate` states |
| `ChatApp.App.ApplyHistory` | my-chat/client/src/App.jsx:34-36 | a successful history answer replaces the message sequence with no merge, whatever channel it was requested for; a failed one leaves it unchanged |
| `ChatApp.App.DoLogin` | my-chat/client/src/App.jsx:40-45 | with an empty username, or when the request fails, the token is unchanged and nothing is emitted; on success the token is the answer and exactly one `Join` with the current channel and username is emitted |
| `ChatApp.App.SendMessage` | my-chat/client/src/App.jsx:47-52 | with empty text nothing changes and nothing is emitted; otherwise `SendText` with the text, then `Typing` false, are emitted in that order, the text becomes empty, and `messages` is never touched |
| `ChatApp.App.OnTyping` | my-chat/client/src/App.jsx:54-57 | every edit sets the text and emits exactly one `Typing` whose flag is whether the new text is non-empty |
| `ChatApp.App.SendFile` | my-chat/client/src/App.jsx:59-73 | with no file, or a failed upload, nothing is emitted; on success exactly one `SendText` whose text is the returned URL unchanged is emitted; text and messages are never modified |
| `ChatApp.LoginRoundTrip` | my-chat/client/src/App.jsx:40-45 | logging in as "alice" with the answer "T" stores "T", leaves the login form, and emits exactly `Join("general", "alice")` |
| `ChatApp.ChannelSwitchRace` | my-chat/client/src/App.jsx:34-36 | a "general" history answer arriving after the switch to "random" overwrites the random history: the race is in the model, not fixed |
| `ChatApp.UploadRoundTrip` | my-chat/client/src/App.jsx:59-73 | after a login, any uploaded URL is, unchanged, the text of the one emitted message and, once echoed back, of the displayed message, which is drawn as an image exactly when the URL passes the image test |
| `ChatApp.ComposeAndSend` | my-chat/client/src/App.jsx:47-57 | typing a text and sending it emits `Typing` true, `SendText`, `Typing` false after the join (only `Typing` false for an empty text), clears the composer, and adds no message locally |

`Feed.AllDelivered`, `Feed.TypingExpected`, `Feed.ProtoExpected`,
`Render.HasImageExtension` and `ChatApp.App.FeedView` are the
definitions that the lemmas and method contracts above speak about. Each `Receive`
method also states its effect as one `Feed.Step` on `FeedView()`, so the
`Replay` lemmas apply to any sequence of handler calls.

## Left out

- JSX rendering, styles, the message list and typing banner layout, and the login/main view switch (lines 75-125). Only the `!token` gate is kept, as `ShowsLogin`.
- The scroll-into-view effect and the DOM ref (lines 15, 38): UI side effects.
- The socket.io connection, its singleton, and subscribe/unsubscribe (lines 5-6, 17, 27-31). Pushed events are method calls instead.
- axios requests, URL construction and multipart packaging (lines 35, 42, 62-67). Their answers are parameters.
- The `alert` dialogs (lines 41, 71): UI.
- `Date.now()`, `toISOString()` and `toLocaleTimeString()` (lines 19, 100). The clock reading is a parameter. System-message ids are not claimed to be unique.
- Async interleaving. Each handler is one atomic step. Out-of-order history answers are modelled only as the order in which `ApplyHistory` is called.
- Of JavaScript's object-key semantics only the "__proto__" setter is modelled. The key order that `Object.keys` shows in the typing banner (line 112) is rendering and is not modelled; a `map` has no order.
- The shapes JavaScript would accept beyond strings are not modelled: a token, URL or message text that is not a string, or is missing. For example, a login answer without `token` would store `undefined`.
- A failed login request is an unhandled promise rejection in the source. It is modelled only by its effect: token and outbox are unchanged.
