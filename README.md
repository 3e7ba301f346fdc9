# webkit-greeter, modelled in Dafny

webkit-greeter is a display-manager greeter. It runs themes, which are web
pages, in WebKit windows, one per monitor. The pages talk to the greeter
process through a small set of JavaScript objects: `greeter`,
`greeter_config`, `greeter_comm` and `theme_utils`. The greeter process
talks to the greetd login daemon over a Unix socket.

This project models the parts of the greeter that decide something:

- **Daemon clients.** The two greetd client revisions keep an
  authentication state machine: `NotStarted`, `InAuthentication`,
  `Authenticated`.
  - `crates/greeters/src/greetd/client.rs` is modelled in `GreetdClient`.
  - `crates/greeters/src/greeters/greetd/client.rs` is modelled in
    `GreetersClient`.
  - Both are built on the socket round trip `GreetdIpc.RoundTrip`.
- **Greeter facades.** These map page calls to client calls:
  `GreetdGreeter` and `GreetersGreeter`, sharing the routing rule in
  `FacadeCommon`.
- **Lookups behind them.**
  - the UID range read from login.defs (`LoginDefs`);
  - the session catalogue read from `.desktop` files (`Sessions`);
  - the locale list (`Language`).
- **Greeter process.**
  - the configuration file (`ConfigFile`);
  - the theme files (`Theme`);
  - the dispatcher that routes page messages (`Bridge`);
  - the cross-monitor channel (`GreeterComm`);
  - the directory listing service `theme_utils.dirlist`, in both of its
    revisions (`ServiceThemeUtils`, `BridgeThemeUtils`, sharing
    `ThemeUtilsCommon`).
- **Page-side JavaScript.**
  - the observer lists (`JsSignal`);
  - the client-side checks of `dirlist`, the getters and setters, and the
    user objects (`JsApi`).

Objects whose fields the source updates in place are classes whose methods
`modify` them. Each such method is specified by a step function on a value
snapshot of the object, and the properties are proved about those
functions. The pure parts are functions and lemmas.

The outside world is passed in as parameters:

- The daemon is an `Exchange` oracle: the write failed, the read failed,
  or a reply arrived. Requests that reach the socket are logged in a
  `wire` field.
- The file system is a value: which paths are files or directories, what a
  directory lists, what a path canonicalises to.
- Callbacks are identities. The calls they receive are logged.
- A Rust panic (`unwrap`, `expect`, `panic!`, `unimplemented!`) is the
  value `Outcome.Panic`.

Shared helpers, which need no table row:

- `Wrappers`: `Option`, `Result`, `Outcome`.
- `Text`: Rust and JavaScript string operations.
- `Paths`: `Path::join`.
- `Ordering`: the byte order of strings and sorting.

`JsonText` escapes and decodes JSON strings. It is listed in the table because it carries the payload finding.

Where the code and its documentation disagree, the model follows the code:

- In `crates/greeters/src/greetd/client.rs`, an `Error` reply to
  `post_response` does not reset the authentication state.
- In the same file, `cancel_session` resets the state only on a `Success`
  reply.
- In the newer client, every `Ok` reply counts as success for the page.
  That includes a daemon `Error` reply.
- The bridge `theme_utils` `handle` converts its parameters to an array
  before it looks at the method name. So a non-array value panics whatever
  the method.
- A derived `Config::default()` has an empty themes directory. A parsed
  file without `themes_dir` gets `/usr/share/webkit-greeter/themes`.

## Model

| member | source | states |
|---|---|---|
| GreetdIpc.RoundTrip | crates/greeters/src/greetd/client.rs:95-126 | Without a connection nothing is sent and the result is a NotConnected error. With one, a failed write sends nothing and returns the write error; otherwise exactly the request is sent, and the result is exactly the daemon's reply, or the read error. |
| GreetdClient.Initial | crates/greeters/src/greetd/client.rs:48-65 | A new client is NotStarted, with no user and no callback. It is connected exactly when the socket path is set and something listens there. |
| GreetdClient.SetAuthStatusStep | crates/greeters/src/greetd/client.rs:74-81 | Only the status changes. The completion callback fires exactly when the new status is Authenticated and a callback is connected. |
| GreetdClient.ConnectAuthenticationCompleteStep | crates/greeters/src/greetd/client.rs:67-72 | Replaces the one completion callback and changes nothing else. |
| GreetdClient.CreateSessionStep | crates/greeters/src/greetd/client.rs:110-127 | Outside NotStarted the call is refused locally and nothing is sent. Otherwise the user is recorded before the socket is used, so a transport error leaves it set. Success leads to Authenticated and a prompt to InAuthentication. A daemon Error clears the user. Past the local check, the result is exactly the round trip's, and the wire grows by what the round trip sent. The socket and the callback slot are always kept. The callback fires exactly once, exactly when a Success reply arrives and one is connected. |
| GreetdClient.PostResponseStep | crates/greeters/src/greetd/client.rs:134-159 | Refused without a session under authentication, and refused once authenticated. Only a Success reply changes the status, and only to Authenticated. The user never changes. Past the local check, the result is exactly the round trip's, and the wire grows by what the round trip sent. The socket and the callback slot are always kept. The callback fires exactly once, exactly when a Success reply arrives under authentication and one is connected. |
| GreetdClient.StartSessionStep | crates/greeters/src/greetd/client.rs:163-185 | Refused unless authenticated. Only the wire log changes. A prompt reply panics. Past the local check, the wire grows by what the round trip sent, and any result returned is exactly the round trip's. |
| GreetdClient.CancelSessionStep | crates/greeters/src/greetd/client.rs:189-206 | A Success reply resets to NotStarted with no user. Any other outcome leaves the state as it was. A prompt reply panics. No completion fires. Past the local check, the wire grows by what the round trip sent, and any result returned is exactly the round trip's. The socket and the callback slot are always kept. |
| GreetdClient.DaemonReplyDecides | crates/greeters/src/greetd/client.rs:110-206 | With a connection, the daemon's reply decides each step: to a new session, Success authenticates the user, a prompt starts authentication and an Error clears the user; to a response, the status becomes Authenticated exactly on Success; to a cancel, Success resets and an Error is returned with only the wire changed. |
| GreetdClient.Client.AuthenticationUser | crates/greeters/src/greetd/client.rs:83-85 | The recorded user; under the client's invariant there is one whenever a session was created. |
| GreetdClient.Client.InAuthentication | crates/greeters/src/greetd/client.rs:87-89 | True exactly when the status is InAuthentication. |
| GreetdClient.Client.IsAuthenticated | crates/greeters/src/greetd/client.rs:91-93 | True exactly when the status is Authenticated. |
| GreetdClient.StepKeepsInvariant | crates/greeters/src/greetd/client.rs:110-206 | Every call keeps "a started authentication has a user". The completion callback fires only on a transition into Authenticated, never while already there. |
| GreetdClient.RunKeepsInvariant | crates/greeters/src/greetd/client.rs:110-206 | Over any sequence of calls the invariant holds. The number of completions equals the number of entries into Authenticated. |
| GreetdClient.Client.constructor | crates/greeters/src/greetd/client.rs:48-65 | The new object is the initial state. |
| GreetdClient.Client.ConnectAuthenticationComplete | crates/greeters/src/greetd/client.rs:67-72 | The object takes the state ConnectAuthenticationCompleteStep gives. |
| GreetdClient.Client.SetAuthStatus | crates/greeters/src/greetd/client.rs:74-81 | The object takes the state SetAuthStatusStep gives. |
| GreetdClient.Client.CreateSession | crates/greeters/src/greetd/client.rs:110-127 | The object and the result are those of CreateSessionStep. |
| GreetdClient.Client.PostResponse | crates/greeters/src/greetd/client.rs:134-159 | The object and the result are those of PostResponseStep. |
| GreetdClient.Client.StartSession | crates/greeters/src/greetd/client.rs:163-185 | The object and the result are those of StartSessionStep. |
| GreetdClient.Client.CancelSession | crates/greeters/src/greetd/client.rs:189-206 | The object and the result are those of CancelSessionStep. |
| GreetersClient.AuthMessageLabel | crates/greeters/src/greeters/greetd/client.rs:157-162 | The label the page receives for a prompt kind. |
| GreetersClient.ErrorLabel | crates/greeters/src/greeters/greetd/client.rs:170-173 | The label the page receives for an error kind. |
| GreetersClient.LabelsDistinguishKinds | crates/greeters/src/greeters/greetd/client.rs:157-173 | Different prompt kinds get different labels, and so do different error kinds. |
| GreetersClient.Fanout | crates/greeters/src/greeters/greetd/client.rs:78-102 | One emission calls every connected callback, in connection order, with the same arguments. |
| GreetersClient.Initial | crates/greeters/src/greeters/greetd/client.rs:50-69 | A new client is NotStarted, with no callbacks and no calls. It is connected exactly when the socket path is set and listening. |
| GreetersClient.SetAuthStatusStep | crates/greeters/src/greeters/greetd/client.rs:104-111 | Every completion callback runs each time the new status is Authenticated, whatever the old status was. Other statuses run nothing. |
| GreetersClient.CreateSessionStep | crates/greeters/src/greeters/greetd/client.rs:140-177 | A transport error changes nothing but the wire. Success authenticates the user and runs the completion callbacks. A prompt starts authentication and relays the prompt. A daemon Error keeps the status and relays the message. Past the local check, the result is exactly the round trip's, and the wire grows by what the round trip sent. The socket and the three callback lists are always kept. |
| GreetersClient.PostResponseStep | crates/greeters/src/greeters/greetd/client.rs:184-215 | The user never changes. Success authenticates and runs completion. Any other reply keeps the status, relaying a prompt or an error message. Past the local check, the result is exactly the round trip's, and the wire grows by what the round trip sent. The socket and the three callback lists are always kept. |
| GreetersClient.StartSessionStep | crates/greeters/src/greeters/greetd/client.rs:224-245 | Status and user are kept. A prompt reply panics. A daemon Error is relayed as a message, and then nothing but the wire changes. Past the local check, the wire grows by what the round trip sent, and any result returned is exactly the round trip's. The socket and the three callback lists are always kept. A panic changes nothing but the wire. |
| GreetersClient.CancelSessionStep | crates/greeters/src/greeters/greetd/client.rs:253-277 | Always resets to NotStarted with no user, whatever the reply. A prompt reply panics. Only a daemon Error is relayed. Past the local check, the wire grows by what the round trip sent, and any result returned is exactly the round trip's. The socket and the three callback lists are always kept. |
| GreetersClient.DaemonReplyDecides | crates/greeters/src/greeters/greetd/client.rs:140-177 | With a connection, the daemon's reply to a new session decides it: Success authenticates the user, a prompt starts authentication, an Error keeps the status. |
| GreetersClient.Client.AuthenticationUser | crates/greeters/src/greeters/greetd/client.rs:113-115 | The recorded user. |
| GreetersClient.Client.InAuthentication | crates/greeters/src/greeters/greetd/client.rs:117-119 | True exactly when the status is InAuthentication. |
| GreetersClient.Client.IsAuthenticated | crates/greeters/src/greeters/greetd/client.rs:121-123 | True exactly when the status is Authenticated. |
| GreetersClient.RepeatedSuccessFiresAgain | crates/greeters/src/greeters/greetd/client.rs:104-111 | A second Success while already authenticated runs every completion callback again. |
| GreetersClient.AuthenticatedWithoutUser | crates/greeters/src/greeters/greetd/client.rs:184-215 | A Success reply to a response sent without a session reaches Authenticated with no user. |
| GreetersClient.Client.constructor | crates/greeters/src/greeters/greetd/client.rs:50-69 | The new object is the initial state. |
| GreetersClient.Client.ConnectShowPrompt | crates/greeters/src/greeters/greetd/client.rs:71-76 | Appends the callback to the prompt list; nothing else changes. |
| GreetersClient.Client.ConnectShowMessage | crates/greeters/src/greeters/greetd/client.rs:82-87 | Appends the callback to the message list; nothing else changes. |
| GreetersClient.Client.ConnectAuthenticationComplete | crates/greeters/src/greeters/greetd/client.rs:93-98 | Appends the callback to the completion list; nothing else changes. |
| GreetersClient.Client.Fire | crates/greeters/src/greeters/greetd/client.rs:78-102 | Logs one call per given callback, in order, and changes nothing else. |
| GreetersClient.Client.EmitShowPrompt | crates/greeters/src/greeters/greetd/client.rs:78-80 | Every prompt callback is called with the kind and the text. |
| GreetersClient.Client.EmitShowMessage | crates/greeters/src/greeters/greetd/client.rs:89-91 | Every message callback is called with the kind and the text. |
| GreetersClient.Client.EmitAuthenticationComplete | crates/greeters/src/greeters/greetd/client.rs:100-102 | Every completion callback is called without arguments. |
| GreetersClient.Client.SetAuthStatus | crates/greeters/src/greeters/greetd/client.rs:104-111 | The object takes the state SetAuthStatusStep gives. |
| GreetersClient.Client.NotifyError | crates/greeters/src/greeters/greetd/client.rs:166-175 | A daemon Error reply is relayed to the message callbacks. Anything else changes nothing. |
| GreetersClient.Client.CreateSession | crates/greeters/src/greeters/greetd/client.rs:140-177 | The object and the result are those of CreateSessionStep. |
| GreetersClient.Client.PostResponse | crates/greeters/src/greeters/greetd/client.rs:184-215 | The object and the result are those of PostResponseStep. |
| GreetersClient.Client.StartSession | crates/greeters/src/greeters/greetd/client.rs:224-245 | The object and the result are those of StartSessionStep. |
| GreetersClient.Client.CancelSession | crates/greeters/src/greeters/greetd/client.rs:253-277 | The object and the result are those of CancelSessionStep. |
| FacadeCommon.Route | crates/greeters/src/greetd/mod.rs:48-110 | A call is undefined exactly when its name is not one the facade serves with that many parameters. Otherwise it runs the named operation, on the first parameter when there is one. |
| FacadeCommon.RouteParsed | crates/greeters/src/greetd/mod.rs:48-52 | Parameters that are not a JSON array panic in `to_vec`, whatever the name. An array is routed: undefined exactly for a name the facade does not serve with that many parameters, the first parameter for an operation with an argument. |
| GreetdGreeter.Handle | crates/greeters/src/greetd/mod.rs:48-110 | Parameters that are not a JSON array panic, whatever the name. Otherwise the page methods of the older facade route by name and parameter count, and an operation with an argument gets the first parameter. |
| GreetdGreeter.AuthenticateStep | crates/greeters/src/greetd/mod.rs:230-240 | Returns true exactly when the daemon answered with Success or a prompt. The state is the client's. |
| GreetdGreeter.AuthenticateMeaning | crates/greeters/src/greetd/mod.rs:230-240 | `authenticate` returns true exactly when it moved the client out of NotStarted, and then the user is the one given. |
| GreetdGreeter.RespondStep | crates/greeters/src/greetd/mod.rs:255-267 | Returns true exactly when the response got Success. |
| GreetdGreeter.RespondMeaning | crates/greeters/src/greetd/mod.rs:255-267 | `respond` returns true exactly when it completed an authentication in progress. A further prompt gives false. |
| GreetdGreeter.CancelStep | crates/greeters/src/greetd/mod.rs:242-253 | Returns true exactly on a Success reply and panics exactly when the client panics. |
| GreetdGreeter.CancelMeaning | crates/greeters/src/greetd/mod.rs:242-253 | True means the authentication was reset. False means nothing but the wire changed. |
| GreetdGreeter.StartStep | crates/greeters/src/greetd/mod.rs:269-290 | An unknown session key returns false without contacting the daemon. The process exits exactly when a catalogued session is started while authenticated and connected and the daemon replies Success, after sending its command and session-type environment. It panics exactly when the daemon answers that start with a prompt. Every returned answer is false. |
| GreetdGreeter.Greeter.constructor | crates/greeters/src/greetd/mod.rs:33-46 | A new client whose completion callback posts to the page. |
| GreetdGreeter.Greeter.Authenticate | crates/greeters/src/greetd/mod.rs:230-240 | The client and the answer are those of AuthenticateStep. |
| GreetdGreeter.Greeter.Respond | crates/greeters/src/greetd/mod.rs:255-267 | The client and the answer are those of RespondStep. |
| GreetdGreeter.Greeter.CancelAuthentication | crates/greeters/src/greetd/mod.rs:242-253 | The client and the answer are those of CancelStep. |
| GreetdGreeter.Greeter.StartSession | crates/greeters/src/greetd/mod.rs:269-290 | The client and the answer are those of StartStep. |
| GreetdGreeter.Greeter.SetLanguage | crates/greeters/src/greetd/mod.rs:151-164 | Without an authenticated user nothing is asked and the answer is false. Otherwise the accounts service is asked to set that user's language, and its answer is returned. |
| GreetersGreeter.Handle | crates/greeters/src/greeters/greetd/mod.rs:55-110 | Parameters that are not a JSON array panic, whatever the name. Otherwise the page methods of the newer facade route by name and parameter count, and an operation with an argument gets the first parameter. |
| GreetersGreeter.RespondArg | crates/greeters/src/greeters/greetd/mod.rs:88-96 | A string parameter is the response. Any other value is sent as no response. |
| GreetersGreeter.AuthenticateMeaning | crates/greeters/src/greeters/greetd/mod.rs:250-257 | `authenticate` answers true exactly when the daemon replied at all. A rejected user still gives true and leaves the status unchanged. |
| GreetersGreeter.StartStep | crates/greeters/src/greeters/greetd/mod.rs:277-298 | An unknown key returns false. The process exits exactly when the daemon replied without a prompt to the start request, after sending the session's command and environment; the `Ok(())` arm is read as any `Ok` reply, so a daemon Error reply also exits (see ## Left out). Status and user are kept. A prompt reply to the start request panics, exactly then. For a catalogued key the client ends as its start_session step leaves it, a relayed Error included. |
| GreetersGreeter.PageMessageAsWritten | crates/greeters/src/greeters/greetd/mod.rs:306-322 | The message posted to the page: show_prompt for a prompt, show_message for a message, with the payload built by string formatting from the kind and the text; completion posts an empty argument list. |
| GreetersGreeter.PageMessage | crates/greeters/src/greeters/greetd/mod.rs:306-322 | The posted message names the signal, and its payload parses back to exactly the kind and the text. |
| GreetersGreeter.QuotedPromptRelay | crates/greeters/src/greeters/greetd/mod.rs:306-316 | A prompt text holding a quote arrives intact through the escaped payload, and not through the formatted one. |
| GreetersGreeter.Greeter.constructor | crates/greeters/src/greeters/greetd/mod.rs:28-53 | A new client with one page-posting callback on each of the three signals. |
| GreetersGreeter.Greeter.Authenticate | crates/greeters/src/greeters/greetd/mod.rs:250-257 | The client is CreateSessionStep's and the answer is whether the result is Ok. |
| GreetersGreeter.Greeter.Respond | crates/greeters/src/greeters/greetd/mod.rs:268-275 | The client is PostResponseStep's and the answer is whether the result is Ok. |
| GreetersGreeter.Greeter.CancelAuthentication | crates/greeters/src/greeters/greetd/mod.rs:259-266 | The client is CancelSessionStep's. The answer is whether the result is Ok, or the panic. |
| GreetersGreeter.Greeter.StartSession | crates/greeters/src/greeters/greetd/mod.rs:277-298 | The client and the answer are those of StartStep. |
| GreetersGreeter.Greeter.SetLanguage | crates/greeters/src/greeters/greetd/mod.rs:187-200 | Without an authenticated user nothing is asked and the answer is false. Otherwise the accounts service's answer is returned. |
| JsonText.Payload | crates/greeters/src/greeters/greetd/mod.rs:306-316 | The escaped `[kind, text]` payload parses back to exactly the kind and the text. |
| JsonText.PayloadAsWritten | crates/greeters/src/greeters/greetd/mod.rs:306-316 | The formatted payload puts the kind and the text, unescaped, between fixed quotes and brackets, eight characters in all. |
| JsonText.DecodeEscape | crates/greeters/src/greeters/greetd/mod.rs:306-316 | Decoding an escaped string returns the string and the text after its closing quote. |
| JsonText.DecodeEscapeStep | crates/greeters/src/greeters/greetd/mod.rs:306-316 | If the escape of a text's tail decodes back, then so does the escape of the whole text. |
| JsonText.DecodeEscapeCons | crates/greeters/src/greeters/greetd/mod.rs:306-316 | An escaped character in front of a decodable string body decodes to that character in front of the body's text. |
| JsonText.DecodeStringUnit | crates/greeters/src/greeters/greetd/mod.rs:306-316 | A body that starts with a decodable character or escape decodes to that character followed by the rest. |
| JsonText.PayloadsAgreeOnPlainText | crates/greeters/src/greeters/greetd/mod.rs:306-316 | Without quotes, backslashes or control characters, the formatted payload and the escaped one are the same. |
| JsonText.QuoteCutsText | crates/greeters/src/greeters/greetd/mod.rs:306-316 | For any text holding a quote after plain characters, the unescaped payload does not parse at all. |
| JsonText.QuoteBreaksPayloadAsWritten | crates/greeters/src/greeters/greetd/mod.rs:306-316 | The formatted payload of a text holding a quote does not parse back to that text. |
| LoginDefs.ParseU64 | crates/greeters/src/greetd/constants.rs:22-26 | A parsed value fits in 64 bits. |
| LoginDefs.ParseU64Meaning | crates/greeters/src/greetd/constants.rs:22-26 | Parsing succeeds exactly for an optional '+' followed by digits whose value fits in 64 bits, and gives that value. |
| LoginDefs.DecimalValue | crates/greeters/src/greetd/constants.rs:22-26 | The decimal digits of a number have that number as their value. |
| LoginDefs.ParseDecimal | crates/greeters/src/greetd/constants.rs:22-26 | A number below 2^64 written in decimal parses back to itself. |
| LoginDefs.LineValue | crates/greeters/src/greetd/constants.rs:20-35 | The value a key line gives is the default or a 64-bit number. |
| LoginDefs.Classify | crates/greeters/src/greetd/constants.rs:19-35 | A line counts for a key exactly when its trimmed form starts with the key. |
| LoginDefs.FirstSomeIsFirst | crates/greeters/src/greetd/constants.rs:17-43 | The chosen value is that of the first line that counts, and none is chosen when no line counts. |
| LoginDefs.FirstSomeAppend | crates/greeters/src/greetd/constants.rs:19-39 | Reading more lines never overrides a value already chosen. |
| LoginDefs.UidMinMax | crates/greeters/src/greetd/constants.rs:15-44 | Both bounds of the range fit in 64 bits. |
| LoginDefs.MissingKeyKeepsDefault | crates/greeters/src/greetd/constants.rs:40-43 | Without a UID_MIN line the minimum is 1000. Without a UID_MAX line the maximum is 60000. |
| LoginDefs.NoKeyLine | crates/greeters/src/greetd/constants.rs:19-43 | If no line starts with the key, the scan finds no value for that key. |
| LoginDefs.FirstKeyLineDecides | crates/greeters/src/greetd/constants.rs:19-27 | The first UID_MIN line decides the minimum; later ones are ignored. |
| LoginDefs.KeysExclusive | crates/greeters/src/greetd/constants.rs:20-28 | No line counts for both keys, so the else-if chain loses nothing. |
| LoginDefs.ScanStep | crates/greeters/src/greetd/constants.rs:19-39 | One more line sets a key only while that key is unset, and never sets both keys. |
| LoginDefs.ScanDone | crates/greeters/src/greetd/constants.rs:19-43 | A scan that stops at a line has found the first value, because it either found one already or read every line. |
| LoginDefs.ScanLoginDefs | crates/greeters/src/greetd/constants.rs:17-43 | The line loop with its early stop computes the first-line-wins range. |
| LoginDefs.FirstFile | crates/greeters/src/greetd/constants.rs:7-10 | The file read is the first candidate that exists, and none is read when neither exists. |
| LoginDefs.LoginUidMinMax | crates/greeters/src/greetd/constants.rs:1-53 | /etc/login.defs is preferred to /usr/local/etc/login.defs. An unreadable file or no file gives the defaults. |
| Sessions.ParseBool | crates/greeters/src/common/session.rs:89-94 | A flag reads as true exactly for "true" or "1", and as false exactly for "false" or "0". |
| Sessions.IsSessionDesktopFile | crates/greeters/src/common/session.rs:88-99 | A desktop file is usable exactly when it is neither NoDisplay nor Hidden, and its TryExec program, if named, is on the PATH. |
| Sessions.SessionKey | crates/greeters/src/common/session.rs:128-132 | The key is the file name with its trailing run of ".desktop" removed: the file name is the key followed by whole copies of ".desktop", and the key does not end in ".desktop". |
| Sessions.LoadEntry | crates/greeters/src/common/session.rs:108-154 | An entry gives a session exactly when it loads, has the desktop group, is usable and has Name and Exec. The session then carries its key, type, name, comment (default empty) and command. |
| Sessions.Collect | crates/greeters/src/common/session.rs:105-155 | The collected map has exactly the keys of the accepted entries. |
| Sessions.CollectLastWins | crates/greeters/src/common/session.rs:155 | For a duplicated key, the last entry wins. |
| Sessions.Accepted | crates/greeters/src/common/session.rs:105-154 | Every accepted pair comes from an entry of the directory and carries its own key and the directory's session type; every entry that loads gives its session. |
| Sessions.LoadSessionDir | crates/greeters/src/common/session.rs:101-156 | A missing directory gives no sessions. Every session found comes from an entry of that directory, under its own key and type, and every entry of an existing directory that loads is found under its key. |
| Sessions.DataDirSessions | crates/greeters/src/common/session.rs:64-72 | One data directory's map is keyed by session key, with type x or wayland. |
| Sessions.Overlay | crates/greeters/src/common/session.rs:62-73 | Merging consistent maps gives a consistent map. |
| Sessions.OverlayKeys | crates/greeters/src/common/session.rs:62-73 | A key is in the merged map exactly when some directory has it. |
| Sessions.OverlayLastWins | crates/greeters/src/common/session.rs:62-73 | A key's value comes from the last directory that has it. |
| Sessions.DirMaps | crates/greeters/src/common/session.rs:62-72 | One map per data directory, in order. |
| Sessions.AvailableSessionsMap | crates/greeters/src/common/session.rs:59-75 | Every catalogued session is keyed by its own key and has type x or wayland. |
| Sessions.LastDataDirWins | crates/greeters/src/common/session.rs:59-75 | A session is taken from the last data directory that has its key. Within that directory a wayland session beats an x session. |
| Sessions.AvailableSessionsMapKeys | crates/greeters/src/common/session.rs:59-75 | The catalogue's keys are exactly the keys found in some data directory. |
| Sessions.SessionList | crates/greeters/src/common/session.rs:77-81 | The list holds every catalogued session once, sorted strictly by key. |
| Sessions.SessionListFacts | crates/greeters/src/common/session.rs:77-81 | Looking the sessions up in key order gives each session once. The result is sorted when each session carries its own key. |
| Sessions.LaunchCommand | crates/greeters/src/greetd/mod.rs:269-290 | A session is started with its command alone. The environment names the session type: wayland, x11 for x, or nothing. |
| Sessions.CataloguedSessionsSetType | crates/greeters/src/greetd/mod.rs:269-290 | Every catalogued session starts with exactly one session-type variable. |
| Sessions.Serialize | crates/greeters/src/greetd/mod.rs:293-307 | The page sees the key, name, comment and type of a session, and never its command. |
| Language.CodePrefix | crates/greeters/src/common/language.rs:36-39 | The part of a code before its codeset. |
| Language.Current | crates/greeters/src/common/language.rs:32-44 | Without LANG there is no current language. Otherwise it is the first language whose code matches LANG up to the codeset, or none when no code does. |
| Language.FindByPrefix | crates/greeters/src/common/language.rs:37-40 | The first language with the given prefix, or none exactly when no language has it. |
| Language.LanguageName | crates/greeters/src/common/language.rs:70-74 | The translated English name, or, without one, the code's whole first segment: a prefix without '_', '.' or '@' that ends at the first of them or at the end. |
| Language.Territory | crates/greeters/src/common/language.rs:81-87 | Empty for a code without '_'. Otherwise the translated English territory, or, without one, the code's second segment. |
| Text.SplitPieces | crates/greeters/src/common/language.rs:84 | The first piece of `split` is the text before the first separator, and there is one piece more than there are separators. |
| Language.Describe | crates/greeters/src/common/language.rs:59-94 | The entry keeps the code, and its name and territory are those LanguageName and Territory give for the database's English names; so without an English language name the name is a prefix of the code, and a code without '_' has no territory. |
| Language.Utf8Codes | crates/greeters/src/common/language.rs:57-58 | Exactly the lines of the output that end in ".utf8". |
| Language.Languages | crates/greeters/src/common/language.rs:46-103 | One language per UTF-8 code, in the output's order, each described under the environment's messages locale. A failed command gives none. |
| Language.LanguagesAreUtf8 | crates/greeters/src/common/language.rs:54-58 | Every listed language has a UTF-8 code. |
| Language.ProcessLocale.constructor | crates/greeters/src/common/language.rs:60 | The process locale starts as given. |
| Language.ProcessLocale.ProbeLanguages | crates/greeters/src/common/language.rs:59-89 | The locale is switched per code and restored afterwards, and the result is the language list. |
| Language.LanguagesByEntry | crates/greeters/src/common/language.rs:59-89 | A list that describes each UTF-8 code in order, under the environment's messages locale, is the language list. |
| ConfigFile.BrandingDefault | crates/webkit-greeter/src/config.rs:115-123 | The default background directory is /usr/share/backgrounds, with no logo or user image. |
| ConfigFile.GreeterDefault | crates/webkit-greeter/src/config.rs:136-148 | Debug off, theme errors detected, a 300-second screensaver, secure mode, theme litarvan, no icon theme or time language. |
| ConfigFile.ThemesDir | crates/webkit-greeter/src/config.rs:13-22 | A file without themes_dir gets /usr/share/webkit-greeter/themes. |
| ConfigFile.Candidates | crates/webkit-greeter/src/config.rs:26-30 | The file under /usr/local/etc is tried before the one under /etc. |
| ConfigFile.ConfigPath | crates/webkit-greeter/src/config.rs:26-32 | The first candidate that is a file is read. With neither, the process panics. |
| ConfigFile.Overridden | crates/webkit-greeter/src/config.rs:36-41 | The debug flag can only turn debug mode on. A command-line theme replaces the file's. Nothing else changes. |
| ConfigFile.OverridesIdempotent | crates/webkit-greeter/src/config.rs:36-41 | Applying the overrides twice is applying them once. Without flags they change nothing. |
| ConfigFile.Load | crates/webkit-greeter/src/config.rs:25-45 | Loading panics exactly when no file exists, it cannot be read, or its structure is wrong. Otherwise it is the parsed settings with the overrides applied. |
| ConfigFile.Config.Default | crates/webkit-greeter/src/config.rs:9 | The derived default: section defaults, an empty themes directory, no primary monitor. |
| ConfigFile.Config.FromSettings | crates/webkit-greeter/src/config.rs:34 | The object holds the parsed settings. |
| ConfigFile.Config.New | crates/webkit-greeter/src/config.rs:25-45 | Constructing panics exactly when Load does. Otherwise the new object holds what Load gives. |
| ConfigFile.Config.SetDebugMode | crates/webkit-greeter/src/config.rs:99-101 | Or-assigns the debug flag and changes nothing else. |
| ConfigFile.Config.SetTheme | crates/webkit-greeter/src/config.rs:103-105 | Replaces the theme and changes nothing else. |
| Theme.ListThemes | crates/webkit-greeter/src/theme.rs:22-36 | Exactly the subdirectories of the themes directory, sorted without duplicates. An unreadable directory gives none. |
| Theme.PrintThemes | crates/webkit-greeter/src/theme.rs:12-20 | An unreadable directory prints only the "no themes" line. No themes print nothing. Otherwise a header is followed by one "- name" line per theme, in order. |
| Theme.ConfigEntry | crates/webkit-greeter/src/theme.rs:67-70 | An index.yml line gives a key without ':' and a value without surrounding quotes. |
| Theme.ConfigEntries | crates/webkit-greeter/src/theme.rs:65-70 | One parse per line, in order. |
| Theme.ToMap | crates/webkit-greeter/src/theme.rs:65-71 | Every key of the map comes with its value from some parsed line. |
| Theme.ToMapKeys | crates/webkit-greeter/src/theme.rs:65-71 | The map has exactly the keys of the parsed lines. |
| Theme.ToMapLastWins | crates/webkit-greeter/src/theme.rs:65-71 | For a repeated key, the last line wins. |
| Theme.LoadThemeConfig | crates/webkit-greeter/src/theme.rs:86-89 | Without an index.yml, the primary page is index.html and there is no secondary page. |
| Theme.ConfigKeyAbsent | crates/webkit-greeter/src/theme.rs:75-84 | Without a primary_html line the primary page is index.html. There is a secondary page exactly when a secondary_html line exists. |
| Theme.ConfigKeyGiven | crates/webkit-greeter/src/theme.rs:75-84 | A key is in the index.yml map exactly when some line gives it. |
| Theme.ConfigLastLineWins | crates/webkit-greeter/src/theme.rs:65-84 | The last primary_html or secondary_html line gives the page. |
| Theme.FallbackHtmlIsJoined | crates/webkit-greeter/src/theme.rs:45-49 | The fallback page is index.html of the default theme in the default themes directory. |
| Theme.PrimaryHtml | crates/webkit-greeter/src/theme.rs:41-50 | The configured page if it is an existing .html file in the theme directory, else the fallback page. Either way an .html path. |
| Theme.SecondaryHtml | crates/webkit-greeter/src/theme.rs:52-57 | The configured secondary page if it is an existing .html file, else the primary page. |
| Theme.LoadThemeHtml | crates/webkit-greeter/src/theme.rs:38-60 | Both pages come from the theme's configuration, and both are .html paths. |
| Theme.JoinKeepsSuffix | crates/webkit-greeter/src/theme.rs:41-42 | Joining onto a directory keeps the name's extension. |
| Bridge.TargetOf | crates/webkit-greeter/src/bridge/mod.rs:116-122 | Exactly the four object names are targets. |
| Bridge.Parse | crates/webkit-greeter/src/bridge/mod.rs:101-123 | A well-shaped message to a known target is routed with its method and JSON parameters. A well-shaped message whose second value is not a string panics; a real GVariant array is homogeneous, so this cannot happen (Bridge.ParseNeverPanics). Everything else is unknown. |
| Bridge.ParseNeverPanics | crates/webkit-greeter/src/bridge/mod.rs:101-123 | When the parameters are a homogeneous array, as every GVariant array is, parsing never panics. |
| Bridge.Send | crates/webkit-greeter/src/bridge/mod.rs:61-90 | Every message gets one reply. An unknown message gets the empty reply. A routed one gets a "reply" message carrying exactly the config handler's answer for greeter_config and the target handler's answer for the method and parameters otherwise. |
| Bridge.ConfigIgnoresParams | crates/webkit-greeter/src/bridge/mod.rs:61-90 | The greeter_config reply depends on the method only, never on the parameters. |
| Bridge.UnknownTargetGetsEmptyReply | crates/webkit-greeter/src/bridge/mod.rs:101-123 | A message to an unknown target gets the empty reply unless its parameters make parsing panic. |
| Bridge.DispatcherAllowedDirs | crates/webkit-greeter/src/bridge/mod.rs:37-40 | The dispatcher allows the themes directory and the background images directory. |
| GreeterComm.Least | crates/webkit-greeter/src/bridge/greeter_comm.rs:122-129 | The smallest of the values. |
| GreeterComm.Greatest | crates/webkit-greeter/src/bridge/greeter_comm.rs:122-129 | The largest of the values. |
| GreeterComm.Lefts | crates/webkit-greeter/src/bridge/greeter_comm.rs:122-129 | The left edge of each monitor. |
| GreeterComm.Tops | crates/webkit-greeter/src/bridge/greeter_comm.rs:122-129 | The top edge of each monitor. |
| GreeterComm.Rights | crates/webkit-greeter/src/bridge/greeter_comm.rs:122-129 | The right edge of each monitor. |
| GreeterComm.Bottoms | crates/webkit-greeter/src/bridge/greeter_comm.rs:122-129 | The bottom edge of each monitor. |
| GreeterComm.OverallBoundary | crates/webkit-greeter/src/bridge/greeter_comm.rs:122-129 | Panics exactly without monitors. Otherwise the box contains every monitor. |
| GreeterComm.BoundaryIsTight | crates/webkit-greeter/src/bridge/greeter_comm.rs:122-129 | Each side of the box is the edge of some monitor. |
| GreeterComm.Broadcast | crates/webkit-greeter/src/bridge/greeter_comm.rs:62-81 | One `_emit` message to every page, in monitor order. |
| GreeterComm.EmitMessage | crates/webkit-greeter/src/bridge/greeter_comm.rs:67-76 | The posted message is one the page-side dispatcher routes to greeter_comm's `_emit` with exactly the broadcast arguments. |
| GreeterComm.BroadcastReachesEveryPage | crates/webkit-greeter/src/bridge/greeter_comm.rs:62-81 | The sender's own page receives the broadcast too. |
| GreeterComm.Handle | crates/webkit-greeter/src/bridge/greeter_comm.rs:27-48 | Arguments that are not a JSON array panic, whatever the method. window_metadata without parameters answers the page's id, primary flag, its monitor's position and size and the overall box, and panics without monitors. broadcast with parameters answers null after broadcasting them. Everything else is undefined and sends nothing. |
| GreeterComm.LoadTheme | crates/webkit-greeter/src/bridge/greeter_comm.rs:50-60 | The primary monitor loads the primary page and every other one the secondary page, as file URLs. |
| ThemeUtilsCommon.SplitWord | crates/webkit-greeter/src/service/theme_utils.rs:57-60 | Splitting text without a separator leaves it whole. |
| ThemeUtilsCommon.SecondComponent | crates/webkit-greeter/src/service/theme_utils.rs:57-60 | The top-level directory of an absolute path. |
| ThemeUtilsCommon.TopLevelComponents | crates/webkit-greeter/src/service/theme_utils.rs:57-60 | The components of "/name" are the root and the name. |
| ThemeUtilsCommon.SplitWhole | crates/webkit-greeter/src/service/theme_utils.rs:57-60 | A word without '/' is one component. |
| ThemeUtilsCommon.NothingRefusedAsWritten | crates/webkit-greeter/src/service/theme_utils.rs:57-60 | With two allowed directories under different top-level directories, the check as written refuses no path. |
| ThemeUtilsCommon.AllowCheckInverted | crates/webkit-greeter/src/bridge/theme_utils.rs:70-73 | With the default allowed directories, /etc passes the check as written although no allowed directory contains it. |
| ThemeUtilsCommon.Listing | crates/webkit-greeter/src/service/theme_utils.rs:78-103 | Never lists more paths than the directory has entries. |
| ThemeUtilsCommon.ListingSound | crates/webkit-greeter/src/service/theme_utils.rs:78-103 | Every listed path comes from a non-dot entry passing the image filter. |
| ThemeUtilsCommon.ListingComplete | crates/webkit-greeter/src/service/theme_utils.rs:78-103 | Every non-dot entry passing the image filter is listed. |
| ThemeUtilsCommon.ListingSnoc | crates/webkit-greeter/src/service/theme_utils.rs:78-103 | Reading one more entry adds its element exactly when the entry passes the filter. |
| ThemeUtilsCommon.ListingExtends | crates/webkit-greeter/src/service/theme_utils.rs:78-103 | The listing of all but the last entry stays in the full listing. |
| ThemeUtilsCommon.ListingLast | crates/webkit-greeter/src/service/theme_utils.rs:78-103 | A last entry that passes the filter is listed. |
| ThemeUtilsCommon.ListingMembers | crates/webkit-greeter/src/service/theme_utils.rs:78-103 | A path is listed exactly when it is a non-dot entry passing the filter. |
| ThemeUtilsCommon.ListingAll | crates/webkit-greeter/src/service/theme_utils.rs:78-103 | Without the image filter, and with no "." or ".." entries, every entry gives one listed path. |
| ThemeUtilsCommon.ListingAsWritten | crates/webkit-greeter/src/service/theme_utils.rs:88-99 | The loop as written panics exactly when the image filter is on and some non-dot entry exists. Otherwise it lists what the intended loop lists. |
| ThemeUtilsCommon.ImageListingPanicsAsWritten | crates/webkit-greeter/src/bridge/theme_utils.rs:101-112 | One image file in the backgrounds directory is listed by the intended loop, and the loop as written panics on it. |
| ThemeUtilsCommon.ReadEntriesAsWritten | crates/webkit-greeter/src/service/theme_utils.rs:78-103 | The entry loop as written computes ListingAsWritten: every entry but "." and ".." in order, or, with the image filter, the GStr panic at the first such entry. |
| ThemeUtilsCommon.DirOf | crates/webkit-greeter/src/service/theme_utils.rs:15-17 | The theme's directory is a prefix of its resolved path and ends in '/'. |
| ThemeUtilsCommon.AllowedDirs | crates/webkit-greeter/src/service/theme_utils.rs:12-20 | The given directories, then the theme's directory when the theme resolves, then the temporary directory. |
| ThemeUtilsCommon.ListDir | crates/webkit-greeter/src/service/theme_utils.rs:46-103 | Corrected rule, see ## Findings. A path that does not resolve, or resolves outside every allowed directory, lists nothing. A non-empty listing means the path resolved to an absolute, readable directory inside an allowed one. |
| ThemeUtilsCommon.ListDirMembers | crates/webkit-greeter/src/service/theme_utils.rs:46-103 | A path appears in a listing exactly when the directory resolves inside an allowed one and the path is a passing entry of it. |
| ThemeUtilsCommon.ListDirAsWritten | crates/webkit-greeter/src/service/theme_utils.rs:46-103 | As written: a directory the code opens (resolves, is not refused by the inverted check, is readable) is listed by the loop as written, panics included; any other path lists nothing. |
| ThemeUtilsCommon.ListDirAgrees | crates/webkit-greeter/src/service/theme_utils.rs:46-103 | Without the image filter, wherever the inverted check and the corrected rule agree on a resolving path, the listing as written equals the corrected listing and never panics. |
| ServiceThemeUtils.DirlistArgs | crates/webkit-greeter/src/service/theme_utils.rs:32-44 | Accepted exactly for a two-element array of a path and a boolean, where the path is not "/" and does not start with "./". |
| ServiceThemeUtils.Dirlist | crates/webkit-greeter/src/service/theme_utils.rs:31-105 | Corrected rule, see ## Findings. Refused arguments list nothing. Accepted arguments give exactly the directory listing for the accepted path and flag. |
| ServiceThemeUtils.HandleReply | crates/webkit-greeter/src/service/theme_utils.rs:22-29 | Corrected rule, see ## Findings and ## Left out. Undefined exactly for another method or the arguments "[]". Panics exactly for dirlist arguments that are not JSON. Otherwise the listing. |
| ServiceThemeUtils.HandleReplyAsWritten | crates/webkit-greeter/src/service/theme_utils.rs:22-103 | As written: undefined exactly for another method or "[]"; panics exactly for dirlist arguments that are not JSON or whose listing as written panics (the image filter's GStr `expect`); otherwise the listing as written. |
| ServiceThemeUtils.HandleAsWrittenAgrees | crates/webkit-greeter/src/service/theme_utils.rs:22-103 | Without the image filter and where the two allow rules agree, the handler as written answers what the corrected one does. |
| ServiceThemeUtils.OutsideAllowedListsNothing | crates/webkit-greeter/src/service/theme_utils.rs:46-60 | A path resolving outside every allowed directory lists nothing. |
| ServiceThemeUtils.ThemeUtils.constructor | crates/webkit-greeter/src/service/theme_utils.rs:12-20 | The object allows the directories AllowedDirs gives. |
| ServiceThemeUtils.ThemeUtils.Handle | crates/webkit-greeter/src/service/theme_utils.rs:22-29 | Corrected rule, see ## Findings and ## Left out. The answer is HandleReply's for the object's directories. |
| ServiceThemeUtils.ThemeUtils.DirlistEntries | crates/webkit-greeter/src/service/theme_utils.rs:31-105 | Corrected rule, see ## Findings and ## Left out. The checks with early returns and the entry loop compute Dirlist. |
| ServiceThemeUtils.ThemeUtils.HandleAsWritten | crates/webkit-greeter/src/service/theme_utils.rs:22-29 | As written: the answer is HandleReplyAsWritten's for the object's directories. |
| ServiceThemeUtils.ThemeUtils.DirlistEntriesAsWritten | crates/webkit-greeter/src/service/theme_utils.rs:31-105 | As written: malformed arguments give []; otherwise the checks with the inverted allow check and the loop with the panicking GStr conversion compute ListDirAsWritten, panic included. |
| BridgeThemeUtils.Dirlist | crates/webkit-greeter/src/bridge/theme_utils.rs:39-119 | Corrected rule, see ## Findings. Null exactly with fewer than two parameters. A refused path lists nothing. Otherwise the directory listing, with the image filter only for the boolean true. |
| BridgeThemeUtils.HandleReply | crates/webkit-greeter/src/bridge/theme_utils.rs:28-37 | Corrected rule, see ## Findings and ## Left out. Panics exactly when the parameters are not an array. Undefined for another method or no parameters. Otherwise Dirlist. |
| BridgeThemeUtils.HandleReplyAsWritten | crates/webkit-greeter/src/bridge/theme_utils.rs:28-119 | As written: panics exactly when the parameters are not an array or a dirlist listing as written panics (the image filter's GStr `expect`); otherwise the as-written Dirlist answer. |
| BridgeThemeUtils.HandleAsWrittenAgrees | crates/webkit-greeter/src/bridge/theme_utils.rs:28-119 | Without the image filter and where the two allow rules agree, the handler as written answers what the corrected one does. |
| BridgeThemeUtils.OneParamGetsNull | crates/webkit-greeter/src/bridge/theme_utils.rs:42-44 | A dirlist call with only a path gets null. |
| BridgeThemeUtils.NonBooleanFlagListsAll | crates/webkit-greeter/src/bridge/theme_utils.rs:101 | Any second parameter other than true lists everything, as false does. |
| BridgeThemeUtils.DispatcherDirs | crates/webkit-greeter/src/bridge/mod.rs:37-42 | The bridge allows the themes directory, the backgrounds directory, the theme's directory when it resolves, and the temporary directory last. |
| BridgeThemeUtils.ThemeUtils.constructor | crates/webkit-greeter/src/bridge/theme_utils.rs:15-26 | The object allows the directories AllowedDirs gives. |
| BridgeThemeUtils.ThemeUtils.Handle | crates/webkit-greeter/src/bridge/theme_utils.rs:28-37 | Corrected rule, see ## Findings and ## Left out. The answer is HandleReply's for the object's directories. |
| BridgeThemeUtils.ThemeUtils.DirlistEntries | crates/webkit-greeter/src/bridge/theme_utils.rs:39-119 | Corrected rule, see ## Findings and ## Left out. The checks with early returns and the entry loop compute Dirlist. |
| BridgeThemeUtils.ThemeUtils.HandleAsWritten | crates/webkit-greeter/src/bridge/theme_utils.rs:28-37 | As written: the answer is HandleReplyAsWritten's for the object's directories. |
| BridgeThemeUtils.ThemeUtils.DirlistEntriesAsWritten | crates/webkit-greeter/src/bridge/theme_utils.rs:39-119 | As written: null for fewer than two parameters, [] for a refused path; otherwise the checks with the inverted allow check and the loop with the panicking GStr conversion give ListDirAsWritten's listing, or its panic with the same reason. |
| JsSignal.WithoutMembers | themes/javascript-api/common/mod.ts:83-85 | After disconnecting, exactly the other callbacks remain. |
| JsSignal.WithoutCounts | themes/javascript-api/common/mod.ts:83-85 | Every registration of the callback is removed and every other registration is kept. |
| JsSignal.WithoutAppend | themes/javascript-api/common/mod.ts:83-85 | The remaining callbacks keep their order. |
| JsSignal.WithoutAbsent | themes/javascript-api/common/mod.ts:83-85 | Disconnecting a callback that is not connected changes nothing. |
| JsSignal.DisconnectUndoesConnect | themes/javascript-api/common/mod.ts:80-85 | Disconnect undoes the connect of a new callback, and a second disconnect changes nothing. |
| JsSignal.Emission | themes/javascript-api/common/mod.ts:86-90 | Every callback is called in registration order with the same arguments. |
| JsSignal.ThrowAt | themes/javascript-api/common/mod.ts:86-90 | The index of the first throwing callback, or the length when none throws: no callback before it throws. |
| JsSignal.ReachedMeaning | themes/javascript-api/common/mod.ts:86-90 | Without a throwing callback every callback is reached; otherwise the reached callbacks are a prefix ending at the first that throws, and none before it throws. |
| JsSignal.DuplicatesCalledTwice | themes/javascript-api/common/mod.ts:80-90 | A callback connected twice is called twice per emission. |
| JsSignal.Signal.constructor | themes/javascript-api/common/mod.ts:79 | A new signal has no callbacks and has made no calls. |
| JsSignal.Signal.Connect | themes/javascript-api/common/mod.ts:80-82 | Appends the callback, keeping duplicates, and calls nothing. |
| JsSignal.Signal.Disconnect | themes/javascript-api/common/mod.ts:83-85 | The list becomes the filtered list, and nothing is called. |
| JsSignal.Signal.Emit | themes/javascript-api/common/mod.ts:86-90 | The callbacks are called in order with the same arguments up to and including the first that throws, which ends the emission; the result says whether one threw, and the list is unchanged. |
| JsSignal.GuardedSignal.constructor | crates/greeters/src/resources/greetd.js:64-65 | A new guarded signal has no callbacks. |
| JsSignal.GuardedSignal.Connect | crates/greeters/src/resources/greetd.js:66-70 | Only a function is appended. Anything else changes nothing. |
| JsSignal.GuardedSignal.Disconnect | crates/greeters/src/resources/greetd.js:71-75 | Only a function is filtered out. Anything else changes nothing. |
| JsSignal.GuardedSignal.Emit | crates/greeters/src/resources/lightdm.js:84-88 | The callbacks are called in order up to and including the first that throws; the result says whether one threw. |
| JsApi.SendRequest | crates/greeters/src/resources/greetd.js:5-12 | The request carries the target and method, and an empty argument list when none is given. |
| JsApi.LeadingDots | themes/javascript-api/common/mod.ts:54-57 | The number of leading dots, which is followed by a non-dot or by the end. |
| JsApi.StripDotSegments | themes/javascript-api/common/mod.ts:54-57 | Stripping never lengthens the path. |
| JsApi.LeadingDotsExact | themes/javascript-api/common/mod.ts:54-57 | The count of leading dots is the length of the all-dot prefix that a non-dot follows. |
| JsApi.LeadingDotsAll | themes/javascript-api/common/mod.ts:54-57 | An all-dot string's count is its length. |
| JsApi.DotSegmentShift | themes/javascript-api/common/mod.ts:54-57 | A match is found in the same place after one more leading character. |
| JsApi.StripKeepsFirst | themes/javascript-api/common/mod.ts:54-57 | The stripped path keeps the first character, so an absolute path stays absolute. |
| JsApi.StripKeepsLeadingDots | themes/javascript-api/common/mod.ts:54-57 | Leading dots are never part of a match and are kept. |
| JsApi.StripWithoutMatch | themes/javascript-api/common/mod.ts:54-57 | Without a match, stripping changes nothing, so the guard before the replacement is redundant. |
| JsApi.NoMatchAtFront | themes/javascript-api/common/mod.ts:54-57 | A character that does not start a match still does not once the text after it is stripped. |
| JsApi.StripLeavesNoDotSegment | themes/javascript-api/common/mod.ts:54-57 | No '/', dots, '/' sequence survives the stripping, so "." and ".." components are gone. |
| JsApi.DirlistPath | themes/javascript-api/common/mod.ts:44-57 | Refused exactly for a non-string, the empty string, or a path that looks relative. Otherwise the stripped path. |
| JsApi.RequestedPathIsClean | themes/javascript-api/common/mod.ts:44-57 | A requested path starts as the given one did, with '/' unless it was one character long, and holds no dot segment. |
| JsApi.Dirlist | themes/javascript-api/common/mod.ts:43-69 | A refused path sends nothing and gives []. An accepted one sends one dirlist request carrying the stripped path and the flag as passed, `true` when it is omitted. A thrown request gives [], otherwise the back end's answer. |
| JsApi.OneCharacterRelativePathPasses | themes/javascript-api/common/mod.ts:48-52 | The absolute-path check lets a one-character relative path through. |
| JsApi.CallbackDirlist | crates/greeters/src/resources/lightdm.js:506-529 | The callback gets [] for a refused path and the listing otherwise. A callback that throws on the listing is called again with []. The listing is returned only when no callback threw, and an exception the callback throws on the final [] escapes. |
| JsApi.EmptyCallback | crates/greeters/src/resources/lightdm.js:506-529 | `return callback([])` lets the callback's exception escape exactly when it throws on []; otherwise the callback's value is returned. |
| JsApi.LanguageGetter | crates/greeters/src/resources/greetd.js:116-119 | A falsy reply is returned as it is. Otherwise a Language with the reply's fields. |
| JsApi.LayoutGetter | crates/greeters/src/resources/greetd.js:123-126 | A falsy reply is returned as it is. Otherwise a Layout with the reply's fields. |
| JsApi.LayoutSetter | crates/greeters/src/resources/greetd.js:127-130 | A string is sent as it is and an object by its name. A nullish value throws a TypeError before anything is sent. |
| JsApi.User.constructor | crates/greeters/src/resources/greetd.js:49-62 | The user has its declared properties plus the record's keys. The record's values are copied, and the other declared properties stay undefined. |

## Left out

- Socket framing of the greetd protocol (length prefix, JSON encoding): the exchange is an oracle, `Exchange`.
- Process exit after a started session, power operations through D-Bus / login1, the accounts service and keyboard layouts: calls into services the model cannot see; their answers are parameters.
- The GTK application, windows, WebKit views and the web extension: user interface and I/O.
- The once-only memoisation of the session map and the language list (`OnceLock`): the model recomputes the same value.
- A failing `setlocale`, and the `expect` on non-UTF-8 `locale -a` output: the output is a string here.
- A `read_dir` error after the directory check, and non-UTF-8 file names (`to_str().unwrap()`): the file system value has only string names.
- GreeterComm.OverallBoundary: does not model the `i32` overflow of `x + width`, because the edges are unbounded integers.
- ConfigFile.GreeterDefault: the screensaver timeout is a `nat`, not a `u32`, because no operation does arithmetic on it.
- Parsing of JSON, TOML and YAML-like text beyond what is stated: the parsed value is a parameter (`parse`, `parsed`), except for the page payload, where escaping is the point.
- JavaScript strings are modelled as code points, not UTF-16 code units, and line terminators in the regular expressions as the four characters `.` does not match.
- The `_name` field of `LightDMSignal`: it is stored and never read.
- A callback that connects or disconnects while a signal is emitting: the list is read once per emission in the model.
- A directory listing never yields "." or "..": the model still filters them, as the code does.
- The `Promise` around the request in `common/mod.ts`: the model returns the resolved value.
- ServiceThemeUtils.HandleReply: answers with the corrected allow rule of ## Findings, whose listing never panics; the as-written GStr `expect` panic of the image filter is modelled in ServiceThemeUtils.HandleReplyAsWritten, and ServiceThemeUtils.HandleAsWrittenAgrees ties the two where they agree.
- BridgeThemeUtils.HandleReply: likewise answers with the corrected rule; the as-written panic is in BridgeThemeUtils.HandleReplyAsWritten, tied back by BridgeThemeUtils.HandleAsWrittenAgrees.
- ServiceThemeUtils.ThemeUtils.Handle: runs the corrected allow rule and entry filter of ## Findings; the code as written is ServiceThemeUtils.ThemeUtils.HandleAsWritten.
- ServiceThemeUtils.ThemeUtils.DirlistEntries: refuses a directory outside every allowed one and filters image entries without the GStr panic, the corrected behaviour; the loop as written is ServiceThemeUtils.ThemeUtils.DirlistEntriesAsWritten.
- BridgeThemeUtils.ThemeUtils.Handle: runs the corrected allow rule and entry filter of ## Findings; the code as written is BridgeThemeUtils.ThemeUtils.HandleAsWritten.
- BridgeThemeUtils.ThemeUtils.DirlistEntries: refuses a directory outside every allowed one and filters image entries without the GStr panic, the corrected behaviour; the loop as written is BridgeThemeUtils.ThemeUtils.DirlistEntriesAsWritten.
- GreetersGreeter.StartStep: the source matches `Ok(())` against the client's `Result<Response, _>`, which does not type-check as written; the model reads the arm as `Ok(_)`, so every reply the client returns as `Ok`, a daemon Error included, exits the process.
- Sessions.LoadEntry: Name and Comment are read untranslated; the source's `locale_string` would prefer the current locale's `Name[xx]`/`Comment[xx]`, and the locale is not part of the model.

## Findings

| source | as written | input that shows it | evidently intended | confidence | as-written member | corrected member |
|---|---|---|---|---|---|---|
| crates/webkit-greeter/src/service/theme_utils.rs:57-60 and crates/webkit-greeter/src/bridge/theme_utils.rs:70-73 | A path is refused only when every allowed directory is a prefix of it | allowed directories /usr/share/webkit-greeter/themes, /usr/share/backgrounds, /tmp; path /etc is listed | A path is listed only when some allowed directory contains it, as the dirlist documentation in crates/greeters/src/resources/greetd.js:227-233 and crates/greeters/src/resources/lightdm.js:494-500 says | not executed | ThemeUtilsCommon.AllowCheckInverted | ThemeUtilsCommon.ListDirMembers |
| crates/greeters/src/greeters/greetd/mod.rs:306-316 | The show_prompt and show_message payload is built by string formatting without escaping | prompt text `say "hi"` reaches the page as broken JSON | The kind and the text are JSON-escaped, so the page parses back exactly what the daemon sent | not executed | JsonText.QuoteBreaksPayloadAsWritten | GreetersGreeter.PageMessage |
| crates/webkit-greeter/src/service/theme_utils.rs:88-99 and crates/webkit-greeter/src/bridge/theme_utils.rs:101-112 | With only_images set, a file name is converted by `GStr::from_str_with_nul`, which fails for a name without a trailing NUL, and the `expect` panics | only_images true, one entry bg.png in /usr/share/backgrounds | Image files are listed and other entries skipped | not executed | ThemeUtilsCommon.ImageListingPanicsAsWritten | ThemeUtilsCommon.ListingMembers |
