# rust-tinychat in Dafny

A model of the request handling of rust-tinychat, a small chat server built on
`tiny_http`. Everything the model covers lives in `src/main.rs`:

- **Request classification** (`handle_request`): OPTIONS gets 200 with CORS
  headers; POST parses the body as a `MessageSent`, pushes it onto the shared
  log and answers 201, or panics in `unwrap` when the body does not parse; GET
  on a URL containing `/messages` attempts the WebSocket upgrade; every other
  GET and every other method gets 405.
- **Handshake** (`verify_websocket_connection` and the first half of
  `start_websocket_connection`): a first-match lookup of `Upgrade`, whose
  value must be exactly `websocket` (else 405); a first-match lookup of
  `Sec-WebSocket-Key` (else 400); the 101 response with three headers
  `Update: websocket`, `Connection: Upgrade`, `Sec-WebSocket-Accept`. The
  misspelt `Update` field is modelled as written, and
  `Handshake.SwitchingHeadersLackUpgrade` shows that no header the server
  attaches to the 101 response matches `Upgrade`.
- **Accept key** (`convert_key`): the key followed by the GUID of section
  4.2.2 of RFC 6455, hashed by a digest function that is a parameter
  (`digest` stands for base64 of SHA-1).
- **Message log**: the shared `Vec<MessageSent>` is the class
  `Server.MessageLog` with a `seq` field that `Push` appends to.
- **Connection loop**: after the 101, the loop reads at most one byte at a
  time. Each byte read leads to one write of the fixed frame
  `81 05 48 65 6c 6c 6f`. A read error returns. A zero-byte read panics. The
  reads are a sequence of `ReadResult`s and the writes a sequence of frames.
  `Frames.HelloFrameIsTextFrame` checks the frame against the base header
  layout of section 5.2 of RFC 6455. The frame is final, unmasked and has
  opcode 1 (text). Its 7-bit length is 5, which equals the length of its
  payload "Hello".

Modules: `Wrappers` (Option), `Http` (headers, methods, requests, responses,
ASCII-case-insensitive field matching and first-match lookup), `Handshake`,
`Frames`, `Connection`, `Server`.

The field-name comparison of `tiny_http`'s `HeaderField::equiv` is assumed:
it is the separate predicate `Http.FieldEquiv` (equal up to ASCII case).
The JSON parser (`serde_json::from_str`) and the digest are ordinary
function-typed parameters, so every statement holds for every parser and
every digest.

## Model

| member | source | states |
|---|---|---|
| Http.FirstMatch | src/main.rs:117-120 | the position found is the first header whose field matches the name; no position means no header matches |
| Http.FindHeader | src/main.rs:117-120 | the header found is the one at the first matching position; nothing is found exactly when no header matches |
| Http.FindHeaderAt | src/main.rs:117-120 | whenever `i` is the first matching position, the lookup yields exactly `headers[i]` |
| Http.LaterHeadersIgnored | src/main.rs:117-120 | headers appended after a list that already holds a match never change the lookup |
| Handshake.AcceptInput | src/main.rs:23-25 | the hashed text is the key followed by the 36-character GUID |
| Handshake.AcceptInputInjective | src/main.rs:23-25 | distinct keys are hashed as distinct inputs |
| Handshake.ConvertKey | src/main.rs:19-28 | a wrapper around the opaque hash with no contract of its own: it computes `digest(AcceptInput(key))` |
| Handshake.VerifyWebsocket | src/main.rs:116-128 | an accepted check returns an `Upgrade` header (any ASCII case) whose value is exactly `websocket` |
| Handshake.UpgradeAcceptedIff | src/main.rs:116-128 | the check succeeds if and only if the first `Upgrade` header has value `websocket` |
| Handshake.LaterUpgradeHeadersIgnored | src/main.rs:117-127 | once an `Upgrade` header is present, later headers, `Upgrade` ones included, do not change the check |
| Handshake.UpgradeCaseRules | src/main.rs:120-122 | `UPGRADE: websocket` passes; `upgrade: WebSocket` fails; a first `Upgrade: h2c` fails even before a later `Upgrade: websocket` |
| Handshake.SecKey | src/main.rs:131-135 | the key is the value of the first `Sec-WebSocket-Key` header; there is none exactly when no such header exists |
| Handshake.SwitchingHeaders | src/main.rs:145-151 | exactly three headers in order: `Update: websocket`, `Connection: Upgrade`, `Sec-WebSocket-Accept` carrying the digest of key plus GUID |
| Handshake.SwitchingHeadersLackUpgrade | src/main.rs:148 | because of the `Update` spelling, no header the server attaches to the 101 response matches `Upgrade` |
| Handshake.StartResponse | src/main.rs:131-151 | the response is 400 with no headers exactly when there is no key header, and 101 otherwise |
| Handshake.StartResponseAccepts | src/main.rs:131-151 | with a key, the 101 response carries the accept value derived from the first key header |
| Frames.ShortTextFrame | src/main.rs:160 | a final unmasked text frame with a short payload has layout `[0x81, length] + payload`, per section 5.2 of RFC 6455 |
| Frames.HelloFrameIsTextFrame | src/main.rs:159-160 | the fixed frame has FIN 1, RSV 0, opcode 1, MASK 0, length byte 5 equal to its payload length, and payload "Hello" |
| Connection.Session | src/main.rs:155-172 | the loop as a recursive definition; it writes at most one frame per read, and it is still waiting exactly when every read produced a frame |
| Connection.Served | src/main.rs:155-158 | the count of leading successful reads: all reads before it succeeded and the read at it did not |
| Connection.SessionShape | src/main.rs:155-172 | one Hello frame per successful read before the first failure; the first read that is not a byte decides the ending (error: closed, zero bytes: panic) |
| Connection.SessionIgnoresBytes | src/main.rs:156-161 | the values of the bytes read never influence what is written or how the loop ends |
| Connection.StopsAtFailure | src/main.rs:167-170 | after a read error nothing more is written, whatever reads would have followed |
| Connection.RunConnection | src/main.rs:155-172 | the loop writes exactly the frames of the session specification and ends as it says |
| Server.MessagesPathAnywhere | src/main.rs:92 | the path test is a substring test: every URL of the form prefix + `/messages` + suffix passes, and every URL shorter than `/messages` fails |
| Server.Classify | src/main.rs:57-114 | a plain reply is 200, 400 or 405; an append answers 201; a protocol switch answers 101 |
| Server.OptionsAnswersCors | src/main.rs:59-72 | OPTIONS always answers 200 with exactly the three CORS headers, whatever its URL |
| Server.PostAppendsOrAborts | src/main.rs:74-89 | a POST whose body parses appends that message and answers 201; one that does not aborts; URL and headers are never consulted |
| Server.NotAllowedCases | src/main.rs:91-112 | GET without `/messages` in the URL, and any method other than OPTIONS, POST, GET, answer 405 |
| Server.UpgradeCheckedBeforeKey | src/main.rs:92-99 | a failed upgrade check answers 405 even when the key is also missing; a passed check without a key answers 400 |
| Server.HandshakeSwitches | src/main.rs:91-101 | a complete handshake answers 101 with the three switching headers and the accept value of the first key header |
| Server.OutcomeKinds | src/main.rs:57-114 | append happens if and only if POST with a parsing body; abort if and only if POST with a failing body; switch if and only if GET on `/messages` with accepted upgrade and a key |
| Server.MessageLog.constructor | src/main.rs:37 | the log starts empty |
| Server.MessageLog.Push | src/main.rs:80-82 | one entry is added at the end and every earlier entry is unchanged |
| Server.HandleRequest | src/main.rs:57-114 | the outcome is the classification; the log grows by the parsed message exactly on an append and is untouched otherwise; the connection loop runs exactly after a 101 |

## Left out

- `main` (src/main.rs:30-55): the fixed address and port, `Server::http`, the `recv` loop and one thread per request. Process startup and concurrency are outside the model.
- The `Arc<Mutex<..>>` lock: the push is one atomic step. The branch where `lock()` fails on a poisoned mutex, which answers 201 without appending, is not modelled, since poisoning needs another thread to panic while it holds the lock.
- SHA-1 and base64 inside `convert_key`: library code, replaced by the `digest` parameter. So the RFC 6455 test vector (`dGhlIHNhbXBsZSBub25jZQ==` gives `s3pPLMBiTxaQ9kYGzzhZRbK+xOo=`) is not proved.
- JSON decoding of the POST body: library code, replaced by the `parse` parameter. Reading the body (`read_to_string(..).unwrap_or_default()`) is not modelled: the request's body is the text the read produced.
- Strings are sequences of characters. The key's bytes (`as_bytes`) are taken to be its characters, since tiny_http header values are ASCII.
- `create_header`'s `unwrap` over `Header::from_bytes` (src/main.rs:13-15): every header the server builds is a valid one. tiny_http's own additions to responses (Date, Server, Content-Length, what `upgrade` writes) are library behaviour.
- Stream I/O and timing: `respond`, `upgrade`, `write`/`flush` with their ignored results, the panic of `expect("Responded")` when the 400 reply cannot be sent, the one-second `sleep`, and `println!`. The infinite loop is modelled over a finite sequence of reads, and the ending `Waiting` stands for a loop still blocked on its next read.
- A panic, from `unwrap` on an unparsable body or from `panic!` on a zero-byte read, is an outcome (`Abort`, `Panicked`). The model does not say what a panic does to the thread.
