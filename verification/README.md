# ionNet connection engine in Dafny

This project models the per-connection protocol engine of ionNet, the
`IonNetClient` class. ionNet is an encrypted RPC envelope protocol that runs
over a WebSocket. Each connection starts with a plaintext handshake. In the
handshake the two ends exchange public keys and derive a shared AES cipher.
After it, every message is an encrypted envelope `{i, f, t, o, e}`. The kinds
are UTIL = 0, SEND = 1, REPLY = 2, PUSH = 3 and ERROR = 4.

The model is functional. A connection is an immutable record `IonNet.Conn`.
Each event is a pure transition:

- the socket's `open`, `close` and `message` events;
- the application's `send`, `reply`, `push` and `error` calls.

The record holds these parts of the source's state:

- `phase` holds `handshake` and `cryptObj` together. Both are set in the same step (ionnet/ionNet.js:55-56).
- `lastI` is the id counter.
- `waiting` is `waitingMessages`.
- `outbox` is the log of what was handed to `ws.send`.
- `delivered` logs the calls to the generic `message` callback.
- `resolved` logs the calls to pending entries.
- `readyCount` and `disconnectCount` count the calls to `ready` and `disconnect`.

The promise each outbound call returns is a `Status`:

- `Awaiting(id)` for `send`;
- `Done` for `reply`, `push` and `error`;
- `Rejected("IonNetHandler not ready.")` before the handshake.

The promise of a `send` settles with the first envelope resolved under its
id (`IonNet.Outcome`).

The inbound handler can throw inside its async body, or return early. Those
cases are an explicit `Failed(fault)` effect that changes nothing:

- a ciphertext that does not decrypt;
- a REPLY or ERROR whose id has no pending entry (`waitingMessages[msg.i]` is undefined and calling it throws);
- handshake text that JSON.parse rejects;
- a peer key that computeSecret rejects;
- a handshake object without a key or iv.

The model records only the connection's state. These errors are not caught
anywhere in the source. The rejected promise of the async 'message' listener
is an unhandled rejection. A decipher 'error' event without a listener
becomes an uncaught exception. Node's default reaction to either, which ends
the process, is not modelled.

Modules:

- `Json`: payload values with JavaScript truthiness. It also holds the JSON text of flat string-valued objects: strings are escaped as JSON.stringify escapes them, the parser rejects raw control characters as JSON.parse does, and the parse-after-stringify round trip is proved.
- `Hex`: hexadecimal digits, used by the JSON `\u` escape and by the hex text of keys.
- `MsgCrypt`: the crypto provider of ionnet/msgCrypt.js, as symbolic stand-ins.
  - A key pair is a private number. Its public key is the number's hex text.
  - The shared secret of `a` with the public key of `b` is the hex text of `a * b`, so both ends agree.
  - A peer key that is not hex text, or that denotes 0, is rejected like an off-curve point.
  - The session key is the first 32 characters of the secret.
  - A ciphertext is sealed under one cipher object. Only that cipher object opens it.
- `Envelopes`: the kind constants, the envelope, and the dispatch predicate.
- `Handshake`: the `"handshake"` + JSON `{key, iv}` wire text, with the fixed iv `a2xhcgAAAAAAAAAA`.
- `IonNet`: the connection record, its transitions, the connection invariant `Valid`, and lemmas over event sequences.
- `Session`: an initiator and an acceptor wired to each other. It covers the full handshake and a send/reply exchange.

Behaviour of the code worth knowing:

- There is no closed state. `close` only calls `disconnect`, and later calls behave as before.
- A handshake object missing `key` or `iv` gets no ERROR(4) reply. The fallback `this.send(...)` is made before the handshake, so it rejects and transmits nothing.
- An acceptor (`isPeer`) answers a handshake with its own handshake message, and it fires `ready` once. An initiator fires `ready` without answering.
- Pending entries are never removed. A second REPLY for the same id calls the same resolver again. The model logs that call, and `Outcome` keeps the first settlement.

## Model

| member | source | states |
|---|---|---|
| Json.ParseStringify | ionnet/ionNet.js:51 | parsing the JSON text of a flat string-valued object gives back exactly its members, in order |
| Json.ReadEscapedChar | ionnet/ionNet.js:51 | the escape JSON.stringify writes for any character reads back as exactly that character, consuming exactly the escape |
| Json.ReadEscaped | ionnet/ionNet.js:51 | reading an escaped string body recovers the string and leaves the text after its closing quote untouched |
| Json.Lookup | ionnet/ionNet.js:53 | a member is present iff some pair has that name; its value is that of the last pair with the name, as JSON.parse keeps the last duplicate |
| Json.Truthy | ionnet/ionNet.js:193 | `if(obj)`: the falsy JSON values are exactly null, false, 0 and the empty string |
| Json.Present | ionnet/ionNet.js:53 | a string member is truthy unless it is absent or empty |
| Json.Escape | ionnet/ionNet.js:103 | JSON.stringify's string body never contains a raw character below U+0020 |
| Json.ReadChar | ionnet/ionNet.js:51 | JSON.parse takes any character at or above U+0020 as itself and rejects a raw one below it; it decodes the escapes \" \\ \/ \b \f \n \r \t and \uXXXX in either case, and rejects any other escape, a truncated `\u` and a surrogate `\u` |
| Json.Stringify | ionnet/ionNet.js:103 | the JSON text of an object is braced, is "{}" exactly for no members, and contains no raw control character |
| Json.Parse | ionnet/ionNet.js:51 | a successful parse starts with a brace, and gives no members exactly for "{}" |
| MsgCrypt.HexRoundTrip | ionnet/msgCrypt.js:10 | the hex text of a key decodes back to the key |
| MsgCrypt.ComputeSecret | ionnet/msgCrypt.js:13-15 | derivation fails exactly when the peer key is not hex text or is no point; otherwise the secret's hex decodes to the product of own private key and peer key |
| MsgCrypt.SecretAgrees | ionnet/msgCrypt.js:13-15 | two ends that use each other's public keys derive the same secret |
| MsgCrypt.Truncate | ionnet/msgCrypt.js:23 | `substr(0,32)` keeps the first min(32, length) characters |
| MsgCrypt.CreateCryptoObj | ionnet/msgCrypt.js:22-27 | the cipher object exists iff the secret can be computed; its key is the secret's first min(32, length) characters and its iv the given one |
| MsgCrypt.Encrypt | ionnet/msgCrypt.js:28-46 | decrypting with the same cipher object gives the plaintext back |
| MsgCrypt.Decrypt | ionnet/msgCrypt.js:48-66 | decryption succeeds only under the cipher object that encrypted |
| Handshake.ReadOffer | ionnet/ionNet.js:50-51 | the tagged text's payload after the first 9 characters is parsed; key and iv are that object's members, and a parse failure is reported |
| Handshake.ReadTaggedObject | ionnet/ionNet.js:50-51 | for every flat object, the tagged JSON text is recognised as a handshake, and reading it yields the object's key and iv members, absent where missing and the last one where repeated |
| Handshake.Message | ionnet/ionNet.js:99-103 | the handshake text is the tag followed by the JSON text of {key, iv} with the fixed iv |
| Handshake.Tagged | ionnet/ionNet.js:50 | `startsWith('handshake')`: the first nine characters are the tag's characters |
| Handshake.Complete | ionnet/ionNet.js:53 | the handshake object is usable iff neither key nor iv is absent or empty |
| Envelopes.Correlated | ionnet/ionNet.js:44 | every REPLY, and an ERROR exactly when it carries an id, goes to a pending entry; no other kind does |
| Handshake.MessageRoundTrip | ionnet/ionNet.js:98-105 | the startHandshake text starts with "handshake"; stripping 9 characters, the tag's length, and parsing recovers the sender's key and the fixed iv |
| IonNet.NewConn | ionnet/ionNet.js:19-21 | a new connection keeps the given isPeer flag and key pair; it has no handshake, lastI 0, no pending entries, nothing sent, empty callback logs and zero ready and disconnect counts, and it satisfies the invariant |
| IonNet.StartHandshake | ionnet/ionNet.js:98-105 | appends exactly one plaintext message, from which the receiver reads the own public key and the fixed iv; nothing else changes |
| IonNet.Open | ionnet/ionNet.js:29-33 | on open, an initiator sends its handshake message; an acceptor does nothing |
| IonNet.Close | ionnet/ionNet.js:35-37 | close calls disconnect once more, in any state, and changes nothing else |
| IonNet.Send | ionnet/ionNet.js:113-131 | after the handshake: the envelope has i = lastI and t = SEND; a pending entry is registered under that id; lastI grows by one; exactly one wire is appended, which decrypts to that envelope. Before the handshake: rejects with "not ready" and changes nothing |
| IonNet.Transmit | ionnet/ionNet.js:148-149 | after the handshake: appends one wire that decrypts to the given envelope, keeps every earlier wire and changes nothing else, and resolves with true; before it: rejects with "not ready" and changes nothing |
| IonNet.Reply | ionnet/ionNet.js:139-154 | after the handshake: keeps every earlier wire and appends one that decrypts to {i, f, t=2, o}; lastI, waiting and everything else are unchanged. Before it: rejects and changes nothing |
| IonNet.Push | ionnet/ionNet.js:161-175 | after the handshake: keeps every earlier wire and appends one that decrypts to {f, t=3, o} without i; lastI, waiting and everything else are unchanged. Before it: rejects and changes nothing |
| IonNet.Error | ionnet/ionNet.js:184-202 | after the handshake: keeps every earlier wire and appends one that decrypts to {i, f, t=4, e = code or -1}, with o present iff obj is truthy; lastI, waiting and everything else are unchanged. Before it: rejects and changes nothing |
| IonNet.Dispatch | ionnet/ionNet.js:40-48 | after the handshake: UTIL, SEND, PUSH, an ERROR without i, or an unknown kind goes only to the message callback; a REPLY or an ERROR with a pending id goes only to that entry; a REPLY, or an ERROR with an id, that has no pending entry fails; an undecryptable message fails; nothing else changes |
| IonNet.Accept | ionnet/ionNet.js:49-64 | before the handshake: an untagged message re-sends the own handshake message; a tagged one completes the handshake iff it parses, has a truthy key and iv, and key derivation succeeds; then ready fires once, and a peer (only) appends its own handshake message; otherwise nothing changes |
| IonNet.IncompleteOfferRejected | ionnet/ionNet.js:53 | a handshake object whose key or iv is absent or empty leaves the connection exactly as it was, with nothing transmitted |
| IonNet.Receive | ionnet/ionNet.js:39-65 | after the handshake, no message changes the handshake, lastI, pending entries or the outbox; before it, no message changes lastI, pending entries or the callback logs |
| IonNet.Outcome | ionnet/ionNet.js:122-124 | a send's promise settles with the first envelope resolved under its id, or is still pending if none was |
| IonNet.Apply | ionnet/ionNet.js:29-202 | no event undoes a handshake, lowers lastI or removes a pending entry, and every log only grows |
| IonNet.StepValid | ionnet/ionNet.js:29-202 | every event preserves the invariant: ready fired iff handshaken; pending ids are exactly 0..lastI-1; the SEND envelopes sent carry ids 0..lastI-1 in order; every ciphertext uses the session cipher; resolutions and deliveries obey the dispatch rule |
| IonNet.RunValid | ionnet/ionNet.js:29-202 | the invariant holds after any sequence of events |
| IonNet.HandshakeIsPermanent | ionnet/ionNet.js:56 | once handshaken, a connection stays handshaken with the same cipher object under any sequence of events |
| IonNet.FreshConnection | ionnet/ionNet.js:117-125 | from a new connection, whatever events occur, the SEND ids transmitted are 0, 1, ..., lastI-1 with no repeats, each has a pending entry, and ready has fired at most once |
| IonNet.SendMany | ionnet/ionNet.js:113-131 | N consecutive sends after the handshake get the ids lastI..lastI+N-1 in order, each registered and each transmitted after the earlier wires; earlier pending entries, the callback logs, the counters, isPeer, the keys and the cipher are kept; before the handshake all N reject and nothing changes |
| Session.AgreedFromEitherEnd | ionnet/msgCrypt.js:22-23 | initiator and acceptor build the same cipher object from each other's handshake |
| Session.AcceptsHandshake | ionnet/ionNet.js:50-60 | a connection without a handshake accepts another process's handshake message and switches to the cipher derived from it |
| Session.HandshakeCompletes | ionnet/ionNet.js:29-60 | initiator and acceptor wired together both complete the handshake with the same cipher and the fixed iv, each fires ready exactly once, each sends exactly one handshake message, and both satisfy the invariant |
| Session.RequestStep | ionnet/ionNet.js:113-126 | after the handshake, the initiator's first request reaches the acceptor's message callback as {i=0, f, t=1, o} and changes nothing else there |
| Session.ReplyStep | ionnet/ionNet.js:44-45 | the acceptor's reply with id 0 reaches the initiator's pending entry for id 0 and nothing else |
| Session.EchoResolves | ionnet/ionNet.js:113-148 | after the handshake, the acceptor's message callback gets the request {i=0, f, t=1, o}; its reply with that id reaches the initiator, whose promise for id 0 settles with {i=0, f, t=2, o} |

## Left out

- ECDH on secp521r1 and AES-256-CBC (ionnet/msgCrypt.js) cannot be modelled here. They are symbolic stand-ins that keep agreement of the shared secret and the rule that a ciphertext opens only under the cipher object that sealed it. Key secrecy, the 16-character iv length check in `createCipheriv`, and CBC's lack of integrity are not modelled.
- `createKeys` (ionnet/msgCrypt.js:8-11) runs once at module load. The process-wide key pair is a `KeyPair` fixed in each connection record. Calling `createKeys` again is not modelled.
- MsgCrypt.Decrypt: a ciphertext under a different key or iv is a failure. In the source, `decrypt` (ionnet/msgCrypt.js:48-66) settles only in the decipher's 'end' listener and has no 'error' listener. On a padding failure its promise never settles and the stream error goes unhandled, so the `await` at ionnet/ionNet.js:41 never resumes. When the padding happens to check out, the output is garbage that JSON.parse rejects. Either way the connection's state does not change, which is what the model's failure records.
- The envelope's own JSON text is not modelled. The encrypted form carries the envelope value, so JSON.stringify and JSON.parse of envelopes are taken as exact.
- Json.Parse accepts flat objects with string members written without whitespace. It rejects some texts JSON.parse accepts: whitespace between tokens, non-string members, and `\u` escapes of surrogates (Dafny characters are Unicode scalar values, so surrogate pairs are not decoded). In the model such a handshake message changes nothing; in the source it may complete the handshake. A tagged message carrying a non-object value changes nothing in both.
- Json.Escape: lone surrogates, which JSON.stringify writes as `\u` escapes, cannot occur in a Dafny string.
- Payload numbers are integers. JavaScript's floating-point numbers and NaN are not modelled.
- `lastI` is an unbounded natural number. The loss of precision past 2^53 is not modelled.
- Loose equality `msg.t == 2` also matches a string "2". The model's `t` is an integer.
- IonNet.Accept: the fallback `this.send({f:'handshake',t:4,e:4})` passes an object as the endpoint name. The model calls `Send` with the name "handshake". Since the call rejects, the argument has no effect.
- The socket may deliver a Buffer instead of a string. The model treats every inbound message as text or ciphertext.
- Process-level outcome of uncaught errors: the unhandled rejection of the 'message' listener (ionnet/ionNet.js:39) and the unlistened decipher 'error' event (ionnet/msgCrypt.js:52-64) are not modelled; the model keeps the connection state as it was.
- Async interleaving (a second message arriving while an `await` on decrypt or encrypt is pending) is not modelled. Each event is one atomic transition.
- `onMessage`, `onReady` and `onDisconnect` (ionnet/ionNet.js:73-92) only overwrite a callback slot. The model logs callback invocations rather than the callbacks themselves.
- `IonNetServer` and the module exports (ionnet/ionNet.js:205-243) are a listener adapter. `Session` plays the acceptor role they create.
- test/test.js is not part of this model. Its integration tests run over live sockets.
