/** One `IonNetClient` (ionnet/ionNet.js:4-203): the per-connection protocol
    engine, as pure transitions over an immutable connection record.

    The transport is the record's `outbox`, the log of messages handed to
    `ws.send`. The application callbacks are logs too: `delivered` holds the
    envelopes given to the generic `message` callback, `resolved` the calls
    made to pending entries, `readyCount` and `disconnectCount` the calls to
    `ready` and `disconnect`. Each promise returned by `send`, `reply`, `push`
    and `error` becomes a `Status`. */
module IonNet {
  import opened Wrappers
  import opened Json
  import opened MsgCrypt
  import opened Envelopes
  import Handshake

  /** Rejection reason of every outbound call made before the handshake. */
  const NOT_READY: string := "IonNetHandler not ready."

  /** Endpoint name of the diagnostic the handshake's error path tries to send. */
  const HANDSHAKE_ERROR: string := "handshake"

  /** One message on the transport: handshake text, or an encrypted envelope. */
  datatype Wire = Plain(text: string) | Enc(sealed: Sealed<Envelope>)

  /** `this.handshake` together with `this.cryptObj`: both are set in the same
      step (ionnet/ionNet.js:55-56), so the flag is true exactly when a cipher
      object exists. */
  datatype Phase = Unauthenticated | Authenticated(crypt: CryptObj)

  /** One entry of `waitingMessages`: the resolver of the promise of the
      request it was registered for. */
  datatype Pending = Pending(request: Envelope)

  datatype Conn = Conn(
    isPeer: bool,
    keys: KeyPair,
    phase: Phase,
    lastI: nat,
    waiting: map<int, Pending>,
    outbox: seq<Wire>,
    delivered: seq<Envelope>,
    resolved: seq<(int, Envelope)>,
    readyCount: nat,
    disconnectCount: nat)
  {
    predicate Handshaken() {
      phase.Authenticated?
    }
  }

  /** Settlement of the promise an outbound call returns: `send` stays
      pending on the id it allocated, `reply`, `push` and `error` resolve with
      true, and any call before the handshake rejects. */
  datatype Status = Awaiting(id: nat) | Done | Rejected(reason: string)

  datatype Call = Call(conn: Conn, status: Status)

  /** What handling one inbound message did. */
  datatype Effect =
    | Delivered             // given to the generic `message` callback
    | Answered(id: int)     // given to the pending entry for `id`
    | Accepted              // handshake completed
    | Restarted             // own handshake message sent again
    | Failed(fault: Fault)  // the handler threw or returned early; nothing changed

  datatype Fault =
    | Undecryptable   // decrypt never settles (bad padding) or JSON.parse of its output throws
    | UnknownId       // `waitingMessages[msg.i]` is undefined and calling it throws
    | BadOfferJson    // JSON.parse of the handshake text throws
    | MissingKeyOrIv  // the fallback `send` rejects
    | BadPeerKey      // computeSecret throws on the peer key

  datatype Received = Received(conn: Conn, effect: Effect)

  /** The wire's envelope, when it was sealed under `c`. */
  function Unseal(c: CryptObj, w: Wire): (r: Option<Envelope>)
    ensures r.Some? <==> w.Enc? && w.sealed.under == c
  {
    match w
    case Plain(_) => None
    case Enc(ct) => Decrypt(c, ct)
  }

  /** The constructor: no handshake, `lastI = 0`, no pending entries. */
  function NewConn(isPeer: bool, keys: KeyPair): (c: Conn)
    ensures c.isPeer == isPeer && c.keys == keys
    ensures !c.Handshaken() && c.lastI == 0 && c.waiting == map[] && c.outbox == []
    ensures c.delivered == [] && c.resolved == [] && c.readyCount == 0 && c.disconnectCount == 0
    ensures Valid(c)
  {
    Conn(isPeer, keys, Unauthenticated, 0, map[], [], [], [], 0, 0)
  }

  /** `startHandshake`: transmits the own public key and the fixed iv in the clear. */
  function StartHandshake(c: Conn): (r: Conn)
    ensures r.(outbox := c.outbox) == c
    ensures |r.outbox| == |c.outbox| + 1 && r.outbox[..|c.outbox|] == c.outbox
    ensures var w := r.outbox[|c.outbox|];
      && w.Plain? && Handshake.Tagged(w.text)
      && Handshake.ReadOffer(w.text) == Some(Handshake.Offer(Some(PublicKey(c.keys)), Some(Handshake.FIXED_IV)))
  {
    Handshake.MessageRoundTrip(PublicKey(c.keys));

    c.(outbox := c.outbox + [Plain(Handshake.Message(PublicKey(c.keys)))])
  }

  /** The 'open' event; only a connection that is not a peer listens for it. */
  function Open(c: Conn): (r: Conn)
    ensures c.isPeer ==> r == c
    ensures !c.isPeer ==> r == StartHandshake(c)
  {
    if c.isPeer then c else StartHandshake(c)
  }

  /** The 'close' event: calls `disconnect`, whatever the handshake state. */
  function Close(c: Conn): (r: Conn)
    ensures r.disconnectCount == c.disconnectCount + 1
    ensures r.(disconnectCount := c.disconnectCount) == c
  {
    c.(disconnectCount := c.disconnectCount + 1)
  }

  /** `send(func, obj)`: allocates the id `lastI`, registers a pending entry
      under it, increments `lastI` and transmits a SEND envelope. */
  function Send(c: Conn, f: string, o: Option<Value>): (r: Call)
    ensures !c.Handshaken() ==> r == Call(c, Rejected(NOT_READY))
    ensures c.Handshaken() ==>
      var m := Envelope(Some(c.lastI), f, SEND, o, None);
      && r.status == Awaiting(c.lastI)
      && r.conn.lastI == c.lastI + 1
      && r.conn.waiting == c.waiting[c.lastI := Pending(m)]
      && |r.conn.outbox| == |c.outbox| + 1
      && r.conn.outbox[..|c.outbox|] == c.outbox
      && Unseal(c.phase.crypt, r.conn.outbox[|c.outbox|]) == Some(m)
      && r.conn.(lastI := c.lastI, waiting := c.waiting, outbox := c.outbox) == c
  {
    match c.phase
    case Unauthenticated => Call(c, Rejected(NOT_READY))
    case Authenticated(crypt) =>
      var m := Envelope(Some(c.lastI), f, SEND, o, None);
      var c' := c.(waiting := c.waiting[c.lastI := Pending(m)], lastI := c.lastI + 1,
                   outbox := c.outbox + [Enc(Encrypt(crypt, m))]);
      Call(c', Awaiting(c.lastI))
  }

  /** Transmits one envelope after the handshake and resolves with true;
      rejects before it. The common tail of `reply`, `push` and `error`. */
  function Transmit(c: Conn, m: Envelope): (r: Call)
    ensures !c.Handshaken() ==> r == Call(c, Rejected(NOT_READY))
    ensures c.Handshaken() ==>
      && r.status == Done
      && |r.conn.outbox| == |c.outbox| + 1
      && r.conn.outbox[..|c.outbox|] == c.outbox
      && Unseal(c.phase.crypt, r.conn.outbox[|c.outbox|]) == Some(m)
      && r.conn.(outbox := c.outbox) == c
  {
    match c.phase
    case Unauthenticated => Call(c, Rejected(NOT_READY))
    case Authenticated(crypt) => Call(c.(outbox := c.outbox + [Enc(Encrypt(crypt, m))]), Done)
  }

  /** `reply(func, i, obj)`: a REPLY echoing the caller's id. */
  function Reply(c: Conn, f: string, i: Option<int>, o: Option<Value>): (r: Call)
    ensures !c.Handshaken() ==> r == Call(c, Rejected(NOT_READY))
    ensures c.Handshaken() ==>
      && r.status == Done
      && r.conn.(outbox := c.outbox) == c
      && |r.conn.outbox| == |c.outbox| + 1
      && r.conn.outbox[..|c.outbox|] == c.outbox
      && Unseal(c.phase.crypt, r.conn.outbox[|c.outbox|]) == Some(Envelope(i, f, REPLY, o, None))
  {
    Transmit(c, Envelope(i, f, REPLY, o, None))
  }

  /** `push(func, obj)`: a PUSH without an id. */
  function Push(c: Conn, f: string, o: Option<Value>): (r: Call)
    ensures !c.Handshaken() ==> r == Call(c, Rejected(NOT_READY))
    ensures c.Handshaken() ==>
      && r.status == Done
      && r.conn.(outbox := c.outbox) == c
      && |r.conn.outbox| == |c.outbox| + 1
      && r.conn.outbox[..|c.outbox|] == c.outbox
      && Unseal(c.phase.crypt, r.conn.outbox[|c.outbox|]) == Some(Envelope(None, f, PUSH, o, None))
  {
    Transmit(c, Envelope(None, f, PUSH, o, None))
  }

  /** `error(func, i, code = -1, obj = null)`: an ERROR carrying the caller's
      id and the code; `o` is present only when `obj` is truthy. */
  function Error(c: Conn, f: string, i: Option<int>, code: Option<int>, obj: Option<Value>): (r: Call)
    ensures !c.Handshaken() ==> r == Call(c, Rejected(NOT_READY))
    ensures c.Handshaken() ==>
      && r.status == Done
      && r.conn.(outbox := c.outbox) == c
      && |r.conn.outbox| == |c.outbox| + 1
      && r.conn.outbox[..|c.outbox|] == c.outbox
      && var m := Unseal(c.phase.crypt, r.conn.outbox[|c.outbox|]);
      && m.Some?
      && m.value.i == i && m.value.f == f && m.value.t == ERROR
      && m.value.e == Some(if code.Some? then code.value else DEFAULT_CODE)
      && (m.value.o.Some? <==> obj.Some? && Truthy(obj.value))
      && (m.value.o.Some? ==> m.value.o == obj)
  {
    var o := if obj.Some? && Truthy(obj.value) then obj else None;
    Transmit(c, Envelope(i, f, ERROR, o, Some(code.GetOr(DEFAULT_CODE))))
  }

  /** Handling of a 'message' event while the handshake is done: decrypt,
      then route a REPLY or an ERROR with an id to its pending entry and
      everything else to the generic `message` callback. */
  function Dispatch(c: Conn, w: Wire): (r: Received)
    requires c.Handshaken()
    ensures r.conn.(delivered := c.delivered, resolved := c.resolved) == c
    ensures r.effect.Failed? ==> r.conn == c
    ensures Unseal(c.phase.crypt, w).None? ==> r.effect == Failed(Undecryptable)
    ensures Unseal(c.phase.crypt, w).Some? ==>
      var m := Unseal(c.phase.crypt, w).value;
      && (m.t == UTIL || m.t == SEND || m.t == PUSH || (m.t == ERROR && m.i.None?) || !(0 <= m.t <= 4) ==>
            r.effect == Delivered && r.conn.delivered == c.delivered + [m] && r.conn.resolved == c.resolved)
      && ((m.t == REPLY || m.t == ERROR) && m.i.Some? && m.i.value in c.waiting ==>
            r.effect == Answered(m.i.value) && r.conn.resolved == c.resolved + [(m.i.value, m)]
            && r.conn.delivered == c.delivered)
      && (m.t == REPLY && (m.i.None? || m.i.value !in c.waiting) ==> r.effect == Failed(UnknownId))
      && (m.t == ERROR && m.i.Some? && m.i.value !in c.waiting ==> r.effect == Failed(UnknownId))
  {
    match Unseal(c.phase.crypt, w)
    case None => Received(c, Failed(Undecryptable))
    case Some(m) =>
      if Correlated(m) then
        if m.i.Some? && m.i.value in c.waiting then
          Received(c.(resolved := c.resolved + [(m.i.value, m)]), Answered(m.i.value))
        else Received(c, Failed(UnknownId))
      else Received(c.(delivered := c.delivered + [m]), Delivered)
  }

  /** Handling of a 'message' event before the handshake. A tagged message
      with a key and an iv completes the handshake (a peer answers with its own
      handshake message) and fires `ready`; a tagged message missing either
      falls back to `send`, which rejects; an untagged message makes this side
      send its handshake message again. */
  function Accept(c: Conn, w: Wire): (r: Received)
    requires !c.Handshaken()
    ensures r.effect.Failed? ==> r.conn == c
    ensures !(w.Plain? && Handshake.Tagged(w.text)) ==> r == Received(StartHandshake(c), Restarted)
    ensures r.effect == Accepted <==>
      && w.Plain? && Handshake.Tagged(w.text)
      && var offer := Handshake.ReadOffer(w.text);
      && offer.Some? && Handshake.Complete(offer.value)
      && CreateCryptoObj(c.keys, offer.value.key.value, offer.value.iv.value).Some?
    ensures r.effect == Accepted ==>
      var offer := Handshake.ReadOffer(w.text).value;
      && r.conn.phase == Authenticated(CreateCryptoObj(c.keys, offer.key.value, offer.iv.value).value)
      && r.conn.phase.crypt.iv == offer.iv.value
      && r.conn.readyCount == c.readyCount + 1
      && r.conn.outbox == (if c.isPeer then StartHandshake(c).outbox else c.outbox)
      && r.conn.(phase := c.phase, readyCount := c.readyCount, outbox := c.outbox) == c
    ensures w.Plain? && Handshake.Tagged(w.text) && r.effect != Accepted ==> r.conn == c
  {
    if w.Plain? && Handshake.Tagged(w.text) then
      match Handshake.ReadOffer(w.text)
      case None => Received(c, Failed(BadOfferJson))
      case Some(offer) =>
        if !Handshake.Complete(offer) then
          Received(Send(c, HANDSHAKE_ERROR, None).conn, Failed(MissingKeyOrIv))
        else
          match CreateCryptoObj(c.keys, offer.key.value, offer.iv.value)
          case None => Received(c, Failed(BadPeerKey))
          case Some(crypt) =>
            var c1 := c.(phase := Authenticated(crypt));
            var c2 := if c.isPeer then StartHandshake(c1) else c1;
            Received(c2.(readyCount := c2.readyCount + 1), Accepted)
    else Received(StartHandshake(c), Restarted)
  }

  /** A tagged handshake object that lacks a usable key or iv leaves the
      handshake undone and transmits nothing: the fallback `send` is made
      before the handshake, so it rejects. */
  lemma IncompleteOfferRejected(c: Conn, fs: seq<Field>)
    requires !c.Handshaken()
    requires !Present(Lookup(fs, "key")) || !Present(Lookup(fs, "iv"))
    ensures Receive(c, Plain(Handshake.TAG + Stringify(fs))) == Received(c, Failed(MissingKeyOrIv))
  {
    Handshake.ReadTaggedObject(fs);
  }

  /** The 'message' event. */
  function Receive(c: Conn, w: Wire): (r: Received)
    ensures c.Handshaken() ==> r.conn.phase == c.phase && r.effect != Accepted
    ensures c.Handshaken() ==> r.conn.lastI == c.lastI && r.conn.waiting == c.waiting && r.conn.outbox == c.outbox
    ensures !c.Handshaken() ==>
      r.conn.lastI == c.lastI && r.conn.waiting == c.waiting && r.conn.delivered == c.delivered && r.conn.resolved == c.resolved
  {
    if c.Handshaken() then Dispatch(c, w) else Accept(c, w)
  }

  /** First settlement of the promise of request `id`: later calls to the
      same resolver do not change a settled promise. */
  function Outcome(resolved: seq<(int, Envelope)>, id: int): (r: Option<Envelope>)
    ensures r.Some? ==> exists k :: 0 <= k < |resolved| && resolved[k] == (id, r.value)
                          && forall j :: 0 <= j < k ==> resolved[j].0 != id
    ensures r.None? ==> forall k :: 0 <= k < |resolved| ==> resolved[k].0 != id
  {
    if resolved == [] then None
    else if resolved[0].0 == id then Some(resolved[0].1)
    else
      var r := Outcome(resolved[1..], id);
      assert forall k :: 0 < k < |resolved| ==> resolved[1..][k - 1] == resolved[k];
      r
  }

  // ---------------------------------------------------------------------
  // Event sequences and the connection invariant
  // ---------------------------------------------------------------------

  datatype Event =
    | Opened
    | Closed
    | Incoming(w: Wire)
    | CallSend(f: string, o: Option<Value>)
    | CallReply(f: string, i: Option<int>, o: Option<Value>)
    | CallPush(f: string, o: Option<Value>)
    | CallError(f: string, i: Option<int>, code: Option<int>, obj: Option<Value>)

  /** One event. Whatever it is, an authenticated connection keeps its
      cipher, ids and pending entries are never taken back, and every log only
      grows. */
  function Apply(c: Conn, ev: Event): (r: Conn)
    ensures c.Handshaken() ==> r.phase == c.phase
    ensures r.isPeer == c.isPeer && r.keys == c.keys
    ensures r.lastI >= c.lastI
    ensures forall id :: id in c.waiting ==> id in r.waiting
    ensures forall id :: id in c.waiting && id < c.lastI ==> r.waiting[id] == c.waiting[id]
    ensures c.outbox <= r.outbox && c.delivered <= r.delivered && c.resolved <= r.resolved
  {
    match ev
    case Opened => Open(c)
    case Closed => Close(c)
    case Incoming(w) => Receive(c, w).conn
    case CallSend(f, o) => Send(c, f, o).conn
    case CallReply(f, i, o) => Reply(c, f, i, o).conn
    case CallPush(f, o) => Push(c, f, o).conn
    case CallError(f, i, code, obj) => Error(c, f, i, code, obj).conn
  }

  /** The state after a sequence of events, applied in order. */
  function Run(c: Conn, evs: seq<Event>): Conn
    decreases |evs|
  {
    if evs == [] then c else Apply(Run(c, evs[..|evs| - 1]), evs[|evs| - 1])
  }

  /** `0, 1, ..., n - 1` */
  function Range(n: nat): (r: seq<int>)
    ensures |r| == n && forall k :: 0 <= k < n ==> r[k] == k
  {
    if n == 0 then [] else Range(n - 1) + [n - 1]
  }

  predicate IsRequest(w: Wire) {
    w.Enc? && w.sealed.plain.t == SEND && w.sealed.plain.i.Some?
  }

  /** Ids of the SEND envelopes on the transport, in transmission order. */
  function RequestIds(out: seq<Wire>): seq<int>
    decreases |out|
  {
    if out == [] then []
    else
      var w := out[|out| - 1];
      RequestIds(out[..|out| - 1]) + (if IsRequest(w) then [w.sealed.plain.i.value] else [])
  }

  lemma RequestIdsAppend(out: seq<Wire>, w: Wire)
    ensures RequestIds(out + [w]) == RequestIds(out) + (if IsRequest(w) then [w.sealed.plain.i.value] else [])
  {
    assert (out + [w])[..|out|] == out;
  }

  /** Pending entries exist for exactly the ids handed out, each for the
      SEND envelope that carried its id. */
  ghost predicate PendingTable(lastI: nat, waiting: map<int, Pending>) {
    && (forall id :: id in waiting <==> 0 <= id < lastI)
    && (forall id :: id in waiting ==> waiting[id].request.i == Some(id) && waiting[id].request.t == SEND)
  }

  /** The SEND envelopes on the transport carry 0, 1, ..., lastI - 1 in
      order, and every ciphertext is sealed under the session's cipher. */
  ghost predicate Transmitted(phase: Phase, lastI: nat, outbox: seq<Wire>) {
    && RequestIds(outbox) == Range(lastI)
    && (forall k :: 0 <= k < |outbox| && outbox[k].Enc? ==> phase == Authenticated(outbox[k].sealed.under))
  }

  /** Pending entries only ever receive correlated envelopes bearing their id;
      the generic callback only ever receives the others. */
  ghost predicate Routed(waiting: map<int, Pending>, resolved: seq<(int, Envelope)>, delivered: seq<Envelope>) {
    && (forall k :: 0 <= k < |resolved| ==>
          resolved[k].0 in waiting && resolved[k].1.i == Some(resolved[k].0) && Correlated(resolved[k].1))
    && (forall k :: 0 <= k < |delivered| ==> !Correlated(delivered[k]))
  }

  /** What holds of every connection reachable from the constructor. */
  ghost predicate Valid(c: Conn) {
    && c.readyCount == (if c.Handshaken() then 1 else 0)
    && (!c.Handshaken() ==> c.lastI == 0 && c.delivered == [] && c.resolved == [])
    && PendingTable(c.lastI, c.waiting)
    && Transmitted(c.phase, c.lastI, c.outbox)
    && Routed(c.waiting, c.resolved, c.delivered)
  }

  /** Every event keeps the invariant. */
  lemma StepValid(c: Conn, ev: Event)
    requires Valid(c)
    ensures Valid(Apply(c, ev))
  {
    match ev
    case Opened =>
      if !c.isPeer {
        HandshakeMessageValid(c);
      }
    case Closed =>
    case Incoming(w) =>
      if c.Handshaken() {
        DispatchValid(c, w);
      } else {
        AcceptValid(c, w);
      }
    case CallSend(f, o) =>
      if c.Handshaken() {
        SendValid(c, f, o);
      }
    case CallReply(f, i, o) =>
      if c.Handshaken() {
        TransmitValid(c, Envelope(i, f, REPLY, o, None));
      }
    case CallPush(f, o) =>
      if c.Handshaken() {
        TransmitValid(c, Envelope(None, f, PUSH, o, None));
      }
    case CallError(f, i, code, obj) =>
      if c.Handshaken() {
        var o := if obj.Some? && Truthy(obj.value) then obj else None;
        TransmitValid(c, Envelope(i, f, ERROR, o, Some(code.GetOr(DEFAULT_CODE))));
      }
  }

  lemma TransmittedAppend(phase: Phase, lastI: nat, outbox: seq<Wire>, w: Wire)
    requires Transmitted(phase, lastI, outbox)
    requires !IsRequest(w)
    requires w.Enc? ==> phase == Authenticated(w.sealed.under)
    ensures Transmitted(phase, lastI, outbox + [w])
  {
    RequestIdsAppend(outbox, w);
  }

  lemma HandshakeMessageValid(c: Conn)
    requires Valid(c)
    ensures Valid(StartHandshake(c))
  {
    var w := Plain(Handshake.Message(PublicKey(c.keys)));
    assert StartHandshake(c) == c.(outbox := c.outbox + [w]);
    TransmittedAppend(c.phase, c.lastI, c.outbox, w);
  }

  lemma SendValid(c: Conn, f: string, o: Option<Value>)
    requires Valid(c) && c.Handshaken()
    ensures Valid(Send(c, f, o).conn)
  {
    var m := Envelope(Some(c.lastI), f, SEND, o, None);
    var w := Enc(Encrypt(c.phase.crypt, m));
    var r := Send(c, f, o).conn;
    assert r == c.(waiting := c.waiting[c.lastI := Pending(m)], lastI := c.lastI + 1, outbox := c.outbox + [w]);
    RequestIdsAppend(c.outbox, w);
    assert Range(c.lastI + 1) == Range(c.lastI) + [c.lastI];
    assert Transmitted(r.phase, r.lastI, r.outbox);
    assert PendingTable(r.lastI, r.waiting);
  }

  lemma TransmitValid(c: Conn, m: Envelope)
    requires Valid(c) && c.Handshaken() && m.t != SEND
    ensures Valid(Transmit(c, m).conn)
  {
    var w := Enc(Encrypt(c.phase.crypt, m));
    assert Transmit(c, m).conn == c.(outbox := c.outbox + [w]);
    TransmittedAppend(c.phase, c.lastI, c.outbox, w);
  }

  lemma DispatchValid(c: Conn, w: Wire)
    requires Valid(c) && c.Handshaken()
    ensures Valid(Dispatch(c, w).conn)
  {
  }

  lemma AcceptValid(c: Conn, w: Wire)
    requires Valid(c) && !c.Handshaken()
    ensures Valid(Accept(c, w).conn)
  {
    var r := Accept(c, w);
    if r.effect == Accepted {
      var crypt := r.conn.phase.crypt;
      assert forall k :: 0 <= k < |c.outbox| ==> !c.outbox[k].Enc?;
      assert Transmitted(Authenticated(crypt), 0, c.outbox);
      if c.isPeer {
        TransmittedAppend(Authenticated(crypt), 0, c.outbox, Plain(Handshake.Message(PublicKey(c.keys))));
      }
    } else if r.effect == Restarted {
      HandshakeMessageValid(c);
    }
  }

  /** The invariant holds after any sequence of events. */
  lemma {:induction false} RunValid(c: Conn, evs: seq<Event>)
    requires Valid(c)
    ensures Valid(Run(c, evs))
    decreases |evs|
  {
    if evs != [] {
      RunValid(c, evs[..|evs| - 1]);
      StepValid(Run(c, evs[..|evs| - 1]), evs[|evs| - 1]);
    }
  }

  /** Once the handshake is done it stays done, with the same cipher, for
      the rest of the connection's life. */
  lemma {:induction false} HandshakeIsPermanent(c: Conn, evs: seq<Event>)
    requires c.Handshaken()
    ensures Run(c, evs).phase == c.phase
    decreases |evs|
  {
    if evs != [] {
      HandshakeIsPermanent(c, evs[..|evs| - 1]);
    }
  }

  /** From a fresh connection, whatever happens: the SEND envelopes carry the
      ids 0, 1, ..., lastI - 1 in transmission order, so no id repeats; each
      has a pending entry; and `ready` has fired at most once. */
  lemma FreshConnection(isPeer: bool, keys: KeyPair, evs: seq<Event>)
    ensures var c := Run(NewConn(isPeer, keys), evs);
      && RequestIds(c.outbox) == Range(c.lastI)
      && (forall j, k :: 0 <= j < k < |RequestIds(c.outbox)| ==> RequestIds(c.outbox)[j] != RequestIds(c.outbox)[k])
      && (forall id :: 0 <= id < c.lastI ==> id in c.waiting)
      && c.readyCount == (if c.Handshaken() then 1 else 0)
  {
    RunValid(NewConn(isPeer, keys), evs);
  }

  /** N consecutive `send` calls: after the handshake they get the ids
      lastI, lastI + 1, ..., each registered and each transmitted in order;
      before it every call rejects and nothing changes. */
  method SendMany(c: Conn, calls: seq<(string, Option<Value>)>) returns (r: Conn, statuses: seq<Status>)
    ensures |statuses| == |calls|
    ensures !c.Handshaken() ==> r == c && forall k :: 0 <= k < |calls| ==> statuses[k] == Rejected(NOT_READY)
    ensures c.Handshaken() ==>
      && r.phase == c.phase
      && r.lastI == c.lastI + |calls|
      && (forall k :: 0 <= k < |calls| ==> statuses[k] == Awaiting(c.lastI + k))
      && (forall id :: c.lastI <= id < c.lastI + |calls| ==>
            id in r.waiting
            && r.waiting[id] == Pending(Envelope(Some(id), calls[id - c.lastI].0, SEND, calls[id - c.lastI].1, None)))
      && |r.outbox| == |c.outbox| + |calls|
      && r.outbox[..|c.outbox|] == c.outbox
      && (forall k :: 0 <= k < |calls| ==>
            Unseal(c.phase.crypt, r.outbox[|c.outbox| + k])
              == Some(Envelope(Some(c.lastI + k), calls[k].0, SEND, calls[k].1, None)))
    ensures c.Handshaken() ==>
      && r.(lastI := c.lastI, waiting := c.waiting, outbox := c.outbox) == c
      && (forall id :: id in c.waiting && id < c.lastI ==> id in r.waiting && r.waiting[id] == c.waiting[id])
  {
    r := c;
    statuses := [];
    for n := 0 to |calls|
      invariant |statuses| == n
      invariant !c.Handshaken() ==> r == c && forall k :: 0 <= k < n ==> statuses[k] == Rejected(NOT_READY)
      invariant c.Handshaken() ==>
        && r.phase == c.phase
        && r.lastI == c.lastI + n
        && (forall k :: 0 <= k < n ==> statuses[k] == Awaiting(c.lastI + k))
        && (forall id :: c.lastI <= id < c.lastI + n ==>
              id in r.waiting
              && r.waiting[id] == Pending(Envelope(Some(id), calls[id - c.lastI].0, SEND, calls[id - c.lastI].1, None)))
        && |r.outbox| == |c.outbox| + n
        && r.outbox[..|c.outbox|] == c.outbox
        && (forall k :: 0 <= k < n ==>
              Unseal(c.phase.crypt, r.outbox[|c.outbox| + k])
                == Some(Envelope(Some(c.lastI + k), calls[k].0, SEND, calls[k].1, None)))
        && r.(lastI := c.lastI, waiting := c.waiting, outbox := c.outbox) == c
        && (forall id :: id in c.waiting && id < c.lastI ==> id in r.waiting && r.waiting[id] == c.waiting[id])
    {
      var call := Send(r, calls[n].0, calls[n].1);
      if c.Handshaken() {
        assert forall k :: 0 <= k < |r.outbox| ==> call.conn.outbox[k] == r.outbox[k];
        assert call.conn.waiting == r.waiting[r.lastI := Pending(Envelope(Some(r.lastI), calls[n].0, SEND, calls[n].1, None))];
      }
      statuses := statuses + [call.status];
      r := call.conn;
    }
  }
}
