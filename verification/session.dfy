/** Two connections wired to each other: an initiator (`isPeer = false`, the
    side that opened the socket) and an acceptor (`isPeer = true`, the one an
    `IonNetServer` creates per inbound socket). The transport between them
    delivers every message, in order, exactly once. */
module Session {
  import opened Wrappers
  import opened Json
  import opened MsgCrypt
  import opened Envelopes
  import opened IonNet
  import Handshake

  /** The transport hands message `k` of `from`'s outbox to `to`, if it exists. */
  function Deliver(from: Conn, k: nat, to: Conn): Conn {
    if k < |from.outbox| then Receive(to, from.outbox[k]).conn else to
  }

  /** The initiator's socket opens; the acceptor receives its handshake
      message; the initiator receives the acceptor's answer. */
  function Connect(ka: KeyPair, kb: KeyPair): (Conn, Conn) {
    var a := Open(NewConn(false, ka));
    var b := Deliver(a, 0, NewConn(true, kb));
    (Deliver(b, 0, a), b)
  }

  /** The cipher object both ends of an exchange between `ka` and `kb` derive. */
  function Agreed(ka: KeyPair, kb: KeyPair): CryptObj {
    CryptObj(Truncate(HexEncode(ka.priv * kb.priv)), Handshake.FIXED_IV)
  }

  lemma AgreedFromEitherEnd(ka: KeyPair, kb: KeyPair)
    requires ka.priv > 0 && kb.priv > 0
    ensures CreateCryptoObj(kb, PublicKey(ka), Handshake.FIXED_IV) == Some(Agreed(ka, kb))
    ensures CreateCryptoObj(ka, PublicKey(kb), Handshake.FIXED_IV) == Some(Agreed(ka, kb))
  {
    HexRoundTrip(ka.priv);
    HexRoundTrip(kb.priv);
    assert kb.priv * ka.priv == ka.priv * kb.priv;
  }

  /** A handshake message with a public key the receiver can use completes
      the handshake of a connection that has not done it yet. */
  lemma AcceptsHandshake(c: Conn, peer: KeyPair)
    requires !c.Handshaken() && peer.priv > 0
    ensures var r := Receive(c, Plain(Handshake.Message(PublicKey(peer))));
      && r.effect == Accepted
      && r.conn.Handshaken()
      && CreateCryptoObj(c.keys, PublicKey(peer), Handshake.FIXED_IV) == Some(r.conn.phase.crypt)
  {
    var text := Handshake.Message(PublicKey(peer));
    Handshake.MessageRoundTrip(PublicKey(peer));
    var offer := Handshake.Offer(Some(PublicKey(peer)), Some(Handshake.FIXED_IV));
    assert Handshake.ReadOffer(text) == Some(offer);
    assert Handshake.Complete(offer);
    HexRoundTrip(peer.priv);
    assert ComputeSecret(c.keys, PublicKey(peer)).Some?;
    assert CreateCryptoObj(c.keys, PublicKey(peer), Handshake.FIXED_IV).Some?;
  }

  /** The state of one end right after a completed handshake. */
  function Ready(isPeer: bool, k: KeyPair, crypt: CryptObj): Conn {
    Conn(isPeer, k, Authenticated(crypt), 0, map[], [Plain(Handshake.Message(PublicKey(k)))], [], [], 1, 0)
  }

  lemma ReadyValid(isPeer: bool, k: KeyPair, crypt: CryptObj)
    ensures Valid(Ready(isPeer, k, crypt))
  {
    RequestIdsAppend([], Plain(Handshake.Message(PublicKey(k))));
  }

  lemma AcceptorStep(ka: KeyPair, kb: KeyPair)
    requires ka.priv > 0 && kb.priv > 0
    ensures Deliver(Open(NewConn(false, ka)), 0, NewConn(true, kb)) == Ready(true, kb, Agreed(ka, kb))
  {
    var a := Open(NewConn(false, ka));
    assert a.outbox[0] == Plain(Handshake.Message(PublicKey(ka)));
    AcceptsHandshake(NewConn(true, kb), ka);
    AgreedFromEitherEnd(ka, kb);
  }

  lemma InitiatorStep(ka: KeyPair, kb: KeyPair)
    requires ka.priv > 0 && kb.priv > 0
    ensures Deliver(Ready(true, kb, Agreed(ka, kb)), 0, Open(NewConn(false, ka))) == Ready(false, ka, Agreed(ka, kb))
  {
    var a := Open(NewConn(false, ka));
    AcceptsHandshake(a, kb);
    AgreedFromEitherEnd(ka, kb);
  }

  /** Handshake correctness: both ends reach the handshake state with the
      same cipher object and the fixed iv, each fires `ready` exactly once, and
      each has transmitted exactly its one handshake message. */
  lemma HandshakeCompletes(ka: KeyPair, kb: KeyPair)
    requires ka.priv > 0 && kb.priv > 0
    ensures var (a, b) := Connect(ka, kb);
      && a.Handshaken() && b.Handshaken()
      && a.phase == b.phase
      && a.phase.crypt.iv == Handshake.FIXED_IV
      && a.readyCount == 1 && b.readyCount == 1
      && a.outbox == [Plain(Handshake.Message(PublicKey(ka)))]
      && b.outbox == [Plain(Handshake.Message(PublicKey(kb)))]
      && a.lastI == 0 && b.lastI == 0
      && Valid(a) && Valid(b)
  {
    AcceptorStep(ka, kb);
    InitiatorStep(ka, kb);
    ReadyValid(false, ka, Agreed(ka, kb));
    ReadyValid(true, kb, Agreed(ka, kb));
  }

  /** The echo exchange after the handshake: the initiator sends `f` with
      payload `o`; the acceptor's generic callback gets the request and the
      acceptor replies with the same endpoint, id and payload; the reply
      reaches the initiator. */
  function Echo(ka: KeyPair, kb: KeyPair, f: string, o: Option<Value>): (Conn, Conn) {
    var (a, b) := Connect(ka, kb);
    var a1 := Send(a, f, o).conn;
    var b1 := Deliver(a1, |a.outbox|, b);
    var b2 := if b1.delivered == [] then b1
              else var m := b1.delivered[|b1.delivered| - 1]; Reply(b1, m.f, m.i, m.o).conn;
    (Deliver(b2, |b.outbox|, a1), b2)
  }

  /** The initiator's request reaches the acceptor's generic callback. */
  lemma RequestStep(ka: KeyPair, kb: KeyPair, crypt: CryptObj, f: string, o: Option<Value>)
    ensures var a1 := Send(Ready(false, ka, crypt), f, o).conn;
      Deliver(a1, 1, Ready(true, kb, crypt))
        == Ready(true, kb, crypt).(delivered := [Envelope(Some(0), f, SEND, o, None)])
  {
    var a1 := Send(Ready(false, ka, crypt), f, o).conn;
    assert Unseal(crypt, a1.outbox[1]) == Some(Envelope(Some(0), f, SEND, o, None));
  }

  /** The acceptor's reply reaches the initiator's pending entry for id 0. */
  lemma ReplyStep(ka: KeyPair, kb: KeyPair, crypt: CryptObj, f: string, o: Option<Value>)
    ensures var a1 := Send(Ready(false, ka, crypt), f, o).conn;
      var b1 := Ready(true, kb, crypt).(delivered := [Envelope(Some(0), f, SEND, o, None)]);
      Deliver(Reply(b1, f, Some(0), o).conn, 1, a1)
        == a1.(resolved := [(0, Envelope(Some(0), f, REPLY, o, None))])
  {
    var a1 := Send(Ready(false, ka, crypt), f, o).conn;
    var b1 := Ready(true, kb, crypt).(delivered := [Envelope(Some(0), f, SEND, o, None)]);
    var b2 := Reply(b1, f, Some(0), o).conn;
    assert Unseal(crypt, b2.outbox[1]) == Some(Envelope(Some(0), f, REPLY, o, None));
    assert 0 in a1.waiting;
  }

  /** Round-trip envelope integrity: the acceptor's generic callback sees the
      request with id 0, and the initiator's promise for id 0 settles with a
      REPLY carrying that id, the endpoint and the payload unchanged. */
  lemma EchoResolves(ka: KeyPair, kb: KeyPair, f: string, o: Option<Value>)
    requires ka.priv > 0 && kb.priv > 0
    ensures var (a, b) := Echo(ka, kb, f, o);
      && b.delivered == [Envelope(Some(0), f, SEND, o, None)]
      && a.resolved == [(0, Envelope(Some(0), f, REPLY, o, None))]
      && Outcome(a.resolved, 0) == Some(Envelope(Some(0), f, REPLY, o, None))
      && 0 in a.waiting
  {
    var crypt := Agreed(ka, kb);
    AcceptorStep(ka, kb);
    InitiatorStep(ka, kb);
    assert Connect(ka, kb) == (Ready(false, ka, crypt), Ready(true, kb, crypt));
    RequestStep(ka, kb, crypt, f, o);
    ReplyStep(ka, kb, crypt, f, o);
  }
}
