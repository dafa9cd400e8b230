/** The envelope exchanged after the handshake (ionnet/ionNet.js:12-18,
    113-202) and the inbound dispatch rule (ionnet/ionNet.js:44). */
module Envelopes {
  import opened Wrappers
  import opened Json

  /** `enumMessageType` */
  const UTIL: int := 0
  const SEND: int := 1
  const REPLY: int := 2
  const PUSH: int := 3
  const ERROR: int := 4

  /** Default error code of `error(func, i, code = -1)`. */
  const DEFAULT_CODE: int := -1

  /** `{i?, f, t, o?, e?}`. An absent member (undefined, or null for `i`) is
      None. The kind `t` is any number, as an inbound envelope may carry one
      outside 0..4. */
  datatype Envelope = Envelope(i: Option<int>, f: string, t: int, o: Option<Value>, e: Option<int>)

  /** Inbound envelopes that answer an outstanding request: every REPLY, and
      an ERROR that carries an id. */
  predicate Correlated(m: Envelope): (r: bool)
    ensures r ==> m.t in {REPLY, ERROR}
    ensures m.t == REPLY ==> r
    ensures m.t == ERROR ==> (r <==> m.i.Some?)
  {
    m.t == REPLY || (m.t == ERROR && m.i.Some?)
  }
}
