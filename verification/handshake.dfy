/** The plaintext handshake message (ionnet/ionNet.js:50-51, 98-105):
    the tag "handshake" followed by the JSON text of `{key, iv}`. */
module Handshake {
  import opened Wrappers
  import opened Json

  const TAG: string := "handshake"

  /** Number of characters the receiver strips with `msg.substring(9)`. */
  const SKIP: nat := 9

  /** The iv every handshake message carries. */
  const FIXED_IV: string := "a2xhcgAAAAAAAAAA"

  /** The parsed handshake object; an absent member is None. */
  datatype Offer = Offer(key: Option<string>, iv: Option<string>)

  /** The text `startHandshake` transmits. */
  function Message(publicKey: string): (r: string)
    ensures Tagged(r) && |r| > SKIP
    ensures r[SKIP..] == Stringify([("key", publicKey), ("iv", FIXED_IV)])
  {
    TAG + Stringify([("key", publicKey), ("iv", FIXED_IV)])
  }

  /** `msg.startsWith('handshake')` */
  predicate Tagged(text: string): (r: bool)
    ensures r <==> |text| >= |TAG| && forall k :: 0 <= k < |TAG| ==> text[k] == TAG[k]
  {
    |text| >= |TAG| && text[..|TAG|] == TAG
  }

  /** `JSON.parse(msg.substring(9))` read as a handshake object; None where
      the parse throws. */
  function ReadOffer(text: string): (r: Option<Offer>)
    requires Tagged(text)
    ensures r.Some? <==> Parse(text[SKIP..]).Some?
    ensures r.Some? ==> r.value.key == Lookup(Parse(text[SKIP..]).value, "key")
                        && r.value.iv == Lookup(Parse(text[SKIP..]).value, "iv")
  {
    match Parse(text[SKIP..])
    case None => None
    case Some(fs) => Some(Offer(Lookup(fs, "key"), Lookup(fs, "iv")))
  }

  /** A tagged message carrying the JSON text of any flat object reads back
      as that object's key and iv members, absent where the object lacks them
      and the last occurrence where a name repeats. */
  lemma ReadTaggedObject(fs: seq<Field>)
    ensures Tagged(TAG + Stringify(fs))
    ensures ReadOffer(TAG + Stringify(fs)) == Some(Offer(Lookup(fs, "key"), Lookup(fs, "iv")))
  {
    var text := TAG + Stringify(fs);
    assert text[..|TAG|] == TAG;
    assert text[SKIP..] == Stringify(fs);
    ParseStringify(fs);
  }

  /** `msg.key && msg.iv` */
  predicate Complete(o: Offer): (r: bool)
    ensures r ==> o.key.Some? && o.iv.Some? && |o.key.value| > 0 && |o.iv.value| > 0
    ensures !r <==> o.key in {None, Some("")} || o.iv in {None, Some("")}
  {
    Present(o.key) && Present(o.iv)
  }

  /** The receiver strips exactly the tag and recovers the sender's key and iv. */
  lemma MessageRoundTrip(publicKey: string)
    ensures Tagged(Message(publicKey))
    ensures |TAG| == SKIP && Message(publicKey)[SKIP..] == Stringify([("key", publicKey), ("iv", FIXED_IV)])
    ensures ReadOffer(Message(publicKey)) == Some(Offer(Some(publicKey), Some(FIXED_IV)))
  {
    var fs := [("key", publicKey), ("iv", FIXED_IV)];
    var m := Message(publicKey);
    assert m[..|TAG|] == TAG;
    assert m[SKIP..] == Stringify(fs);
    ParseStringify(fs);
    assert fs[..1] == [("key", publicKey)];
    assert fs[1].0 != "key";
  }
}
