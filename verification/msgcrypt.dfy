/** The session crypto provider (ionnet/msgCrypt.js), modelled symbolically.

    Elliptic-curve Diffie-Hellman and AES are replaced by stand-ins that keep
    the properties the protocol relies on:
    - a key pair is a private number whose public key is its lower-case hex text;
    - the shared secret of private `a` and public key of `b` is the hex text
      of `a * b`, so both sides of an exchange compute the same secret;
    - a peer key that is not hex text, or that denotes zero, is not a curve
      point and makes key derivation fail;
    - a ciphertext is the sealed plaintext together with the cipher object
      that sealed it, and only that same cipher object (same key, same iv)
      opens it. */
module MsgCrypt {
  import opened Wrappers
  import opened Hex

  /** Number of leading characters of the hex secret used as the AES key. */
  const KEY_CHARS: nat := 32

  /** Hex text of a number, most significant digit first, no leading zeros. */
  function HexEncode(n: nat): (s: string)
    ensures |s| >= 1
    ensures forall k :: 0 <= k < |s| ==> DigitValue(s[k]).Some?
    decreases n
  {
    if n < 16 then [HexDigit(n)] else HexEncode(n / 16) + [HexDigit(n % 16)]
  }

  /** Number denoted by a hex text; None for the empty text or a non-hex character. */
  function HexDecode(s: string): Option<nat>
    decreases |s|
  {
    if s == [] then None
    else if |s| == 1 then DigitValue(s[0])
    else
      match (HexDecode(s[..|s| - 1]), DigitValue(s[|s| - 1]))
      case (Some(h), Some(d)) => Some(h * 16 + d)
      case _ => None
  }

  /** Decoding a hex encoding gives the number back. */
  lemma {:induction false} HexRoundTrip(n: nat)
    ensures HexDecode(HexEncode(n)) == Some(n)
    decreases n
  {
    var s := HexEncode(n);
    if n >= 16 {
      HexRoundTrip(n / 16);
      assert s[..|s| - 1] == HexEncode(n / 16);
      assert DigitValue(s[|s| - 1]) == Some(n % 16);
    }
  }

  /** The process-wide key pair; only its private part is kept. */
  datatype KeyPair = KeyPair(priv: nat)

  /** What `generateKeys('hex')` hands out as the public key. */
  function PublicKey(kp: KeyPair): string {
    HexEncode(kp.priv)
  }

  /** `computeSecret(peerKey, 'hex', 'hex')`: the hex shared secret, or None
      where Node would throw on a malformed or off-curve peer key. */
  function ComputeSecret(kp: KeyPair, peerKey: string): (r: Option<string>)
    ensures r.Some? <==> HexDecode(peerKey).Some? && HexDecode(peerKey).value != 0
    ensures r.Some? ==> HexDecode(r.value) == Some(kp.priv * HexDecode(peerKey).value)
  {
    match HexDecode(peerKey)
    case None => None
    case Some(b) =>
      if b == 0 then None
      else
        HexRoundTrip(kp.priv * b);
        Some(HexEncode(kp.priv * b))
  }

  /** Both ends of an exchange derive the same secret from each other's public key. */
  lemma SecretAgrees(a: KeyPair, b: KeyPair)
    requires a.priv > 0 && b.priv > 0
    ensures ComputeSecret(a, PublicKey(b)).Some?
    ensures ComputeSecret(a, PublicKey(b)) == ComputeSecret(b, PublicKey(a))
  {
    HexRoundTrip(a.priv);
    HexRoundTrip(b.priv);
    assert a.priv * b.priv == b.priv * a.priv;
  }

  /** The cipher object of one session: the truncated secret and the iv. */
  datatype CryptObj = CryptObj(secret: string, iv: string)

  /** `secret.substr(0, 32)`: at most the first 32 characters. */
  function Truncate(s: string): (r: string)
    ensures |r| == if |s| < KEY_CHARS then |s| else KEY_CHARS
    ensures r == s[..|r|]
  {
    if |s| <= KEY_CHARS then s else s[..KEY_CHARS]
  }

  /** `createCryptoObj(publicKey, iv)`: fails exactly when the secret cannot be
      computed; the iv is taken as given and is not checked here. */
  function CreateCryptoObj(kp: KeyPair, peerKey: string, iv: string): (r: Option<CryptObj>)
    ensures r.Some? <==> ComputeSecret(kp, peerKey).Some?
    ensures r.Some? ==> r.value.iv == iv
    ensures r.Some? ==> var full := ComputeSecret(kp, peerKey).value;
                        && |r.value.secret| == (if |full| < KEY_CHARS then |full| else KEY_CHARS)
                        && r.value.secret == full[..|r.value.secret|]
  {
    match ComputeSecret(kp, peerKey)
    case None => None
    case Some(s) => Some(CryptObj(Truncate(s), iv))
  }

  /** A ciphertext: the plaintext sealed under one cipher object. */
  datatype Sealed<T> = Sealed(under: CryptObj, plain: T)

  function Encrypt<T>(c: CryptObj, x: T): (ct: Sealed<T>)
    ensures Decrypt(c, ct) == Some(x)
  {
    Sealed(c, x)
  }

  /** Opens a ciphertext; fails unless it was sealed under this cipher object. */
  function Decrypt<T>(c: CryptObj, ct: Sealed<T>): (r: Option<T>)
    ensures r.Some? <==> ct.under == c
    ensures r.Some? ==> r.value == ct.plain
  {
    if ct.under == c then Some(ct.plain) else None
  }
}
