/**
 The signcryption envelope around an authorization:
 version | suite | ephemeral public key | AEAD ciphertext and tag.
 The cryptographic primitives are parameters, constrained only by their functional
 correctness and output lengths.  Mirrors spa-crypto.
 */
module Envelope {
  import opened Wire

  const AEAD_KEY_LEN := 32
  const AEAD_NONCE_LEN := 12
  const AEAD_TAG_LEN := 16
  /** "spa-v1-envelope" in ASCII. */
  const HKDF_LABEL: seq<Byte> := [115, 112, 97, 45, 118, 49, 45, 101, 110, 118, 101, 108, 111, 112, 101]

  datatype CryptoError = SignFailed | EncodeFailed | CryptoFailed

  /** A decrypted, decoded knock and the bytes its authenticator covers. */
  datatype Opened = Opened(auth: Authorization, signingBytes: seq<Byte>)

  /** What a client asks for, apart from its identity. */
  datatype KnockRequest = KnockRequest(gateId: GateId, ports: seq<U16>, nonce: Nonce, timestamp: U64)

  datatype Primitives = Primitives(
    agreementPublic: (Suite, seq<Byte>) -> seq<Byte>,
    agree: (Suite, seq<Byte>, seq<Byte>) -> Option<seq<Byte>>,
    hkdf: (seq<Byte>, seq<Byte>) -> seq<Byte>,
    aeadSeal: (Suite, seq<Byte>, seq<Byte>, seq<Byte>, seq<Byte>) -> Option<seq<Byte>>,
    aeadOpen: (Suite, seq<Byte>, seq<Byte>, seq<Byte>, seq<Byte>) -> Option<seq<Byte>>,
    signingPublic: (Suite, seq<Byte>) -> seq<Byte>,
    sign: (Suite, seq<Byte>, seq<Byte>, seq<Byte>) -> Option<seq<Byte>>,
    verify: (Suite, seq<Byte>, seq<Byte>, seq<Byte>) -> bool,
    mac: (seq<Byte>, seq<Byte>) -> Signature,
    verifyMac: (seq<Byte>, seq<Byte>, seq<Byte>) -> bool)

  /** Length of an ephemeral public key on the wire. */
  function EphPubLen(s: Suite): nat {
    match s
    case Fips => 65
    case Modern => 32
  }

  // ---- what the primitives promise ----------------------------------------------

  /** Both ends of a key agreement derive the same secret, from public keys of the suite's length. */
  ghost predicate AgreementCorrect(p: Primitives) {
    && (forall s, k :: |p.agreementPublic(s, k)| == EphPubLen(s))
    && (forall s, a, b :: p.agree(s, a, p.agreementPublic(s, b)) == p.agree(s, b, p.agreementPublic(s, a)))
  }

  /** Opening undoes sealing under the same key, nonce and associated data; the tag adds 16 bytes. */
  ghost predicate AeadCorrect(p: Primitives) {
    && (forall s, k, n, aad, m :: p.aeadSeal(s, k, n, aad, m).Some? ==>
          p.aeadOpen(s, k, n, aad, p.aeadSeal(s, k, n, aad, m).value) == Some(m))
    && (forall s, k, n, aad, c :: p.aeadOpen(s, k, n, aad, c).Some? ==>
          |c| == |p.aeadOpen(s, k, n, aad, c).value| + AEAD_TAG_LEN)
  }

  /** Signatures and MACs verify under the matching key. */
  ghost predicate AuthenticatorsCorrect(p: Primitives) {
    && (forall s, k, m, r :: p.sign(s, k, m, r).Some? ==>
          p.verify(s, p.signingPublic(s, k), m, p.sign(s, k, m, r).value))
    && (forall k, m :: p.verifyMac(k, m, p.mac(k, m)))
  }

  ghost predicate Correct(p: Primitives) {
    AgreementCorrect(p) && AeadCorrect(p) && AuthenticatorsCorrect(p)
  }

  // ---- key schedule -------------------------------------------------------------------

  /** HKDF context: label, suite and ephemeral key, so neither can be swapped under a derived key. */
  function HkdfInfo(s: Suite, ephPub: seq<Byte>): seq<Byte> {
    HKDF_LABEL + [SuiteToByte(s)] + ephPub
  }

  /** AEAD key and nonce, or nothing if the expansion has the wrong length. */
  function Derive(p: Primitives, s: Suite, shared: seq<Byte>, ephPub: seq<Byte>): Option<(seq<Byte>, seq<Byte>)> {
    var okm := p.hkdf(shared, HkdfInfo(s, ephPub));
    if |okm| != AEAD_KEY_LEN + AEAD_NONCE_LEN then None
    else Some((okm[..AEAD_KEY_LEN], okm[AEAD_KEY_LEN..]))
  }

  // ---- gate side ---------------------------------------------------------------------

  /** Decrypt and decode a packet with the gate's private key. */
  function Open(p: Primitives, gateSuite: Suite, gatePrivate: seq<Byte>, packet: seq<Byte>): Option<Opened> {
    if |packet| < 1 || packet[0] != VERSION then None
    else if |packet| < 2 || SuiteFromByte(packet[1]) != Ok(gateSuite) then None
    else
      var ephEnd := 2 + EphPubLen(gateSuite);
      if |packet| < ephEnd + AEAD_TAG_LEN then None
      else
        var ephPub := packet[2..ephEnd];
        var shared := p.agree(gateSuite, gatePrivate, ephPub);
        if shared.None? then None
        else
          var keys := Derive(p, gateSuite, shared.value, ephPub);
          if keys.None? then None
          else OpenSealed(p, gateSuite, keys.value.0, keys.value.1, packet[..ephEnd], packet[ephEnd..])
  }

  function OpenSealed(p: Primitives, s: Suite, key: seq<Byte>, nonce: seq<Byte>, header: seq<Byte>, ciphertext: seq<Byte>):
    Option<Opened>
  {
    var plaintext := p.aeadOpen(s, key, nonce, header, ciphertext);
    if plaintext.None? || Decoding(plaintext.value).Err? || |plaintext.value| < SIG_LEN then None
    else Some(Opened(Decoding(plaintext.value).value, plaintext.value[..|plaintext.value| - SIG_LEN]))
  }

  /**
   What is verified is what is read: the bytes handed to the verifier are the signing
   region of the very authorization handed to the policy, and the packet's length is
   fixed by the suite and the number of ports.
   */
  lemma OpenedIsWhatWasSigned(p: Primitives, s: Suite, priv: seq<Byte>, packet: seq<Byte>)
    requires AeadCorrect(p)
    requires Open(p, s, priv, packet).Some?
    ensures var o := Open(p, s, priv, packet).value;
            && o.auth.Encodable()
            && o.signingBytes == SigningBytes(o.auth)
            && |packet| == (if s.Modern? then 188 else 221) + 2 * |o.auth.ports|
  {
    var ephEnd := 2 + EphPubLen(s);
    var ephPub := packet[2..ephEnd];
    var keys := Derive(p, s, p.agree(s, priv, ephPub).value, ephPub).value;
    assert Open(p, s, priv, packet) == OpenSealed(p, s, keys.0, keys.1, packet[..ephEnd], packet[ephEnd..]);
    OpenSealedIsWhatWasSigned(p, s, keys.0, keys.1, packet[..ephEnd], packet[ephEnd..]);
  }

  lemma OpenSealedIsWhatWasSigned(
    p: Primitives, s: Suite, key: seq<Byte>, nonce: seq<Byte>, header: seq<Byte>, ciphertext: seq<Byte>)
    requires AeadCorrect(p)
    requires OpenSealed(p, s, key, nonce, header, ciphertext).Some?
    ensures var o := OpenSealed(p, s, key, nonce, header, ciphertext).value;
            && o.auth.Encodable()
            && o.signingBytes == SigningBytes(o.auth)
            && |ciphertext| == 154 + 2 * |o.auth.ports|
  {
    var plaintext := p.aeadOpen(s, key, nonce, header, ciphertext).value;
    EncodeInvertsDecode(plaintext);
    var auth := Decoding(plaintext).value;
    assert Encoding(auth)[..|Encoding(auth)| - SIG_LEN] == SigningBytes(auth);
  }

  /** One authenticator cannot vouch for two different requests. */
  lemma AuthenticatorPinsRequest(p: Primitives, s: Suite, priv: seq<Byte>, packet: seq<Byte>, packet': seq<Byte>)
    requires AeadCorrect(p)
    requires Open(p, s, priv, packet).Some? && Open(p, s, priv, packet').Some?
    ensures var o, o' := Open(p, s, priv, packet).value, Open(p, s, priv, packet').value;
            o.signingBytes == o'.signingBytes <==> o.auth == o'.auth.(signature := o.auth.signature)
  {
    OpenedIsWhatWasSigned(p, s, priv, packet);
    OpenedIsWhatWasSigned(p, s, priv, packet');
    SigningBytesInjective(Open(p, s, priv, packet).value.auth, Open(p, s, priv, packet').value.auth);
  }

  /**
   What opens, byte by byte: version 1, the gate's own suite, a key agreed with the ephemeral
   public key in the header, both halves of 44 bytes derived under a context that names label,
   suite and that key, and the whole header as associated data.
   */
  lemma OpenExactly(p: Primitives, s: Suite, priv: seq<Byte>, packet: seq<Byte>, o: Opened)
    ensures var ephEnd := if s.Fips? then 67 else 34;
            Open(p, s, priv, packet) == Some(o) <==>
              && |packet| >= ephEnd + 16 && packet[0] == 1 && packet[1] == (if s.Fips? then 0x01 else 0x02)
              && p.agree(s, priv, packet[2..ephEnd]).Some?
              && var shared := p.agree(s, priv, packet[2..ephEnd]).value;
                 var okm := p.hkdf(shared, [115, 112, 97, 45, 118, 49, 45, 101, 110, 118, 101, 108, 111, 112, 101]
                                           + packet[1..ephEnd]);
                 && |okm| == 44
                 && p.aeadOpen(s, okm[..32], okm[32..], packet[..ephEnd], packet[ephEnd..]).Some?
                 && var plaintext := p.aeadOpen(s, okm[..32], okm[32..], packet[..ephEnd], packet[ephEnd..]).value;
                    Decoding(plaintext) == Ok(o.auth) && o.signingBytes == plaintext[..|plaintext| - 64]
  {
    var ephEnd := if s.Fips? then 67 else 34;
    if |packet| >= ephEnd + 16 && packet[0] == 1 && packet[1] == (if s.Fips? then 0x01 else 0x02) {
      assert HKDF_LABEL + packet[1..ephEnd] == HkdfInfo(s, packet[2..ephEnd]);
    }
  }

  /** A packet of another version or suite never opens. */
  lemma ForeignPacketsStayShut(p: Primitives, s: Suite, priv: seq<Byte>, packet: seq<Byte>)
    requires |packet| < 2 || packet[0] != 1 || packet[1] != (if s.Fips? then 0x01 else 0x02)
    ensures Open(p, s, priv, packet).None?
  {
  }

  /** The derivation context gives away which suite and ephemeral key it was made for. */
  lemma HkdfInfoBinds(s: Suite, ephPub: seq<Byte>, s': Suite, ephPub': seq<Byte>)
    ensures HkdfInfo(s, ephPub) == HkdfInfo(s', ephPub') <==> s == s' && ephPub == ephPub'
  {
    var a, b := HkdfInfo(s, ephPub), HkdfInfo(s', ephPub');
    assert a[15] == SuiteToByte(s) && a[16..] == ephPub;
    assert b[15] == SuiteToByte(s') && b[16..] == ephPub';
  }

  // ---- client side --------------------------------------------------------------------

  /** The unsigned authorization of a request. */
  function RequestAuthorization(req: KnockRequest, thumbprint: Thumbprint): Authorization {
    Authorization(req.nonce, req.timestamp, req.gateId, thumbprint, req.ports, seq(SIG_LEN, _ => 0))
  }

  /** The authorization a client sends: the request with its authenticator filled in. */
  function Authenticated(req: KnockRequest, thumbprint: Thumbprint, authenticator: Signature): Authorization {
    RequestAuthorization(req, thumbprint).(signature := authenticator)
  }

  function EnvelopeHeader(s: Suite, ephPub: seq<Byte>): seq<Byte> {
    [VERSION, SuiteToByte(s)] + ephPub
  }

  /** `plaintext` sealed to the gate's public key under the ephemeral key `ephPrivate`. */
  function SealedEnvelope(p: Primitives, gatePublic: seq<Byte>, s: Suite, ephPrivate: seq<Byte>, plaintext: seq<Byte>):
    Result<seq<Byte>, CryptoError>
  {
    var ephPub := p.agreementPublic(s, ephPrivate);
    var header := EnvelopeHeader(s, ephPub);
    var shared := p.agree(s, ephPrivate, gatePublic);
    if shared.None? then Err(CryptoFailed)
    else
      var keys := Derive(p, s, shared.value, ephPub);
      if keys.None? then Err(CryptoFailed)
      else
        var ciphertext := p.aeadSeal(s, keys.value.0, keys.value.1, header, plaintext);
        if ciphertext.None? then Err(CryptoFailed) else Ok(header + ciphertext.value)
  }

  /** A knock authenticated by the client's signing key. */
  function SignedKnock(
    p: Primitives, gatePublic: seq<Byte>, s: Suite, signingKey: seq<Byte>, thumbprint: Thumbprint, req: KnockRequest,
    entropy: seq<Byte>, ephPrivate: seq<Byte>): Result<seq<Byte>, CryptoError>
  {
    var auth := RequestAuthorization(req, thumbprint);
    if !auth.Encodable() then Err(EncodeFailed)
    else
      var sig := p.sign(s, signingKey, SigningBytes(auth), entropy);
      if sig.None? || |sig.value| != SIG_LEN then Err(SignFailed)
      else SealedEnvelope(p, gatePublic, s, ephPrivate, Encoding(Authenticated(req, thumbprint, sig.value)))
  }

  /** A knock authenticated by a one-time token's shared secret. */
  function PskKnock(
    p: Primitives, gatePublic: seq<Byte>, s: Suite, token: seq<Byte>, tokenId: Thumbprint, req: KnockRequest,
    ephPrivate: seq<Byte>): Result<seq<Byte>, CryptoError>
  {
    var auth := RequestAuthorization(req, tokenId);
    if !auth.Encodable() then Err(EncodeFailed)
    else
      var mac := p.mac(token, SigningBytes(auth));
      SealedEnvelope(p, gatePublic, s, ephPrivate, Encoding(Authenticated(req, tokenId, mac)))
  }

  /** What a sealed envelope consists of, and when there is none. */
  lemma SealedExactly(p: Primitives, gatePublic: seq<Byte>, s: Suite, ephPrivate: seq<Byte>, plaintext: seq<Byte>)
    ensures var ephPub := p.agreementPublic(s, ephPrivate);
            var header := [1, if s.Fips? then 0x01 else 0x02] + ephPub;
            var shared := p.agree(s, ephPrivate, gatePublic);
            var okm := if shared.None? then [] else p.hkdf(shared.value,
              [115, 112, 97, 45, 118, 49, 45, 101, 110, 118, 101, 108, 111, 112, 101] + header[1..]);
            var sealed := if |okm| != 44 then None else p.aeadSeal(s, okm[..32], okm[32..], header, plaintext);
            SealedEnvelope(p, gatePublic, s, ephPrivate, plaintext)
            == if sealed.None? then Err(CryptoFailed) else Ok(header + sealed.value)
  {
    var ephPub := p.agreementPublic(s, ephPrivate);
    var header := [1, if s.Fips? then 0x01 else 0x02] + ephPub;
    assert HKDF_LABEL + header[1..] == HkdfInfo(s, ephPub);
    assert EnvelopeHeader(s, ephPub) == header;
  }

  /** What goes into a knock: the request under zero bytes is signed, and the signature takes their place. */
  lemma KnockExactly(
    p: Primitives, gatePublic: seq<Byte>, s: Suite, secret: seq<Byte>, id: Thumbprint, req: KnockRequest,
    entropy: seq<Byte>, ephPrivate: seq<Byte>)
    ensures var bare := Authorization(req.nonce, req.timestamp, req.gateId, id, req.ports, seq(64, _ => 0));
            if |req.ports| == 0 || |req.ports| > 8 then
              && SignedKnock(p, gatePublic, s, secret, id, req, entropy, ephPrivate) == Err(EncodeFailed)
              && PskKnock(p, gatePublic, s, secret, id, req, ephPrivate) == Err(EncodeFailed)
            else
              var sig, mac := p.sign(s, secret, SigningBytes(bare), entropy), p.mac(secret, SigningBytes(bare));
              && SignedKnock(p, gatePublic, s, secret, id, req, entropy, ephPrivate)
                 == (if sig.None? || |sig.value| != 64 then Err(SignFailed)
                     else SealedEnvelope(p, gatePublic, s, ephPrivate, Encoding(bare.(signature := sig.value))))
              && PskKnock(p, gatePublic, s, secret, id, req, ephPrivate)
                 == SealedEnvelope(p, gatePublic, s, ephPrivate, Encoding(bare.(signature := mac)))
  {
    assert RequestAuthorization(req, id).signature == seq(64, _ => 0);
  }

  // ---- round trip ------------------------------------------------------------------

  /** The gate recovers exactly the authorization a client sealed to its public key. */
  lemma OpenInvertsSeal(
    p: Primitives, s: Suite, gatePrivate: seq<Byte>, ephPrivate: seq<Byte>, auth: Authorization)
    requires AgreementCorrect(p) && AeadCorrect(p)
    requires auth.Encodable()
    requires SealedEnvelope(p, p.agreementPublic(s, gatePrivate), s, ephPrivate, Encoding(auth)).Ok?
    ensures var packet := SealedEnvelope(p, p.agreementPublic(s, gatePrivate), s, ephPrivate, Encoding(auth)).value;
            Open(p, s, gatePrivate, packet) == Some(Opened(auth, SigningBytes(auth)))
  {
    var gatePublic := p.agreementPublic(s, gatePrivate);
    var packet := SealedEnvelope(p, gatePublic, s, ephPrivate, Encoding(auth)).value;
    var ephPub := p.agreementPublic(s, ephPrivate);
    var header := EnvelopeHeader(s, ephPub);
    var shared := p.agree(s, ephPrivate, gatePublic).value;
    assert p.agree(s, gatePrivate, ephPub) == Some(shared);
    var keys := Derive(p, s, shared, ephPub).value;
    var c := p.aeadSeal(s, keys.0, keys.1, header, Encoding(auth)).value;
    assert p.aeadOpen(s, keys.0, keys.1, header, c) == Some(Encoding(auth));
    var ephEnd := 2 + EphPubLen(s);
    assert packet == header + c && |header| == ephEnd;
    assert packet[2..ephEnd] == ephPub && packet[..ephEnd] == header && packet[ephEnd..] == c;
    DecodeInvertsEncode(auth);
    assert Encoding(auth)[..|Encoding(auth)| - SIG_LEN] == SigningBytes(auth);
  }

  /** A sealed, signed knock opens to exactly the request, and its signature verifies. */
  lemma SignedKnockRoundTrip(
    p: Primitives, s: Suite, gatePrivate: seq<Byte>, signingKey: seq<Byte>, thumbprint: Thumbprint, req: KnockRequest,
    entropy: seq<Byte>, ephPrivate: seq<Byte>)
    requires Correct(p)
    requires SignedKnock(p, p.agreementPublic(s, gatePrivate), s, signingKey, thumbprint, req, entropy, ephPrivate).Ok?
    ensures var packet := SignedKnock(p, p.agreementPublic(s, gatePrivate), s, signingKey, thumbprint, req, entropy, ephPrivate).value;
            exists sig: Signature ::
              var auth := Authenticated(req, thumbprint, sig);
              && auth.Encodable()
              && Open(p, s, gatePrivate, packet) == Some(Opened(auth, SigningBytes(auth)))
              && p.verify(s, p.signingPublic(s, signingKey), SigningBytes(auth), sig)
  {
    var unsigned := RequestAuthorization(req, thumbprint);
    var sig: Signature := p.sign(s, signingKey, SigningBytes(unsigned), entropy).value;
    var auth := Authenticated(req, thumbprint, sig);
    assert SigningBytes(auth) == SigningBytes(unsigned);
    OpenInvertsSeal(p, s, gatePrivate, ephPrivate, auth);
  }

  /** A sealed token knock opens to exactly the request, and its MAC verifies. */
  lemma PskKnockRoundTrip(
    p: Primitives, s: Suite, gatePrivate: seq<Byte>, token: seq<Byte>, tokenId: Thumbprint, req: KnockRequest,
    ephPrivate: seq<Byte>)
    requires Correct(p)
    requires PskKnock(p, p.agreementPublic(s, gatePrivate), s, token, tokenId, req, ephPrivate).Ok?
    ensures var packet := PskKnock(p, p.agreementPublic(s, gatePrivate), s, token, tokenId, req, ephPrivate).value;
            exists mac: Signature ::
              var auth := Authenticated(req, tokenId, mac);
              && auth.Encodable()
              && Open(p, s, gatePrivate, packet) == Some(Opened(auth, SigningBytes(auth)))
              && p.verifyMac(token, SigningBytes(auth), mac)
  {
    var unsigned := RequestAuthorization(req, tokenId);
    var mac := p.mac(token, SigningBytes(unsigned));
    var auth := Authenticated(req, tokenId, mac);
    assert SigningBytes(auth) == SigningBytes(unsigned);
    OpenInvertsSeal(p, s, gatePrivate, ephPrivate, auth);
  }

  function Zeros(n: nat): (z: seq<Byte>)
    ensures |z| == n
  {
    seq(n, _ => 0)
  }

  /** Primitives that hide nothing, yet keep every contract. */
  function TrivialPrimitives(): Primitives {
    Primitives(
      (s: Suite, k: seq<Byte>) => Zeros(EphPubLen(s)),
      (s: Suite, k: seq<Byte>, q: seq<Byte>) => Some([]),
      (secret: seq<Byte>, info: seq<Byte>) => Zeros(AEAD_KEY_LEN + AEAD_NONCE_LEN),
      (s: Suite, k: seq<Byte>, n: seq<Byte>, aad: seq<Byte>, m: seq<Byte>) => Some(m + Zeros(AEAD_TAG_LEN)),
      (s: Suite, k: seq<Byte>, n: seq<Byte>, aad: seq<Byte>, c: seq<Byte>) =>
        if |c| < AEAD_TAG_LEN then None else Some(c[..|c| - AEAD_TAG_LEN]),
      (s: Suite, k: seq<Byte>) => k,
      (s: Suite, k: seq<Byte>, m: seq<Byte>, r: seq<Byte>) => Some(Zeros(SIG_LEN)),
      (s: Suite, k: seq<Byte>, m: seq<Byte>, sig: seq<Byte>) => true,
      (k: seq<Byte>, m: seq<Byte>) => Zeros(SIG_LEN),
      (k: seq<Byte>, m: seq<Byte>, t: seq<Byte>) => true)
  }

  /** The primitives' contracts are consistent. */
  lemma ContractsAreSatisfiable()
    ensures Correct(TrivialPrimitives())
  {
    var p := TrivialPrimitives();
    forall s, k, n, aad, m | p.aeadSeal(s, k, n, aad, m).Some?
      ensures p.aeadOpen(s, k, n, aad, p.aeadSeal(s, k, n, aad, m).value) == Some(m)
    {
      assert p.aeadSeal(s, k, n, aad, m) == Some(m + Zeros(AEAD_TAG_LEN));
      assert (m + Zeros(AEAD_TAG_LEN))[..|m|] == m;
    }
    assert AeadCorrect(p);
  }

  /** They seal every request of 1 to 8 ports. */
  lemma TrivialKnock(gatePublic: seq<Byte>, s: Suite, signingKey: seq<Byte>, thumbprint: Thumbprint, req: KnockRequest)
    requires 1 <= |req.ports| <= MAX_PORTS
    ensures SignedKnock(TrivialPrimitives(), gatePublic, s, signingKey, thumbprint, req, [], []).Ok?
  {
    var p := TrivialPrimitives();
    assert forall secret, info :: |p.hkdf(secret, info)| == AEAD_KEY_LEN + AEAD_NONCE_LEN;
  }

  // ---- sealing as the program runs it -----------------------------------------------

  method SealEnvelope(p: Primitives, gatePublic: seq<Byte>, s: Suite, ephPrivate: seq<Byte>, plaintext: seq<Byte>)
    returns (r: Result<seq<Byte>, CryptoError>)
    ensures r == SealedEnvelope(p, gatePublic, s, ephPrivate, plaintext)
  {
    var ephPub := p.agreementPublic(s, ephPrivate);
    var header: seq<Byte> := [];
    header := header + [VERSION];
    header := header + [SuiteToByte(s)];
    header := header + ephPub;
    assert header == EnvelopeHeader(s, ephPub);
    var shared := p.agree(s, ephPrivate, gatePublic);
    if shared.None? { return Err(CryptoFailed); }
    var keys := Derive(p, s, shared.value, ephPub);
    if keys.None? { return Err(CryptoFailed); }
    var ciphertext := p.aeadSeal(s, keys.value.0, keys.value.1, header, plaintext);
    if ciphertext.None? { return Err(CryptoFailed); }
    r := Ok(header + ciphertext.value);
  }

  method Seal(
    p: Primitives, gatePublic: seq<Byte>, s: Suite, signingKey: seq<Byte>, thumbprint: Thumbprint, req: KnockRequest,
    entropy: seq<Byte>, ephPrivate: seq<Byte>)
    returns (r: Result<seq<Byte>, CryptoError>)
    ensures r == SignedKnock(p, gatePublic, s, signingKey, thumbprint, req, entropy, ephPrivate)
  {
    var auth := RequestAuthorization(req, thumbprint);
    var signing := EncodeSigningBytes(auth);
    if signing.Err? { return Err(EncodeFailed); }
    var sig := p.sign(s, signingKey, signing.value, entropy);
    if sig.None? || |sig.value| != SIG_LEN { return Err(SignFailed); }
    auth := auth.(signature := sig.value);
    var plaintext := Encode(auth);
    if plaintext.Err? { return Err(EncodeFailed); }
    r := SealEnvelope(p, gatePublic, s, ephPrivate, plaintext.value);
  }

  method SealPsk(
    p: Primitives, gatePublic: seq<Byte>, s: Suite, token: seq<Byte>, tokenId: Thumbprint, req: KnockRequest,
    ephPrivate: seq<Byte>)
    returns (r: Result<seq<Byte>, CryptoError>)
    ensures r == PskKnock(p, gatePublic, s, token, tokenId, req, ephPrivate)
  {
    var auth := RequestAuthorization(req, tokenId);
    var signing := EncodeSigningBytes(auth);
    if signing.Err? { return Err(EncodeFailed); }
    auth := auth.(signature := p.mac(token, signing.value));
    var plaintext := Encode(auth);
    if plaintext.Err? { return Err(EncodeFailed); }
    r := SealEnvelope(p, gatePublic, s, ephPrivate, plaintext.value);
  }
}
