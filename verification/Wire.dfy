/**
 The wire contract of a knock: the byte layout of an authorization, its bounds-checked
 decoder and its encoder.  Mirrors spa-common.
 */
module Wire {

  type Byte = x: int | 0 <= x < 0x100
  type U16 = x: int | 0 <= x < 0x1_0000
  type U64 = x: int | 0 <= x < 0x1_0000_0000_0000_0000

  type Bytes16 = s: seq<Byte> | |s| == 16 witness seq(16, _ => 0)
  type Bytes32 = s: seq<Byte> | |s| == 32 witness seq(32, _ => 0)
  type Bytes64 = s: seq<Byte> | |s| == 64 witness seq(64, _ => 0)

  type Nonce = Bytes16
  type GateId = Bytes16
  type Thumbprint = Bytes32
  type Signature = Bytes64

  const VERSION: Byte := 1
  const SIG_LEN := 64
  const MAX_PORTS := 8
  /** version | nonce | timestamp | gate id | thumbprint | port count */
  const FIXED_LEN := 1 + 16 + 8 + 16 + 32 + 1

  datatype Option<+T> = None | Some(value: T)

  datatype Result<+T, +E> = Ok(value: T) | Err(error: E)

  datatype Suite = Fips | Modern

  datatype WireError =
    | TooShort
    | BadVersion(found: Byte)
    | BadSuite(byte: Byte)
    | BadPortCount(count: nat)
    | TrailingBytes

  datatype Authorization = Authorization(
    nonce: Nonce,
    timestamp: U64,
    gateId: GateId,
    thumbprint: Thumbprint,
    ports: seq<U16>,
    signature: Signature)
  {
    /** The port counts the format can carry. */
    predicate Encodable() {
      1 <= |ports| <= MAX_PORTS
    }
  }

  function SuiteToByte(s: Suite): Byte {
    match s
    case Fips => 0x01
    case Modern => 0x02
  }

  function SuiteFromByte(b: Byte): (r: Result<Suite, WireError>)
    ensures forall s: Suite :: r == Ok(s) <==> SuiteToByte(s) == b
    ensures r.Err? ==> r.error == BadSuite(b)
  {
    if b == 0x01 then Ok(Fips) else if b == 0x02 then Ok(Modern) else Err(BadSuite(b))
  }

  // ---- big-endian integers ---------------------------------------------------

  function Pow256(k: nat): nat {
    if k == 0 then 1 else 256 * Pow256(k - 1)
  }

  /** The `k` low bytes of `n`, most significant first. */
  function ToBe(n: nat, k: nat): (r: seq<Byte>)
    ensures |r| == k
  {
    if k == 0 then [] else ToBe(n / 256, k - 1) + [n % 256]
  }

  function FromBe(bytes: seq<Byte>): nat {
    if bytes == [] then 0 else FromBe(bytes[..|bytes| - 1]) * 256 + bytes[|bytes| - 1]
  }

  lemma {:induction false} FromBeOfToBe(n: nat, k: nat)
    requires n < Pow256(k)
    ensures FromBe(ToBe(n, k)) == n
  {
    if k > 0 {
      FromBeOfToBe(n / 256, k - 1);
      assert ToBe(n, k)[..k - 1] == ToBe(n / 256, k - 1);
    }
  }

  lemma {:induction false} ToBeOfFromBe(bytes: seq<Byte>)
    ensures ToBe(FromBe(bytes), |bytes|) == bytes
    ensures FromBe(bytes) < Pow256(|bytes|)
  {
    if bytes != [] {
      ToBeOfFromBe(bytes[..|bytes| - 1]);
    }
  }

  function Be16(bytes: seq<Byte>): U16
    requires |bytes| == 2
  {
    ToBeOfFromBe(bytes);
    assert Pow256(2) == 0x1_0000;
    FromBe(bytes)
  }

  function Be64(bytes: seq<Byte>): U64
    requires |bytes| == 8
  {
    ToBeOfFromBe(bytes);
    assert Pow256(8) == 0x1_0000_0000_0000_0000;
    FromBe(bytes)
  }

  lemma ToBeOfBe64(bytes: seq<Byte>)
    requires |bytes| == 8
    ensures ToBe(Be64(bytes), 8) == bytes
  {
    ToBeOfFromBe(bytes);
  }

  lemma ToBeOfBe16(bytes: seq<Byte>)
    requires |bytes| == 2
    ensures ToBe(Be16(bytes), 2) == bytes
  {
    ToBeOfFromBe(bytes);
  }

  // ---- port list -------------------------------------------------------------

  function PortBytes(ports: seq<U16>): (r: seq<Byte>)
    ensures |r| == 2 * |ports|
  {
    if ports == [] then [] else PortBytes(ports[..|ports| - 1]) + ToBe(ports[|ports| - 1], 2)
  }

  function PortsOf(bytes: seq<Byte>): (r: seq<U16>)
    requires |bytes| % 2 == 0
    ensures |r| == |bytes| / 2
  {
    if bytes == [] then [] else PortsOf(bytes[..|bytes| - 2]) + [Be16(bytes[|bytes| - 2..])]
  }

  lemma {:induction false} PortsOfPortBytes(ports: seq<U16>)
    ensures PortsOf(PortBytes(ports)) == ports
  {
    if ports != [] {
      var n := |ports| - 1;
      PortsOfPortBytes(ports[..n]);
      assert Pow256(2) == 0x1_0000;
      FromBeOfToBe(ports[n], 2);
      var b := PortBytes(ports);
      assert b[..|b| - 2] == PortBytes(ports[..n]);
      assert b[|b| - 2..] == ToBe(ports[n], 2);
    }
  }

  lemma {:induction false} PortBytesOfPorts(bytes: seq<Byte>)
    requires |bytes| % 2 == 0
    ensures PortBytes(PortsOf(bytes)) == bytes
  {
    if bytes != [] {
      var n := |bytes| - 2;
      var front, last := PortsOf(bytes[..n]), Be16(bytes[n..]);
      assert PortBytes(front) == bytes[..n] by { PortBytesOfPorts(bytes[..n]); }
      assert ToBe(last, 2) == bytes[n..] by { ToBeOfBe16(bytes[n..]); }
      var ports := PortsOf(bytes);
      assert ports == front + [last];
      assert ports[..|ports| - 1] == front;
    }
  }

  // ---- specification of the layout ---------------------------------------------

  /** The signing region: every byte of the encoding before the authenticator. */
  function SigningBytes(a: Authorization): (r: seq<Byte>)
    requires a.Encodable()
    ensures |r| == FIXED_LEN + 2 * |a.ports|
  {
    [VERSION] + a.nonce + ToBe(a.timestamp, 8) + a.gateId + a.thumbprint + [|a.ports|] + PortBytes(a.ports)
  }

  function Encoding(a: Authorization): (r: seq<Byte>)
    requires a.Encodable()
    ensures |r| == 138 + 2 * |a.ports|
  {
    SigningBytes(a) + a.signature
  }

  /** What decoding a buffer must produce, error by error. */
  function Decoding(buf: seq<Byte>): Result<Authorization, WireError> {
    if |buf| < 1 then Err(TooShort)
    else if buf[0] != VERSION then Err(BadVersion(buf[0]))
    else if |buf| < FIXED_LEN then Err(TooShort)
    else
      var count := buf[FIXED_LEN - 1];
      var portsEnd := FIXED_LEN + 2 * count;
      if count == 0 || count > MAX_PORTS then Err(BadPortCount(count))
      else if |buf| < portsEnd + SIG_LEN then Err(TooShort)
      else if |buf| > portsEnd + SIG_LEN then Err(TrailingBytes)
      else Ok(Authorization(
                buf[1..17],
                Be64(buf[17..25]),
                buf[25..41],
                buf[41..73],
                PortsOf(buf[FIXED_LEN..portsEnd]),
                buf[portsEnd..]))
  }

  /** Both suites' bytes, and that no other byte is one. */
  lemma SuiteBytes(b: Byte)
    ensures SuiteToByte(Fips) == 0x01 && SuiteToByte(Modern) == 0x02
    ensures SuiteFromByte(b) == if b == 0x01 then Ok(Fips) else if b == 0x02 then Ok(Modern) else Err(BadSuite(b))
  {
  }

  /** Exactly which buffers are refused, and for what: the first flaw in reading order. */
  lemma DecodingErrors(buf: seq<Byte>)
    ensures var count := if |buf| >= 74 then buf[73] as int else 1;
            var readable := |buf| >= 74 && buf[0] == 1;
            && (Decoding(buf) == Err(TooShort) <==>
                  || |buf| == 0 || (buf[0] == 1 && |buf| < 74)
                  || (readable && 1 <= count <= 8 && |buf| < 138 + 2 * count))
            && (forall v :: Decoding(buf) == Err(BadVersion(v)) <==> |buf| > 0 && buf[0] == v && v != 1)
            && (forall n :: Decoding(buf) == Err(BadPortCount(n)) <==> readable && n == count && (n == 0 || n > 8))
            && (Decoding(buf) == Err(TrailingBytes) <==> readable && 1 <= count <= 8 && |buf| > 138 + 2 * count)
            && (Decoding(buf).Ok? <==> readable && 1 <= count <= 8 && |buf| == 138 + 2 * count)
  {
  }

  lemma {:induction false} PortsOfAt(bytes: seq<Byte>, i: nat)
    requires |bytes| % 2 == 0 && 2 * i < |bytes|
    ensures PortsOf(bytes)[i] == 256 * (bytes[2 * i] as int) + bytes[2 * i + 1] as int
  {
    var n := |bytes| - 2;
    if 2 * i < n {
      PortsOfAt(bytes[..n], i);
    } else {
      Be16Value(bytes[n..]);
    }
  }

  lemma Be16Value(bytes: seq<Byte>)
    requires |bytes| == 2
    ensures Be16(bytes) == 256 * (bytes[0] as int) + bytes[1] as int
  {
    assert bytes[..1] == [bytes[0]] && [bytes[0]][..0] == [];
    assert FromBe([bytes[0]]) == bytes[0];
  }

  /** Where an accepted buffer keeps what it decodes to, port by port. */
  lemma DecodedFields(buf: seq<Byte>)
    requires Decoding(buf).Ok?
    ensures var a := Decoding(buf).value;
            && a.nonce == buf[1..17] && ToBe(a.timestamp, 8) == buf[17..25]
            && a.gateId == buf[25..41] && a.thumbprint == buf[41..73]
            && |a.ports| == buf[73] && a.signature == buf[|buf| - 64..]
            && forall i: nat | i < |a.ports| :: a.ports[i] == 256 * (buf[74 + 2 * i] as int) + buf[75 + 2 * i] as int
  {
    var a := Decoding(buf).value;
    ToBeOfBe64(buf[17..25]);
    forall i: nat | i < |a.ports| ensures a.ports[i] == 256 * (buf[74 + 2 * i] as int) + buf[75 + 2 * i] as int {
      PortsOfAt(buf[74..74 + 2 * buf[73]], i);
    }
  }

  // ---- the codec is a canonical bijection ----------------------------------------

  /** Where each field lies in the signing region. */
  lemma SigningLayout(a: Authorization)
    requires a.Encodable()
    ensures var b := SigningBytes(a);
            && b[0] == 1 && b[1..17] == a.nonce && b[17..25] == ToBe(a.timestamp, 8)
            && b[25..41] == a.gateId && b[41..73] == a.thumbprint && b[73] == |a.ports|
            && b[74..] == PortBytes(a.ports)
  {
    var b0: seq<Byte> := [VERSION] + a.nonce;
    var b1 := b0 + ToBe(a.timestamp, 8);
    var b2 := b1 + a.gateId;
    var b3 := b2 + a.thumbprint;
    var b4 := b3 + [|a.ports|];
    var b := SigningBytes(a);
    assert b == b4 + PortBytes(a.ports);
    assert b[..74] == b4;
    assert b[..73] == b3;
    assert b[..41] == b2;
    assert b[..25] == b1;
  }

  /** decode(encode(a)) = a for every authorization the format can carry. */
  lemma DecodeInvertsEncode(a: Authorization)
    requires a.Encodable()
    ensures Decoding(Encoding(a)) == Ok(a)
  {
    SigningLayout(a);
    var s, b := SigningBytes(a), Encoding(a);
    var e := FIXED_LEN + 2 * |a.ports|;
    assert b[..e] == s && b[e..] == a.signature;
    assert forall i, j | 0 <= i <= j <= e :: b[i..j] == s[i..j];
    assert s[74..] == s[74..e];
    PortsOfPortBytes(a.ports);
    assert Pow256(8) == 0x1_0000_0000_0000_0000;
    FromBeOfToBe(a.timestamp, 8);
  }

  /** An authorization whose fields lie at their places in a buffer has its signing region there. */
  lemma SigningRegionOf(a: Authorization, buf: seq<Byte>, end: nat)
    requires a.Encodable() && FIXED_LEN <= end <= |buf|
    requires buf[0] == VERSION && buf[1..17] == a.nonce && buf[17..25] == ToBe(a.timestamp, 8)
    requires buf[25..41] == a.gateId && buf[41..73] == a.thumbprint && buf[73] == |a.ports|
    requires buf[74..end] == PortBytes(a.ports)
    ensures SigningBytes(a) == buf[..end]
  {
    assert buf[..17] == [VERSION] + a.nonce;
    assert buf[..25] == buf[..17] + ToBe(a.timestamp, 8);
    assert buf[..41] == buf[..25] + a.gateId;
    assert buf[..73] == buf[..41] + a.thumbprint;
    assert buf[..74] == buf[..73] + [|a.ports|];
    assert buf[..end] == buf[..74] + PortBytes(a.ports);
  }

  /** decode(b) = Ok(a) only for b = encode(a): there is one encoding per authorization. */
  lemma EncodeInvertsDecode(buf: seq<Byte>)
    requires Decoding(buf).Ok?
    ensures Decoding(buf).value.Encodable()
    ensures Encoding(Decoding(buf).value) == buf
  {
    var a := Decoding(buf).value;
    var e := FIXED_LEN + 2 * |a.ports|;
    ToBeOfBe64(buf[17..25]);
    PortBytesOfPorts(buf[FIXED_LEN..e]);
    SigningRegionOf(a, buf, e);
  }

  /** Accepted buffers are exactly the encodings, so each has length 138 + 2n with n in 1..=8. */
  lemma AcceptedIffEncoding(buf: seq<Byte>, a: Authorization)
    ensures Decoding(buf) == Ok(a) <==> a.Encodable() && Encoding(a) == buf
    ensures Decoding(buf) == Ok(a) ==> |buf| == 138 + 2 * |a.ports|
  {
    if Decoding(buf) == Ok(a) {
      EncodeInvertsDecode(buf);
    }
    if a.Encodable() && Encoding(a) == buf {
      DecodeInvertsEncode(a);
    }
  }

  /** Cutting an encoding anywhere is TooShort; extending it by anything is TrailingBytes. */
  lemma TruncationAndExtensionRejected(a: Authorization, cut: nat, extra: seq<Byte>)
    requires a.Encodable()
    requires cut < |Encoding(a)| && extra != []
    ensures Decoding(Encoding(a)[..cut]) == Err(TooShort)
    ensures Decoding(Encoding(a) + extra) == Err(TrailingBytes)
  {
    DecodeInvertsEncode(a);
    var b := Encoding(a);
    SigningLayout(a);
    assert b[0] == VERSION && b[73] == |a.ports|;
    assert cut > 0 ==> b[..cut][0] == b[0];
    assert cut > 73 ==> b[..cut][73] == b[73];
    assert (b + extra)[0] == b[0] && (b + extra)[73] == b[73];
  }

  /** The signing region pins every field except the authenticator itself. */
  lemma SigningBytesInjective(a: Authorization, b: Authorization)
    requires a.Encodable() && b.Encodable()
    ensures SigningBytes(a) == SigningBytes(b) <==> a == b.(signature := a.signature)
  {
    if SigningBytes(a) == SigningBytes(b) {
      var b' := b.(signature := a.signature);
      assert Encoding(a) == Encoding(b');
      DecodeInvertsEncode(a);
      DecodeInvertsEncode(b');
    }
  }

  // ---- encoder and decoder as the program runs them ------------------------------

  method EncodeSigningBytes(a: Authorization) returns (r: Result<seq<Byte>, WireError>)
    ensures r.Ok? <==> 1 <= |a.ports| <= 8
    ensures r == if a.Encodable() then Ok(SigningBytes(a)) else Err(BadPortCount(|a.ports|))
  {
    var n := |a.ports|;
    if n == 0 || n > MAX_PORTS {
      return Err(BadPortCount(n));
    }
    var out: seq<Byte> := [VERSION];
    out := out + a.nonce;
    out := out + ToBe(a.timestamp, 8);
    out := out + a.gateId;
    out := out + a.thumbprint;
    out := out + [n];
    ghost var head := out;
    var i := 0;
    while i < n
      invariant 0 <= i <= n
      invariant out == head + PortBytes(a.ports[..i])
    {
      assert a.ports[..i + 1][..i] == a.ports[..i];
      out := out + ToBe(a.ports[i], 2);
      i := i + 1;
    }
    assert a.ports[..n] == a.ports;
    r := Ok(out);
  }

  method Encode(a: Authorization) returns (r: Result<seq<Byte>, WireError>)
    ensures r == if a.Encodable() then Ok(Encoding(a)) else Err(BadPortCount(|a.ports|))
  {
    var signing := EncodeSigningBytes(a);
    match signing
    case Err(e) => r := Err(e);
    case Ok(s) => r := Ok(s + a.signature);
  }

  /** Forward-only, bounds-checked cursor over a buffer. */
  class Reader {
    const buf: seq<Byte>
    var pos: nat

    ghost predicate Valid()
      reads this
    {
      pos <= |buf|
    }

    constructor (buf: seq<Byte>)
      ensures Valid() && this.buf == buf && pos == 0
    {
      this.buf := buf;
      pos := 0;
    }

    /** Either the next `n` bytes and an advanced cursor, or an error and no movement. */
    method Take(n: nat) returns (r: Result<seq<Byte>, WireError>)
      requires Valid()
      modifies this
      ensures Valid()
      ensures old(pos) + n <= |buf| ==> r == Ok(buf[old(pos)..old(pos) + n]) && pos == old(pos) + n
      ensures old(pos) + n > |buf| ==> r == Err(TooShort) && pos == old(pos)
    {
      if pos + n > |buf| {
        return Err(TooShort);
      }
      r := Ok(buf[pos..pos + n]);
      pos := pos + n;
    }

    method Remaining() returns (n: nat)
      requires Valid()
      ensures n == |buf| - pos
    {
      n := |buf| - pos;
    }
  }

  /** Reads `count` big-endian ports, or fails where the buffer ends. */
  method ReadPorts(reader: Reader, count: nat) returns (r: Result<seq<U16>, WireError>)
    requires reader.Valid()
    modifies reader
    ensures reader.Valid()
    ensures old(reader.pos) + 2 * count <= |reader.buf| ==>
              && reader.pos == old(reader.pos) + 2 * count
              && r == Ok(PortsOf(reader.buf[old(reader.pos)..reader.pos]))
    ensures old(reader.pos) + 2 * count > |reader.buf| ==> r == Err(TooShort)
  {
    ghost var start := reader.pos;
    var ports: seq<U16> := [];
    while |ports| < count
      invariant reader.Valid() && |ports| <= count
      invariant reader.pos == start + 2 * |ports|
      invariant ports == PortsOf(reader.buf[start..reader.pos])
      decreases count - |ports|
    {
      ghost var mid := reader.pos;
      var two := reader.Take(2);
      if two.Err? { return Err(two.error); }
      assert reader.buf[start..reader.pos][..2 * |ports|] == reader.buf[start..mid];
      assert reader.buf[start..reader.pos][2 * |ports|..] == two.value;
      ports := ports + [Be16(two.value)];
    }
    r := Ok(ports);
  }

  /** The fields before the port count, in wire order. */
  datatype Preamble = Preamble(nonce: Nonce, timestamp: U64, gateId: GateId, thumbprint: Thumbprint)

  method ReadPreamble(reader: Reader) returns (r: Result<Preamble, WireError>)
    requires reader.Valid() && reader.pos == 1
    modifies reader
    ensures reader.Valid()
    ensures |reader.buf| >= 73 ==> reader.pos == 73 && r == Ok(Preamble(
              reader.buf[1..17], Be64(reader.buf[17..25]), reader.buf[25..41], reader.buf[41..73]))
    ensures |reader.buf| < 73 ==> r == Err(TooShort)
  {
    var nonce := reader.Take(16);
    if nonce.Err? { return Err(nonce.error); }
    var timestamp := reader.Take(8);
    if timestamp.Err? { return Err(timestamp.error); }
    var gateId := reader.Take(16);
    if gateId.Err? { return Err(gateId.error); }
    var thumbprint := reader.Take(32);
    if thumbprint.Err? { return Err(thumbprint.error); }
    r := Ok(Preamble(nonce.value, Be64(timestamp.value), gateId.value, thumbprint.value));
  }

  method Decode(buf: seq<Byte>) returns (r: Result<Authorization, WireError>)
    ensures r == Decoding(buf)
  {
    var reader := new Reader(buf);
    var version := reader.Take(1);
    if version.Err? { return Err(version.error); }
    if version.value[0] != VERSION { return Err(BadVersion(version.value[0])); }
    var preamble := ReadPreamble(reader);
    if preamble.Err? { return Err(preamble.error); }
    var counted := reader.Take(1);
    if counted.Err? { return Err(counted.error); }
    var count := counted.value[0];
    if count == 0 || count > MAX_PORTS { return Err(BadPortCount(count)); }
    var ports := ReadPorts(reader, count);
    if ports.Err? { return Err(ports.error); }
    var signature := reader.Take(SIG_LEN);
    if signature.Err? { return Err(signature.error); }
    var rest := reader.Remaining();
    if rest != 0 { return Err(TrailingBytes); }
    assert signature.value == buf[FIXED_LEN + 2 * count..];
    var p := preamble.value;
    r := Ok(Authorization(p.nonce, p.timestamp, p.gateId, p.thumbprint, ports.value, signature.value));
  }
}
