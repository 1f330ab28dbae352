/**
 * RTP packets: the parser of backend/app/audio/rtp.py, the builder of
 * backend/app/audio/rtp_simulator.py, and an independent encoder for the wire
 * format of sections 5.1 and 5.3.1 of RFC 3550 that both are measured against.
 *
 * Shifts and masks on bytes are written as division and remainder; Python's
 * `&` with a mask of ones is the Euclidean remainder, also for negative numbers.
 */
module Rtp {
  import opened Common

  type Byte = b: int | 0 <= b < 256

  const FIXED_HEADER_LENGTH := 12

  datatype ParseError =
    | EmptyPacket
    | TooShort
    | UnsupportedVersion(version: nat)
    | CsrcOverrun
    | ExtensionLengthOverrun
    | ExtensionOverrun
    | PaddingWithoutPayload
    | PaddingTooLong
    | UnexpectedPayloadType

  datatype Packet = Packet(
    version: nat, padding: bool, extension: bool, csrcCount: nat, marker: bool,
    payloadType: nat, sequenceNumber: nat, timestamp: nat, ssrc: nat,
    csrcs: seq<nat>, headerLength: nat, payload: seq<Byte>)

  // ----- big-endian integers

  function U16(data: seq<Byte>, at: nat): nat
    requires at + 2 <= |data|
  {
    data[at] as int * 256 + data[at + 1]
  }

  function U32(data: seq<Byte>, at: nat): nat
    requires at + 4 <= |data|
  {
    U16(data, at) * 65536 + U16(data, at + 2)
  }

  function U32s(data: seq<Byte>, at: nat, count: nat): seq<nat>
    requires at + 4 * count <= |data|
  {
    seq(count, i requires 0 <= i < count => U32(data, at + 4 * i))
  }

  function Be16(x: int): (bytes: seq<Byte>) {
    [x / 256 % 256, x % 256]
  }

  function Be32(x: int): (bytes: seq<Byte>) {
    Be16(x / 65536) + Be16(x)
  }

  function Be32s(xs: seq<nat>): (bytes: seq<Byte>)
    ensures |bytes| == 4 * |xs|
  {
    if xs == [] then [] else Be32(xs[0]) + Be32s(xs[1..])
  }

  // ----- parser and validator

  /** Where the payload starts, or why the header does not fit in the datagram. */
  function HeaderLength(data: seq<Byte>): Result<nat, ParseError>
    requires |data| >= FIXED_HEADER_LENGTH
  {
    var afterCsrcs := FIXED_HEADER_LENGTH + 4 * (data[0] % 16);
    if afterCsrcs > |data| then
      Err(CsrcOverrun)
    else if data[0] / 16 % 2 == 0 then
      Ok(afterCsrcs)
    else if afterCsrcs + 4 > |data| then
      Err(ExtensionLengthOverrun)
    else
      var afterExtension := afterCsrcs + 4 + 4 * U16(data, afterCsrcs + 2);
      if afterExtension > |data| then Err(ExtensionOverrun) else Ok(afterExtension)
  }

  /** The bytes left when the padding is cut off. A count of 0 cuts everything: `payload[:-0]` is empty. */
  function StripPadding(payload: seq<Byte>): Result<seq<Byte>, ParseError> {
    if payload == [] then
      Err(PaddingWithoutPayload)
    else
      var count := payload[|payload| - 1];
      if count > |payload| then Err(PaddingTooLong)
      else if count == 0 then Ok([])
      else Ok(payload[..|payload| - count])
  }

  function Parse(data: seq<Byte>): Result<Packet, ParseError> {
    if data == [] then
      Err(EmptyPacket)
    else if |data| < FIXED_HEADER_LENGTH then
      Err(TooShort)
    else if data[0] / 64 != 2 then
      Err(UnsupportedVersion(data[0] / 64))
    else
      match HeaderLength(data)
      case Err(error) => Err(error)
      case Ok(headerLength) =>
        var padding := data[0] / 32 % 2 == 1;
        var body := data[headerLength..];
        match if padding then StripPadding(body) else Ok(body)
        case Err(error) => Err(error)
        case Ok(payload) =>
          Ok(PacketAt(data, headerLength, payload))
  }

  /** The packet read off a datagram whose header is known to fit. */
  function PacketAt(data: seq<Byte>, headerLength: nat, payload: seq<Byte>): Packet
    requires |data| >= FIXED_HEADER_LENGTH
    requires FIXED_HEADER_LENGTH + 4 * (data[0] % 16) <= headerLength <= |data|
  {
    Packet(data[0] / 64, data[0] / 32 % 2 == 1, data[0] / 16 % 2 == 1, data[0] % 16,
           data[1] / 128 == 1, data[1] % 128, U16(data, 2), U32(data, 4), U32(data, 8),
           U32s(data, FIXED_HEADER_LENGTH, data[0] % 16), headerLength, payload)
  }

  function Validate(packet: Packet, expectedPayloadType: Option<nat>): Result<Packet, ParseError> {
    if packet.version != 2 then Err(UnsupportedVersion(packet.version))
    else if expectedPayloadType.Some? && packet.payloadType != expectedPayloadType.value then Err(UnexpectedPayloadType)
    else Ok(packet)
  }

  /** What the receive loop does with a datagram before it is routed. */
  function ParseAndValidate(data: seq<Byte>, expectedPayloadType: Option<nat>): Result<Packet, ParseError> {
    match Parse(data)
    case Err(error) => Err(error)
    case Ok(packet) => Validate(packet, expectedPayloadType)
  }

  /** Exactly why a datagram is refused before its payload is looked at. */
  lemma HeaderRefusedIff(data: seq<Byte>)
    ensures Parse(data) == Err(EmptyPacket) <==> data == []
    ensures Parse(data) == Err(TooShort) <==> 0 < |data| < 12
    ensures Parse(data) == Err(CsrcOverrun) <==> |data| >= 12 && data[0] / 64 == 2 && |data| < 12 + 4 * (data[0] % 16)
    ensures |data| >= 12 ==> (data[0] / 64 != 2 <==> Parse(data) == Err(UnsupportedVersion(data[0] / 64)))
  {
  }

  /** A datagram passes the receiver's checks iff it parses and has the payload type asked for, if one is. */
  lemma AcceptedIff(data: seq<Byte>, expectedPayloadType: Option<nat>)
    ensures ParseAndValidate(data, expectedPayloadType).Ok? <==>
              && Parse(data).Ok?
              && (expectedPayloadType.Some? ==> Parse(data).value.payloadType == expectedPayloadType.value)
    ensures ParseAndValidate(data, expectedPayloadType).Ok? ==>
              ParseAndValidate(data, expectedPayloadType) == Parse(data)
  {
  }

  // ----- builder

  /** None is the `struct.error` of a version that does not fit its two bits. */
  function Build(payloadType: int, sequenceNumber: int, timestamp: int, ssrc: int,
                 payload: seq<Byte>, marker: bool, version: int): Option<seq<Byte>>
  {
    if 0 <= version < 4 then
      Some([version * 64, (if marker then 128 else 0) + payloadType % 128]
           + Be16(sequenceNumber) + Be32(timestamp) + Be32(ssrc) + payload)
    else
      None
  }

  // ----- the wire format of RFC 3550, independent of the parser

  datatype Extension = Extension(profile: nat, words: seq<nat>) {
    ghost predicate InWidth() {
      && profile < 0x1_0000
      && |words| < 0x1_0000
      && forall i :: 0 <= i < |words| ==> words[i] < 0x1_0000_0000
    }

    function Encode(): seq<Byte> {
      Be16(profile) + Be16(|words|) + Be32s(words)
    }
  }

  /** `fill` are the padding octets before the count octet, so a count is never 0. */
  datatype Wire = Wire(
    marker: bool, payloadType: nat, sequenceNumber: nat, timestamp: nat, ssrc: nat,
    csrcs: seq<nat>, extension: Option<Extension>, payload: seq<Byte>, fill: Option<seq<Byte>>)
  {
    ghost predicate InWidth() {
      && payloadType < 128
      && sequenceNumber < 0x1_0000
      && timestamp < 0x1_0000_0000
      && ssrc < 0x1_0000_0000
      && |csrcs| < 16
      && (forall i :: 0 <= i < |csrcs| ==> csrcs[i] < 0x1_0000_0000)
      && (extension.Some? ==> extension.value.InWidth())
      && (fill.Some? ==> |fill.value| < 255)
    }

    function FirstOctet(): Byte
      requires |csrcs| < 16
    {
      128 + (if fill.Some? then 32 else 0) + (if extension.Some? then 16 else 0) + |csrcs|
    }

    function Fixed(): (bytes: seq<Byte>)
      requires payloadType < 128 && |csrcs| < 16
      ensures |bytes| == FIXED_HEADER_LENGTH
    {
      [FirstOctet(), (if marker then 128 else 0) + payloadType]
      + Be16(sequenceNumber) + Be32(timestamp) + Be32(ssrc)
    }

    function ExtensionBytes(): seq<Byte> {
      if extension.Some? then extension.value.Encode() else []
    }

    function PaddingBytes(): seq<Byte>
      requires fill.Some? ==> |fill.value| < 255
    {
      match fill
      case None => []
      case Some(octets) => octets + [|octets| + 1]
    }

    function Header(): seq<Byte>
      requires payloadType < 128 && |csrcs| < 16
    {
      Fixed() + Be32s(csrcs) + ExtensionBytes()
    }

    function Encode(): seq<Byte>
      requires payloadType < 128 && |csrcs| < 16 && (fill.Some? ==> |fill.value| < 255)
    {
      Header() + (payload + PaddingBytes())
    }

    function ToPacket(): Packet
      requires payloadType < 128 && |csrcs| < 16
    {
      Packet(2, fill.Some?, extension.Some?, |csrcs|, marker, payloadType,
             sequenceNumber, timestamp, ssrc, csrcs, |Header()|, payload)
    }
  }

  // ----- integers survive the wire

  lemma ReadBe16(before: seq<Byte>, x: nat, after: seq<Byte>)
    requires x < 0x1_0000
    ensures U16(before + Be16(x) + after, |before|) == x
  {
    var data := before + Be16(x) + after;
    assert data[|before|] == x / 256 % 256 && data[|before| + 1] == x % 256;
  }

  lemma Be16Halves(x: nat)
    requires x < 0x1_0000_0000
    ensures Be16(x) == Be16(x % 65536)
    ensures x / 65536 < 0x1_0000
  {
    assert x == x / 65536 * 65536 + x % 65536;
    assert x / 256 == x / 65536 * 256 + x % 65536 / 256;
  }

  lemma ReadBe32(before: seq<Byte>, x: nat, after: seq<Byte>)
    requires x < 0x1_0000_0000
    ensures U32(before + Be32(x) + after, |before|) == x
  {
    var hi, lo := Be16(x / 65536), Be16(x);
    Be16Halves(x);
    ReadBe16(before, x / 65536, lo + after);
    ReadBe16(before + hi, x % 65536, after);
    assert before + Be32(x) + after == before + hi + (lo + after);
    assert before + Be32(x) + after == (before + hi) + lo + after;
  }

  lemma {:induction false} ReadBe32s(before: seq<Byte>, xs: seq<nat>, after: seq<Byte>)
    requires forall i :: 0 <= i < |xs| ==> xs[i] < 0x1_0000_0000
    ensures U32s(before + Be32s(xs) + after, |before|, |xs|) == xs
    decreases |xs|
  {
    if xs != [] {
      var data := before + Be32s(xs) + after;
      var rest := Be32s(xs[1..]);
      assert data == before + Be32(xs[0]) + (rest + after);
      ReadBe32(before, xs[0], rest + after);
      ReadBe32s(before + Be32(xs[0]), xs[1..], after);
      assert data == (before + Be32(xs[0])) + rest + after;
      U32sFront(data, |before|, |xs|);
    }
  }

  lemma U32sFront(data: seq<Byte>, at: nat, count: nat)
    requires count > 0 && at + 4 * count <= |data|
    ensures U32s(data, at, count) == [U32(data, at)] + U32s(data, at + 4, count - 1)
  {
  }

  lemma WriteU16(data: seq<Byte>, at: nat)
    requires at + 2 <= |data|
    ensures Be16(U16(data, at)) == data[at..at + 2]
  {
  }

  lemma WriteU32(data: seq<Byte>, at: nat)
    requires at + 4 <= |data|
    ensures U32(data, at) < 0x1_0000_0000
    ensures Be32(U32(data, at)) == data[at..at + 4]
  {
    WriteU16(data, at);
    WriteU16(data, at + 2);
    Be32OfHalves(U16(data, at), U16(data, at + 2));
    assert data[at..at + 4] == data[at..at + 2] + data[at + 2..at + 4];
  }

  lemma Be32OfHalves(hi: nat, lo: nat)
    requires hi < 0x1_0000 && lo < 0x1_0000
    ensures Be32(hi * 65536 + lo) == Be16(hi) + Be16(lo)
  {
    assert (hi * 65536 + lo) / 65536 == hi;
    assert (hi * 65536 + lo) / 256 == hi * 256 + lo / 256;
  }

  lemma {:induction false} WriteU32s(data: seq<Byte>, at: nat, count: nat)
    requires at + 4 * count <= |data|
    ensures forall i :: 0 <= i < count ==> U32s(data, at, count)[i] < 0x1_0000_0000
    ensures Be32s(U32s(data, at, count)) == data[at..at + 4 * count]
    decreases count
  {
    var xs := U32s(data, at, count);
    if count > 0 {
      WriteU32(data, at);
      WriteU32s(data, at + 4, count - 1);
      assert xs[1..] == U32s(data, at + 4, count - 1);
      assert xs == [xs[0]] + xs[1..];
      assert data[at..at + 4 * count] == data[at..at + 4] + data[at + 4..at + 4 * count];
    }
  }

  // ----- the parser inverts the encoder

  lemma FixedFields(w: Wire, data: seq<Byte>)
    requires w.InWidth()
    requires |data| >= FIXED_HEADER_LENGTH && data[..FIXED_HEADER_LENGTH] == w.Fixed()
    ensures data[0] == w.FirstOctet()
    ensures data[1] == (if w.marker then 128 else 0) + w.payloadType
    ensures U16(data, 2) == w.sequenceNumber
    ensures U32(data, 4) == w.timestamp
    ensures U32(data, 8) == w.ssrc
  {
    var rest := data[FIXED_HEADER_LENGTH..];
    var octets := [w.FirstOctet(), (if w.marker then 128 else 0) + w.payloadType];
    var s, t, c := Be16(w.sequenceNumber), Be32(w.timestamp), Be32(w.ssrc);
    assert data == w.Fixed() + rest;
    assert data == octets + s + (t + c + rest);
    ReadBe16(octets, w.sequenceNumber, t + c + rest);
    assert data == (octets + s) + t + (c + rest);
    ReadBe32(octets + s, w.timestamp, c + rest);
    assert data == (octets + s + t) + c + rest;
    ReadBe32(octets + s + t, w.ssrc, rest);
  }

  lemma ExtensionFields(before: seq<Byte>, w: Wire, rest: seq<Byte>)
    requires w.InWidth() && w.extension.Some?
    ensures |w.ExtensionBytes()| == 4 + 4 * |w.extension.value.words|
    ensures U16(before + w.ExtensionBytes() + rest, |before| + 2) == |w.extension.value.words|
  {
    var x := w.extension.value;
    var profile, length := Be16(x.profile), Be16(|x.words|);
    assert before + w.ExtensionBytes() + rest == (before + profile) + length + (Be32s(x.words) + rest);
    ReadBe16(before + profile, |x.words|, Be32s(x.words) + rest);
  }

  lemma FirstOctetBits(w: Wire)
    requires w.InWidth()
    ensures var octet := w.FirstOctet();
            && octet / 64 == 2
            && (octet / 32 % 2 == 1 <==> w.fill.Some?)
            && (octet / 16 % 2 == 1 <==> w.extension.Some?)
            && octet % 16 == |w.csrcs|
  {
  }

  lemma HeaderLengthOf(data: seq<Byte>, w: Wire)
    requires w.InWidth()
    requires |data| >= |w.Header()|
    requires data[0] == w.FirstOctet()
    requires w.extension.Some? ==>
               var at := FIXED_HEADER_LENGTH + 4 * |w.csrcs|;
               && |w.Header()| == at + 4 + 4 * |w.extension.value.words|
               && U16(data, at + 2) == |w.extension.value.words|
    ensures HeaderLength(data) == Ok(|w.Header()|)
  {
    FirstOctetBits(w);
  }

  lemma HeaderFields(w: Wire, rest: seq<Byte>)
    requires w.InWidth()
    ensures |w.Header()| >= FIXED_HEADER_LENGTH + 4 * |w.csrcs|
    ensures HeaderLength(w.Header() + rest) == Ok(|w.Header()|)
    ensures U32s(w.Header() + rest, FIXED_HEADER_LENGTH, |w.csrcs|) == w.csrcs
  {
    var data := w.Header() + rest;
    var afterCsrcs := w.Fixed() + Be32s(w.csrcs);
    assert data == w.Fixed() + Be32s(w.csrcs) + (w.ExtensionBytes() + rest);
    ReadBe32s(w.Fixed(), w.csrcs, w.ExtensionBytes() + rest);
    if w.extension.Some? {
      assert data == afterCsrcs + w.ExtensionBytes() + rest;
      ExtensionFields(afterCsrcs, w, rest);
    }
    HeaderLengthOf(data, w);
  }

  /** Every encoding with CSRCs, extension and padding of sections 5.1 and 5.3.1 of RFC 3550 parses to its fields. */
  lemma ParseInvertsEncode(w: Wire)
    requires w.InWidth()
    ensures Parse(w.Encode()) == Ok(w.ToPacket())
  {
    var data := w.Encode();
    var body := w.payload + w.PaddingBytes();
    HeaderFields(w, body);
    EncodedFixed(w);
    EncodedFields(w);
    assert data[|w.Header()|..] == body;
    if w.fill.Some? {
      StripInvertsPad(w);
    } else {
      assert body == w.payload;
    }
  }

  lemma EncodedFixed(w: Wire)
    requires w.InWidth()
    ensures |w.Encode()| >= FIXED_HEADER_LENGTH && w.Encode()[..FIXED_HEADER_LENGTH] == w.Fixed()
    ensures w.Encode()[0] == w.FirstOctet()
    ensures w.Encode()[0] / 64 == 2
    ensures w.Encode()[0] / 32 % 2 == 1 <==> w.fill.Some?
    ensures w.Encode()[0] / 16 % 2 == 1 <==> w.extension.Some?
    ensures w.Encode()[0] % 16 == |w.csrcs|
  {
    FirstOctetBits(w);
  }

  lemma EncodedFields(w: Wire)
    requires w.InWidth()
    ensures FIXED_HEADER_LENGTH + 4 * |w.csrcs| <= |w.Header()| <= |w.Encode()|
    ensures w.Encode()[0] % 16 == |w.csrcs|
    ensures PacketAt(w.Encode(), |w.Header()|, w.payload) == w.ToPacket()
  {
    EncodedFixed(w);
    FixedFields(w, w.Encode());
    HeaderFields(w, w.payload + w.PaddingBytes());
  }

  lemma StripInvertsPad(w: Wire)
    requires w.InWidth() && w.fill.Some?
    ensures StripPadding(w.payload + w.PaddingBytes()) == Ok(w.payload)
  {
    var body := w.payload + w.PaddingBytes();
    assert body[|body| - 1] == |w.fill.value| + 1;
    assert body[..|w.payload|] == w.payload;
  }

  /** The simulator's packets parse back to the fields it was given, cut to their widths. */
  lemma ParseInvertsBuild(payloadType: int, sequenceNumber: int, timestamp: int, ssrc: int,
                          payload: seq<Byte>, marker: bool)
    ensures var built := Build(payloadType, sequenceNumber, timestamp, ssrc, payload, marker, 2);
            built.Some? && Parse(built.value) == Ok(Packet(
              2, false, false, 0, marker, payloadType % 128, sequenceNumber % 0x1_0000,
              timestamp % 0x1_0000_0000, ssrc % 0x1_0000_0000, [], FIXED_HEADER_LENGTH, payload))
  {
    var w := Wire(marker, payloadType % 128, sequenceNumber % 0x1_0000, timestamp % 0x1_0000_0000,
                  ssrc % 0x1_0000_0000, [], None, payload, None);
    Be16Truncates(sequenceNumber);
    Be32Truncates(timestamp);
    Be32Truncates(ssrc);
    assert w.Header() == w.Fixed();
    assert w.payload + w.PaddingBytes() == payload;
    assert w.Encode() == Build(payloadType, sequenceNumber, timestamp, ssrc, payload, marker, 2).value;
    ParseInvertsEncode(w);
  }

  lemma Be16Truncates(x: int)
    ensures Be16(x % 0x1_0000) == Be16(x)
  {
    assert x == x / 65536 * 65536 + x % 65536;
    assert x / 256 == x / 65536 * 256 + x % 65536 / 256;
  }

  lemma Be32Truncates(x: int)
    ensures Be32(x % 0x1_0000_0000) == Be32(x)
  {
    HalvesOfRemainder(x);
    Be16Truncates(x / 65536);
    Be16Truncates(x);
    Be16Truncates(x % 0x1_0000_0000);
  }

  lemma HalvesOfRemainder(x: int)
    ensures x % 0x1_0000_0000 / 65536 == x / 65536 % 65536
    ensures x % 0x1_0000_0000 % 65536 == x % 65536
  {
    var q, m := x / 0x1_0000_0000, x % 0x1_0000_0000;
    assert x / 65536 == q * 65536 + m / 65536;
  }

  // ----- the encoder inverts the parser

  /** The P bit is set over a payload whose last octet, the padding count, is 0. */
  predicate HasZeroPaddingCount(data: seq<Byte>) {
    && |data| >= FIXED_HEADER_LENGTH
    && data[0] / 64 == 2
    && data[0] / 32 % 2 == 1
    && HeaderLength(data).Ok?
    && HeaderLength(data).value < |data|
    && data[|data| - 1] == 0
  }

  function ExtensionAt(data: seq<Byte>, at: nat): Extension
    requires at + 4 <= |data| && at + 4 + 4 * U16(data, at + 2) <= |data|
  {
    Extension(U16(data, at), U32s(data, at + 4, U16(data, at + 2)))
  }

  lemma ExtensionAtEncodes(data: seq<Byte>, at: nat)
    requires at + 4 <= |data| && at + 4 + 4 * U16(data, at + 2) <= |data|
    ensures ExtensionAt(data, at).Encode() == data[at..at + 4 + 4 * U16(data, at + 2)]
  {
    var end := at + 4 + 4 * U16(data, at + 2);
    WriteU16(data, at);
    WriteU16(data, at + 2);
    WriteU32s(data, at + 4, U16(data, at + 2));
    assert data[at..end] == data[at..at + 2] + data[at + 2..at + 4] + data[at + 4..end];
  }

  /** The wire form of a datagram, given how its body splits into payload and padding. */
  function WireAt(data: seq<Byte>, payload: seq<Byte>, fill: Option<seq<Byte>>): Wire
    requires |data| >= FIXED_HEADER_LENGTH && HeaderLength(data).Ok?
  {
    Wire(data[1] / 128 == 1, data[1] % 128, U16(data, 2), U32(data, 4), U32(data, 8),
         U32s(data, FIXED_HEADER_LENGTH, data[0] % 16),
         if data[0] / 16 % 2 == 1 then Some(ExtensionAt(data, FIXED_HEADER_LENGTH + 4 * (data[0] % 16))) else None,
         payload, fill)
  }

  lemma WireAtInWidth(data: seq<Byte>, payload: seq<Byte>, fill: Option<seq<Byte>>)
    requires |data| >= FIXED_HEADER_LENGTH && HeaderLength(data).Ok?
    requires fill.Some? ==> |fill.value| < 255
    ensures WireAt(data, payload, fill).InWidth()
  {
    WriteU32(data, 4);
    WriteU32(data, 8);
    WriteU32s(data, FIXED_HEADER_LENGTH, data[0] % 16);
    if data[0] / 16 % 2 == 1 {
      ExtensionAtInWidth(data, FIXED_HEADER_LENGTH + 4 * (data[0] % 16));
    }
  }

  lemma ExtensionAtInWidth(data: seq<Byte>, at: nat)
    requires at + 4 <= |data| && at + 4 + 4 * U16(data, at + 2) <= |data|
    ensures ExtensionAt(data, at).InWidth()
  {
    WriteU32s(data, at + 4, U16(data, at + 2));
  }

  lemma WireAtFixed(data: seq<Byte>, w: Wire)
    requires |data| >= FIXED_HEADER_LENGTH && data[0] / 64 == 2 && |w.csrcs| == data[0] % 16
    requires w.fill.Some? <==> data[0] / 32 % 2 == 1
    requires w.extension.Some? <==> data[0] / 16 % 2 == 1
    requires w.marker == (data[1] / 128 == 1) && w.payloadType == data[1] % 128
    requires w.sequenceNumber == U16(data, 2) && w.timestamp == U32(data, 4) && w.ssrc == U32(data, 8)
    ensures w.Fixed() == data[..FIXED_HEADER_LENGTH]
  {
    WriteU16(data, 2);
    WriteU32(data, 4);
    WriteU32(data, 8);
    assert w.FirstOctet() == data[0];
    assert data[..12] == data[..2] + data[2..4] + data[4..8] + data[8..12];
  }

  lemma WireAtHeader(data: seq<Byte>, payload: seq<Byte>, fill: Option<seq<Byte>>)
    requires |data| >= FIXED_HEADER_LENGTH && HeaderLength(data).Ok? && data[0] / 64 == 2
    requires fill.Some? <==> data[0] / 32 % 2 == 1
    ensures WireAt(data, payload, fill).Header() == data[..HeaderLength(data).value]
  {
    var w := WireAt(data, payload, fill);
    var at, end := FIXED_HEADER_LENGTH + 4 * (data[0] % 16), HeaderLength(data).value;
    WireAtFixed(data, w);
    WriteU32s(data, FIXED_HEADER_LENGTH, data[0] % 16);
    WireAtExtension(data, w);
    Slices(data, FIXED_HEADER_LENGTH, at, end);
  }

  lemma WireAtExtension(data: seq<Byte>, w: Wire)
    requires |data| >= FIXED_HEADER_LENGTH && HeaderLength(data).Ok?
    requires var at := FIXED_HEADER_LENGTH + 4 * (data[0] % 16);
             w.extension == if data[0] / 16 % 2 == 1 then Some(ExtensionAt(data, at)) else None
    ensures w.ExtensionBytes() == data[FIXED_HEADER_LENGTH + 4 * (data[0] % 16)..HeaderLength(data).value]
  {
    if data[0] / 16 % 2 == 1 {
      ExtensionAtEncodes(data, FIXED_HEADER_LENGTH + 4 * (data[0] % 16));
    }
  }

  lemma Slices(data: seq<Byte>, a: nat, b: nat, c: nat)
    requires a <= b <= c <= |data|
    ensures data[..a] + data[a..b] + data[b..c] == data[..c]
  {
  }

  /** The padding octets before the count octet, when the body is padded. */
  function FillOf(body: seq<Byte>, padding: bool): Option<seq<Byte>>
  {
    if padding && StripPadding(body).Ok? && |StripPadding(body).value| < |body|
    then Some(body[|StripPadding(body).value|..|body| - 1])
    else None
  }

  lemma PadInvertsStrip(body: seq<Byte>)
    requires StripPadding(body).Ok? && body[|body| - 1] != 0
    ensures var fill := FillOf(body, true);
            && fill.Some? && |fill.value| < 255
            && body == StripPadding(body).value + (fill.value + [|fill.value| + 1])
  {
  }

  /** The wire form a parsed datagram came from. */
  function WireOf(data: seq<Byte>): Wire
    requires Parse(data).Ok?
  {
    var p := Parse(data).value;
    WireAt(data, p.payload, FillOf(data[p.headerLength..], p.padding))
  }

  /** Whatever the parser accepts is the encoding of what it returns, unless the padding count is 0. */
  lemma EncodeInvertsParse(data: seq<Byte>)
    requires Parse(data).Ok? && !HasZeroPaddingCount(data)
    ensures WireOf(data).InWidth()
    ensures WireOf(data).Encode() == data
    ensures WireOf(data).ToPacket() == Parse(data).value
  {
    var p := Parse(data).value;
    var body := data[p.headerLength..];
    var fill := FillOf(body, p.padding);
    assert (fill.Some? <==> p.padding) && (fill.Some? ==> |fill.value| < 255)
           && body == p.payload + WireAt(data, p.payload, fill).PaddingBytes() by {
      if p.padding {
        PadInvertsStrip(body);
      } else {
        assert body == p.payload + [];
      }
    }
    WireAtInWidth(data, p.payload, fill);
    WireAtHeader(data, p.payload, fill);
    assert data == data[..p.headerLength] + body;
  }

  /**
   * Exactly which datagrams are accepted: the encodings of RFC 3550, and those with a
   * padding count of 0, which no encoder may write and whose payload is dropped whole.
   */
  lemma AcceptsExactlyTheEncodings(data: seq<Byte>)
    ensures Parse(data).Ok? <==> (exists w: Wire :: w.InWidth() && w.Encode() == data) || HasZeroPaddingCount(data)
    ensures HasZeroPaddingCount(data) ==> Parse(data).Ok? && Parse(data).value.payload == []
  {
    if Parse(data).Ok? && !HasZeroPaddingCount(data) {
      EncodeInvertsParse(data);
    }
    if w: Wire :| w.InWidth() && w.Encode() == data {
      ParseInvertsEncode(w);
    }
  }

  /** The two kinds of accepted datagrams never meet: an encoder's padding count is at least 1. */
  lemma EncodingsCountTheirPadding(w: Wire)
    requires w.InWidth()
    ensures !HasZeroPaddingCount(w.Encode())
  {
    EncodedFixed(w);
    if w.fill.Some? {
      assert w.PaddingBytes()[|w.fill.value|] == |w.fill.value| + 1;
      assert w.Encode()[|w.Encode()| - 1] == |w.fill.value| + 1;
    }
  }

  /** Version 2 with the P bit, all fields zero, and a payload of one octet that counts no padding. */
  const ZERO_COUNT: seq<Byte> := [0xA0, 0, 0, 0, 0, 0, 0, 0, 0, 0, 0, 0, 0]

  /** Accepted with an empty payload, and nobody's encoding. */
  lemma ZeroPaddingCountIsAccepted()
    ensures HasZeroPaddingCount(ZERO_COUNT)
    ensures Parse(ZERO_COUNT) == Ok(Packet(2, true, false, 0, false, 0, 0, 0, 0, [], 12, []))
    ensures forall w: Wire :: w.InWidth() ==> w.Encode() != ZERO_COUNT
  {
    assert U32s(ZERO_COUNT, FIXED_HEADER_LENGTH, 0) == [];
    NotAnEncoding(ZERO_COUNT);
  }

  lemma NotAnEncoding(data: seq<Byte>)
    requires HasZeroPaddingCount(data)
    ensures forall w: Wire :: w.InWidth() ==> w.Encode() != data
  {
    forall w: Wire | w.InWidth() ensures w.Encode() != data {
      EncodingsCountTheirPadding(w);
    }
  }

  // ----- bytes and bits, in numbers

  /** The P and X bits clear, the marker set, payload type 8. */
  const SHORT: seq<Byte> := [0x80, 0x88, 0x12, 0x34, 0x00, 0x00, 0x01, 0x40, 0xDE, 0xAD, 0xBE, 0xEF, 0x55, 0x66]

  /** Network byte order, and where the bits of the first two octets are. */
  lemma KnownDatagram()
    ensures Parse(SHORT) == Ok(Packet(2, false, false, 0, true, 8, 0x1234, 320, 0xDEADBEEF, [], 12, [0x55, 0x66]))
  {
    assert HeaderLength(SHORT) == Ok(12);
    assert SHORT[12..] == [0x55, 0x66];
    ShortFields();
  }

  lemma ShortFields()
    ensures PacketAt(SHORT, 12, [0x55, 0x66])
            == Packet(2, false, false, 0, true, 8, 0x1234, 320, 0xDEADBEEF, [], 12, [0x55, 0x66])
  {
    assert U32s(SHORT, 12, 0) == [];
    assert U16(SHORT, 2) == 0x1234 && U32(SHORT, 4) == 320;
    assert U16(SHORT, 8) == 0xDEAD && U16(SHORT, 10) == 0xBEEF;
  }

  /** One CSRC, an extension of one word, and one octet of payload before two of padding. */
  const LONG: seq<Byte> :=
    [0xB1, 0x00, 0x00, 0x01, 0x00, 0x00, 0x00, 0x02, 0x00, 0x00, 0x00, 0x03, 0x00, 0x00, 0x01, 0x04,
     0xBE, 0xDE, 0x00, 0x01, 0x11, 0x22, 0x33, 0x44, 0x77, 0x00, 0x02]

  lemma KnownLongDatagram()
    ensures Parse(LONG) == Ok(Packet(2, true, true, 1, false, 0, 1, 2, 3, [260], 24, [0x77]))
  {
    assert HeaderLength(LONG) == Ok(24) by {
      assert U16(LONG, 18) == 1;
    }
    LastTwoArePadding(LONG[24..]);
    LongFields();
  }

  lemma LastTwoArePadding(body: seq<Byte>)
    requires |body| == 3 && body[2] == 2
    ensures StripPadding(body) == Ok([body[0]])
  {
    assert body[..1] == [body[0]];
  }

  lemma LongFields()
    ensures PacketAt(LONG, 24, [0x77]) == Packet(2, true, true, 1, false, 0, 1, 2, 3, [260], 24, [0x77])
  {
    assert U32s(LONG, 12, 1) == [260];
  }
}
