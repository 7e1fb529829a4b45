/** The four WireGuard messages of wireguard.h as packed byte strings. */
module Messages {
  import opened Bytes

  datatype Initiation = Initiation(
    sender: u32, ephemeral: seq<byte>, encStatic: seq<byte>, encTimestamp: seq<byte>, mac1: seq<byte>, mac2: seq<byte>)
  {
    predicate Valid() {
      |ephemeral| == 32 && |encStatic| == 48 && |encTimestamp| == 28 && |mac1| == 16 && |mac2| == 16
    }

    /** The bytes under mac1. */
    function Body(): seq<byte> {
      [1, 0, 0, 0] + ToLE(4, sender) + ephemeral + encStatic + encTimestamp
    }

    function Wire(): seq<byte> {
      Body() + mac1 + mac2
    }
  }

  datatype Response = Response(
    sender: u32, receiver: u32, ephemeral: seq<byte>, encEmpty: seq<byte>, mac1: seq<byte>, mac2: seq<byte>)
  {
    predicate Valid() {
      |ephemeral| == 32 && |encEmpty| == 16 && |mac1| == 16 && |mac2| == 16
    }

    function Body(): seq<byte> {
      [2, 0, 0, 0] + ToLE(4, sender) + ToLE(4, receiver) + ephemeral + encEmpty
    }

    function Wire(): seq<byte> {
      Body() + mac1 + mac2
    }
  }

  datatype CookieReply = CookieReply(receiver: u32, nonce: seq<byte>, encCookie: seq<byte>) {
    predicate Valid() {
      |nonce| == 24 && |encCookie| == 32
    }

    function Wire(): seq<byte> {
      [3, 0, 0, 0] + ToLE(4, receiver) + nonce + encCookie
    }
  }

  datatype TransportData = TransportData(receiver: u32, counter: u64, encPacket: seq<byte>) {
    predicate Valid() {
      |encPacket| >= 16
    }

    function Wire(): seq<byte> {
      [4, 0, 0, 0] + ToLE(4, receiver) + ToLE(8, counter) + encPacket
    }
  }

  datatype MessageType = Invalid | HandshakeInitiation | HandshakeResponse | CookieReplyMessage | TransportMessage

  /** wireguard_get_message_type */
  method GetMessageType(data: seq<byte>) returns (t: MessageType)
    ensures t == TypeOf(data)
  {
    t := Invalid;
    if |data| >= 4 {
      if data[1] == 0 && data[2] == 0 && data[3] == 0 {
        if data[0] == 1 {
          if |data| == 148 { t := HandshakeInitiation; }
        } else if data[0] == 2 {
          if |data| == 92 { t := HandshakeResponse; }
        } else if data[0] == 3 {
          if |data| == 64 { t := CookieReplyMessage; }
        } else if data[0] == 4 {
          if |data| >= 16 + 16 { t := TransportMessage; }
        }
      }
    }
  }

  function TypeOf(data: seq<byte>): MessageType {
    if |data| < 4 || data[1] != 0 || data[2] != 0 || data[3] != 0 then Invalid
    else if data[0] == 1 && |data| == 148 then HandshakeInitiation
    else if data[0] == 2 && |data| == 92 then HandshakeResponse
    else if data[0] == 3 && |data| == 64 then CookieReplyMessage
    else if data[0] == 4 && |data| >= 32 then TransportMessage
    else Invalid
  }

  /** Every message is classified as what it is. */
  lemma WireTypes(i: Initiation, r: Response, c: CookieReply, t: TransportData)
    requires i.Valid() && r.Valid() && c.Valid() && t.Valid()
    ensures TypeOf(i.Wire()) == HandshakeInitiation
    ensures TypeOf(r.Wire()) == HandshakeResponse
    ensures TypeOf(c.Wire()) == CookieReplyMessage
    ensures TypeOf(t.Wire()) == TransportMessage
  {
    hide ToLE;
  }

  /** The fields that the receive path reads back from a transport message. */
  lemma TransportFields(t: TransportData)
    ensures var w := t.Wire();
            FromLE(w[4..8]) == t.receiver && FromLE(w[8..16]) == t.counter && w[16..] == t.encPacket
  {
    var w := t.Wire();
    assert w[4..8] == ToLE(4, t.receiver) && w[8..16] == ToLE(8, t.counter) && w[16..] == t.encPacket by { hide ToLE; }
    assert Pow256(4) == 0x1_0000_0000;
    assert Pow256(8) == 0x1_0000_0000_0000_0000;
    DecodeEncode(4, t.receiver);
    DecodeEncode(8, t.counter);
  }

  // Reading the packed structures back

  function InitiationOf(w: seq<byte>): Initiation
    requires |w| == 148
  {
    Initiation(Load32(w, 4), w[8..40], w[40..88], w[88..116], w[116..132], w[132..])
  }

  function ResponseOf(w: seq<byte>): Response
    requires |w| == 92
  {
    Response(Load32(w, 4), Load32(w, 8), w[12..44], w[44..60], w[60..76], w[76..])
  }

  function CookieReplyOf(w: seq<byte>): CookieReply
    requires |w| == 64
  {
    CookieReply(Load32(w, 4), w[8..32], w[32..])
  }

  lemma LoadEncoded(w: seq<byte>, at: nat, v: u32)
    requires at + 4 <= |w| && w[at..at + 4] == ToLE(4, v)
    ensures Load32(w, at) == v
  {
    Load32IsFromLE(w, at);
    assert Pow256(4) == 0x1_0000_0000;
    DecodeEncode(4, v);
  }

  /** What one end writes into a handshake message, the other end reads from it. */
  lemma InitiationFields(m: Initiation)
    requires m.Valid()
    ensures |m.Wire()| == 148 && InitiationOf(m.Wire()) == m
  {
    var w := m.Wire();
    assert w[4..8] == ToLE(4, m.sender) by { hide ToLE; }
    LoadEncoded(w, 4, m.sender);
    hide ToLE;
    assert w[8..40] == m.ephemeral && w[40..88] == m.encStatic && w[88..116] == m.encTimestamp;
    assert w[116..132] == m.mac1 && w[132..] == m.mac2;
  }

  lemma ResponseFields(m: Response)
    requires m.Valid()
    ensures |m.Wire()| == 92 && ResponseOf(m.Wire()) == m
  {
    var w := m.Wire();
    assert w[4..8] == ToLE(4, m.sender) && w[8..12] == ToLE(4, m.receiver) by { hide ToLE; }
    LoadEncoded(w, 4, m.sender);
    LoadEncoded(w, 8, m.receiver);
    hide ToLE;
    assert w[12..44] == m.ephemeral && w[44..60] == m.encEmpty && w[60..76] == m.mac1 && w[76..] == m.mac2;
  }

  lemma CookieReplyFields(m: CookieReply)
    requires m.Valid()
    ensures |m.Wire()| == 64 && CookieReplyOf(m.Wire()) == m
  {
    var w := m.Wire();
    assert w[4..8] == ToLE(4, m.receiver) by { hide ToLE; }
    LoadEncoded(w, 4, m.receiver);
    hide ToLE;
    assert w[8..32] == m.nonce && w[32..] == m.encCookie;
  }

  // The layouts, byte by byte

  /** Where wireguard.h puts every field of the four packed structures. */
  lemma Layouts(i: Initiation, r: Response, c: CookieReply, t: TransportData)
    requires i.Valid() && r.Valid() && c.Valid() && t.Valid()
    ensures var w := i.Wire();
            && |w| == 148 && w[..4] == [1, 0, 0, 0] && w[4..8] == ToLE(4, i.sender) && w[8..40] == i.ephemeral
            && w[40..88] == i.encStatic && w[88..116] == i.encTimestamp && w[116..132] == i.mac1 && w[132..] == i.mac2
    ensures var w := r.Wire();
            && |w| == 92 && w[..4] == [2, 0, 0, 0] && w[4..8] == ToLE(4, r.sender) && w[8..12] == ToLE(4, r.receiver)
            && w[12..44] == r.ephemeral && w[44..60] == r.encEmpty && w[60..76] == r.mac1 && w[76..] == r.mac2
    ensures var w := c.Wire();
            && |w| == 64 && w[..4] == [3, 0, 0, 0] && w[4..8] == ToLE(4, c.receiver) && w[8..32] == c.nonce
            && w[32..] == c.encCookie
    ensures var w := t.Wire();
            && w[..4] == [4, 0, 0, 0] && w[4..8] == ToLE(4, t.receiver) && w[8..16] == ToLE(8, t.counter)
            && w[16..] == t.encPacket
  {
    hide ToLE;
  }

  /** The exact classification: the first byte with three zero bytes behind it, and the length. */
  lemma TypesExactly(data: seq<byte>)
    ensures TypeOf(data) == HandshakeInitiation <==> |data| == 148 && data[..4] == [1, 0, 0, 0]
    ensures TypeOf(data) == HandshakeResponse <==> |data| == 92 && data[..4] == [2, 0, 0, 0]
    ensures TypeOf(data) == CookieReplyMessage <==> |data| == 64 && data[..4] == [3, 0, 0, 0]
    ensures TypeOf(data) == TransportMessage <==> |data| >= 32 && data[..4] == [4, 0, 0, 0]
  {
  }
}
