/** The exchange between two peers as datagrams: wireguard_start_handshake and the dispatch,
    field reading and first MAC check of wireguardif_network_rx. */
module Datagrams {
  import opened Bits
  import opened Bytes
  import opened Wrappers
  import opened Messages
  import opened Keypairs
  import opened Session
  import opened SessionSafety
  import opened Noise
  import opened Transport
  import opened Timestamps
  import opened Tunnel
  import Cookies
  import Kdf

  /** What one call takes from its environment: a random private key and index, whatever
      secrets a failing handshake leaves, the cookie at hand, grants and clocks. */
  datatype Inputs = Inputs(
    ephemeral: Key, index: u32, scratch: Handshake, cookie: Option<Cookie>,
    alloc: bool, sendOk: bool, destOk: bool, now: u32, clock: Clock)

  /** wireguard_start_handshake: the new state and the datagram, if there is one. */
  function StartHandshake(dh: Dh, d: Device, r: Remote, s: State, timestamp: Timestamp, x: Inputs)
    : (State, Option<seq<byte>>)
  {
    hide BeginExchange, SignedInitiation, Initiation.Wire;
    var (t, m) := BeginExchange(dh, d, r, s, x.ephemeral, timestamp, x.index, x.scratch, x.alloc, x.now);
    (t, if m.Some? && x.alloc then Some(SignedInitiation(r.labelMac1Key, x.cookie, m.value).Wire()) else None)
  }

  function RxInitiation(dh: Dh, d: Device, r: Remote, s: State, memory: Memory, data: seq<byte>, x: Inputs)
    : (State, Option<seq<byte>>)
    requires |data| == 148
  {
    hide ReceiveInitiation, SignedResponse, Response.Wire, Kdf.Mac, InitiationOf;
    var m := InitiationOf(data);
    if m.mac1 != Kdf.Mac(d.labelMac1Key, data[..116]) then (s, None)
    else
      var (t, a) := ReceiveInitiation(dh, d, r, s, memory, m, x.ephemeral, x.index, x.scratch, x.now);
      (t, if a.Some? && x.alloc then Some(SignedResponse(r.labelMac1Key, x.cookie, a.value).Wire()) else None)
  }

  function RxResponse(dh: Dh, d: Device, r: Remote, s: State, data: seq<byte>, x: Inputs): (State, Option<seq<byte>>)
    requires |data| == 92
  {
    hide ReceiveResponse, LatestPacket, Kdf.Mac, ResponseOf;
    var m := ResponseOf(data);
    if m.mac1 != Kdf.Mac(d.labelMac1Key, data[..60]) then (s, None)
    else
      var t := ReceiveResponse(dh, d, r, s, m, x.alloc, x.sendOk, x.clock);
      (t, if t.sent != s.sent then Some(LatestPacket(t)) else None)
  }

  /** wireguardif_network_rx, not under load: the new state and the datagram that it causes. */
  function NetworkRx(dh: Dh, d: Device, r: Remote, s: State, memory: Memory, data: seq<byte>, x: Inputs)
    : (State, Option<seq<byte>>)
  {
    hide RxInitiation, RxResponse, Receive;
    match TypeOf(data)
    case HandshakeInitiation => RxInitiation(dh, d, r, s, memory, data, x)
    case HandshakeResponse => RxResponse(dh, d, r, s, data, x)
    case TransportMessage => (Receive(s, data, x.alloc, x.destOk, x.clock), None)
    case _ => (s, None)
  }

  // A signed message arrives as what it was

  /** Processing does not look at the MACs. */
  lemma InitiationWithMacs(dh: Dh, d: Device, r: Remote, s: State, memory: Memory, m: Initiation,
                           mac1: Cookie, mac2: Cookie, x: Inputs)
    requires m.Valid()
    ensures ReceiveInitiation(dh, d, r, s, memory, m.(mac1 := mac1, mac2 := mac2), x.ephemeral, x.index, x.scratch,
                              x.now)
         == ReceiveInitiation(dh, d, r, s, memory, m, x.ephemeral, x.index, x.scratch, x.now)
  {
    hide Process, Answer, Accepts, Respond;
    ProcessWithMacs(dh, d, r, s.handshake, m, mac1, mac2);
  }

  lemma ProcessWithMacs(dh: Dh, d: Device, r: Remote, h: Handshake, m: Initiation, mac1: Cookie, mac2: Cookie)
    requires m.Valid()
    ensures Process(dh, d, r, h, m.(mac1 := mac1, mac2 := mac2)) == Process(dh, d, r, h, m)
  {
    hide Opening, Identified;
  }

  lemma ResponseWithMacs(dh: Dh, d: Device, r: Remote, s: State, m: Response, mac1: Cookie, mac2: Cookie, x: Inputs)
    requires m.Valid()
    ensures ReceiveResponse(dh, d, r, s, m.(mac1 := mac1, mac2 := mac2), x.alloc, x.sendOk, x.clock)
         == ReceiveResponse(dh, d, r, s, m, x.alloc, x.sendOk, x.clock)
  {
    hide Answering, Complete;
    assert Finish(dh, d, r, s.handshake, m.(mac1 := mac1, mac2 := mac2)) == Finish(dh, d, r, s.handshake, m);
    hide Finish;
  }

  /** An initiation signed for this device passes the dispatch and the MAC check. */
  lemma InitiationArrives(dh: Dh, d: Device, r: Remote, s: State, memory: Memory, m: Initiation,
                          cookie: Option<Cookie>, x: Inputs)
    requires m.Valid()
    ensures var data := SignedInitiation(d.labelMac1Key, cookie, m).Wire();
            var (t, a) := ReceiveInitiation(dh, d, r, s, memory, m, x.ephemeral, x.index, x.scratch, x.now);
            NetworkRx(dh, d, r, s, memory, data, x) ==
            (t, if a.Some? && x.alloc then Some(SignedResponse(r.labelMac1Key, x.cookie, a.value).Wire()) else None)
  {
    hide ReceiveInitiation, SignedResponse, Kdf.Mac, InitiationOf, Initiation.Wire, Response.Wire, Initiation.Body,
         RxResponse, Receive, TypeOf;
    var n := SignedInitiation(d.labelMac1Key, cookie, m);
    InitiationType(n);
    InitiationFields(n);
    Cookies.WirePrefixes(n);
    Cookies.MacsKeepBody(m, n.mac1, n.mac2);
    InitiationWithMacs(dh, d, r, s, memory, m, n.mac1, n.mac2, x);
  }

  lemma InitiationType(m: Initiation)
    requires m.Valid()
    ensures TypeOf(m.Wire()) == HandshakeInitiation
  {
    hide ToLE;
  }

  lemma ResponseType(m: Response)
    requires m.Valid()
    ensures TypeOf(m.Wire()) == HandshakeResponse && m.Wire()[..60] == m.Body()
  {
    hide ToLE;
  }

  lemma ResponseKeepsBody(m: Response, mac1: Cookie, mac2: Cookie)
    ensures m.(mac1 := mac1, mac2 := mac2).Body() == m.Body()
  {
  }

  /** The same for a response. */
  lemma ResponseArrives(dh: Dh, d: Device, r: Remote, s: State, memory: Memory, m: Response, cookie: Option<Cookie>,
                        x: Inputs)
    requires m.Valid()
    ensures var data := SignedResponse(d.labelMac1Key, cookie, m).Wire();
            var t := ReceiveResponse(dh, d, r, s, m, x.alloc, x.sendOk, x.clock);
            NetworkRx(dh, d, r, s, memory, data, x) == (t, if t.sent != s.sent then Some(LatestPacket(t)) else None)
  {
    hide ReceiveResponse, LatestPacket, Kdf.Mac, ResponseOf, Response.Wire, Response.Body, RxInitiation, Receive,
         TypeOf;
    var n := SignedResponse(d.labelMac1Key, cookie, m);
    ResponseType(n);
    ResponseFields(n);
    ResponseKeepsBody(m, n.mac1, n.mac2);
    ResponseWithMacs(dh, d, r, s, m, n.mac1, n.mac2, x);
  }

  /** The same for whatever was encrypted last. */
  lemma PacketArrives(dh: Dh, d: Device, r: Remote, s: State, memory: Memory, from: State, x: Inputs)
    requires from.sent != []
    ensures NetworkRx(dh, d, r, s, memory, LatestPacket(from), x)
         == (Receive(s, LatestPacket(from), x.alloc, x.destOk, x.clock), None)
  {
    hide Receive, RxInitiation, RxResponse, Packet, TransportData.Wire, TypeOf;
    PacketShape(from.sent[|from.sent| - 1]);
  }

  lemma PacketShape(r: Sent)
    ensures TypeOf(Packet(r).Wire()) == TransportMessage
  {
    hide TypeOf, TransportData.Wire;
    assert Packet(r).Valid();
    PacketType(Packet(r));
  }

  // The whole exchange

  /** The hypotheses about the clocks: the timestamp is new and the initiation not rate
      limited, and no session expires while a message is processed. */
  predicate InTime(memory: Memory, timestamp: Timestamp, answering: Inputs, completing: Inputs, promoting: Inputs) {
    && Accepts(memory, Attempt(timestamp, answering.now))
    && !Expired(completing.clock(0), completing.clock(3), REJECT_AFTER_TIME)
    && !Expired(promoting.clock(0), answering.now, REJECT_AFTER_TIME)
  }

  /** A handshake over a network that delivers its three datagrams unaltered connects two
      ends configured for each other, whatever sessions and cookies either had before: the
      responder answers the initiation if it is newer than all before and not rate limited,
      the answer completes the handshake and causes a keepalive, and the keepalive moves the
      responder to the new session. */
  lemma TunnelEstablished(dh: Dh, da: Device, ra: Remote, db: Device, rb: Remote, a: State, b: State,
                          memoryA: Memory, memoryB: Memory, timestamp: Timestamp,
                          starting: Inputs, answering: Inputs, completing: Inputs, promoting: Inputs)
    requires Commutes(dh) && Paired(dh, da, ra, db, rb) && SlotsOk(b) && Unique(b, answering.index)
    requires InTime(memoryB, timestamp, answering, completing, promoting) && completing.alloc && promoting.alloc
    ensures var (a1, p1) := StartHandshake(dh, da, ra, a, timestamp, starting);
            p1.Some? ==>
              var (b1, p2) := NetworkRx(dh, db, rb, b, memoryB, p1.value, answering);
              p2.Some? ==>
                var (a2, p3) := NetworkRx(dh, da, ra, a1, memoryA, p2.value, completing);
                p3.Some? &&
                  var (b2, p4) := NetworkRx(dh, db, rb, b1, memoryB, p3.value, promoting);
                  Connected(a2, b2, b.curr, promoting.clock(1)) && p4.None?
  {
    hide Commutes, Unique, SlotsOk, Connected, ReceiveInitiation, ReceiveResponse, BeginExchange, NetworkRx,
         LatestPacket, SignedInitiation, SignedResponse, Initiation.Wire, Response.Wire, Receive, Paired,
         Expired, Accepts;
    var x, y, z := starting, answering, completing;
    var (a1, m1) := BeginExchange(dh, da, ra, a, x.ephemeral, timestamp, x.index, x.scratch, x.alloc, x.now);
    if m1.Some? && x.alloc {
      LabelsAgree(dh, da, ra, db, rb);
      BeginValid(dh, da, ra, a, timestamp, x);
      AnswerValid(dh, db, rb, b, memoryB, m1.value, y);
      ExchangeConnects(dh, da, ra, db, rb, a, b, memoryB, x.ephemeral, y.ephemeral, timestamp, x.index, y.index,
                       x.scratch, y.scratch, x.alloc, z.sendOk, promoting.destOk, x.now, y.now,
                       z.clock, promoting.clock);
      InitiationArrives(dh, db, rb, b, memoryB, m1.value, x.cookie, y);
      var (b1, m2) := ReceiveInitiation(dh, db, rb, b, memoryB, m1.value, y.ephemeral, y.index, y.scratch, y.now);
      if m2.Some? && y.alloc {
        ResponseArrives(dh, da, ra, a1, memoryA, m2.value, y.cookie, z);
        var a2 := ReceiveResponse(dh, da, ra, a1, m2.value, z.alloc, z.sendOk, z.clock);
        PacketArrives(dh, db, rb, b1, memoryB, a2, promoting);
      }
    }
  }

  lemma BeginValid(dh: Dh, d: Device, r: Remote, s: State, timestamp: Timestamp, x: Inputs)
    ensures var m := BeginExchange(dh, d, r, s, x.ephemeral, timestamp, x.index, x.scratch, x.alloc, x.now).1;
            m.Some? ==> m.value.Valid()
  {
    hide Initiate, Opening, Identified;
  }

  lemma AnswerValid(dh: Dh, d: Device, r: Remote, s: State, memory: Memory, m: Initiation, x: Inputs)
    ensures var a := ReceiveInitiation(dh, d, r, s, memory, m, x.ephemeral, x.index, x.scratch, x.now).1;
            a.Some? ==> a.value.Valid()
  {
    hide Process, Accepts, Respond, Answering;
  }

  lemma LabelsAgree(dh: Dh, da: Device, ra: Remote, db: Device, rb: Remote)
    requires Paired(dh, da, ra, db, rb)
    ensures ra.labelMac1Key == db.labelMac1Key && rb.labelMac1Key == da.labelMac1Key
  {
    hide MacKey;
  }

  /** When the first two datagrams are sent: exactly when there is memory for them and no
      scalar multiplication of the side that is about to send yields zero. */
  lemma DatagramsSent(dh: Dh, da: Device, ra: Remote, db: Device, rb: Remote, a: State, b: State, memory: Memory,
                      timestamp: Timestamp, x: Inputs, y: Inputs)
    requires Commutes(dh) && Paired(dh, da, ra, db, rb) && Accepts(memory, Attempt(timestamp, y.now))
    ensures var p1 := StartHandshake(dh, da, ra, a, timestamp, x).1;
            && (p1.Some? <==> x.alloc && Usable(dh, x.ephemeral, ra.publicKey))
            && (p1.Some? ==>
                  var p2 := NetworkRx(dh, db, rb, b, memory, p1.value, y).1;
                  p2.Some? <==>
                  && y.alloc && Usable(dh, y.ephemeral, rb.publicKey)
                  && dh(y.ephemeral, dh(x.ephemeral, BASE_POINT)) != ZERO_KEY)
  {
    hide Commutes, ReceiveInitiation, BeginExchange, NetworkRx, SignedInitiation, SignedResponse, Initiation.Wire,
         Response.Wire, Paired, Accepts, Usable;
    LabelsAgree(dh, da, ra, db, rb);
    ExchangeSucceeds(dh, da, ra, db, rb, a, b, memory, x.ephemeral, y.ephemeral, timestamp, x.index, y.index,
                     x.scratch, y.scratch, x.alloc, x.now, y.now);
    var m1 := BeginExchange(dh, da, ra, a, x.ephemeral, timestamp, x.index, x.scratch, x.alloc, x.now).1;
    if m1.Some? && x.alloc {
      BeginValid(dh, da, ra, a, timestamp, x);
      InitiationArrives(dh, db, rb, b, memory, m1.value, x.cookie, y);
    }
  }

  // The first reply

  lemma StartHandshakeSlots(dh: Dh, d: Device, r: Remote, s: State, timestamp: Timestamp, x: Inputs)
    requires SlotsOk(s) && Unique(s, x.index)
    ensures SlotsOk(StartHandshake(dh, d, r, s, timestamp, x).0)
  {
    hide Create, Initiate, SlotsOk, Unique;
    match Create(dh, d, r, s.handshake, x.ephemeral, timestamp, x.index)
    case None => InitiateSlots(s, false, x.index, x.scratch, x.alloc, x.now);
    case Some((m, h)) => InitiateSlots(s, true, x.index, h, x.alloc, x.now);
  }

  lemma ReceiveInitiationSlots(dh: Dh, d: Device, r: Remote, s: State, memory: Memory, m: Initiation, x: Inputs)
    requires SlotsOk(s) && Unique(s, x.index)
    ensures SlotsOk(ReceiveInitiation(dh, d, r, s, memory, m, x.ephemeral, x.index, x.scratch, x.now).0)
  {
    hide Process, Answer, Accepts, Respond, SlotsOk, Unique;
    if m.Valid() {
      match Process(dh, d, r, s.handshake, m)
      case None =>
      case Some((timestamp, h)) =>
        match Answer(dh, r, h, x.ephemeral, x.index)
        case None => RespondSlots(s, m.sender, false, x.index, x.scratch, x.now);
        case Some((_, done)) => RespondSlots(s, m.sender, true, x.index, done, x.now);
    }
  }

  lemma ReceiveResponseSlots(dh: Dh, d: Device, r: Remote, s: State, m: Response, x: Inputs)
    requires SlotsOk(s)
    ensures SlotsOk(ReceiveResponse(dh, d, r, s, m, x.alloc, x.sendOk, x.clock))
  {
    hide Finish, Complete, SlotsOk;
    if m.Valid() {
      match Finish(dh, d, r, s.handshake, m)
      case None => CompleteSlots(s, m.receiver, m.sender, false, IDLE, x.alloc, x.sendOk, x.clock);
      case Some(h) => CompleteSlots(s, m.receiver, m.sender, true, h, x.alloc, x.sendOk, x.clock);
    }
  }

  /** Every datagram keeps the slot invariant. */
  lemma NetworkRxSlots(dh: Dh, d: Device, r: Remote, s: State, memory: Memory, data: seq<byte>, x: Inputs)
    requires SlotsOk(s) && (TypeOf(data) == HandshakeInitiation ==> Unique(s, x.index))
    ensures SlotsOk(NetworkRx(dh, d, r, s, memory, data, x).0)
  {
    hide SlotsOk, Unique, ReceiveInitiation, ReceiveResponse, Data, Kdf.Mac, InitiationOf, ResponseOf, LatestPacket,
         Decrypted, SignedResponse, Response.Wire;
    match TypeOf(data)
    case HandshakeInitiation => ReceiveInitiationSlots(dh, d, r, s, memory, InitiationOf(data), x);
    case HandshakeResponse => ReceiveResponseSlots(dh, d, r, s, ResponseOf(data), x);
    case TransportMessage =>
      if |data| < TWO32 {
        DataSlots(s, ReceiverOf(data), CounterOf(data), x.alloc, Decrypted(s, data), x.destOk, x.clock);
      }
    case _ =>
  }

  /** No datagram causes an initiation. */
  lemma CausedType(dh: Dh, d: Device, r: Remote, s: State, memory: Memory, data: seq<byte>, x: Inputs)
    ensures var p := NetworkRx(dh, d, r, s, memory, data, x).1; p.Some? ==> TypeOf(p.value) != HandshakeInitiation
  {
    hide ReceiveInitiation, ReceiveResponse, Receive, Kdf.Mac, InitiationOf, ResponseOf, SignedResponse, Packet,
         Response.Wire, TransportData.Wire;
    match TypeOf(data)
    case HandshakeInitiation =>
      var m := InitiationOf(data);
      AnswerValid(dh, d, r, s, memory, m, x);
      var a := ReceiveInitiation(dh, d, r, s, memory, m, x.ephemeral, x.index, x.scratch, x.now).1;
      if a.Some? { SignedType(r.labelMac1Key, x.cookie, a.value); }
    case HandshakeResponse =>
      var t := ReceiveResponse(dh, d, r, s, ResponseOf(data), x.alloc, x.sendOk, x.clock);
      if t.sent != [] { PacketShape(t.sent[|t.sent| - 1]); }
    case _ =>
  }

  lemma SignedType(labelMac1Key: Key, cookie: Option<Cookie>, m: Response)
    requires m.Valid()
    ensures TypeOf(SignedResponse(labelMac1Key, cookie, m).Wire()) == HandshakeResponse
  {
    hide Response.Wire, TypeOf;
    ResponseType(SignedResponse(labelMac1Key, cookie, m));
  }

  /** How the responder b replies to an initiator a after the keepalive was heard. */
  predicate Replies(a: State, b: State, before: Keypair, heard: u32, payload: Option<seq<byte>>, alloc: bool,
                    sendOk: bool, clock: Clock) {
    hide Padded, Output, Reaches, LatestPacket, Expired;
    var k := if heard != 0 then b.curr else before;
    var t := Output(b, payload, alloc, sendOk, clock);
    if !CanSend(k, alloc, clock) then t.sent == b.sent
    else
      && t.sent == b.sent + [Sent(k.session, k.sendingKey, k.sendingCounter, k.remoteIndex, Padded(payload))]
      && (heard != 0 ==> Reaches(LatestPacket(t), a, Curr, k.sendingCounter, Padded(payload)))
  }

  lemma ConnectedReplies(a: State, b: State, before: Keypair, heard: u32, payload: Option<seq<byte>>,
                         alloc: bool, sendOk: bool, clock: Clock)
    requires Connected(a, b, before, heard) && SlotsOk(a) && (payload.Some? ==> |payload.value| < 0x1_0000)
    ensures Replies(a, b, before, heard, payload, alloc, sendOk, clock)
  {
    hide Padded, Output, Reaches, LatestPacket, Expired, SlotsOk, CanSend;
    TransmitsExactly(b, payload, alloc, sendOk, clock);
    if CanSend(Get(b, SendingSlot(b)), alloc, clock) {
      OutputRecord(b, payload, alloc, sendOk, clock);
      if heard != 0 { TransportRoundTrip(b, a, Curr, payload, alloc, sendOk, clock); }
    }
  }

  /** The first reply after an exchange in which the keepalive is the third datagram. */
  predicate ExchangeReplies(dh: Dh, da: Device, ra: Remote, db: Device, rb: Remote, a: State, b: State,
                            memoryA: Memory, memoryB: Memory, timestamp: Timestamp, starting: Inputs,
                            answering: Inputs, completing: Inputs, promoting: Inputs, payload: Option<seq<byte>>,
                            alloc: bool, sendOk: bool, clock: Clock) {
    hide StartHandshake, NetworkRx, Replies;
    var (a1, p1) := StartHandshake(dh, da, ra, a, timestamp, starting);
    p1.Some? ==>
      var (b1, p2) := NetworkRx(dh, db, rb, b, memoryB, p1.value, answering);
      p2.Some? ==>
        var (a2, p3) := NetworkRx(dh, da, ra, a1, memoryA, p2.value, completing);
        p3.Some? &&
          var b2 := NetworkRx(dh, db, rb, b1, memoryB, p3.value, promoting).0;
          Replies(a2, b2, b.curr, promoting.clock(1), payload, alloc, sendOk, clock)
  }

  /** After every exchange of three datagrams delivered unaltered: if the keepalive was heard at
      a tick other than zero, the responder's next packet uses the new session and reaches the
      initiator's current keypair; heard at tick zero, it goes out under the session that was
      current before the exchange, or not at all if that one cannot be used. */
  lemma ReplyAfterExchange(dh: Dh, da: Device, ra: Remote, db: Device, rb: Remote, a: State, b: State,
                           memoryA: Memory, memoryB: Memory, timestamp: Timestamp,
                           starting: Inputs, answering: Inputs, completing: Inputs, promoting: Inputs,
                           payload: Option<seq<byte>>, alloc: bool, sendOk: bool, clock: Clock)
    requires Commutes(dh) && Paired(dh, da, ra, db, rb) && SlotsOk(b) && Unique(b, answering.index)
    requires InTime(memoryB, timestamp, answering, completing, promoting) && completing.alloc && promoting.alloc
    requires SlotsOk(a) && Unique(a, starting.index) && (payload.Some? ==> |payload.value| < 0x1_0000)
    ensures ExchangeReplies(dh, da, ra, db, rb, a, b, memoryA, memoryB, timestamp, starting, answering, completing,
                            promoting, payload, alloc, sendOk, clock)
  {
    hide Commutes, Unique, SlotsOk, Connected, StartHandshake, NetworkRx, Paired, Expired, Accepts, Replies;
    TunnelEstablished(dh, da, ra, db, rb, a, b, memoryA, memoryB, timestamp, starting, answering, completing,
                      promoting);
    var (a1, p1) := StartHandshake(dh, da, ra, a, timestamp, starting);
    if p1.Some? {
      var (b1, p2) := NetworkRx(dh, db, rb, b, memoryB, p1.value, answering);
      if p2.Some? {
        var (a2, p3) := NetworkRx(dh, da, ra, a1, memoryA, p2.value, completing);
        var b2 := NetworkRx(dh, db, rb, b1, memoryB, p3.value, promoting).0;
        StartHandshakeSlots(dh, da, ra, a, timestamp, starting);
        CausedType(dh, db, rb, b, memoryB, p1.value, answering);
        NetworkRxSlots(dh, da, ra, a1, memoryA, p2.value, completing);
        ConnectedReplies(a2, b2, b.curr, promoting.clock(1), payload, alloc, sendOk, clock);
      }
    }
  }

  /** All three datagrams are sent, and then the responder's next packet goes out under the
      session that was current before. */
  predicate SendsUnderOld(dh: Dh, da: Device, ra: Remote, db: Device, rb: Remote, a: State, b: State,
                          memoryA: Memory, memoryB: Memory, timestamp: Timestamp, starting: Inputs, answering: Inputs,
                          completing: Inputs, promoting: Inputs, payload: Option<seq<byte>>, sendOk: bool,
                          clock: Clock) {
    hide StartHandshake, NetworkRx, Output, Padded;
    var k := b.curr;
    var (a1, p1) := StartHandshake(dh, da, ra, a, timestamp, starting);
    && p1.Some?
    && var (b1, p2) := NetworkRx(dh, db, rb, b, memoryB, p1.value, answering);
    && p2.Some?
    && var p3 := NetworkRx(dh, da, ra, a1, memoryA, p2.value, completing).1;
    && p3.Some?
    && var b2 := NetworkRx(dh, db, rb, b1, memoryB, p3.value, promoting).0;
    Output(b2, payload, true, sendOk, clock).sent
    == b2.sent + [Sent(k.session, k.sendingKey, k.sendingCounter, k.remoteIndex, Padded(payload))]
  }

  /** Such replies under the old session exist: with an operation that meets all hypotheses, no
      exchange fails, and whenever the responder could send under its old session, its reply to
      a keepalive heard at tick zero goes there. */
  lemma FallsBack(da: Device, ra: Remote, db: Device, rb: Remote, a: State, b: State,
                  memoryA: Memory, memoryB: Memory, timestamp: Timestamp,
                  starting: Inputs, answering: Inputs, completing: Inputs, promoting: Inputs,
                  payload: Option<seq<byte>>, sendOk: bool, clock: Clock)
    requires starting.ephemeral != ZERO_KEY && answering.ephemeral != ZERO_KEY && promoting.clock(1) == 0
    requires starting.alloc && answering.alloc && completing.alloc && promoting.alloc
    requires Paired(AddBytes, da, ra, db, rb) && SlotsOk(a) && Unique(a, starting.index)
    requires SlotsOk(b) && Unique(b, answering.index) && (payload.Some? ==> |payload.value| < 0x1_0000)
    requires InTime(memoryB, timestamp, answering, completing, promoting) && CanSend(b.curr, true, clock)
    ensures SendsUnderOld(AddBytes, da, ra, db, rb, a, b, memoryA, memoryB, timestamp, starting, answering, completing,
                          promoting, payload, sendOk, clock)
  {
    hide AddBytes, Commutes, Unique, SlotsOk, StartHandshake, NetworkRx, Paired, Expired, Accepts, CanSend, Output,
         Padded;
    HypothesesMeet();
    PublicKeys(da, ra, db, rb);
    AddNonzero(starting.ephemeral, db.privateKey);
    AddNonzero(answering.ephemeral, da.privateKey);
    AddNonzero(answering.ephemeral, starting.ephemeral);
    DatagramsSent(AddBytes, da, ra, db, rb, a, b, memoryB, timestamp, starting, answering);
    ReplyAfterExchange(AddBytes, da, ra, db, rb, a, b, memoryA, memoryB, timestamp, starting, answering, completing,
                       promoting, payload, true, sendOk, clock);
  }

  lemma PublicKeys(da: Device, ra: Remote, db: Device, rb: Remote)
    requires Paired(AddBytes, da, ra, db, rb)
    ensures ra.publicKey == AddBytes(db.privateKey, BASE_POINT) && rb.publicKey == AddBytes(da.privateKey, BASE_POINT)
  {
    hide AddBytes, MacKey;
  }

  // Everything else is ignored

  /** A handshake message whose first MAC is not the one under this device's key, a datagram of no
      type, and, as far as the sessions are concerned, a cookie reply change nothing and cause
      nothing. */
  lemma UnsignedIgnored(dh: Dh, d: Device, r: Remote, s: State, memory: Memory, data: seq<byte>, x: Inputs)
    requires match TypeOf(data)
             case HandshakeInitiation => data[116..132] != Kdf.Mac(d.labelMac1Key, data[..116])
             case HandshakeResponse => data[60..76] != Kdf.Mac(d.labelMac1Key, data[..60])
             case TransportMessage => false
             case _ => true
    ensures NetworkRx(dh, d, r, s, memory, data, x) == (s, None)
  {
    hide ReceiveInitiation, ReceiveResponse, Kdf.Mac, LatestPacket, Load32;
  }

  /** An initiation that is not authentic, or is stale, or comes too early changes nothing. */
  lemma StaleIgnored(dh: Dh, d: Device, r: Remote, s: State, memory: Memory, m: Initiation, x: Inputs)
    requires m.Valid()
    requires var p := Process(dh, d, r, s.handshake, m); p.None? || !Accepts(memory, Attempt(p.value.0, x.now))
    ensures ReceiveInitiation(dh, d, r, s, memory, m, x.ephemeral, x.index, x.scratch, x.now) == (s, None)
  {
    hide Process, Accepts, Respond;
  }
}
