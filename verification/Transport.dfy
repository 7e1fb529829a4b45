/** Transport packets between two peers with mirrored keypairs: wireguardif_output_to_peer
    on one end, wireguardif_network_rx and wireguardif_process_data_message on the other. */
module Transport {
  import opened Bits
  import opened Bytes
  import opened Wrappers
  import opened Messages
  import opened Keypairs
  import opened Session
  import opened SessionSafety
  import opened Noise
  import Aead
  import AeadReference
  import Kdf

  /** The datagram of one use of the cipher. */
  function Packet(r: Sent): TransportData {
    TransportData(r.receiver, r.counter, Aead.Seal(r.key, r.counter, [], r.plaintext))
  }

  function ReceiverOf(data: seq<byte>): u32
    requires |data| >= 16
  {
    FromLEBound(data[4..8]);
    assert Pow256(4) == 0x1_0000_0000;
    FromLE(data[4..8])
  }

  function CounterOf(data: seq<byte>): u64
    requires |data| >= 16
  {
    FromLEBound(data[8..16]);
    assert Pow256(4) == 0x1_0000_0000;
    assert Pow256(8) == 0x1_0000_0000_0000_0000;
    FromLE(data[8..16])
  }

  /** wireguard_decrypt_packet under the keypair that the receiver index selects. */
  function Decrypted(s: State, data: seq<byte>): Option<seq<byte>> {
    if !(16 <= |data| < TWO32) then None
    else
      match Lookup(s, ReceiverOf(data))
      case None => None
      case Some(slot) => Aead.Open(Get(s, slot).receivingKey, CounterOf(data), [], data[16..])
  }

  /** wireguardif_network_rx on a transport message (a datagram is shorter than 2^16). */
  function Receive(s: State, data: seq<byte>, alloc: bool, destOk: bool, clock: Clock): State {
    if TypeOf(data) != TransportMessage || |data| >= TWO32 then s
    else Data(s, ReceiverOf(data), CounterOf(data), alloc, Decrypted(s, data), destOk, clock)
  }

  /** The datagram of the latest use of the cipher. */
  function LatestPacket(s: State): seq<byte> {
    if s.sent == [] then [] else Packet(s.sent[|s.sent| - 1]).Wire()
  }

  /** The datagram selects the keypair in a slot of b and decrypts to the plaintext. */
  predicate Reaches(data: seq<byte>, b: State, slot: Slot, counter: u64, plaintext: seq<byte>) {
    && 32 <= |data| < TWO32 && TypeOf(data) == TransportMessage
    && ReceiverOf(data) == Get(b, slot).localIndex && CounterOf(data) == counter
    && Lookup(b, ReceiverOf(data)) == Some(slot) && Decrypted(b, data) == Some(plaintext)
  }

  /** The payload is padded by fewer than 16 zero bytes to a multiple of 16. */
  lemma PaddedPayload(payload: Option<seq<byte>>)
    ensures var p := Padded(payload); var q := if payload.Some? then payload.value else [];
            q <= p && |p| - |q| < 16 && |p| % 16 == 0 && p[|q|..] == Zeros(|p| - |q|)
  {
    if payload.Some? {
      var q := payload.value;
      assert |Padded(payload)| == |q| + (16 - |q| % 16) % 16;
    }
  }

  /** A packet of the current sending slot was handed to the cipher. */
  predicate Transmits(s: State, payload: Option<seq<byte>>, alloc: bool, sendOk: bool, clock: Clock) {
    Output(s, payload, alloc, sendOk, clock).sent != s.sent
  }

  /** The keypair may be used for sending now, and there is memory for the packet. */
  predicate CanSend(k: Keypair, alloc: bool, clock: Clock) {
    && alloc && k.valid && (k.initiator || k.lastRx != 0)
    && !Expired(clock(0), k.millis, REJECT_AFTER_TIME) && k.sendingCounter < REJECT_AFTER_MESSAGES
  }

  lemma TransmitsExactly(s: State, payload: Option<seq<byte>>, alloc: bool, sendOk: bool, clock: Clock)
    ensures Transmits(s, payload, alloc, sendOk, clock) <==> CanSend(Get(s, SendingSlot(s)), alloc, clock)
  {
    hide Padded, Expired;
  }

  lemma OutputRecord(s: State, payload: Option<seq<byte>>, alloc: bool, sendOk: bool, clock: Clock)
    requires Transmits(s, payload, alloc, sendOk, clock)
    ensures var k := Get(s, SendingSlot(s)); var t := Output(s, payload, alloc, sendOk, clock);
            && t.sent == s.sent + [Sent(k.session, k.sendingKey, k.sendingCounter, k.remoteIndex, Padded(payload))]
            && SameIdentity(Get(t, SendingSlot(s)), k) && Get(t, SendingSlot(s)).sendingKey == k.sendingKey
            && Get(t, SendingSlot(s)).receivingKey == k.receivingKey
            && Get(t, SendingSlot(s)).remoteIndex == k.remoteIndex
  {
    hide Padded, Expired, Transmitted, SameIdentity;
    var slot := SendingSlot(s);
    if Get(s, slot).sendingCounter < REJECT_AFTER_MESSAGES {
      var u := Encrypt(s, slot, Padded(payload));
      assert SameIdentity(Get(u, slot), Get(s, slot)) by { EncryptIdentity(s, slot, Padded(payload)); }
      TransmittedRecord(u, s, slot, sendOk, clock);
    }
  }

  lemma EncryptIdentity(s: State, slot: Slot, plaintext: seq<byte>)
    requires Get(s, slot).sendingCounter < REJECT_AFTER_MESSAGES
    ensures SameIdentity(Get(Encrypt(s, slot, plaintext), slot), Get(s, slot))
  {
  }

  lemma TransmittedRecord(u: State, s: State, slot: Slot, sendOk: bool, clock: Clock)
    requires SameIdentity(Get(u, slot), Get(s, slot))
    ensures var t := Transmitted(u, slot, sendOk, clock);
            && t.sent == u.sent && SameIdentity(Get(t, slot), Get(s, slot))
            && Get(t, slot).sendingKey == Get(u, slot).sendingKey
            && Get(t, slot).receivingKey == Get(u, slot).receivingKey
            && Get(t, slot).remoteIndex == Get(u, slot).remoteIndex
  {
    hide Expired;
  }

  /** What the receiving end makes of a datagram sealed under a mirrored keypair. */
  lemma MirrorDecrypts(k: Keypair, b: State, slot: Slot, r: Sent)
    requires SlotsOk(b) && Mirrored(k, Get(b, slot)) && |r.plaintext| < 0x1000_0000
    requires r.key == k.sendingKey && r.receiver == k.remoteIndex
    ensures Reaches(Packet(r).Wire(), b, slot, r.counter, r.plaintext)
  {
    TransportFields(Packet(r));
    PacketType(Packet(r));
    hide Aead.Seal, Aead.Open, FromLE, ToLE, SlotsOk, Lookup;
    LookupExact(b, Get(b, slot).localIndex, slot);
    Aead.OpenSeal(r.key, r.counter, [], r.plaintext);
  }

  lemma PacketType(t: TransportData)
    requires t.Valid()
    ensures TypeOf(t.Wire()) == TransportMessage && |t.Wire()| == 16 + |t.encPacket|
  {
    hide ToLE;
  }

  /** Transport round trip: whatever wireguardif_output_to_peer encrypts is classified as
      transport data, selects the mirror keypair and decrypts to the padded payload. */
  lemma TransportRoundTrip(a: State, b: State, slot: Slot, payload: Option<seq<byte>>, alloc: bool, sendOk: bool,
                           clock: Clock)
    requires SlotsOk(b) && Mirrored(Get(a, SendingSlot(a)), Get(b, slot))
    requires Transmits(a, payload, alloc, sendOk, clock) && (payload.Some? ==> |payload.value| < 0x1_0000)
    ensures Reaches(LatestPacket(Output(a, payload, alloc, sendOk, clock)), b, slot,
                    Get(a, SendingSlot(a)).sendingCounter, Padded(payload))
  {
    hide Packet, Output, Padded, Reaches, SlotsOk;
    OutputRecord(a, payload, alloc, sendOk, clock);
    PaddedPayload(payload);
    var k := Get(a, SendingSlot(a));
    MirrorDecrypts(k, b, slot, Sent(k.session, k.sendingKey, k.sendingCounter, k.remoteIndex, Padded(payload)));
  }

  /** The initiator's keepalive after the handshake promotes the responder's next slot, and
      then both current keypairs mirror each other. */
  lemma KeepalivePromotes(a: State, b: State, alloc: bool, sendOk: bool, clockA: Clock, clockB: Clock, destOk: bool)
    requires SlotsOk(b) && Mirrored(a.curr, b.next) && a.curr.initiator
    requires Transmits(a, None, alloc, sendOk, clockA)
    requires !Expired(clockB(0), b.next.millis, REJECT_AFTER_TIME)
    ensures var s := Output(a, None, alloc, sendOk, clockA);
            var t := Receive(b, LatestPacket(s), true, destOk, clockB);
            && t.curr == b.next.(lastRx := clockB(1)) && t.prev == b.curr && t.next == DESTROYED
            && t.receipts == b.receipts && Mirrored(s.curr, t.curr)
  {
    hide Packet, Output, Reaches, SlotsOk, Expired, Receive;
    OutputRecord(a, None, alloc, sendOk, clockA);
    var k := a.curr;
    var r := Sent(k.session, k.sendingKey, k.sendingCounter, k.remoteIndex, []);
    MirrorDecrypts(k, b, Next, r);
    var data := Packet(r).Wire();
    ReceivedKeepalive(b, data, destOk, clockB);
  }

  lemma ReceivedKeepalive(b: State, data: seq<byte>, destOk: bool, clock: Clock)
    requires SlotsOk(b) && b.next.valid && !Expired(clock(0), b.next.millis, REJECT_AFTER_TIME)
    requires exists counter :: Reaches(data, b, Next, counter, [])
    ensures var t := Receive(b, data, true, destOk, clock);
            && t.curr == b.next.(lastRx := clock(1)) && t.prev == b.curr && t.next == DESTROYED
            && t.receipts == b.receipts
  {
    hide TypeOf, Lookup, Decrypted, ReceiverOf, CounterOf, Expired;
    NextUsable(b);
    hide SlotsOk;
  }

  lemma NextUsable(b: State)
    requires SlotsOk(b) && b.next.valid
    ensures b.next.receivingValid && b.next.sendingCounter == 0
  {
  }

  /** A finished handshake puts the mirrored keypairs where the keepalive needs them. */
  lemma SessionsMirror(a: State, b: State, nowA: u32, nowB: u32)
    requires Mirrored(NewKeypair(a.handshake, true, nowA, |a.roles|), NewKeypair(b.handshake, false, nowB, |b.roles|))
    ensures Mirrored(StartSession(a, true, nowA).curr, StartSession(b, false, nowB).next)
    ensures StartSession(a, true, nowA).curr.initiator && StartSession(b, false, nowB).curr == b.curr
  {
    hide Kdf.Tau;
  }

  /** A transport packet as section 5.4.6 of the WireGuard paper writes it: the key and the counter
      of the record, no associated data, the payload padded with zeros. */
  lemma PacketBytes(r: Sent)
    ensures Packet(r).Wire() == [4, 0, 0, 0] + ToLE(4, r.receiver) + ToLE(8, r.counter)
                                + AeadReference.AeadEncrypt([], r.key, r.counter, r.plaintext)
  {
    hide Aead.Seal, AeadReference.AeadEncrypt, ToLE;
    AeadReference.SealIsStandard(r.key, r.counter, [], r.plaintext);
  }
}
