/** The whole exchange between two peers: the session steps of wireguardif.c fed with the
    handshake messages that the other end really computes. */
module Tunnel {
  import opened Bytes
  import opened Wrappers
  import opened Messages
  import opened Keypairs
  import opened Session
  import opened SessionSafety
  import opened Noise
  import opened Transport
  import opened Timestamps
  import Kdf

  /** The state and message of wireguard_start_handshake, before the MACs. `scratch` holds
      whatever secrets a failure leaves behind. */
  function BeginExchange(dh: Dh, d: Device, r: Remote, s: State, ephemeral: Key, timestamp: Timestamp, index: u32,
                          scratch: Handshake, alloc: bool, now: u32): (State, Option<Initiation>) {
    hide Create, Initiate;
    match Create(dh, d, r, s.handshake, ephemeral, timestamp, index)
    case None => (Initiate(s, false, index, scratch, alloc, now), None)
    case Some((m, h)) => (Initiate(s, true, index, h, alloc, now), Some(m))
  }

  /** An initiation whose mac1 is right: nothing happens unless it is authentic, newer than all
      accepted before and not rate limited. */
  function ReceiveInitiation(dh: Dh, d: Device, r: Remote, s: State, memory: Memory, m: Initiation, ephemeral: Key,
                             index: u32, scratch: Handshake, now: u32): (State, Option<Response>) {
    hide Process, Answer, Accepts, Respond;
    if !m.Valid() then (s, None)
    else
      match Process(dh, d, r, s.handshake, m)
      case None => (s, None)
      case Some((timestamp, h1)) =>
        if !Accepts(memory, Attempt(timestamp, now)) then (s, None)
        else
          match Answer(dh, r, h1, ephemeral, index)
          case None => (Respond(s, m.sender, false, index, scratch, now), None)
          case Some((response, h2)) => (Respond(s, m.sender, true, index, h2, now), Some(response))
  }

  /** A response whose mac1 is right. */
  function ReceiveResponse(dh: Dh, d: Device, r: Remote, s: State, m: Response, alloc: bool, sendOk: bool,
                           clock: Clock): State {
    hide Finish, Complete;
    if !m.Valid() then s
    else
      match Finish(dh, d, r, s.handshake, m)
      case None => Complete(s, m.receiver, m.sender, false, IDLE, alloc, sendOk, clock)
      case Some(h) => Complete(s, m.receiver, m.sender, true, h, alloc, sendOk, clock)
  }

  /** The initiator's step stores the handshake that its message belongs to. */
  lemma InitiateStores(dh: Dh, d: Device, r: Remote, s: State, ephemeral: Key, timestamp: Timestamp,
                       index: u32, m: Initiation, h: Handshake, alloc: bool, now: u32)
    requires Create(dh, d, r, s.handshake, ephemeral, timestamp, index) == Some((m, h))
    ensures Initiate(s, true, index, h, alloc, now).handshake == h
  {
    hide Opening, Identified;
  }

  /** The responder's step starts a session from its handshake record. */
  lemma RespondStores(dh: Dh, d: Device, r: Remote, s: State, m1: Initiation, timestamp: Timestamp, h1: Handshake,
                      ephemeral: Key, index: u32, m2: Response, h2: Handshake, now: u32)
    requires m1.Valid() && Process(dh, d, r, s.handshake, m1) == Some((timestamp, h1))
    requires Answer(dh, r, h1, ephemeral, index) == Some((m2, h2))
    ensures Respond(s, m1.sender, true, index, h2, now) == StartSession(s.(handshake := h2), false, now)
  {
    hide Opening, Identified, Answering, StartSession;
  }

  /** The initiator's step on the response starts a session from the finished handshake and
      sends a keepalive under it. */
  lemma CompleteStores(dh: Dh, d: Device, r: Remote, s: State, m: Response, f: Handshake, alloc: bool, sendOk: bool,
                       clock: Clock)
    requires m.Valid() && m.receiver == s.handshake.localIndex && Finish(dh, d, r, s.handshake, m) == Some(f)
    ensures Complete(s, m.receiver, m.sender, true, f, alloc, sendOk, clock)
         == Output(StartSession(s.(handshake := f), true, clock(3)), None, alloc, sendOk, clock)
  {
    hide Answering, StartSession, Output;
  }

  /** The keepalive of a fresh session of the initiator is transmitted if there is memory for
      it and the session does not expire while the message is processed. */
  lemma FreshSessionTransmits(s: State, sendOk: bool, clock: Clock)
    requires !Expired(clock(0), clock(3), REJECT_AFTER_TIME)
    ensures Transmits(StartSession(s, true, clock(3)), None, true, sendOk, clock)
    ensures Output(StartSession(s, true, clock(3)), None, true, sendOk, clock).sent != []
  {
    hide Kdf.Tau, Expired;
  }

  /** Two connected ends: each current keypair mirrors the other, the responder has heard from
      the initiator at the given time and keeps the keypair it had in its previous slot. */
  predicate Connected(a: State, b: State, before: Keypair, heard: u32) {
    && Mirrored(a.curr, b.curr) && a.curr.initiator
    && b.curr.lastRx == heard && b.prev == before && b.next == DESTROYED
  }

  /** The keepalive under the initiator's new session connects it with a responder that has
      started its own. */
  predicate Connects(a: State, b: State, sendOk: bool, destOk: bool, nowB: u32, clockA: Clock, clockB: Clock) {
    hide StartSession, Output, Receive, LatestPacket, Connected;
    var s := Output(StartSession(a, true, clockA(3)), None, true, sendOk, clockA);
    Connected(s, Receive(StartSession(b, false, nowB), LatestPacket(s), true, destOk, clockB), b.curr, clockB(1))
  }

  /** The initiator's latest packet connects it with the responder. */
  predicate PacketConnects(a: State, b: State, destOk: bool, clockB: Clock, before: Keypair) {
    hide Receive, LatestPacket, Connected;
    Connected(a, Receive(b, LatestPacket(a), true, destOk, clockB), before, clockB(1))
  }

  predicate StartsOk(b: State, now: u32) {
    hide StartSession, SlotsOk;
    SlotsOk(StartSession(b, false, now))
  }

  /** The sessions that the two ends are about to start mirror each other. */
  predicate Agreed(a: State, b: State, nowA: u32, nowB: u32) {
    hide NewKeypair, Mirrored;
    Mirrored(NewKeypair(a.handshake, true, nowA, |a.roles|), NewKeypair(b.handshake, false, nowB, |b.roles|))
  }

  /** Both ends have just started mirrored sessions: the initiator's keepalive connects them. */
  lemma KeepaliveConnects(a: State, b: State, sendOk: bool, destOk: bool, nowB: u32, clockA: Clock, clockB: Clock)
    requires !Expired(clockA(0), clockA(3), REJECT_AFTER_TIME) && !Expired(clockB(0), nowB, REJECT_AFTER_TIME)
    requires Agreed(a, b, clockA(3), nowB) && StartsOk(b, nowB)
    ensures Connects(a, b, sendOk, destOk, nowB, clockA, clockB)
  {
    hide SlotsOk, Mirrored, Expired, Transmits, Output, Receive, LatestPacket, NewKeypair;
    SessionsMirror(a, b, clockA(3), nowB);
    FreshSessionTransmits(a, sendOk, clockA);
    StartedAt(b, nowB);
    KeepsRole(StartSession(a, true, clockA(3)), sendOk, clockA);
    hide StartSession;
    KeepalivePromotes(StartSession(a, true, clockA(3)), StartSession(b, false, nowB), true, sendOk, clockA, clockB,
                      destOk);
  }

  lemma StartedAt(s: State, now: u32)
    ensures StartSession(s, false, now).next.millis == now
  {
    hide Kdf.Tau;
  }

  lemma KeepsRole(s: State, sendOk: bool, clock: Clock)
    requires Transmits(s, None, true, sendOk, clock) && s.curr.initiator
    ensures Output(s, None, true, sendOk, clock).curr.initiator
  {
    hide Padded, Expired;
  }

  /** The reply direction of two connected ends: the responder's next packet uses the new
      session, and then reaches the initiator's current slot, if and only if the keepalive was
      heard at a tick other than zero. Heard at tick zero, the responder still counts as not
      having heard from the initiator and falls back to its previous session. */
  lemma ReplyExactly(a: State, b: State, before: Keypair, heard: u32, payload: Option<seq<byte>>,
                     alloc: bool, sendOk: bool, clock: Clock)
    requires Connected(a, b, before, heard) && SlotsOk(a) && SlotsOk(b)
    requires Transmits(b, payload, alloc, sendOk, clock) && (payload.Some? ==> |payload.value| < 0x1_0000)
    ensures var t := Output(b, payload, alloc, sendOk, clock);
            && |t.sent| == |b.sent| + 1
            && (t.sent[|b.sent|].session == b.curr.session <==> heard != 0)
            && (heard != 0 ==> Reaches(LatestPacket(t), a, Curr, b.curr.sendingCounter, Padded(payload)))
  {
    hide Padded, Output, Transmits, Reaches, LatestPacket;
    OutputRecord(b, payload, alloc, sendOk, clock);
    if heard != 0 {
      hide SlotsOk;
      TransportRoundTrip(b, a, Curr, payload, alloc, sendOk, clock);
    } else {
      SendingIsValid(b, payload, alloc, sendOk, clock);
    }
  }

  lemma SendingIsValid(s: State, payload: Option<seq<byte>>, alloc: bool, sendOk: bool, clock: Clock)
    requires Transmits(s, payload, alloc, sendOk, clock)
    ensures Get(s, SendingSlot(s)).valid
  {
    hide Padded, Expired;
  }

  /** The exchange of messages, without MACs and datagrams. */
  lemma ExchangeConnects(dh: Dh, da: Device, ra: Remote, db: Device, rb: Remote, a: State, b: State, memory: Memory,
                         ephemeralA: Key, ephemeralB: Key, timestamp: Timestamp, indexA: u32, indexB: u32,
                         scratchA: Handshake, scratchB: Handshake, initAlloc: bool, sendOk: bool, destOk: bool,
                         nowA: u32, nowB: u32, clockA: Clock, clockB: Clock)
    requires !Expired(clockA(0), clockA(3), REJECT_AFTER_TIME) && !Expired(clockB(0), nowB, REJECT_AFTER_TIME)
    requires Accepts(memory, Attempt(timestamp, nowB)) && SlotsOk(b) && Unique(b, indexB)
    requires Commutes(dh) && Paired(dh, da, ra, db, rb)
    ensures var (a1, m1) := BeginExchange(dh, da, ra, a, ephemeralA, timestamp, indexA, scratchA, initAlloc, nowA);
            m1.Some? ==>
              var (b1, m2) := ReceiveInitiation(dh, db, rb, b, memory, m1.value, ephemeralB, indexB, scratchB, nowB);
              m2.Some? ==>
                var a2 := ReceiveResponse(dh, da, ra, a1, m2.value, true, sendOk, clockA);
                && a2.sent != a1.sent && a2.sent != []
                && PacketConnects(a2, b1, destOk, clockB, b.curr)
  {
    hide Commutes, Paired, Create, Process, Answer, Finish, Mirrored, StartSession, Initiate, Respond, Complete,
         Output, Receive, LatestPacket, SlotsOk, Unique, Expired, Accepts, Connected, NewKeypair;
    if Create(dh, da, ra, a.handshake, ephemeralA, timestamp, indexA).Some? {
      var (m1, pendingA) := Create(dh, da, ra, a.handshake, ephemeralA, timestamp, indexA).value;
      HandshakeAgreement(dh, da, ra, db, rb, a.handshake, b.handshake, ephemeralA, ephemeralB, timestamp, indexA,
                         indexB, clockA(3), nowB, |a.roles|, |b.roles|);
      InitiateStores(dh, da, ra, a, ephemeralA, timestamp, indexA, m1, pendingA, initAlloc, nowA);
      var pendingB := Process(dh, db, rb, b.handshake, m1).value.1;
      if Answer(dh, rb, pendingB, ephemeralB, indexB).Some? {
        var (m2, doneB) := Answer(dh, rb, pendingB, ephemeralB, indexB).value;
        RespondStores(dh, db, rb, b, m1, timestamp, pendingB, ephemeralB, indexB, m2, doneB, nowB);
        var a1 := Initiate(a, true, indexA, pendingA, initAlloc, nowA);
        var f := Finish(dh, da, ra, pendingA, m2).value;
        CompleteStores(dh, da, ra, a1, m2, f, true, sendOk, clockA);
        RolesKept(a, indexA, pendingA, initAlloc, nowA);
        SlotsAfterRespond(b, m1.sender, indexB, doneB, nowB);
        FreshSessionTransmits(a1.(handshake := f), sendOk, clockA);
        StartKeepsLog(a1.(handshake := f), clockA(3));
        KeepaliveConnects(a1.(handshake := f), b.(handshake := doneB), sendOk, destOk, nowB, clockA, clockB);
      }
    }
  }

  lemma StartKeepsLog(s: State, now: u32)
    ensures StartSession(s, true, now).sent == s.sent
  {
    hide NewKeypair;
  }

  lemma RolesKept(s: State, index: u32, h: Handshake, alloc: bool, now: u32)
    ensures Initiate(s, true, index, h, alloc, now).roles == s.roles
  {
  }

  lemma SlotsAfterRespond(s: State, sender: u32, index: u32, h: Handshake, now: u32)
    requires SlotsOk(s) && Unique(s, index)
    ensures SlotsOk(Respond(s, sender, true, index, h, now))
  {
    hide SlotsOk, Respond;
    StepSlots(s, InitiationEvent(sender, true, index, h, now));
  }

  /** A private key whose products with the base point and with another point are usable. */
  predicate Usable(dh: Dh, private: Key, point: Key) {
    private != ZERO_KEY && dh(private, BASE_POINT) != ZERO_KEY && dh(private, point) != ZERO_KEY
  }

  /** When the initiation is sent and when it is answered: exactly when no scalar
      multiplication of the side that is about to send yields zero. */
  lemma ExchangeSucceeds(dh: Dh, da: Device, ra: Remote, db: Device, rb: Remote, a: State, b: State, memory: Memory,
                         ephemeralA: Key, ephemeralB: Key, timestamp: Timestamp, indexA: u32, indexB: u32,
                         scratchA: Handshake, scratchB: Handshake, initAlloc: bool, nowA: u32, nowB: u32)
    requires Commutes(dh) && Paired(dh, da, ra, db, rb) && Accepts(memory, Attempt(timestamp, nowB))
    ensures var m1 := BeginExchange(dh, da, ra, a, ephemeralA, timestamp, indexA, scratchA, initAlloc, nowA).1;
            && (m1.Some? <==> Usable(dh, ephemeralA, ra.publicKey))
            && (m1.Some? ==>
                  var m2 := ReceiveInitiation(dh, db, rb, b, memory, m1.value, ephemeralB, indexB, scratchB, nowB).1;
                  m2.Some? <==>
                  Usable(dh, ephemeralB, rb.publicKey) && dh(ephemeralB, dh(ephemeralA, BASE_POINT)) != ZERO_KEY)
  {
    hide Commutes, Paired, Create, Process, Answer, Initiate, Respond, Accepts, Usable;
    CreateSome(dh, da, ra, a.handshake, ephemeralA, timestamp, indexA);
    if Create(dh, da, ra, a.handshake, ephemeralA, timestamp, indexA).Some? {
      InitiationAgrees(dh, da, ra, db, rb, a.handshake, b.handshake, ephemeralA, timestamp, indexA);
      var (m1, pendingA) := Create(dh, da, ra, a.handshake, ephemeralA, timestamp, indexA).value;
      AnswerSome(dh, rb, Process(dh, db, rb, b.handshake, m1).value.1, ephemeralB, indexB);
    }
  }

  lemma CreateSome(dh: Dh, d: Device, r: Remote, h: Handshake, ephemeral: Key, timestamp: Timestamp, index: u32)
    ensures var c := Create(dh, d, r, h, ephemeral, timestamp, index);
            && (c.Some? <==> Usable(dh, ephemeral, r.publicKey))
            && (c.Some? ==> c.value.0.ephemeral == dh(ephemeral, BASE_POINT))
  {
    hide Opening, Identified;
  }

  lemma AnswerSome(dh: Dh, r: Remote, h: Handshake, ephemeral: Key, index: u32)
    requires h.valid && !h.initiator
    ensures Answer(dh, r, h, ephemeral, index).Some?
       <==> Usable(dh, ephemeral, r.publicKey) && dh(ephemeral, h.remoteEphemeral) != ZERO_KEY
  {
    hide Answering;
  }
}
