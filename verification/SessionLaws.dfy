/** What single steps of a session do, with the times in milliseconds and the limits of section
    6.1 of the WireGuard paper as numbers: which key is used in which direction, when a packet
    is sent or heard, when a new handshake is asked for, and what the timer destroys. */
module SessionLaws {
  import opened Bits
  import opened Bytes
  import opened Wrappers
  import opened Keypairs
  import opened Session
  import Replay
  import Kdf
  import NoiseReference

  /** Milliseconds since the session of a keypair started, on the 32-bit clock. */
  function Age(k: Keypair, now: u32): u32 {
    (now - k.millis) % TWO32
  }

  const LIMIT: u64 := 0xFFFF_FFFF_FFFF_DFFF

  // Which key in which direction (section 5.4.5)

  predicate InitiatorKeys(k: Keypair, ck: Key) {
    hide Kdf.Tau;
    k.sendingKey == Kdf.Tau(ck, [], 1) && k.receivingKey == Kdf.Tau(ck, [], 2)
  }

  predicate ResponderKeys(k: Keypair, ck: Key) {
    hide Kdf.Tau;
    k.receivingKey == Kdf.Tau(ck, [], 1) && k.sendingKey == Kdf.Tau(ck, [], 2)
  }

  lemma StartedKeys(s: State, initiator: bool, now: u32)
    ensures var t := StartSession(s, initiator, now); var k := if initiator then t.curr else t.next;
            && k.valid && k.initiator == initiator && k.receivingValid && k.millis == now && k.sendingCounter == 0
            && k.localIndex == s.handshake.localIndex && k.remoteIndex == s.handshake.remoteIndex
            && k.session == |s.roles| && k.lastRx == 0 && k.window == Replay.FRESH
            && (if initiator then InitiatorKeys(k, s.handshake.chainingKey)
                else ResponderKeys(k, s.handshake.chainingKey))
            && t.handshake == IDLE && t.roles == s.roles + [initiator] && t.sent == s.sent && t.latestHandshake == now
  {
    hide Kdf.Tau;
  }

  /** Starting a session never touches the keypairs of others except to age them: an initiator's
      replaces the current one, which moves to the previous slot unless a responder's is waiting
      in the next slot, which moves there instead; a responder's waits in the next slot, and the
      previous one is given up. */
  lemma StartedSlots(s: State, initiator: bool, now: u32)
    ensures var t := StartSession(s, initiator, now);
            if initiator then t.prev == (if s.next.valid then s.next else s.curr)
                              && (if s.next.valid then t.next == DESTROYED else t.next == s.next)
            else t.curr == s.curr && t.prev == DESTROYED
  {
    hide Kdf.Tau;
  }

  /** The initiator's side of a completed handshake: under the chaining key C of the handshake it
      sends with the first key and receives with the second, and so does its keepalive. */
  lemma CompletedKeys(s: State, receiver: u32, sender: u32, secrets: Handshake, alloc: bool, sendOk: bool,
                      clock: Clock)
    requires s.handshake.valid && s.handshake.initiator && s.handshake.localIndex == receiver
    requires !Expired(clock(0), clock(3), REJECT_AFTER_TIME)
    ensures var t := Complete(s, receiver, sender, true, secrets, alloc, sendOk, clock);
            && t.curr.valid && t.curr.initiator && t.curr.localIndex == receiver && t.curr.remoteIndex == sender
            && t.curr.session == |s.roles| && InitiatorKeys(t.curr, secrets.chainingKey)
            && t.sent == s.sent + if alloc then [Sent(|s.roles|, t.curr.sendingKey, 0, sender, [])] else []
  {
    hide StartSession, Output, InitiatorKeys, ResponderKeys;
    var h := s.handshake.(remoteEphemeral := secrets.remoteEphemeral, hash := secrets.hash,
                          chainingKey := secrets.chainingKey, remoteIndex := sender);
    StartedKeys(s.(handshake := h), true, clock(3));
    FirstKeepalive(StartSession(s.(handshake := h), true, clock(3)), alloc, sendOk, clock);
    SameKeys(StartSession(s.(handshake := h), true, clock(3)).curr,
             Complete(s, receiver, sender, true, secrets, alloc, sendOk, clock).curr, secrets.chainingKey);
  }

  lemma SameKeys(k: Keypair, n: Keypair, ck: Key)
    requires n.sendingKey == k.sendingKey && n.receivingKey == k.receivingKey
    ensures InitiatorKeys(n, ck) == InitiatorKeys(k, ck)
  {
  }

  lemma FirstKeepalive(s: State, alloc: bool, sendOk: bool, clock: Clock)
    requires s.curr.valid && s.curr.initiator && s.curr.sendingCounter == 0
    requires !Expired(clock(0), s.curr.millis, REJECT_AFTER_TIME)
    ensures var t := Output(s, None, alloc, sendOk, clock); var k := s.curr;
            && t.curr.valid && t.curr.initiator && t.curr.localIndex == k.localIndex
            && t.curr.remoteIndex == k.remoteIndex && t.curr.session == k.session
            && t.curr.sendingKey == k.sendingKey && t.curr.receivingKey == k.receivingKey
            && t.sent == s.sent + if alloc then [Sent(k.session, k.sendingKey, 0, k.remoteIndex, [])] else []
  {
    hide Expired;
  }

  /** The responder's side of an answered initiation. */
  lemma AnsweredKeys(s: State, sender: u32, index: u32, secrets: Handshake, now: u32)
    ensures var t := Respond(s, sender, true, index, secrets, now);
            && t.next.valid && !t.next.initiator && t.next.localIndex == index && t.next.remoteIndex == sender
            && t.next.session == |s.roles| && t.next.lastRx == 0 && ResponderKeys(t.next, secrets.chainingKey)
            && t.curr == s.curr && t.prev == DESTROYED
  {
    hide StartSession, InitiatorKeys, ResponderKeys;
    var h := secrets.(valid := true, initiator := false, remoteIndex := sender, localIndex := index);
    StartedKeys(s.(handshake := h), false, now);
    StartedSlots(s.(handshake := h), false, now);
  }

  /** These are the keys that the Noise protocol splits its chaining key into. */
  lemma KeysSplit(k: Keypair, ck: Key)
    ensures InitiatorKeys(k, ck) <==> (k.sendingKey, k.receivingKey) == NoiseReference.Split(ck)
    ensures ResponderKeys(k, ck) <==> (k.receivingKey, k.sendingKey) == NoiseReference.Split(ck)
  {
    hide NoiseReference.Split;
    NoiseReference.SplitIs(ck);
  }

  // The ages

  lemma ExpiredAges(k: Keypair, now: u32)
    ensures Expired(now, k.millis, REJECT_AFTER_TIME) <==> Age(k, now) >= 180_000
    ensures Expired(now, k.millis, REJECT_AFTER_TIME * 3) <==> Age(k, now) >= 540_000
    ensures Expired(now, k.millis, REKEY_AFTER_TIME) <==> Age(k, now) >= 120_000
  {
  }

  // Hearing

  /** The packet is in time for the session that its index selects. */
  predicate Hears(k: Keypair, now: u32) {
    k.receivingValid && Age(k, now) < 180_000 && k.sendingCounter < LIMIT
  }

  /** The exact condition, for every packet that selects a slot: a session that is 180 s old, or
      has used up its counters, is destroyed and nothing else happens; without memory or with a
      packet that does not open nothing happens at all; and otherwise the packet is heard. */
  lemma HeardExactly(s: State, index: u32, nonce: u64, alloc: bool, plain: Option<seq<byte>>, destOk: bool,
                     clock: Clock, slot: Slot)
    requires Lookup(s, index) == Some(slot)
    ensures var t := Data(s, index, nonce, alloc, plain, destOk, clock);
            if !Hears(Get(s, slot), clock(0)) then t == Put(s, slot, DESTROYED) && t.receipts == s.receipts
            else if !alloc || plain.None? then t == s
            else HeardAs(s, t, slot, nonce, plain.value, destOk, clock)
  {
    hide Expired, Arrived, Lookup, HeardAs;
    ExpiredAges(Get(s, slot), clock(0));
    if plain.Some? { ArrivedExactly(s, slot, nonce, plain.value, destOk, clock); }
  }

  /** Everything that an authentic packet changes: the times, the slots if it is the first one in
      the next slot, the wish for a new handshake, and, unless it is a keepalive, the replay
      window of the slot and the log. */
  predicate HeardAs(s: State, t: State, slot: Slot, nonce: u64, payload: seq<byte>, destOk: bool, clock: Clock) {
    hide Replay.Check, Rekeys;
    var k := Get(s, slot).(lastRx := clock(1));
    var window := if slot == Next then Replay.FRESH else k.window;
    var (w, ok) := if payload == [] then (window, false) else Replay.Check(window, nonce);
    && t.lastRx == clock(1) && t.lastTx == s.lastTx && t.lastInitiationTx == s.lastInitiationTx
    && t.handshake == s.handshake && t.roles == s.roles && t.sent == s.sent && t.active == s.active
    && t.sendHandshake == (s.sendHandshake || (slot != Next && Rekeys(k, s.keepalive, clock(2))))
    && t.receipts == s.receipts + (if ok then [Receipt(k.session, nonce, slot == Next, destOk)] else [])
    && match slot
       case Curr => t.curr == k.(window := w) && t.prev == s.prev && t.next == s.next
       case Prev => t.prev == k.(window := w) && t.curr == s.curr && t.next == s.next
       case Next => t.curr == k && t.prev == s.curr && t.next == DESTROYED.(window := w)
  }

  /** An initiator asks for a new handshake when its session is about to expire: 180 s less the
      keepalive interval and 5 s, on 32-bit arithmetic. */
  predicate Rekeys(k: Keypair, keepalive: u32, now: u32) {
    k.initiator && Age(k, now) >= (175 - keepalive) % TWO32 * 1000 % TWO32
  }

  lemma RekeyAge(k: Keypair, keepalive: u32, now: u32)
    ensures (k.initiator && Expired(now, k.millis, REJECT_AFTER_TIME - keepalive - REKEY_TIMEOUT))
        <==> Rekeys(k, keepalive, now)
  {
  }

  lemma ArrivedExactly(s: State, slot: Slot, nonce: u64, payload: seq<byte>, destOk: bool, clock: Clock)
    ensures HeardAs(s, Arrived(s, slot, nonce, payload, destOk, clock), slot, nonce, payload, destOk, clock)
  {
    hide Heard, Replay.Check, Rekeys;
    HeardStep(s, slot, clock);
    match slot
    case Curr =>
    case Prev =>
    case Next =>
  }

  /** Times, promotion and the wish for a new handshake. */
  function HeardTo(s: State, slot: Slot, clock: Clock): State {
    hide Rekeys;
    var k := Get(s, slot).(lastRx := clock(1));
    var asks := s.sendHandshake || (slot != Next && Rekeys(k, s.keepalive, clock(2)));
    var u := s.(lastRx := clock(1), sendHandshake := asks);
    match slot
    case Curr => u.(curr := k)
    case Prev => u.(prev := k)
    case Next => u.(prev := s.curr, curr := k, next := DESTROYED)
  }

  lemma HeardStep(s: State, slot: Slot, clock: Clock)
    ensures Heard(s, slot, clock) == HeardTo(s, slot, clock)
  {
    hide Expired, Rekeys;
    RekeyAge(Get(s, slot).(lastRx := clock(1)), s.keepalive, clock(2));
  }

  // Sending

  /** A packet may go out under the keypair. */
  predicate Sends(k: Keypair, now: u32) {
    k.valid && (k.initiator || k.lastRx != 0) && Age(k, now) < 180_000 && k.sendingCounter < LIMIT
  }

  /** The exact effect of sending: a responder that has not heard from the initiator yet uses the
      previous slot, everyone else the current one. A keypair that may not be used at all is left
      alone, one that is too old or used up is destroyed, and otherwise the payload goes out,
      padded, under the next counter. */
  lemma SentExactly(s: State, payload: Option<seq<byte>>, alloc: bool, sendOk: bool, clock: Clock)
    ensures var first := s.curr.valid && !s.curr.initiator && s.curr.lastRx == 0;
            var k := if first then s.prev else s.curr;
            var t := Output(s, payload, alloc, sendOk, clock);
            if !(k.valid && (k.initiator || k.lastRx != 0)) then t == s
            else if !Sends(k, clock(0)) then t == if first then s.(prev := DESTROYED) else s.(curr := DESTROYED)
            else if !alloc then t == s
            else SentAs(s, t, first, payload, sendOk, clock)
  {
    hide Expired, Padded, Transmitted, SentAs;
    var slot := SendingSlot(s);
    var k := Get(s, slot);
    ExpiredAges(k, clock(0));
    if Sends(k, clock(0)) { TransmittedAs(s, slot, payload, sendOk, clock); }
  }

  predicate SentAs(s: State, t: State, first: bool, payload: Option<seq<byte>>, sendOk: bool, clock: Clock) {
    hide Padded;
    var k := if first then s.prev else s.curr;
    var used := k.(sendingCounter := if k.sendingCounter < LIMIT then k.sendingCounter + 1 else LIMIT,
                   lastTx := if sendOk then clock(1) else k.lastTx);
    var asks := used.sendingCounter >= 0x1000_0000_0000_0000 || (k.initiator && Age(k, clock(2)) >= 120_000);
    t == (if first then s.(prev := used) else s.(curr := used))
         .(lastTx := if sendOk then clock(1) else s.lastTx, sendHandshake := s.sendHandshake || asks,
           sent := s.sent + [Sent(k.session, k.sendingKey, k.sendingCounter, k.remoteIndex, Padded(payload))])
  }

  lemma TransmittedAs(s: State, slot: Slot, payload: Option<seq<byte>>, sendOk: bool, clock: Clock)
    requires slot != Next && Get(s, slot).sendingCounter < LIMIT
    ensures SentAs(s, Transmitted(Encrypt(s, slot, Padded(payload)), slot, sendOk, clock), slot == Prev, payload,
                   sendOk, clock)
  {
    hide Expired, Padded;
    ExpiredAges(Get(s, slot), clock(2));
    ExpiredAges(Get(Encrypt(s, slot, Padded(payload)), slot), clock(2));
  }

  // The timer

  /** What the timer destroys: everything when the current session is 540 s old, the current one
      when it is 180 s old or used up. */
  lemma ReapExactly(s: State, clock: Clock)
    ensures var t := Reap(s, clock); var none := s.(curr := DESTROYED, prev := DESTROYED, next := DESTROYED);
            if !s.curr.valid then t == s
            else if Age(s.curr, clock(0)) >= 540_000 then t == none
            else if Age(s.curr, clock(1)) >= 180_000 || s.curr.sendingCounter >= LIMIT then t == s.(curr := DESTROYED)
            else t == s
  {
    ExpiredAges(s.curr, clock(0));
    ExpiredAges(s.curr, clock(1));
    hide Expired;
  }

  /** When the timer sends a keepalive: the interval has passed since the last transmission. */
  lemma KeepaliveExactly(s: State, now: u32)
    ensures ShouldSendKeepalive(s, now) <==>
            && s.keepalive > 0 && (s.curr.valid || s.prev.valid)
            && (now - s.lastTx) % TWO32 >= s.keepalive * 1000 % TWO32
  {
  }

  /** When the timer sends an initiation: 5 s have passed since the last one, if there is one on
      record, and a new handshake was asked for, or the session that the peer started is old
      enough, or there is none and the peer is to be connected. */
  lemma InitiationExactly(s: State, clock: Clock)
    ensures ShouldSendInitiation(s, clock) <==>
            && (s.lastInitiationTx == 0 || (clock(0) - s.lastInitiationTx) % TWO32 >= 5_000)
            && (if s.sendHandshake then true
                else if s.curr.valid then
                  !s.curr.initiator && Age(s.curr, clock(1)) >= (180 - s.keepalive) % TWO32 * 1000 % TWO32
                else s.active)
  {
  }

  /** The timer does these things in this order: destroy, keep alive, initiate. */
  lemma TickExactly(s: State, alloc: bool, sendOk: bool, reap: Clock, keep: Clock, init: Clock, dhOk: bool, index: u32,
                    secrets: Handshake, initAlloc: bool)
    ensures var u := Reap(s, reap);
            var v := if ShouldSendKeepalive(u, reap(2)) then Output(u, None, alloc, sendOk, keep) else u;
            var t := Tick(s, alloc, sendOk, reap, keep, init, dhOk, index, secrets, initAlloc);
            if !ShouldSendInitiation(v, init) then t == v
            else InitiatedAs(v, t, dhOk, index, secrets, initAlloc, init(2))
  {
    hide Reap, Output, ShouldSendKeepalive, ShouldSendInitiation;
  }

  /** An attempt to initiate: the secrets are overwritten in any case; if no scalar multiplication
      fails the handshake is pending under the new index, and if there is memory the wish for it
      is fulfilled and the time recorded. */
  predicate InitiatedAs(s: State, t: State, dhOk: bool, index: u32, secrets: Handshake, alloc: bool, now: u32) {
    var h := t.handshake;
    && h.ephemeralPrivate == secrets.ephemeralPrivate && h.hash == secrets.hash
    && h.chainingKey == secrets.chainingKey && h.remoteEphemeral == s.handshake.remoteEphemeral
    && h.remoteIndex == s.handshake.remoteIndex
    && (if dhOk then h.valid && h.initiator && h.localIndex == index
        else h.valid == s.handshake.valid && h.initiator == s.handshake.initiator
             && h.localIndex == s.handshake.localIndex)
    && t == s.(handshake := h,
               sendHandshake := s.sendHandshake && !(dhOk && alloc),
               lastInitiationTx := if dhOk && alloc then now else s.lastInitiationTx)
  }

  /** Disconnecting gives up all sessions and keeps the pending handshake. */
  lemma DisconnectExactly(s: State)
    ensures Disconnect(s) == s.(active := false, curr := DESTROYED, prev := DESTROYED, next := DESTROYED)
  {
  }

  // Everything else leaves the sessions alone

  /** A response that is not for the pending handshake, or not genuine, and a packet that selects
      no slot change nothing; an answer that fails only records the handshake. */
  lemma OtherwiseNothing(s: State, receiver: u32, sender: u32, genuine: bool, secrets: Handshake, index: u32,
                         nonce: u64, alloc: bool, plain: Option<seq<byte>>, sendOk: bool, destOk: bool, clock: Clock,
                         now: u32)
    ensures !(s.handshake.valid && s.handshake.initiator && s.handshake.localIndex == receiver && genuine) ==>
              Complete(s, receiver, sender, genuine, secrets, alloc, sendOk, clock) == s
    ensures Lookup(s, index) == None ==> Data(s, index, nonce, alloc, plain, destOk, clock) == s
    ensures Respond(s, sender, false, index, secrets, now)
         == s.(handshake := secrets.(valid := true, initiator := false, remoteIndex := sender,
                                     localIndex := s.handshake.localIndex))
  {
    hide StartSession, Output, Lookup;
  }

  /** A new index is neither of the two reserved ones nor one of those in use. */
  lemma UniqueExactly(s: State, index: u32)
    ensures Unique(s, index) <==>
            && 1 <= index <= 0xFFFF_FFFE
            && index !in {s.curr.localIndex, s.prev.localIndex, s.next.localIndex, s.handshake.localIndex}
  {
  }
}
