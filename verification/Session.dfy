/** The session state of one peer: three keypair slots rotated by handshakes, data
    packets, expiry and timer ticks (wireguard.c and wireguardif.c), as a state machine
    over values. Every reading of the clock, every random draw, every allocation and every
    cryptographic verdict is an input. */
module Session {
  import opened Bytes
  import opened Wrappers
  import opened Keypairs
  import Replay

  datatype Slot = Curr | Prev | Next

  /** One packet handed to the cipher. */
  datatype Sent = Sent(session: nat, key: Key, counter: u64, receiver: u32, plaintext: seq<byte>)

  /** One payload that passed the replay check. `promoting` marks the packet on which its
      session moved from the next slot to the current one; `delivered` says whether it
      went on to the IP layer. */
  datatype Receipt = Receipt(session: nat, counter: u64, promoting: bool, delivered: bool)

  datatype State = State(
    curr: Keypair, prev: Keypair, next: Keypair, handshake: Handshake,
    active: bool, keepalive: u32, sendHandshake: bool,
    latestHandshake: u32, lastTx: u32, lastRx: u32, lastInitiationTx: u32,
    // history: the role of every session so far (true for the initiator), and two logs
    roles: seq<bool>, sent: seq<Sent>, receipts: seq<Receipt>)

  /** The i-th reading of the millisecond clock during one call. */
  type Clock = nat -> u32

  function Get(s: State, slot: Slot): Keypair {
    match slot case Curr => s.curr case Prev => s.prev case Next => s.next
  }

  function Put(s: State, slot: Slot, k: Keypair): State {
    match slot case Curr => s.(curr := k) case Prev => s.(prev := k) case Next => s.(next := k)
  }

  // Sending

  /** A payload padded with zeros to a multiple of 16 bytes; none is a keepalive. */
  function Padded(payload: Option<seq<byte>>): seq<byte> {
    match payload
    case None => []
    case Some(p) => p + Zeros((16 - |p| % 16) % 16)
  }

  /** Until a responder has heard from the initiator it may only use the previous slot. */
  function SendingSlot(s: State): Slot {
    if s.curr.valid && !s.curr.initiator && s.curr.lastRx == 0 then Prev else Curr
  }

  /** Encryption under a slot: the counter is used and incremented. */
  function Encrypt(s: State, slot: Slot, plaintext: seq<byte>): State
    requires Get(s, slot).sendingCounter < REJECT_AFTER_MESSAGES
  {
    var k := Get(s, slot);
    Put(s, slot, k.(sendingCounter := k.sendingCounter + 1))
    .(sent := s.sent + [Sent(k.session, k.sendingKey, k.sendingCounter, k.remoteIndex, plaintext)])
  }

  /** wireguardif_output_to_peer */
  function Output(s: State, payload: Option<seq<byte>>, alloc: bool, sendOk: bool, clock: Clock): State {
    var slot := SendingSlot(s);
    var k := Get(s, slot);
    if !k.valid || !(k.initiator || k.lastRx != 0) then s
    else if Expired(clock(0), k.millis, REJECT_AFTER_TIME) || k.sendingCounter >= REJECT_AFTER_MESSAGES then
      Put(s, slot, DESTROYED)
    else if !alloc then s
    else Transmitted(Encrypt(s, slot, Padded(payload)), slot, sendOk, clock)
  }

  /** After the encryption: transmission times and the decision to rekey. */
  function Transmitted(s: State, slot: Slot, sendOk: bool, clock: Clock): State {
    var k := Get(s, slot);
    var t := if sendOk then Put(s, slot, k.(lastTx := clock(1))).(lastTx := clock(1)) else s;
    if k.sendingCounter >= REKEY_AFTER_MESSAGES || (k.initiator && Expired(clock(2), k.millis, REKEY_AFTER_TIME))
    then t.(sendHandshake := true) else t
  }

  // Receiving

  /** get_peer_keypair_for_idx */
  function Lookup(s: State, index: u32): Option<Slot> {
    if s.curr.valid && s.curr.localIndex == index then Some(Curr)
    else if s.next.valid && s.next.localIndex == index then Some(Next)
    else if s.prev.valid && s.prev.localIndex == index then Some(Prev)
    else None
  }

  /** keypair_update */
  function Promote(s: State, slot: Slot): State {
    if slot == Next then s.(prev := s.curr, curr := s.next, next := DESTROYED) else s
  }

  /** wireguard_check_replay on the keypair in a slot, with a receipt for `session`. */
  function Admit(s: State, slot: Slot, session: nat, nonce: u64, destOk: bool): State {
    var (w, ok) := Replay.Check(Get(s, slot).window, nonce);
    var t := Put(s, slot, Get(s, slot).(window := w));
    if ok then t.(receipts := s.receipts + [Receipt(session, nonce, slot == Next, destOk)]) else t
  }

  /** wireguardif_process_data_message: `plain` is what decryption under the selected
      keypair returns, `destOk` whether the inner IP header passes its checks. */
  function Data(s: State, index: u32, nonce: u64, alloc: bool, plain: Option<seq<byte>>, destOk: bool, clock: Clock)
    : State
  {
    match Lookup(s, index)
    case None => s
    case Some(slot) =>
      var k := Get(s, slot);
      if !k.receivingValid || Expired(clock(0), k.millis, REJECT_AFTER_TIME)
         || k.sendingCounter >= REJECT_AFTER_MESSAGES then
        Put(s, slot, DESTROYED)
      else if !alloc || plain.None? then s
      else Arrived(s, slot, nonce, plain.value, destOk, clock)
  }

  /** The packet is authentic: the rest of wireguardif_process_data_message. */
  function Arrived(s: State, slot: Slot, nonce: u64, payload: seq<byte>, destOk: bool, clock: Clock): State {
    var q := Heard(s, slot, clock);
    if payload == [] then q else Admit(q, slot, Get(s, slot).session, nonce, destOk)
  }

  /** Reception times, the promotion and the decision to rekey. After a promotion the slot
      that is looked at is the one that has just been cleared. */
  function Heard(s: State, slot: Slot, clock: Clock): State {
    var r := Put(s, slot, Get(s, slot).(lastRx := clock(1))).(lastRx := clock(1));
    var p := Promote(r, slot);
    var k := Get(p, slot);
    if k.initiator && Expired(clock(2), k.millis, REJECT_AFTER_TIME - p.keepalive - REKEY_TIMEOUT)
    then p.(sendHandshake := true) else p
  }

  // Handshakes

  /** add_new_keypair */
  function Add(s: State, k: Keypair): State {
    var t := if k.initiator then
               if s.next.valid then s.(prev := s.next, next := DESTROYED, curr := k) else s.(prev := s.curr, curr := k)
             else s.(next := k, prev := DESTROYED);
    t.(latestHandshake := k.millis)
  }

  /** wireguard_start_session */
  function StartSession(s: State, initiator: bool, now: u32): State {
    Add(s.(handshake := IDLE, roles := s.roles + [initiator]), NewKeypair(s.handshake, initiator, now, |s.roles|))
  }

  /** The exit test of wireguard_generate_unique_index. */
  predicate Unique(s: State, index: u32) {
    && Assignable(index)
    && index != s.curr.localIndex && index != s.prev.localIndex && index != s.next.localIndex
    && index != s.handshake.localIndex
  }

  /** wireguard_start_handshake: `dhOk` says whether both scalar multiplications succeed; if
      not, only secrets of the pending handshake are overwritten. */
  function Initiate(s: State, dhOk: bool, index: u32, secrets: Handshake, alloc: bool, now: u32): State {
    var h := s.handshake.(ephemeralPrivate := secrets.ephemeralPrivate, hash := secrets.hash,
                          chainingKey := secrets.chainingKey);
    if !dhOk then s.(handshake := h)
    else
      var t := s.(handshake := h.(valid := true, initiator := true, localIndex := index));
      if alloc then t.(sendHandshake := false, lastInitiationTx := now) else t
  }

  /** An initiation that wireguard_process_initiation_message accepts, and the response to
      it: wireguardif_send_handshake_response. */
  function Respond(s: State, sender: u32, dhOk: bool, index: u32, secrets: Handshake, now: u32): State {
    var h := secrets.(valid := true, initiator := false, remoteIndex := sender, localIndex := s.handshake.localIndex);
    if !dhOk then s.(handshake := h) else StartSession(s.(handshake := h.(localIndex := index)), false, now)
  }

  /** A handshake response: peer_lookup_by_handshake, then
      wireguardif_process_response_message with the verdict of the cryptography. */
  function Complete(s: State, receiver: u32, sender: u32, genuine: bool, secrets: Handshake, alloc: bool,
                    sendOk: bool, clock: Clock): State {
    if !(s.handshake.valid && s.handshake.initiator && s.handshake.localIndex == receiver) || !genuine then s
    else
      var h := s.handshake.(remoteEphemeral := secrets.remoteEphemeral, hash := secrets.hash,
                            chainingKey := secrets.chainingKey, remoteIndex := sender);
      Output(StartSession(s.(handshake := h), true, clock(3)), None, alloc, sendOk, clock)
  }

  // The timer

  /** The destruction steps of wireguardif_tmr. */
  function Reap(s: State, clock: Clock): State {
    var t := if s.curr.valid && Expired(clock(0), s.curr.millis, REJECT_AFTER_TIME * 3)
             then s.(next := DESTROYED, curr := DESTROYED, prev := DESTROYED) else s;
    if t.curr.valid && (|| Expired(clock(1), t.curr.millis, REJECT_AFTER_TIME)
                        || t.curr.sendingCounter >= REJECT_AFTER_MESSAGES)
    then t.(curr := DESTROYED) else t
  }

  predicate ShouldSendKeepalive(s: State, now: u32) {
    s.keepalive > 0 && (s.curr.valid || s.prev.valid) && Expired(now, s.lastTx, s.keepalive)
  }

  predicate CanSendInitiation(s: State, now: u32) {
    s.lastInitiationTx == 0 || Expired(now, s.lastInitiationTx, REKEY_TIMEOUT)
  }

  predicate ShouldSendInitiation(s: State, clock: Clock) {
    && CanSendInitiation(s, clock(0))
    && (|| s.sendHandshake
        || (s.curr.valid && !s.curr.initiator && Expired(clock(1), s.curr.millis, REJECT_AFTER_TIME - s.keepalive))
        || (!s.curr.valid && s.active))
  }

  /** The state in which wireguardif_tmr decides about an initiation. */
  function BeforeInitiation(s: State, alloc: bool, sendOk: bool, reap: Clock, keep: Clock): State {
    var t := Reap(s, reap);
    if ShouldSendKeepalive(t, reap(2)) then Output(t, None, alloc, sendOk, keep) else t
  }

  /** wireguardif_tmr for one peer */
  function Tick(s: State, alloc: bool, sendOk: bool, reap: Clock, keep: Clock, init: Clock,
                dhOk: bool, index: u32, secrets: Handshake, initAlloc: bool): State {
    var t := BeforeInitiation(s, alloc, sendOk, reap, keep);
    if ShouldSendInitiation(t, init) then Initiate(t, dhOk, index, secrets, initAlloc, init(2)) else t
  }

  /** wireguardif_disconnect */
  function Disconnect(s: State): State {
    s.(active := false, next := DESTROYED, curr := DESTROYED, prev := DESTROYED)
  }

  // Runs

  datatype Event =
    | SendEvent(payload: Option<seq<byte>>, alloc: bool, sendOk: bool, clock: Clock)
    | DataEvent(index: u32, nonce: u64, alloc: bool, plain: Option<seq<byte>>, destOk: bool, clock: Clock)
    | InitiationEvent(sender: u32, dhOk: bool, index: u32, secrets: Handshake, now: u32)
    | ResponseEvent(receiver: u32, sender: u32, genuine: bool, secrets: Handshake, alloc: bool, sendOk: bool,
                    clock: Clock)
    | TimerEvent(alloc: bool, sendOk: bool, reap: Clock, keep: Clock, init: Clock,
                 dhOk: bool, index: u32, secrets: Handshake, initAlloc: bool)
    | ConnectEvent
    | DisconnectEvent

  function Step(s: State, e: Event): State {
    match e
    case SendEvent(payload, alloc, sendOk, clock) => Output(s, payload, alloc, sendOk, clock)
    case DataEvent(index, nonce, alloc, plain, destOk, clock) => Data(s, index, nonce, alloc, plain, destOk, clock)
    case InitiationEvent(sender, dhOk, index, secrets, now) => Respond(s, sender, dhOk, index, secrets, now)
    case ResponseEvent(receiver, sender, genuine, secrets, alloc, sendOk, clock) =>
      Complete(s, receiver, sender, genuine, secrets, alloc, sendOk, clock)
    case TimerEvent(alloc, sendOk, reap, keep, init, dhOk, index, secrets, initAlloc) =>
      Tick(s, alloc, sendOk, reap, keep, init, dhOk, index, secrets, initAlloc)
    case ConnectEvent => s.(active := true)
    case DisconnectEvent => Disconnect(s)
  }

  /** Indices come from the generator, which ends only on a unique one. */
  predicate Possible(s: State, e: Event) {
    match e
    case InitiationEvent(sender, dhOk, index, secrets, now) => Unique(s, index)
    case TimerEvent(alloc, sendOk, reap, keep, init, dhOk, index, secrets, initAlloc) =>
      var t := BeforeInitiation(s, alloc, sendOk, reap, keep);
      ShouldSendInitiation(t, init) ==> Unique(t, index)
    case _ => true
  }

  predicate PossibleRun(s: State, events: seq<Event>)
    decreases |events|
  {
    events == [] || (Possible(s, events[0]) && PossibleRun(Step(s, events[0]), events[1..]))
  }

  function Run(s: State, events: seq<Event>): State
    decreases |events|
  {
    if events == [] then s else Run(Step(s, events[0]), events[1..])
  }

  /** A peer as wireguard_peer_init leaves it. */
  predicate Initial(s: State) {
    && s.curr == s.prev == s.next == DESTROYED && s.handshake == IDLE
    && s.roles == [] && s.sent == [] && s.receipts == []
  }
}
