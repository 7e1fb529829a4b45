/** The session code of wireguard.c and wireguardif.c in its own form: a peer object whose
    slots, handshake and flags are updated in place. Every method is proved to take the
    step of the state machine in `Session`, about which the safety theorems are stated. */
module SessionPeer {
  import opened Bytes
  import opened Wrappers
  import opened Keypairs
  import opened Session
  import opened SessionSafety
  import opened SessionReplay
  import Replay
  import Kdf

  /** One event keeps the slot invariant and the order of the nonces, and, if its distance is
      harmless, the truth of the replay windows. */
  lemma EventKeeps(s: State, e: Event)
    requires SlotsOk(s) && SentOk(s) && Possible(s, e)
    ensures SlotsOk(Step(s, e)) && SentOk(Step(s, e))
    ensures ReceiptsOk(s) && HarmlessEvent(s, e) ==> ReceiptsOk(Step(s, e))
  {
    hide SlotsOk, SentOk, ReceiptsOk, Step, Possible, HarmlessEvent;
    StepSlots(s, e);
    StepSent(s, e);
    if ReceiptsOk(s) && HarmlessEvent(s, e) { StepReceipts(s, e); }
  }

  lemma ReapKeeps(s: State, clock: Clock)
    requires SlotsOk(s) && SentOk(s)
    ensures SlotsOk(Reap(s, clock)) && SentOk(Reap(s, clock))
  {
    hide Expired, NoncesInOrder, Counters;
  }

  /** The states inside a call in which a keepalive is sent. */
  lemma StartKeeps(s: State, h: Handshake, now: u32)
    requires SlotsOk(s) && SentOk(s) && s.handshake.valid && s.handshake.initiator
    requires h.localIndex == s.handshake.localIndex && h.valid && h.initiator
    ensures var t := StartSession(s.(handshake := h), true, now);
            SlotsOk(t) && SentOk(t) && (ReceiptsOk(s) ==> ReceiptsOk(t))
  {
    hide StartSession, NoncesInOrder, Counters, WindowOk, Unheard, AdmittedOnce;
    var t := s.(handshake := h);
    assert SlotsOk(t) && SentOk(t) && (ReceiptsOk(s) ==> ReceiptsOk(t));
    hide SlotsOk, SentOk, ReceiptsOk;
    StartSessionSlotsIf(t, now);
    StartSessionSent(t, true, now);
    if ReceiptsOk(s) { StartSessionReceipts(t, true, now); }
  }

  lemma StartSessionSlotsIf(s: State, now: u32)
    requires SlotsOk(s) && s.handshake.valid && s.handshake.initiator
    ensures SlotsOk(StartSession(s, true, now))
  {
    hide StartSession;
    StartSessionSlots(s, true, now);
  }

  class Peer {
    var curr: Keypair
    var prev: Keypair
    var next: Keypair
    var handshake: Handshake
    var active: bool
    var keepalive: u32
    var sendHandshake: bool
    var latestHandshake: u32
    var lastTx: u32
    var lastRx: u32
    var lastInitiationTx: u32
    // history, not part of the C structure
    var roles: seq<bool>
    var sent: seq<Sent>
    var receipts: seq<Receipt>

    function View(): State
      reads this
    {
      State(curr, prev, next, handshake, active, keepalive, sendHandshake, latestHandshake, lastTx, lastRx,
            lastInitiationTx, roles, sent, receipts)
    }

    /** The slots are in order, and every session has used the counters 0, 1, 2, ... */
    ghost predicate Valid()
      reads this
    {
      SlotsOk(View()) && SentOk(View())
    }

    /** The replay windows stand for what their sessions admitted, each payload once. */
    ghost predicate Truthful()
      reads this
    {
      ReceiptsOk(View())
    }

    constructor (interval: u32)
      ensures Initial(View()) && keepalive == interval && !active && Valid() && Truthful()
    {
      curr, prev, next, handshake := DESTROYED, DESTROYED, DESTROYED, IDLE;
      active, keepalive, sendHandshake := false, interval, false;
      latestHandshake, lastTx, lastRx, lastInitiationTx := 0, 0, 0, 0;
      roles, sent, receipts := [], [], [];
    }

    function Keypair(slot: Slot): Keypair
      reads this
      ensures Keypair(slot) == Get(View(), slot)
    {
      match slot case Curr => curr case Prev => prev case Next => next
    }

    method Store(slot: Slot, k: Keypair)
      modifies this
      ensures View() == Put(old(View()), slot, k)
    {
      match slot {
        case Curr => curr := k;
        case Prev => prev := k;
        case Next => next := k;
      }
    }

    /** keypair_update */
    method KeypairUpdate(slot: Slot)
      modifies this
      ensures View() == Promote(old(View()), slot)
    {
      var keyIsNext := slot == Next;
      if keyIsNext {
        prev := curr;
        curr := next;
        next := DESTROYED;
      }
    }

    /** add_new_keypair */
    method AddNewKeypair(k: Keypair)
      modifies this
      ensures View() == Add(old(View()), k)
    {
      if k.initiator {
        if next.valid {
          prev := next;
          next := DESTROYED;
        } else {
          prev := curr;
        }
        curr := k;
      } else {
        next := k;
        prev := DESTROYED;
      }
      latestHandshake := k.millis;
    }

    /** wireguard_start_session */
    method StartSession(initiator: bool, now: u32)
      modifies this
      ensures View() == Session.StartSession(old(View()), initiator, now)
    {
      hide Kdf.Tau, Add;
      var k := NewKeypair(handshake, initiator, now, |roles|);
      handshake := IDLE;
      roles := roles + [initiator];
      AddNewKeypair(k);
    }

    /** wireguard_encrypt_packet: the counter is read, used and incremented. */
    method EncryptPacket(slot: Slot, plaintext: seq<byte>)
      requires Keypair(slot).sendingCounter < REJECT_AFTER_MESSAGES
      modifies this
      ensures View() == Encrypt(old(View()), slot, plaintext)
    {
      var k := Keypair(slot);
      sent := sent + [Sent(k.session, k.sendingKey, k.sendingCounter, k.remoteIndex, plaintext)];
      Store(slot, k.(sendingCounter := k.sendingCounter + 1));
    }

    /** wireguardif_output_to_peer */
    method OutputToPeer(payload: Option<seq<byte>>, alloc: bool, sendOk: bool, clock: Clock)
      requires Valid()
      modifies this
      ensures View() == Output(old(View()), payload, alloc, sendOk, clock)
      ensures Valid()
      ensures old(Truthful()) ==> Truthful()
    {
      hide Padded, Expired, SlotsOk, SentOk, ReceiptsOk;
      EventKeeps(View(), SendEvent(payload, alloc, sendOk, clock));
      var slot := Curr;
      if curr.valid && !curr.initiator && curr.lastRx == 0 {
        slot := Prev;
      }
      var k := Keypair(slot);
      if k.valid && (k.initiator || k.lastRx != 0) {
        if !Expired(clock(0), k.millis, REJECT_AFTER_TIME) && k.sendingCounter < REJECT_AFTER_MESSAGES {
          if alloc {
            EncryptPacket(slot, Padded(payload));
            FinishOutput(slot, sendOk, clock);
          }
        } else {
          Store(slot, DESTROYED);
        }
      }
    }

    method FinishOutput(slot: Slot, sendOk: bool, clock: Clock)
      modifies this
      ensures View() == Transmitted(old(View()), slot, sendOk, clock)
    {
      hide Expired;
      if sendOk {
        var now := clock(1);
        lastTx := now;
        Store(slot, Keypair(slot).(lastTx := now));
      }
      var k := Keypair(slot);
      if k.sendingCounter >= REKEY_AFTER_MESSAGES {
        sendHandshake := true;
      } else if k.initiator && Expired(clock(2), k.millis, REKEY_AFTER_TIME) {
        sendHandshake := true;
      }
    }

    /** get_peer_keypair_for_idx */
    method GetKeypairForIdx(index: u32) returns (slot: Option<Slot>)
      ensures slot == Lookup(View(), index)
    {
      if curr.valid && curr.localIndex == index {
        return Some(Curr);
      } else if next.valid && next.localIndex == index {
        return Some(Next);
      } else if prev.valid && prev.localIndex == index {
        return Some(Prev);
      }
      return None;
    }

    /** wireguardif_process_data_message */
    method ProcessDataMessage(index: u32, nonce: u64, alloc: bool, plain: Option<seq<byte>>, destOk: bool, clock: Clock)
      requires Valid()
      modifies this
      ensures View() == Data(old(View()), index, nonce, alloc, plain, destOk, clock)
      ensures Valid()
      ensures old(Truthful()) && old(HarmlessEvent(View(), DataEvent(index, nonce, alloc, plain, destOk, clock)))
              ==> Truthful()
    {
      hide Expired, Heard, Admit, SlotsOk, SentOk, ReceiptsOk, HarmlessEvent;
      EventKeeps(View(), DataEvent(index, nonce, alloc, plain, destOk, clock));
      var found := GetKeypairForIdx(index);
      if found.Some? {
        var slot := found.value;
        var k := Keypair(slot);
        if k.receivingValid && !Expired(clock(0), k.millis, REJECT_AFTER_TIME)
            && k.sendingCounter < REJECT_AFTER_MESSAGES {
          if alloc && plain.Some? {
            Receive(slot, clock);
            if |plain.value| > 0 {
              CheckReplay(slot, k.session, nonce, destOk);
            }
          }
        } else {
          Store(slot, DESTROYED);
        }
      }
    }

    method Receive(slot: Slot, clock: Clock)
      modifies this
      ensures View() == Heard(old(View()), slot, clock)
    {
      hide Expired, Promote;
      var now := clock(1);
      Store(slot, Keypair(slot).(lastRx := now));
      lastRx := now;
      KeypairUpdate(slot);
      var k := Keypair(slot);
      if k.initiator && Expired(clock(2), k.millis, REJECT_AFTER_TIME - keepalive - REKEY_TIMEOUT) {
        sendHandshake := true;
      }
    }

    method CheckReplay(slot: Slot, session: nat, nonce: u64, destOk: bool)
      modifies this
      ensures View() == Admit(old(View()), slot, session, nonce, destOk)
    {
      hide Replay.Check;
      var w, ok := Replay.CheckReplay(Keypair(slot).window, nonce);
      Store(slot, Keypair(slot).(window := w));
      if ok {
        receipts := receipts + [Receipt(session, nonce, slot == Next, destOk)];
      }
    }

    /** wireguard_generate_unique_index: any draw that passes the exit test. */
    method GenerateUniqueIndex() returns (index: u32)
      ensures Unique(View(), index)
    {
      assert Unique(View(), 1) || Unique(View(), 2) || Unique(View(), 3) || Unique(View(), 4) || Unique(View(), 5);
      index :| Unique(View(), index);
    }

    /** wireguard_start_handshake; the secrets are what the key exchange leaves behind. */
    method StartHandshake(dhOk: bool, secrets: Handshake, alloc: bool, now: u32) returns (index: u32)
      modifies this
      ensures Unique(old(View()), index) && View() == Initiate(old(View()), dhOk, index, secrets, alloc, now)
    {
      hide Unique;
      index := GenerateUniqueIndex();
      handshake := handshake.(ephemeralPrivate := secrets.ephemeralPrivate, hash := secrets.hash,
                              chainingKey := secrets.chainingKey);
      if dhOk {
        handshake := handshake.(valid := true, initiator := true, localIndex := index);
        if alloc {
          sendHandshake := false;
          lastInitiationTx := now;
        }
      }
    }

    /** An accepted initiation: the handshake is recorded, answered and turned into a session. */
    method AnswerInitiation(sender: u32, dhOk: bool, secrets: Handshake, now: u32) returns (index: u32)
      requires Valid()
      modifies this
      ensures Unique(old(View()), index) && View() == Respond(old(View()), sender, dhOk, index, secrets, now)
      ensures Valid()
      ensures old(Truthful()) ==> Truthful()
    {
      hide Unique, Session.StartSession, SlotsOk, SentOk, ReceiptsOk;
      index := GenerateUniqueIndex();
      EventKeeps(View(), InitiationEvent(sender, dhOk, index, secrets, now));
      handshake := secrets.(valid := true, initiator := false, remoteIndex := sender,
                            localIndex := handshake.localIndex);
      if dhOk {
        handshake := handshake.(localIndex := index);
        StartSession(false, now);
      }
    }

    /** peer_lookup_by_handshake and wireguardif_process_response_message */
    method ProcessResponseMessage(receiver: u32, sender: u32, genuine: bool, secrets: Handshake,
                                  alloc: bool, sendOk: bool, clock: Clock)
      requires Valid()
      modifies this
      ensures View() == Complete(old(View()), receiver, sender, genuine, secrets, alloc, sendOk, clock)
      ensures Valid()
      ensures old(Truthful()) ==> Truthful()
    {
      hide Session.StartSession, Output, SentOk, ReceiptsOk;
      EventKeeps(View(), ResponseEvent(receiver, sender, genuine, secrets, alloc, sendOk, clock));
      if handshake.valid && handshake.initiator && handshake.localIndex == receiver {
        if genuine {
          var h := handshake.(remoteEphemeral := secrets.remoteEphemeral, hash := secrets.hash,
                              chainingKey := secrets.chainingKey, remoteIndex := sender);
          StartKeeps(View(), h, clock(3));
          handshake := h;
          StartSession(true, clock(3));
          OutputToPeer(None, alloc, sendOk, clock);
        }
      }
    }

    method DestroyAll()
      modifies this
      ensures View() == old(View()).(next := DESTROYED, curr := DESTROYED, prev := DESTROYED)
    {
      next := DESTROYED;
      curr := DESTROYED;
      prev := DESTROYED;
    }

    method ReapKeypairs(clock: Clock)
      modifies this
      ensures View() == Reap(old(View()), clock)
    {
      hide Expired;
      if curr.valid && Expired(clock(0), curr.millis, REJECT_AFTER_TIME * 3) {
        DestroyAll();
      }
      if curr.valid && (|| Expired(clock(1), curr.millis, REJECT_AFTER_TIME)
                        || curr.sendingCounter >= REJECT_AFTER_MESSAGES) {
        curr := DESTROYED;
      }
    }

    /** wireguardif_tmr for one peer */
    method Timer(alloc: bool, sendOk: bool, reap: Clock, keep: Clock, init: Clock,
                 dhOk: bool, secrets: Handshake, initAlloc: bool) returns (index: u32)
      requires Valid()
      modifies this
      ensures Possible(old(View()), TimerEvent(alloc, sendOk, reap, keep, init, dhOk, index, secrets, initAlloc))
      ensures View() == Tick(old(View()), alloc, sendOk, reap, keep, init, dhOk, index, secrets, initAlloc)
      ensures Valid()
      ensures old(Truthful()) ==> Truthful()
    {
      hide Expired, Output, Reap, Initiate, Unique, ShouldSendInitiation, ShouldSendKeepalive, SlotsOk, SentOk,
           ReceiptsOk;
      ReapKeeps(View(), reap);
      ReapKeypairs(reap);
      if ShouldSendKeepalive(View(), reap(2)) {
        OutputToPeer(None, alloc, sendOk, keep);
      }
      index := 0;
      if ShouldSendInitiation(View(), init) {
        index := StartHandshake(dhOk, secrets, initAlloc, init(2));
      }
      EventKeeps(old(View()), TimerEvent(alloc, sendOk, reap, keep, init, dhOk, index, secrets, initAlloc));
    }

    /** wireguardif_connect */
    method ConnectPeer()
      requires Valid()
      modifies this
      ensures View() == old(View()).(active := true)
      ensures Valid()
      ensures old(Truthful()) ==> Truthful()
    {
      hide SlotsOk, SentOk, ReceiptsOk;
      EventKeeps(View(), ConnectEvent);
      active := true;
    }

    /** wireguardif_disconnect */
    method DisconnectPeer()
      requires Valid()
      modifies this
      ensures View() == Disconnect(old(View()))
      ensures Valid()
      ensures old(Truthful()) ==> Truthful()
    {
      hide SlotsOk, SentOk, ReceiptsOk;
      EventKeeps(View(), DisconnectEvent);
      active := false;
      DestroyAll();
    }
  }
}
