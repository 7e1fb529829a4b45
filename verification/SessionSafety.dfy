/** What every run of the session machine keeps: distinct slots, nonces used once and in
    order, payloads admitted at most once. */
module SessionSafety {
  import opened Bytes
  import opened Wrappers
  import opened Replay
  import opened Keypairs
  import opened Session

  // The slots

  predicate SlotOk(k: Keypair, roles: seq<bool>) {
    if k.valid then
      Assignable(k.localIndex) && k.receivingValid && k.session < |roles| && k.initiator == roles[k.session]
    else k.localIndex == 0
  }

  predicate Apart(a: Keypair, b: Keypair) {
    a.valid && b.valid ==> a.session != b.session && a.localIndex != b.localIndex
  }

  /** No session occupies two slots; valid keypairs and the pending handshake have distinct
      indices; a keypair in the next slot is a responder's and was never sent under. */
  predicate SlotsOk(s: State) {
    && SlotOk(s.curr, s.roles) && SlotOk(s.prev, s.roles) && SlotOk(s.next, s.roles)
    && Apart(s.curr, s.prev) && Apart(s.curr, s.next) && Apart(s.prev, s.next)
    && (s.next.valid ==> !s.next.initiator && s.next.sendingCounter == 0)
    && (s.handshake.localIndex != 0 ==>
          && Assignable(s.handshake.localIndex)
          && s.handshake.localIndex != s.curr.localIndex
          && s.handshake.localIndex != s.prev.localIndex
          && s.handshake.localIndex != s.next.localIndex)
    && (s.handshake.valid && s.handshake.initiator ==> s.handshake.localIndex != 0)
  }

  /** A receiver index selects a slot exactly when that slot is valid and carries it. */
  lemma LookupExact(s: State, index: u32, slot: Slot)
    requires SlotsOk(s)
    ensures Lookup(s, index) == Some(slot) <==> Get(s, slot).valid && Get(s, slot).localIndex == index
  {
  }

  /** Changes of a slot that the slot invariant does not see. */
  predicate SameIdentity(a: Keypair, b: Keypair) {
    && a.valid == b.valid && a.initiator == b.initiator && a.receivingValid == b.receivingValid
    && a.localIndex == b.localIndex && a.session == b.session
  }

  lemma PutSlots(s: State, slot: Slot, k: Keypair)
    requires SlotsOk(s)
    requires k == DESTROYED || (SameIdentity(k, Get(s, slot))
                                && (slot == Next ==> k.sendingCounter == s.next.sendingCounter))
    ensures SlotsOk(Put(s, slot, k))
  {
  }

  lemma EncryptSlots(s: State, slot: Slot, plaintext: seq<byte>)
    requires SlotsOk(s) && slot != Next && Get(s, slot).sendingCounter < REJECT_AFTER_MESSAGES
    ensures SlotsOk(Encrypt(s, slot, plaintext))
  {
    hide SlotsOk;
    var t := Encrypt(s, slot, plaintext);
    PutSlots(s, slot, Get(t, slot));
    SlotsOnly(Put(s, slot, Get(t, slot)), t);
  }

  lemma TransmittedSlots(s: State, slot: Slot, sendOk: bool, clock: Clock)
    requires SlotsOk(s) && slot != Next
    ensures SlotsOk(Transmitted(s, slot, sendOk, clock))
  {
    hide SlotsOk, Expired;
    var t := Transmitted(s, slot, sendOk, clock);
    PutSlots(s, slot, Get(t, slot));
    SlotsOnly(Put(s, slot, Get(t, slot)), t);
  }

  lemma OutputSlots(s: State, payload: Option<seq<byte>>, alloc: bool, sendOk: bool, clock: Clock)
    requires SlotsOk(s)
    ensures SlotsOk(Output(s, payload, alloc, sendOk, clock))
  {
    hide Padded, Expired, SlotsOk, Encrypt, Transmitted;
    var slot := SendingSlot(s);
    PutSlots(s, slot, DESTROYED);
    if Get(s, slot).sendingCounter < REJECT_AFTER_MESSAGES {
      EncryptSlots(s, slot, Padded(payload));
      TransmittedSlots(Encrypt(s, slot, Padded(payload)), slot, sendOk, clock);
    }
  }

  /** The slot invariant looks at the slots, the handshake and the roles only. */
  lemma SlotsOnly(s: State, t: State)
    requires SlotsOk(s)
    requires t.curr == s.curr && t.prev == s.prev && t.next == s.next && t.handshake == s.handshake
             && t.roles == s.roles
    ensures SlotsOk(t)
  {
  }

  lemma PromoteSlots(s: State, slot: Slot)
    requires SlotsOk(s)
    ensures SlotsOk(Promote(s, slot))
  {
  }

  lemma AdmitSlots(s: State, slot: Slot, session: nat, nonce: u64, destOk: bool)
    requires SlotsOk(s)
    ensures SlotsOk(Admit(s, slot, session, nonce, destOk))
  {
    hide Check, SlotsOk;
    var t := Admit(s, slot, session, nonce, destOk);
    PutSlots(s, slot, Get(t, slot));
    SlotsOnly(Put(s, slot, Get(t, slot)), t);
  }

  lemma HeardSlots(s: State, slot: Slot, clock: Clock)
    requires SlotsOk(s)
    ensures SlotsOk(Heard(s, slot, clock))
  {
    hide SlotsOk, Expired;
    var k := Get(s, slot).(lastRx := clock(1));
    PutSlots(s, slot, k);
    var r := Put(s, slot, k).(lastRx := clock(1));
    SlotsOnly(Put(s, slot, k), r);
    PromoteSlots(r, slot);
    SlotsOnly(Promote(r, slot), Heard(s, slot, clock));
  }

  lemma ArrivedSlots(s: State, slot: Slot, nonce: u64, payload: seq<byte>, destOk: bool, clock: Clock)
    requires SlotsOk(s)
    ensures SlotsOk(Arrived(s, slot, nonce, payload, destOk, clock))
  {
    hide SlotsOk, Heard, Admit;
    HeardSlots(s, slot, clock);
    AdmitSlots(Heard(s, slot, clock), slot, Get(s, slot).session, nonce, destOk);
  }

  lemma DataSlots(s: State, index: u32, nonce: u64, alloc: bool, plain: Option<seq<byte>>, destOk: bool, clock: Clock)
    requires SlotsOk(s)
    ensures SlotsOk(Data(s, index, nonce, alloc, plain, destOk, clock))
  {
    hide SlotsOk, Expired, Arrived;
    match Lookup(s, index)
    case None =>
    case Some(slot) =>
      PutSlots(s, slot, DESTROYED);
      if plain.Some? { ArrivedSlots(s, slot, nonce, plain.value, destOk, clock); }
  }

  lemma StartSessionSlots(s: State, initiator: bool, now: u32)
    requires SlotsOk(s) && s.handshake.localIndex != 0
    ensures SlotsOk(StartSession(s, initiator, now))
  {
    hide Kdf.Tau;
  }

  lemma RespondSlots(s: State, sender: u32, dhOk: bool, index: u32, secrets: Handshake, now: u32)
    requires SlotsOk(s) && Unique(s, index)
    ensures SlotsOk(Respond(s, sender, dhOk, index, secrets, now))
  {
    hide StartSession;
    var h := secrets.(valid := true, initiator := false, remoteIndex := sender, localIndex := index);
    if dhOk { StartSessionSlots(s.(handshake := h), false, now); }
  }

  lemma CompleteSlots(s: State, receiver: u32, sender: u32, genuine: bool, secrets: Handshake, alloc: bool,
                      sendOk: bool, clock: Clock)
    requires SlotsOk(s)
    ensures SlotsOk(Complete(s, receiver, sender, genuine, secrets, alloc, sendOk, clock))
  {
    hide StartSession, Output;
    if s.handshake.valid && s.handshake.initiator && s.handshake.localIndex == receiver && genuine {
      var h := s.handshake.(remoteEphemeral := secrets.remoteEphemeral, hash := secrets.hash,
                            chainingKey := secrets.chainingKey, remoteIndex := sender);
      StartSessionSlots(s.(handshake := h), true, clock(3));
      OutputSlots(StartSession(s.(handshake := h), true, clock(3)), None, alloc, sendOk, clock);
    }
  }

  lemma BeforeInitiationSlots(s: State, alloc: bool, sendOk: bool, reap: Clock, keep: Clock)
    requires SlotsOk(s)
    ensures SlotsOk(BeforeInitiation(s, alloc, sendOk, reap, keep))
  {
    hide Output, Expired;
    OutputSlots(Reap(s, reap), None, alloc, sendOk, keep);
  }

  lemma InitiateSlots(s: State, dhOk: bool, index: u32, secrets: Handshake, alloc: bool, now: u32)
    requires SlotsOk(s) && Unique(s, index)
    ensures SlotsOk(Initiate(s, dhOk, index, secrets, alloc, now))
  {
  }

  lemma StepSlots(s: State, e: Event)
    requires SlotsOk(s) && Possible(s, e)
    ensures SlotsOk(Step(s, e))
  {
    hide Output, Data, Respond, Complete, Initiate, BeforeInitiation;
    match e
    case SendEvent(payload, alloc, sendOk, clock) => OutputSlots(s, payload, alloc, sendOk, clock);
    case DataEvent(index, nonce, alloc, plain, destOk, clock) =>
      DataSlots(s, index, nonce, alloc, plain, destOk, clock);
    case InitiationEvent(sender, dhOk, index, secrets, now) => RespondSlots(s, sender, dhOk, index, secrets, now);
    case ResponseEvent(receiver, sender, genuine, secrets, alloc, sendOk, clock) =>
      CompleteSlots(s, receiver, sender, genuine, secrets, alloc, sendOk, clock);
    case TimerEvent(alloc, sendOk, reap, keep, init, dhOk, index, secrets, initAlloc) =>
      BeforeInitiationSlots(s, alloc, sendOk, reap, keep);
      var t := BeforeInitiation(s, alloc, sendOk, reap, keep);
      if ShouldSendInitiation(t, init) { InitiateSlots(t, dhOk, index, secrets, initAlloc, init(2)); }
    case _ =>
  }

  /** The slot invariant holds in every reachable state. */
  lemma {:induction false} RunSlots(s: State, events: seq<Event>)
    requires SlotsOk(s) && PossibleRun(s, events)
    ensures SlotsOk(Run(s, events))
    decreases |events|
  {
    hide SlotsOk, Step, Possible;
    if events != [] {
      StepSlots(s, events[0]);
      RunSlots(Step(s, events[0]), events[1..]);
    }
  }

  // Nonces

  /** The counters used under one session, in order. */
  function Counters(sent: seq<Sent>, session: nat): seq<u64> {
    if sent == [] then []
    else
      var n := |sent| - 1;
      Counters(sent[..n], session) + if sent[n].session == session then [sent[n].counter] else []
  }

  function UpTo(n: u64): (c: seq<u64>)
    ensures |c| == n
  {
    seq(n, i requires 0 <= i < n => i)
  }

  /** Every session has used exactly the counters 0, 1, 2, ... below the limit. */
  ghost predicate NoncesInOrder(sent: seq<Sent>) {
    forall q: nat ::
      var n := |Counters(sent, q)|;
      n <= REJECT_AFTER_MESSAGES && Counters(sent, q) == UpTo(n)
  }

  /** The next counter of every valid keypair continues its session; sessions to come are unused. */
  ghost predicate CountersContinue(s: State) {
    && (forall q: nat :: q >= |s.roles| ==> Counters(s.sent, q) == [])
    && (s.curr.valid ==> |Counters(s.sent, s.curr.session)| == s.curr.sendingCounter)
    && (s.prev.valid ==> |Counters(s.sent, s.prev.session)| == s.prev.sendingCounter)
    && (s.next.valid ==> |Counters(s.sent, s.next.session)| == s.next.sendingCounter)
  }

  ghost predicate SentOk(s: State) {
    NoncesInOrder(s.sent) && CountersContinue(s)
  }

  lemma CountersAppend(sent: seq<Sent>, e: Sent, q: nat)
    ensures Counters(sent + [e], q) == Counters(sent, q) + if e.session == q then [e.counter] else []
  {
    assert (sent + [e])[..|sent|] == sent;
  }

  lemma EncryptSent(s: State, slot: Slot, plaintext: seq<byte>)
    requires SlotsOk(s) && SentOk(s) && Get(s, slot).valid
    requires Get(s, slot).sendingCounter < REJECT_AFTER_MESSAGES
    ensures SentOk(Encrypt(s, slot, plaintext))
  {
    var k := Get(s, slot);
    var e := Sent(k.session, k.sendingKey, k.sendingCounter, k.remoteIndex, plaintext);
    var t := Encrypt(s, slot, plaintext);
    assert t.sent == s.sent + [e];
    forall q: nat
      ensures Counters(t.sent, q) == Counters(s.sent, q) + if k.session == q then [k.sendingCounter] else []
    {
      CountersAppend(s.sent, e, q);
    }
    hide Counters, NoncesInOrder;
    NextNonce(s.sent, e);
  }

  lemma NextNonce(sent: seq<Sent>, e: Sent)
    requires NoncesInOrder(sent) && e.counter < REJECT_AFTER_MESSAGES && |Counters(sent, e.session)| == e.counter
    ensures NoncesInOrder(sent + [e])
  {
    hide Counters;
    assert UpTo(e.counter) + [e.counter] == UpTo(e.counter + 1);
    forall q: nat
      ensures var n := |Counters(sent + [e], q)|; n <= REJECT_AFTER_MESSAGES && Counters(sent + [e], q) == UpTo(n)
    {
      CountersAppend(sent, e, q);
      var n := |Counters(sent, q)|;
      assert n <= REJECT_AFTER_MESSAGES && Counters(sent, q) == UpTo(n);
    }
  }

  lemma OutputSent(s: State, payload: Option<seq<byte>>, alloc: bool, sendOk: bool, clock: Clock)
    requires SlotsOk(s) && SentOk(s)
    ensures SentOk(Output(s, payload, alloc, sendOk, clock))
  {
    hide Padded, Expired, Counters, NoncesInOrder, SlotsOk;
    var slot := SendingSlot(s);
    var k := Get(s, slot);
    if k.valid && k.sendingCounter < REJECT_AFTER_MESSAGES { EncryptSent(s, slot, Padded(payload)); }
  }

  lemma ArrivedSent(s: State, slot: Slot, nonce: u64, payload: seq<byte>, destOk: bool, clock: Clock)
    requires SentOk(s)
    ensures SentOk(Arrived(s, slot, nonce, payload, destOk, clock))
  {
    hide Expired, Check, Counters, NoncesInOrder;
    assert SentOk(Heard(s, slot, clock));
  }

  lemma DataSent(s: State, index: u32, nonce: u64, alloc: bool, plain: Option<seq<byte>>, destOk: bool, clock: Clock)
    requires SentOk(s)
    ensures SentOk(Data(s, index, nonce, alloc, plain, destOk, clock))
  {
    hide Expired, Arrived, Counters, NoncesInOrder;
    match Lookup(s, index)
    case None =>
    case Some(slot) =>
      if plain.Some? { ArrivedSent(s, slot, nonce, plain.value, destOk, clock); }
  }

  lemma StartSessionSent(s: State, initiator: bool, now: u32)
    requires SentOk(s)
    ensures SentOk(StartSession(s, initiator, now))
  {
    hide Kdf.Tau, Counters, NoncesInOrder;
    assert Counters(s.sent, |s.roles|) == [];
  }

  lemma StepSent(s: State, e: Event)
    requires SlotsOk(s) && SentOk(s) && Possible(s, e)
    ensures SentOk(Step(s, e))
  {
    hide Output, Data, StartSession, BeforeInitiation, NoncesInOrder, Counters;
    match e
    case SendEvent(payload, alloc, sendOk, clock) => OutputSent(s, payload, alloc, sendOk, clock);
    case DataEvent(index, nonce, alloc, plain, destOk, clock) => DataSent(s, index, nonce, alloc, plain, destOk, clock);
    case InitiationEvent(sender, dhOk, index, secrets, now) =>
      var h := secrets.(valid := true, initiator := false, remoteIndex := sender, localIndex := index);
      StartSessionSent(s.(handshake := h), false, now);
    case ResponseEvent(receiver, sender, genuine, secrets, alloc, sendOk, clock) =>
      if s.handshake.valid && s.handshake.initiator && s.handshake.localIndex == receiver && genuine {
        var h := s.handshake.(remoteEphemeral := secrets.remoteEphemeral, hash := secrets.hash,
                              chainingKey := secrets.chainingKey, remoteIndex := sender);
        StartSessionSent(s.(handshake := h), true, clock(3));
        StartSessionSlots(s.(handshake := h), true, clock(3));
        OutputSent(StartSession(s.(handshake := h), true, clock(3)), None, alloc, sendOk, clock);
      }
    case TimerEvent(alloc, sendOk, reap, keep, init, dhOk, index, secrets, initAlloc) =>
      BeforeInitiationSent(s, alloc, sendOk, reap, keep);
    case _ =>
  }

  lemma BeforeInitiationSent(s: State, alloc: bool, sendOk: bool, reap: Clock, keep: Clock)
    requires SlotsOk(s) && SentOk(s)
    ensures SentOk(BeforeInitiation(s, alloc, sendOk, reap, keep))
  {
    hide Output, Expired, Counters, NoncesInOrder;
    OutputSent(Reap(s, reap), None, alloc, sendOk, keep);
  }

  lemma {:induction false} RunSent(s: State, events: seq<Event>)
    requires SlotsOk(s) && SentOk(s) && PossibleRun(s, events)
    ensures SentOk(Run(s, events))
    decreases |events|
  {
    hide SlotsOk, SentOk, Step, Possible;
    if events != [] {
      StepSlots(s, events[0]);
      StepSent(s, events[0]);
      RunSent(Step(s, events[0]), events[1..]);
    }
  }

  /** No nonce reuse: over every run from a fresh peer, the counters handed to the cipher
      under one session are exactly 0, 1, 2, ... in order and below REJECT_AFTER_MESSAGES,
      however the session moves between slots. */
  lemma NoNonceReuse(s: State, events: seq<Event>)
    requires Initial(s) && PossibleRun(s, events)
    ensures NoncesInOrder(Run(s, events).sent)
  {
    hide Step, Possible;
    RunSent(s, events);
  }

  /** The slot invariant, from a fresh peer. */
  lemma SlotsDistinct(s: State, events: seq<Event>)
    requires Initial(s) && PossibleRun(s, events)
    ensures SlotsOk(Run(s, events))
  {
    hide Step, Possible;
    RunSlots(s, events);
  }
}
