/** Replay protection over whole runs: which payloads pass the replay check how often,
    through promotions and rekeys. */
module SessionReplay {
  import opened Bits
  import opened Bytes
  import opened Wrappers
  import opened Replay
  import opened Keypairs
  import opened Session
  import opened SessionSafety
  import Kdf

  /** The sequence numbers that the window of a session has to know about. */
  ghost function Admitted(receipts: seq<Receipt>, session: nat): set<u64> {
    set r | r in receipts && r.session == session && !r.promoting :: Sequence(r.counter)
  }

  ghost predicate WindowOk(k: Keypair, receipts: seq<Receipt>) {
    k.valid ==> Represents(k.window, Admitted(receipts, k.session))
  }

  ghost predicate Unheard(k: Keypair, receipts: seq<Receipt>) {
    k.valid ==> forall r :: r in receipts ==> r.session != k.session
  }

  /** A payload of a session is admitted once; only a promoting packet escapes the window, at
      most once per session, and only in sessions of the responder role. */
  ghost predicate AdmittedOnce(receipts: seq<Receipt>, roles: seq<bool>) {
    && (forall r :: r in receipts ==> r.session < |roles| && (r.promoting ==> !roles[r.session]))
    && (forall i, j :: 0 <= i < j < |receipts| ==> !SamePayload(receipts[i], receipts[j]))
    && (forall i, j :: 0 <= i < j < |receipts| ==> !BothPromoting(receipts[i], receipts[j]))
  }

  predicate SamePayload(a: Receipt, b: Receipt) {
    a.session == b.session && a.counter == b.counter && a.promoting == b.promoting
  }

  predicate BothPromoting(a: Receipt, b: Receipt) {
    a.session == b.session && a.promoting && b.promoting
  }

  ghost predicate ReceiptsOk(s: State) {
    && WindowOk(s.curr, s.receipts) && WindowOk(s.prev, s.receipts) && WindowOk(s.next, s.receipts)
    && Unheard(s.next, s.receipts)
    && AdmittedOnce(s.receipts, s.roles)
  }

  lemma AdmittedAppend(receipts: seq<Receipt>, r: Receipt, q: nat)
    ensures Admitted(receipts + [r], q)
         == Admitted(receipts, q) + if r.session == q && !r.promoting then {Sequence(r.counter)} else {}
  {
  }

  lemma AdmittedOnceAppend(receipts: seq<Receipt>, r: Receipt, roles: seq<bool>)
    requires AdmittedOnce(receipts, roles) && r.session < |roles|
    requires !r.promoting ==> Sequence(r.counter) !in Admitted(receipts, r.session)
    requires r.promoting ==> !roles[r.session] && forall x :: x in receipts ==> x.session != r.session
    ensures AdmittedOnce(receipts + [r], roles)
  {
    var all := receipts + [r];
    forall x | x in receipts && !x.promoting ensures Sequence(x.counter) in Admitted(receipts, x.session) {
    }
    forall i, j | 0 <= i < j < |all| ensures !SamePayload(all[i], all[j]) && !BothPromoting(all[i], all[j]) {
      assert all[i] in receipts;
    }
  }

  lemma OtherWindow(k: Keypair, receipts: seq<Receipt>, r: Receipt)
    requires WindowOk(k, receipts) && (k.valid && r.session == k.session ==> r.promoting)
    ensures WindowOk(k, receipts + [r])
  {
    hide Represents;
    AdmittedAppend(receipts, r, k.session);
    hide Admitted;
    assert Admitted(receipts, k.session) + {} == Admitted(receipts, k.session);
  }

  /** A packet of the session in the current or previous slot is admitted exactly when the
      window's session has not admitted it and it is not too old. */
  lemma AdmitWindow(s: State, slot: Slot, nonce: u64, destOk: bool)
    requires SlotsOk(s) && ReceiptsOk(s) && slot != Next && Get(s, slot).valid
    requires Harmless(Get(s, slot).window, nonce)
    ensures ReceiptsOk(Admit(s, slot, Get(s, slot).session, nonce, destOk))
    ensures Admit(s, slot, Get(s, slot).session, nonce, destOk).receipts
         == s.receipts + if Acceptable(Get(s, slot).window, Admitted(s.receipts, Get(s, slot).session), nonce)
                         then [Receipt(Get(s, slot).session, nonce, false, destOk)] else []
  {
    hide Check, Represents, AdmittedOnce, Admitted;
    var k := Get(s, slot);
    CheckRefines(k.window, Admitted(s.receipts, k.session), nonce);
    var r := Receipt(k.session, nonce, false, destOk);
    if Check(k.window, nonce).1 {
      AdmittedAppend(s.receipts, r, k.session);
      AdmittedOnceAppend(s.receipts, r, s.roles);
      if slot == Curr { OtherWindow(s.prev, s.receipts, r); } else { OtherWindow(s.curr, s.receipts, r); }
      OtherWindow(s.next, s.receipts, r);
      UnheardAppend(s.next, s.receipts, r);
    }
  }

  lemma UnheardAppend(k: Keypair, receipts: seq<Receipt>, r: Receipt)
    requires Unheard(k, receipts) && (k.valid ==> r.session != k.session)
    ensures Unheard(k, receipts + [r])
  {
  }

  /** After a promotion the check runs on the cleared slot; the session itself, now current,
      learns nothing. */
  lemma AdmitPromoting(s: State, session: nat, nonce: u64, destOk: bool)
    requires ReceiptsOk(s) && !s.next.valid && session < |s.roles| && !s.roles[session]
    requires forall r :: r in s.receipts ==> r.session != session
    ensures ReceiptsOk(Admit(s, Next, session, nonce, destOk))
  {
    hide Check, Represents, AdmittedOnce, Admitted;
    var r := Receipt(session, nonce, true, destOk);
    AdmittedOnceAppend(s.receipts, r, s.roles);
    OtherWindow(s.curr, s.receipts, r);
    OtherWindow(s.prev, s.receipts, r);
  }

  lemma HeardReceipts(s: State, slot: Slot, clock: Clock)
    requires SlotsOk(s) && ReceiptsOk(s)
    ensures ReceiptsOk(Heard(s, slot, clock))
  {
    hide Expired, Represents, Admitted, AdmittedOnce;
  }

  /** The hypothesis on distances, for the session that a packet addresses; a packet that
      promotes its session needs none. */
  predicate HarmlessEvent(s: State, e: Event) {
    match e
    case DataEvent(index, nonce, _, _, _, _) =>
      (match Lookup(s, index)
       case Some(Next) => true
       case Some(slot) => Harmless(Get(s, slot).window, nonce)
       case None => true)
    case _ => true
  }

  predicate HarmlessEvents(s: State, events: seq<Event>)
    decreases |events|
  {
    events == [] || (HarmlessEvent(s, events[0]) && HarmlessEvents(Step(s, events[0]), events[1..]))
  }

  lemma ArrivedReceipts(s: State, slot: Slot, nonce: u64, payload: seq<byte>, destOk: bool, clock: Clock)
    requires SlotsOk(s) && ReceiptsOk(s) && Get(s, slot).valid
    requires slot != Next ==> Harmless(Get(s, slot).window, nonce)
    ensures ReceiptsOk(Arrived(s, slot, nonce, payload, destOk, clock))
  {
    HeardReceipts(s, slot, clock);
    HeardSlots(s, slot, clock);
    var q := Heard(s, slot, clock);
    assert slot == Next ==> !q.next.valid && q.receipts == s.receipts && q.roles == s.roles by { hide Expired; }
    assert slot != Next ==> Get(q, slot) == Get(s, slot).(lastRx := clock(1)) by { hide Expired; }
    hide ReceiptsOk, Heard, Admit, Represents;
    if slot == Next {
      PromotedUnheard(s);
      AdmitPromoting(q, s.next.session, nonce, destOk);
    } else {
      AdmitWindow(q, slot, nonce, destOk);
    }
  }

  lemma PromotedUnheard(s: State)
    requires SlotsOk(s) && ReceiptsOk(s) && s.next.valid
    ensures s.next.session < |s.roles| && !s.roles[s.next.session]
    ensures forall r :: r in s.receipts ==> r.session != s.next.session
  {
  }

  lemma DataReceipts(s: State, index: u32, nonce: u64, alloc: bool, plain: Option<seq<byte>>, destOk: bool,
                     clock: Clock)
    requires SlotsOk(s) && ReceiptsOk(s) && HarmlessEvent(s, DataEvent(index, nonce, alloc, plain, destOk, clock))
    ensures ReceiptsOk(Data(s, index, nonce, alloc, plain, destOk, clock))
  {
    hide Expired, Arrived, Represents, AdmittedOnce, Admitted, Harmless;
    match Lookup(s, index)
    case None =>
    case Some(slot) =>
      if plain.Some? { ArrivedReceipts(s, slot, nonce, plain.value, destOk, clock); }
  }

  lemma OutputReceipts(s: State, payload: Option<seq<byte>>, alloc: bool, sendOk: bool, clock: Clock)
    requires ReceiptsOk(s)
    ensures ReceiptsOk(Output(s, payload, alloc, sendOk, clock))
  {
    hide Padded, Expired, Represents, AdmittedOnce, Admitted;
    var slot := SendingSlot(s);
    if Get(s, slot).sendingCounter < REJECT_AFTER_MESSAGES {
      assert ReceiptsOk(Encrypt(s, slot, Padded(payload)));
    }
  }

  lemma StartSessionReceipts(s: State, initiator: bool, now: u32)
    requires ReceiptsOk(s)
    ensures ReceiptsOk(StartSession(s, initiator, now))
  {
    hide Kdf.Tau, Represents;
    var q := |s.roles|;
    assert Admitted(s.receipts, q) == {};
    FreshRepresents();
    assert AdmittedOnce(s.receipts, s.roles + [initiator]);
    hide Admitted, AdmittedOnce;
  }

  lemma BeforeInitiationReceipts(s: State, alloc: bool, sendOk: bool, reap: Clock, keep: Clock)
    requires ReceiptsOk(s)
    ensures ReceiptsOk(BeforeInitiation(s, alloc, sendOk, reap, keep))
  {
    hide Output, Expired, Represents, Admitted, AdmittedOnce;
    OutputReceipts(Reap(s, reap), None, alloc, sendOk, keep);
  }

  lemma StepReceipts(s: State, e: Event)
    requires SlotsOk(s) && ReceiptsOk(s) && HarmlessEvent(s, e)
    ensures ReceiptsOk(Step(s, e))
  {
    hide Output, Data, StartSession, BeforeInitiation, Represents, Admitted, AdmittedOnce;
    match e
    case SendEvent(payload, alloc, sendOk, clock) => OutputReceipts(s, payload, alloc, sendOk, clock);
    case DataEvent(index, nonce, alloc, plain, destOk, clock) =>
      DataReceipts(s, index, nonce, alloc, plain, destOk, clock);
    case InitiationEvent(sender, dhOk, index, secrets, now) =>
      var h := secrets.(valid := true, initiator := false, remoteIndex := sender, localIndex := index);
      StartSessionReceipts(s.(handshake := h), false, now);
    case ResponseEvent(receiver, sender, genuine, secrets, alloc, sendOk, clock) =>
      var h := s.handshake.(remoteEphemeral := secrets.remoteEphemeral, hash := secrets.hash,
                            chainingKey := secrets.chainingKey, remoteIndex := sender);
      StartSessionReceipts(s.(handshake := h), true, clock(3));
      OutputReceipts(StartSession(s.(handshake := h), true, clock(3)), None, alloc, sendOk, clock);
    case TimerEvent(alloc, sendOk, reap, keep, init, dhOk, index, secrets, initAlloc) =>
      BeforeInitiationReceipts(s, alloc, sendOk, reap, keep);
    case _ =>
  }

  lemma {:induction false} RunReceipts(s: State, events: seq<Event>)
    requires SlotsOk(s) && ReceiptsOk(s) && PossibleRun(s, events) && HarmlessEvents(s, events)
    ensures ReceiptsOk(Run(s, events))
    decreases |events|
  {
    hide SlotsOk, ReceiptsOk, Step, Possible, HarmlessEvent;
    if events != [] {
      StepSlots(s, events[0]);
      StepReceipts(s, events[0]);
      RunReceipts(Step(s, events[0]), events[1..]);
    }
  }

  /** Over every run from a fresh peer without harmful distances, the receipts satisfy
      AdmittedOnce. */
  lemma PayloadsAdmittedOnce(s: State, events: seq<Event>)
    requires Initial(s) && PossibleRun(s, events) && HarmlessEvents(s, events)
    ensures var t := Run(s, events); AdmittedOnce(t.receipts, t.roles)
  {
    hide Step, Possible, HarmlessEvent;
    RunReceipts(s, events);
  }

  /** In particular no counter of an initiator-role session reaches the IP layer twice. */
  lemma InitiatorExactlyOnce(s: State, events: seq<Event>, i: nat, j: nat)
    requires Initial(s) && PossibleRun(s, events) && HarmlessEvents(s, events)
    requires var t := Run(s, events);
             && i < j < |t.receipts| && t.receipts[i].delivered && t.receipts[j].delivered
             && t.receipts[i].session == t.receipts[j].session
             && t.receipts[i].session < |t.roles| && t.roles[t.receipts[i].session]
    ensures Run(s, events).receipts[i].counter != Run(s, events).receipts[j].counter
  {
    hide Run, PossibleRun, HarmlessEvents;
    PayloadsAdmittedOnce(s, events);
    var t := Run(s, events);
    assert t.receipts[i] in t.receipts && t.receipts[j] in t.receipts;
  }

  /** For responder-role sessions the promise fails, for every promoting packet: delivered
      again while the session is still accepted, it reaches the IP layer a second time. */
  lemma PromotingPacketTwice(s: State, index: u32, nonce: u64, payload: seq<byte>, c1: Clock, c2: Clock)
    requires SlotsOk(s) && ReceiptsOk(s) && Lookup(s, index) == Some(Next)
    requires payload != [] && Sequence(nonce) != 0
    requires !Expired(c1(0), s.next.millis, REJECT_AFTER_TIME) && !Expired(c2(0), s.next.millis, REJECT_AFTER_TIME)
    ensures var once := Data(s, index, nonce, true, Some(payload), true, c1);
            var twice := Data(once, index, nonce, true, Some(payload), true, c2);
            var r := Receipt(s.next.session, nonce, true, true);
            twice.receipts == s.receipts + [r] + [r.(promoting := false)]
  {
    assert s.next.window.counter == 0;
    hide Expired, Represents, Admitted, AdmittedOnce, Bit, And, Or32, Shl, Sequence;
    var once := Data(s, index, nonce, true, Some(payload), true, c1);
    var r := Receipt(s.next.session, nonce, true, true);
    assert once.receipts == s.receipts + [r];
    assert once.curr == s.next.(lastRx := c1(1));
  }

  /** The exact condition: a payload that has been admitted is rejected when it comes again
      at once, if and only if its session was not in the next slot. */
  lemma RejectedAgainExactly(s: State, index: u32, nonce: u64, payload: seq<byte>, c1: Clock, c2: Clock)
    requires SlotsOk(s) && ReceiptsOk(s) && payload != []
    requires var once := Data(s, index, nonce, true, Some(payload), true, c1); once.receipts != s.receipts
    requires Lookup(s, index) == Some(Next) ==> !Expired(c2(0), s.next.millis, REJECT_AFTER_TIME)
    ensures var once := Data(s, index, nonce, true, Some(payload), true, c1);
            var twice := Data(once, index, nonce, true, Some(payload), true, c2);
            twice.receipts == once.receipts <==> Lookup(s, index) != Some(Next)
  {
    hide Data, ReceiptsOk;
    AdmittedIf(s, index, nonce, payload, c1);
    var once := Data(s, index, nonce, true, Some(payload), true, c1);
    var twice := Data(once, index, nonce, true, Some(payload), true, c2);
    if Lookup(s, index) == Some(Next) {
      PromotingPacketTwice(s, index, nonce, payload, c1, c2);
      assert |twice.receipts| == |s.receipts| + 2;
      assert |once.receipts| <= |s.receipts| + 1 by { OneReceipt(s, index, nonce, payload, c1); }
    } else {
      var slot := Lookup(s, index).value;
      DuplicateRejected(Get(s, slot).window, nonce);
      LookupExact(once, index, slot);
      SameWindow(once, index, slot, nonce, payload, c2);
    }
  }

  lemma OneReceipt(s: State, index: u32, nonce: u64, payload: seq<byte>, clock: Clock)
    ensures |Data(s, index, nonce, true, Some(payload), true, clock).receipts| <= |s.receipts| + 1
  {
    hide Expired, Check, Arrived;
    match Lookup(s, index)
    case None =>
    case Some(slot) => OneReceiptArrived(s, slot, nonce, payload, clock);
  }

  lemma OneReceiptArrived(s: State, slot: Slot, nonce: u64, payload: seq<byte>, clock: Clock)
    ensures |Arrived(s, slot, nonce, payload, true, clock).receipts| <= |s.receipts| + 1
  {
    hide Expired, Check;
  }

  /** What an admitted payload tells about the state it came to and the state it leaves. */
  lemma AdmittedIf(s: State, index: u32, nonce: u64, payload: seq<byte>, clock: Clock)
    requires SlotsOk(s) && payload != []
    requires var once := Data(s, index, nonce, true, Some(payload), true, clock); once.receipts != s.receipts
    ensures Lookup(s, index).Some?
    ensures var once := Data(s, index, nonce, true, Some(payload), true, clock); var slot := Lookup(s, index).value;
            if slot == Next then !Expired(clock(0), s.next.millis, REJECT_AFTER_TIME) && Sequence(nonce) != 0
            else
              && SlotsOk(once) && Get(once, slot).valid && Get(once, slot).localIndex == index
              && Check(Get(s, slot).window, nonce).1 && Get(once, slot).window == Check(Get(s, slot).window, nonce).0
  {
    hide Expired, Check, Arrived;
    DataSlots(s, index, nonce, true, Some(payload), true, clock);
    hide SlotsOk;
    if Lookup(s, index) == Some(Next) {
      AdmittedNext(s, nonce, payload, clock);
    } else if Lookup(s, index).Some? {
      AdmittedHere(s, Lookup(s, index).value, nonce, payload, clock);
    }
  }

  lemma AdmittedNext(s: State, nonce: u64, payload: seq<byte>, clock: Clock)
    requires Arrived(s, Next, nonce, payload, true, clock).receipts != s.receipts
    ensures Sequence(nonce) != 0
  {
    hide Expired, Check;
    CheckFresh(nonce);
  }

  lemma AdmittedHere(s: State, slot: Slot, nonce: u64, payload: seq<byte>, clock: Clock)
    requires slot != Next && payload != []
    ensures var once := Arrived(s, slot, nonce, payload, true, clock); var (v, ok) := Check(Get(s, slot).window, nonce);
            && Get(once, slot) == Get(s, slot).(lastRx := clock(1), window := v)
            && (once.receipts != s.receipts <==> ok)
  {
    hide Expired, Check;
  }

  lemma CheckFresh(nonce: u64)
    ensures Check(FRESH, nonce).1 ==> Sequence(nonce) != 0
  {
    hide Or32, Shl;
  }

  /** A payload that the window rejects leaves no receipt. */
  lemma SameWindow(s: State, index: u32, slot: Slot, nonce: u64, payload: seq<byte>, clock: Clock)
    requires Lookup(s, index) == Some(slot) && slot != Next && !Check(Get(s, slot).window, nonce).1
    ensures Data(s, index, nonce, true, Some(payload), true, clock).receipts == s.receipts
  {
    hide Expired, Check;
  }

  /** Such a packet exists in a run from every fresh peer: one initiation fills the next slot,
      and a packet under the new session, sent twice, reaches the IP layer twice. */
  lemma DeliveredTwice(s: State, sender: u32, index: u32, secrets: Handshake, now: u32,
                       nonce: u64, payload: seq<byte>, c: Clock)
    requires Initial(s) && Assignable(index) && payload != [] && Sequence(nonce) != 0
    requires !Expired(c(0), now, REJECT_AFTER_TIME)
    ensures var packet := DataEvent(index, nonce, true, Some(payload), true, c);
            var events := [InitiationEvent(sender, true, index, secrets, now), packet, packet];
            && PossibleRun(s, events)
            && Run(s, events).receipts == [Receipt(0, nonce, true, true), Receipt(0, nonce, false, true)]
  {
    hide SlotsOk, ReceiptsOk, Run, PossibleRun, Data, Respond, Lookup, Initial, Unique, Sequence, Assignable;
    var first := InitiationEvent(sender, true, index, secrets, now);
    var packet := DataEvent(index, nonce, true, Some(payload), true, c);
    var t := Step(s, first);
    NextFilled(s, sender, index, secrets, now);
    StepSlots(s, first);
    StepReceipts(s, first);
    PromotingPacketTwice(t, index, nonce, payload, c, c);
    ThreeSteps(s, first, packet, packet);
  }

  /** After one initiation the index of the answer selects the next slot. */
  lemma NextFilled(s: State, sender: u32, index: u32, secrets: Handshake, now: u32)
    requires Initial(s) && Assignable(index)
    ensures SlotsOk(s) && ReceiptsOk(s) && Possible(s, InitiationEvent(sender, true, index, secrets, now))
    ensures var t := Step(s, InitiationEvent(sender, true, index, secrets, now));
            && Lookup(t, index) == Some(Next) && t.next.session == 0 && t.next.millis == now && t.receipts == []
  {
    hide Kdf.Tau;
  }

  lemma ThreeSteps(s: State, a: Event, b: Event, c: Event)
    ensures Run(s, [a, b, c]) == Step(Step(Step(s, a), b), c)
    ensures PossibleRun(s, [a, b, c]) <==> Possible(s, a) && Possible(Step(s, a), b) && Possible(Step(Step(s, a), b), c)
  {
    hide Step, Possible;
    assert [a, b, c][1..] == [b, c] && [b, c][1..] == [c];
    var t := Step(Step(s, a), b);
    assert Run(Step(s, a), [b, c]) == Run(t, [c]);
    assert Run(t, [c]) == Run(Step(t, c), []) == Step(t, c) by { assert [c][1..] == []; }
    assert PossibleRun(Step(s, a), [b, c]) == (Possible(Step(s, a), b) && PossibleRun(Step(Step(s, a), b), [c]));
    assert PossibleRun(Step(Step(s, a), b), [c]) == Possible(Step(Step(s, a), b), c);
  }
}
