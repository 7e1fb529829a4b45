/** What whole runs never do with a session: send or admit anything when it is 180 s old, or send
    in a session that the peer started before hearing from the peer in it. */
module SessionRuns {
  import opened Bits
  import opened Bytes
  import opened Wrappers
  import opened Keypairs
  import opened Session
  import opened SessionSafety
  import opened SessionLaws
  import Replay
  import Kdf

  /** When the event starts a session: its time. */
  function Starts(s: State, e: Event): seq<u32> {
    match e
    case InitiationEvent(_, dhOk, _, _, now) => if dhOk then [now] else []
    case ResponseEvent(receiver, _, genuine, _, _, _, clock) =>
      var h := s.handshake;
      if h.valid && h.initiator && h.localIndex == receiver && genuine then [clock(3)] else []
    case _ => []
  }

  /** The sessions in which the event hears from the peer. */
  function Hearing(s: State, e: Event): set<nat> {
    match e
    case DataEvent(index, _, alloc, plain, _, clock) =>
      (match Lookup(s, index)
       case None => {}
       case Some(slot) =>
         if Hears(Get(s, slot), clock(0)) && alloc && plain.Some? then {Get(s, slot).session} else {})
    case _ => {}
  }

  /** The reading of the clock with which the event tests the age of a session. */
  function Tested(e: Event): u32 {
    match e
    case SendEvent(_, _, _, clock) => clock(0)
    case DataEvent(_, _, _, _, _, clock) => clock(0)
    case ResponseEvent(_, _, _, _, _, _, clock) => clock(0)
    case TimerEvent(_, _, _, keep, _, _, _, _, _) => keep(0)
    case _ => 0
  }

  /** The start times of all sessions of a run, in order. */
  function BornIn(s: State, events: seq<Event>): seq<u32> {
    if events == [] then []
    else
      var n := |events| - 1;
      BornIn(s, events[..n]) + Starts(Run(s, events[..n]), events[n])
  }

  /** All sessions in which the peer has been heard. */
  function HeardIn(s: State, events: seq<Event>): set<nat> {
    if events == [] then {}
    else
      var n := |events| - 1;
      HeardIn(s, events[..n]) + Hearing(Run(s, events[..n]), events[n])
  }

  // What every step keeps

  /** What is known about a keypair: when its session started, and whether it has been heard. */
  predicate Known(k: Keypair, born: seq<u32>, heard: set<nat>) {
    k.valid ==>
      k.session < |born| && k.millis == born[k.session] && (k.initiator || k.lastRx == 0 || k.session in heard)
  }

  predicate AllKnown(s: State, born: seq<u32>, heard: set<nat>) {
    |born| == |s.roles| && Known(s.curr, born, heard) && Known(s.prev, born, heard) && Known(s.next, born, heard)
  }

  /** A packet may be sent in the session now. */
  predicate Proper(r: Sent, roles: seq<bool>, born: seq<u32>, heard: set<nat>, now: u32) {
    && r.session < |roles| == |born| && (now - born[r.session]) % TWO32 < 180_000
    && (roles[r.session] || r.session in heard)
  }

  predicate SendsProperly(s: State, t: State, born: seq<u32>, heard: set<nat>, now: u32) {
    t.sent == s.sent || (t.sent != [] && t.sent == s.sent + [t.sent[|t.sent| - 1]]
                         && Proper(t.sent[|t.sent| - 1], t.roles, born, heard, now))
  }

  lemma OutputKnown(s: State, born: seq<u32>, heard: set<nat>, payload: Option<seq<byte>>, alloc: bool, sendOk: bool,
                    clock: Clock)
    requires SlotsOk(s) && AllKnown(s, born, heard)
    ensures var t := Output(s, payload, alloc, sendOk, clock);
            AllKnown(t, born, heard) && SendsProperly(s, t, born, heard, clock(0)) && t.receipts == s.receipts
            && t.roles == s.roles
  {
    hide Padded, Output;
    SentExactly(s, payload, alloc, sendOk, clock);
  }

  /** A payload is admitted for a session only while it is young. */
  predicate AdmitsProperly(s: State, t: State, born: seq<u32>, now: u32) {
    t.receipts == s.receipts || (t.receipts != [] && t.receipts == s.receipts + [t.receipts[|t.receipts| - 1]]
                                 && var x := t.receipts[|t.receipts| - 1];
                                 x.session < |born| && (now - born[x.session]) % TWO32 < 180_000)
  }

  lemma DataKnown(s: State, born: seq<u32>, heard: set<nat>, e: Event)
    requires SlotsOk(s) && AllKnown(s, born, heard) && e.DataEvent?
    ensures var t := Step(s, e);
            && AllKnown(t, born, heard + Hearing(s, e)) && AdmitsProperly(s, t, born, e.clock(0))
            && t.sent == s.sent && t.roles == s.roles
  {
    hide Data, Lookup, Hears, AllKnown, AdmitsProperly;
    match e
    case DataEvent(index, nonce, alloc, plain, destOk, clock) =>
      Unchanged(s, born, clock(0));
      match Lookup(s, index)
      case None =>
        Unknown(s, index, nonce, alloc, plain, destOk, clock);
        assert heard + Hearing(s, e) == heard;
      case Some(slot) =>
        Selected(s, index, slot);
        HeardExactly(s, index, nonce, alloc, plain, destOk, clock, slot);
        if Hears(Get(s, slot), clock(0)) && alloc && plain.Some? {
          HeardKnown(s, Data(s, index, nonce, alloc, plain, destOk, clock), born, heard, slot, nonce, plain.value,
                     destOk, clock);
        } else {
          DestroyKnown(s, born, heard, slot, clock(0));
          assert heard + Hearing(s, e) == heard;
        }
  }

  lemma Unchanged(s: State, born: seq<u32>, now: u32)
    ensures AdmitsProperly(s, s, born, now)
  {
  }

  lemma DestroyKnown(s: State, born: seq<u32>, heard: set<nat>, slot: Slot, now: u32)
    requires AllKnown(s, born, heard)
    ensures var t := Put(s, slot, DESTROYED);
            AllKnown(t, born, heard) && AdmitsProperly(s, t, born, now) && t.sent == s.sent && t.roles == s.roles
  {
  }

  lemma Unknown(s: State, index: u32, nonce: u64, alloc: bool, plain: Option<seq<byte>>, destOk: bool, clock: Clock)
    requires Lookup(s, index) == None
    ensures Data(s, index, nonce, alloc, plain, destOk, clock) == s
  {
  }

  lemma Selected(s: State, index: u32, slot: Slot)
    requires Lookup(s, index) == Some(slot)
    ensures Get(s, slot).valid
  {
  }

  lemma KnownMore(s: State, born: seq<u32>, heard: set<nat>, more: set<nat>)
    requires AllKnown(s, born, heard) && heard <= more
    ensures AllKnown(s, born, more)
  {
  }

  lemma HeardKnown(s: State, t: State, born: seq<u32>, heard: set<nat>, slot: Slot, nonce: u64, payload: seq<byte>,
                   destOk: bool, clock: Clock)
    requires AllKnown(s, born, heard) && Get(s, slot).valid && Hears(Get(s, slot), clock(0))
    requires HeardAs(s, t, slot, nonce, payload, destOk, clock)
    ensures AllKnown(t, born, heard + {Get(s, slot).session}) && AdmitsProperly(s, t, born, clock(0))
    ensures t.sent == s.sent && t.roles == s.roles
  {
    hide Replay.Check, Rekeys;
  }

  lemma StartKnown(s: State, born: seq<u32>, heard: set<nat>, initiator: bool, now: u32)
    requires AllKnown(s, born, heard)
    ensures var t := StartSession(s, initiator, now);
            && AllKnown(t, born + [now], heard) && t.sent == s.sent && t.receipts == s.receipts
            && t.roles == s.roles + [initiator]
  {
    hide Kdf.Tau;
  }

  lemma ReapKnown(s: State, born: seq<u32>, heard: set<nat>, clock: Clock)
    requires AllKnown(s, born, heard)
    ensures var t := Reap(s, clock);
            AllKnown(t, born, heard) && t.sent == s.sent && t.receipts == s.receipts && t.roles == s.roles
  {
    hide Reap;
    ReapExactly(s, clock);
  }

  /** Everything that an event must not do. */
  predicate StepsProperly(s: State, e: Event, born: seq<u32>, heard: set<nat>) {
    var t, b := Step(s, e), born + Starts(s, e);
    && SendsProperly(s, t, b, heard, Tested(e)) && AdmitsProperly(s, t, b, Tested(e))
  }

  lemma RespondKnown(s: State, born: seq<u32>, heard: set<nat>, e: Event)
    requires AllKnown(s, born, heard) && e.InitiationEvent?
    ensures AllKnown(Step(s, e), born + Starts(s, e), heard) && StepsProperly(s, e, born, heard)
  {
    hide StartSession;
    match e
    case InitiationEvent(sender, dhOk, index, secrets, now) =>
      var h := secrets.(valid := true, initiator := false, remoteIndex := sender, localIndex := index);
      if dhOk { StartKnown(s.(handshake := h), born, heard, false, now); }
  }

  lemma CompleteKnown(s: State, born: seq<u32>, heard: set<nat>, e: Event)
    requires SlotsOk(s) && AllKnown(s, born, heard) && e.ResponseEvent?
    ensures AllKnown(Step(s, e), born + Starts(s, e), heard) && StepsProperly(s, e, born, heard)
  {
    hide StartSession, Output;
    match e
    case ResponseEvent(receiver, sender, genuine, secrets, alloc, sendOk, clock) =>
      if s.handshake.valid && s.handshake.initiator && s.handshake.localIndex == receiver && genuine {
        var h := s.handshake.(remoteEphemeral := secrets.remoteEphemeral, hash := secrets.hash,
                              chainingKey := secrets.chainingKey, remoteIndex := sender);
        StartKnown(s.(handshake := h), born, heard, true, clock(3));
        StartSessionSlots(s.(handshake := h), true, clock(3));
        OutputKnown(StartSession(s.(handshake := h), true, clock(3)), born + [clock(3)], heard, None, alloc, sendOk,
                    clock);
      }
  }

  lemma TickKnown(s: State, born: seq<u32>, heard: set<nat>, e: Event)
    requires SlotsOk(s) && AllKnown(s, born, heard) && e.TimerEvent?
    ensures AllKnown(Step(s, e), born + Starts(s, e), heard) && StepsProperly(s, e, born, heard)
  {
    hide BeforeInitiation, AllKnown, SlotsOk, SendsProperly, AdmitsProperly, InitiatedAs, ShouldSendInitiation,
         Initiate;
    assert born + Starts(s, e) == born;
    match e
    case TimerEvent(alloc, sendOk, reap, keep, init, dhOk, index, secrets, initAlloc) =>
      BeforeKnown(s, born, heard, alloc, sendOk, reap, keep);
      var v := BeforeInitiation(s, alloc, sendOk, reap, keep);
      Initiates(v, dhOk, index, secrets, initAlloc, init(2));
      InitiatedKnown(v, Initiate(v, dhOk, index, secrets, initAlloc, init(2)), born, heard, dhOk, index, secrets,
                     initAlloc, init(2));
      SameLogs(s, v, Step(s, e), born, heard, keep(0));
  }

  lemma Initiates(s: State, dhOk: bool, index: u32, secrets: Handshake, alloc: bool, now: u32)
    ensures InitiatedAs(s, Initiate(s, dhOk, index, secrets, alloc, now), dhOk, index, secrets, alloc, now)
  {
  }

  lemma SameLogs(s: State, v: State, t: State, born: seq<u32>, heard: set<nat>, now: u32)
    requires SendsProperly(s, v, born, heard, now) && v.receipts == s.receipts
    requires t.sent == v.sent && t.roles == v.roles && t.receipts == v.receipts
    ensures SendsProperly(s, t, born, heard, now) && AdmitsProperly(s, t, born, now)
  {
  }

  lemma BeforeKnown(s: State, born: seq<u32>, heard: set<nat>, alloc: bool, sendOk: bool, reap: Clock, keep: Clock)
    requires SlotsOk(s) && AllKnown(s, born, heard)
    ensures var v := BeforeInitiation(s, alloc, sendOk, reap, keep);
            && AllKnown(v, born, heard) && SendsProperly(s, v, born, heard, keep(0))
            && v.receipts == s.receipts && v.roles == s.roles
  {
    hide Output, Reap, ShouldSendKeepalive, AllKnown, SlotsOk, Proper;
    ReapKnown(s, born, heard, reap);
    ReapSlots(s, reap);
    OutputKnown(Reap(s, reap), born, heard, None, alloc, sendOk, keep);
  }

  lemma InitiatedKnown(s: State, t: State, born: seq<u32>, heard: set<nat>, dhOk: bool, index: u32,
                       secrets: Handshake, alloc: bool, now: u32)
    requires AllKnown(s, born, heard) && InitiatedAs(s, t, dhOk, index, secrets, alloc, now)
    ensures AllKnown(t, born, heard) && t.sent == s.sent && t.receipts == s.receipts && t.roles == s.roles
  {
  }

  lemma ReapSlots(s: State, clock: Clock)
    requires SlotsOk(s)
    ensures SlotsOk(Reap(s, clock))
  {
    hide Reap;
    ReapExactly(s, clock);
  }

  /** Every event keeps what is known, and sends and admits properly. */
  lemma StepKnown(s: State, born: seq<u32>, heard: set<nat>, e: Event)
    requires SlotsOk(s) && AllKnown(s, born, heard)
    ensures AllKnown(Step(s, e), born + Starts(s, e), heard + Hearing(s, e)) && StepsProperly(s, e, born, heard)
  {
    hide Output, Data, Respond, Complete, Tick, SlotsOk, Hearing;
    match e
    case SendEvent(payload, alloc, sendOk, clock) =>
      OutputKnown(s, born, heard, payload, alloc, sendOk, clock);
      KnownMore(Step(s, e), born, heard, heard + Hearing(s, e));
    case DataEvent(index, nonce, alloc, plain, destOk, clock) => DataKnown(s, born, heard, e);
    case InitiationEvent(sender, dhOk, index, secrets, now) =>
      RespondKnown(s, born, heard, e);
      KnownMore(Step(s, e), born + Starts(s, e), heard, heard + Hearing(s, e));
    case ResponseEvent(receiver, sender, genuine, secrets, alloc, sendOk, clock) =>
      CompleteKnown(s, born, heard, e);
      KnownMore(Step(s, e), born + Starts(s, e), heard, heard + Hearing(s, e));
    case TimerEvent(alloc, sendOk, reap, keep, init, dhOk, index, secrets, initAlloc) =>
      TickKnown(s, born, heard, e);
      KnownMore(Step(s, e), born + Starts(s, e), heard, heard + Hearing(s, e));
    case ConnectEvent => KnownMore(Step(s, e), born, heard, heard + Hearing(s, e));
    case DisconnectEvent => KnownMore(Step(s, e), born, heard, heard + Hearing(s, e));
  }

  // Every run

  lemma {:induction false} RunSnoc(s: State, events: seq<Event>)
    requires events != [] && PossibleRun(s, events)
    ensures var n := |events| - 1;
            && PossibleRun(s, events[..n]) && Possible(Run(s, events[..n]), events[n])
            && Run(s, events) == Step(Run(s, events[..n]), events[n])
    decreases |events|
  {
    hide Step, Possible;
    var n := |events| - 1;
    if n == 0 {
      assert events[..0] == [] && events[1..] == [];
    } else {
      RunSnoc(Step(s, events[0]), events[1..]);
      assert events[1..][..n - 1] == events[..n][1..] && events[1..][n - 1] == events[n];
    }
  }

  lemma {:induction false} RunKnown(s: State, events: seq<Event>)
    requires Initial(s) && PossibleRun(s, events)
    ensures AllKnown(Run(s, events), BornIn(s, events), HeardIn(s, events)) && SlotsOk(Run(s, events))
    decreases |events|
  {
    hide SlotsOk, AllKnown, Step, Possible, Starts, Hearing, PossibleRun, Run;
    if events == [] {
      NothingKnown(s);
    } else {
      var n := |events| - 1;
      RunSnoc(s, events);
      RunKnown(s, events[..n]);
      StepKnown(Run(s, events[..n]), BornIn(s, events[..n]), HeardIn(s, events[..n]), events[n]);
      StepSlots(Run(s, events[..n]), events[n]);
    }
  }

  lemma NothingKnown(s: State)
    requires Initial(s)
    ensures AllKnown(Run(s, []), [], {}) && SlotsOk(Run(s, []))
  {
  }

  /** In every run from a fresh peer, whatever a step sends goes out under a session that is less
      than 180 s old by the clock reading of that step, and that this end initiated or has
      already heard its peer in; and whatever it admits belongs to a session less than 180 s
      old. */
  lemma YoungAndConfirmed(s: State, events: seq<Event>, i: nat)
    requires Initial(s) && PossibleRun(s, events) && i < |events|
    ensures StepsProperly(Run(s, events[..i]), events[i], BornIn(s, events[..i]), HeardIn(s, events[..i]))
  {
    hide SlotsOk, AllKnown, Step, Possible, Starts, Hearing, PossibleRun, Run, StepsProperly, BornIn, HeardIn;
    PrefixPossible(s, events, i);
    RunKnown(s, events[..i]);
    StepKnown(Run(s, events[..i]), BornIn(s, events[..i]), HeardIn(s, events[..i]), events[i]);
  }

  lemma {:induction false} PrefixPossible(s: State, events: seq<Event>, i: nat)
    requires PossibleRun(s, events) && i <= |events|
    ensures PossibleRun(s, events[..i])
    decreases |events|
  {
    hide PossibleRun, Run, Possible, Step;
    if i == |events| {
      assert events[..i] == events;
    } else {
      var n := |events| - 1;
      RunSnoc(s, events);
      PrefixPossible(s, events[..n], i);
      assert events[..n][..i] == events[..i];
    }
  }
}
