/** What arrives between two peers when the network carries only what they sent: every payload
    that passes the replay check was sent by the other end for that session. */
module JointDelivery {
  import opened Bits
  import opened Bytes
  import opened Wrappers
  import opened Messages
  import opened Keypairs
  import opened Session
  import opened SessionSafety
  import opened SessionReplay
  import opened Noise
  import opened Transport
  import opened Timestamps
  import opened Joint
  import opened JointSafety
  import Kdf
  import Replay

  /** The packet addressed the session under which the payload was admitted, with its counter. */
  predicate Carries(r: Sent, receipt: Receipt, sessions: seq<Core>) {
    && receipt.session < |sessions|
    && r.counter == receipt.counter && r.receiver == sessions[receipt.session].local
  }

  /** ... and was sealed under the mirror image of that session, with the key that opens it. */
  predicate SealedFor(r: Sent, receipt: Receipt, sessions: seq<Core>, theirs: seq<Core>) {
    && Carries(r, receipt, sessions) && r.key == sessions[receipt.session].receiving
    && r.session < |theirs| && theirs[r.session] == Mirror(sessions[receipt.session])
  }

  ghost predicate WasSent(receipt: Receipt, sent: seq<Sent>, sessions: seq<Core>) {
    exists r :: r in sent && Carries(r, receipt, sessions)
  }

  ghost predicate Genuine(e: End, sent: seq<Sent>) {
    forall x :: x in e.state.receipts ==> WasSent(x, sent, e.sessions)
  }

  lemma GenuineMore(e: End, sent: seq<Sent>, f: End, more: seq<Sent>)
    requires Genuine(e, sent) && sent <= more
    requires f.state.receipts == e.state.receipts && e.sessions <= f.sessions
    ensures Genuine(f, more)
  {
    forall x | x in f.state.receipts ensures WasSent(x, more, f.sessions) {
      assert WasSent(x, sent, e.sessions);
      var r :| r in sent && Carries(r, x, e.sessions);
      assert r in more && Carries(r, x, f.sessions);
    }
  }

  /** No packet is heard that the peer did not make. */
  predicate NotForged(x: Action) {
    x.Local? ==> !x.event.DataEvent?
  }

  ghost predicate NoForgery(moves: seq<Move>) {
    forall i :: 0 <= i < |moves| ==> NotForged(moves[i].action)
  }

  // What single events do to the two logs

  lemma OutputLogs(s: State, payload: Option<seq<byte>>, alloc: bool, sendOk: bool, clock: Clock)
    ensures var t := Output(s, payload, alloc, sendOk, clock); s.sent <= t.sent && t.receipts == s.receipts
  {
    hide Padded, Expired;
  }

  lemma StartLogs(s: State, initiator: bool, now: u32)
    ensures var t := StartSession(s, initiator, now); t.sent == s.sent && t.receipts == s.receipts
  {
    hide Kdf.Tau;
  }

  lemma CompleteLogs(s: State, receiver: u32, sender: u32, genuine: bool, secrets: Handshake, alloc: bool,
                     sendOk: bool, clock: Clock)
    ensures var t := Complete(s, receiver, sender, genuine, secrets, alloc, sendOk, clock);
            s.sent <= t.sent && t.receipts == s.receipts
  {
    hide StartSession, Output;
    var h := s.handshake.(remoteEphemeral := secrets.remoteEphemeral, hash := secrets.hash,
                          chainingKey := secrets.chainingKey, remoteIndex := sender);
    StartLogs(s.(handshake := h), true, clock(3));
    OutputLogs(StartSession(s.(handshake := h), true, clock(3)), None, alloc, sendOk, clock);
  }

  lemma RespondLogs(s: State, sender: u32, dhOk: bool, index: u32, secrets: Handshake, now: u32)
    ensures var t := Respond(s, sender, dhOk, index, secrets, now); t.sent == s.sent && t.receipts == s.receipts
  {
    hide StartSession;
    var h := secrets.(valid := true, initiator := false, remoteIndex := sender, localIndex := index);
    StartLogs(s.(handshake := h), false, now);
  }

  lemma TickLogs(s: State, alloc: bool, sendOk: bool, reap: Clock, keep: Clock)
    ensures var t := BeforeInitiation(s, alloc, sendOk, reap, keep); s.sent <= t.sent && t.receipts == s.receipts
  {
    hide Output, Expired;
    OutputLogs(Reap(s, reap), None, alloc, sendOk, keep);
  }

  lemma HeardLogs(s: State, slot: Slot, clock: Clock)
    ensures var t := Heard(s, slot, clock); t.sent == s.sent && t.receipts == s.receipts
  {
    hide Expired;
  }

  /** The payload is admitted for the session of a slot, or no log changes. */
  predicate Admits(s: State, t: State, slot: Slot, nonce: u64, destOk: bool) {
    && t.sent == s.sent
    && (|| t.receipts == s.receipts
        || t.receipts == s.receipts + [Receipt(Get(s, slot).session, nonce, slot == Next, destOk)])
  }

  lemma AdmitLogs(s: State, q: State, slot: Slot, nonce: u64, destOk: bool)
    requires q.sent == s.sent && q.receipts == s.receipts
    ensures Admits(s, Admit(q, slot, Get(s, slot).session, nonce, destOk), slot, nonce, destOk)
  {
    hide Replay.Check;
  }

  /** A payload that passes the replay check does so for the keypair that its index selects. */
  lemma DataLogs(s: State, index: u32, nonce: u64, alloc: bool, plain: Option<seq<byte>>, destOk: bool, clock: Clock)
    ensures var t := Data(s, index, nonce, alloc, plain, destOk, clock);
            match Lookup(s, index)
            case None => t == s
            case Some(slot) => Admits(s, t, slot, nonce, destOk)
  {
    hide Expired, Heard, Admit;
    match Lookup(s, index)
    case None =>
    case Some(slot) =>
      HeardLogs(s, slot, clock);
      AdmitLogs(s, Heard(s, slot, clock), slot, nonce, destOk);
  }

  lemma EventLogs(s: State, e: Event)
    ensures s.sent <= Step(s, e).sent && (!e.DataEvent? ==> Step(s, e).receipts == s.receipts)
  {
    hide Output, Data, Respond, Complete, BeforeInitiation, ShouldSendInitiation;
    match e
    case SendEvent(payload, alloc, sendOk, clock) => OutputLogs(s, payload, alloc, sendOk, clock);
    case DataEvent(index, nonce, alloc, plain, destOk, clock) =>
      DataLogs(s, index, nonce, alloc, plain, destOk, clock);
    case InitiationEvent(sender, dhOk, index, secrets, now) => RespondLogs(s, sender, dhOk, index, secrets, now);
    case ResponseEvent(receiver, sender, genuine, secrets, alloc, sendOk, clock) =>
      CompleteLogs(s, receiver, sender, genuine, secrets, alloc, sendOk, clock);
    case TimerEvent(alloc, sendOk, reap, keep, init, dhOk, index, secrets, initAlloc) =>
      TickLogs(s, alloc, sendOk, reap, keep);
    case _ =>
  }

  lemma ActLogs(c: Config, e: End, peer: End, x: Action)
    requires MayAct(c, e, x)
    ensures e.state.sent <= Act(c, e, peer, x).state.sent && e.sessions <= Act(c, e, peer, x).sessions
    ensures NotForged(x) && !x.HearPacket? ==> Act(c, e, peer, x).state.receipts == e.state.receipts
  {
    hide Act, MayAct, Step, EventOf;
    ActIsStep(c, e, peer, x);
    EventLogs(e.state, EventOf(c, e, peer, x));
    ActAdds(c, e, peer, x);
    if NotForged(x) && !x.HearPacket? { DataEvents(c, e, peer, x); }
  }

  lemma DataEvents(c: Config, e: End, peer: End, x: Action)
    requires NotForged(x) && !x.HearPacket?
    ensures !EventOf(c, e, peer, x).DataEvent?
  {
    hide Process, Accepts, Answer, Finish, Create, BeforeInitiation;
  }

  // Every receipt

  lemma HeardGenuine(c: Config, e: End, peer: End, x: Action)
    requires x.HearPacket? && Within(e.state, e.sessions) && Genuine(e, peer.state.sent)
    ensures Genuine(Act(c, e, peer, x), peer.state.sent)
  {
    hide Data, Packet, TypeOf, Decrypted, TransportData.Wire, Within, Genuine;
    if x.i < |peer.state.sent| {
      var r := peer.state.sent[x.i];
      var data := Packet(r).Wire();
      PacketFields(r);
      if TypeOf(data) == TransportMessage && |data| < TWO32 {
        DataGenuine(e, peer.state.sent, r, x.alloc, Decrypted(e.state, data), x.destOk, x.clock);
      }
    }
  }

  lemma PacketFields(r: Sent)
    ensures var w := Packet(r).Wire(); |w| >= 16 && ReceiverOf(w) == r.receiver && CounterOf(w) == r.counter
  {
    hide TransportData.Wire;
    assert Packet(r).Valid();
    PacketType(Packet(r));
    TransportFields(Packet(r));
  }

  lemma DataGenuine(e: End, sent: seq<Sent>, r: Sent, alloc: bool, plain: Option<seq<byte>>, destOk: bool,
                    clock: Clock)
    requires Within(e.state, e.sessions) && Genuine(e, sent) && r in sent
    ensures Genuine(e.(state := Data(e.state, r.receiver, r.counter, alloc, plain, destOk, clock)), sent)
  {
    hide Data;
    var s := e.state;
    var t := Data(s, r.receiver, r.counter, alloc, plain, destOk, clock);
    DataLogs(s, r.receiver, r.counter, alloc, plain, destOk, clock);
    forall x | x in t.receipts ensures WasSent(x, sent, e.sessions) {
      if x !in s.receipts { assert Carries(r, x, e.sessions); }
    }
  }

  ghost predicate JointGenuine(j: Pair) {
    Genuine(j.a, j.b.state.sent) && Genuine(j.b, j.a.state.sent)
  }

  lemma ActGenuine(c: Config, e: End, peer: End, x: Action)
    requires MayAct(c, e, x) && NotForged(x) && EndOk(c, e, peer)
    requires Genuine(e, peer.state.sent) && Genuine(peer, e.state.sent)
    ensures var f := Act(c, e, peer, x); Genuine(f, peer.state.sent) && Genuine(peer, f.state.sent)
  {
    hide Act, MayAct, Genuine, DrawsDiffer, PendingOk, RepliesOk, SessionsOk, Within;
    var f := Act(c, e, peer, x);
    ActLogs(c, e, peer, x);
    GenuineMore(peer, e.state.sent, peer, f.state.sent);
    if x.HearPacket? {
      HeardGenuine(c, e, peer, x);
    } else {
      GenuineMore(e, peer.state.sent, f, peer.state.sent);
    }
  }

  lemma {:induction false} RunGenuine(c: Config, j: Pair, moves: seq<Move>)
    requires ConfigOk(c) && JointOk(c, j) && MayRun(c, j, moves) && NoForgery(moves) && JointGenuine(j)
    ensures JointGenuine(JointRun(c, j, moves))
    decreases |moves|
  {
    hide JointOk, ConfigOk, MayAct, JointStep, Genuine, NotForged;
    if moves != [] {
      StepGenuine(c, j, moves[0]);
      StepKeeps(c, j, moves[0]);
      RunGenuine(c, JointStep(c, j, moves[0]), moves[1..]);
    }
  }

  lemma StepGenuine(c: Config, j: Pair, x: Move)
    requires JointOk(c, j) && MayMove(c, j, x) && NotForged(x.action) && JointGenuine(j)
    ensures JointGenuine(JointStep(c, j, x))
  {
    hide Act, MayAct, Genuine, EndOk, NotForged, SlotsOk;
    match x
    case AtA(action) => ActGenuine(c, j.a, j.b, action);
    case AtB(action) => ActGenuine(Swapped(c), j.b, j.a, action);
  }

  /** A packet that carries a receipt was sealed for that session. */
  lemma CarriedKey(c: Config, e: End, peer: End, r: Sent, x: Receipt)
    requires EndOk(c, e, peer) && EndOk(Swapped(c), peer, e) && r in peer.state.sent && Carries(r, x, e.sessions)
    ensures SealedFor(r, x, e.sessions, peer.sessions)
  {
    hide EndOk, Agreements;
    SentAgreed(Swapped(c), peer, e, r);
    SessionAgreed(c, e, peer, x.session);
    AgreementsMirrored(peer, e, e.sessions[x.session]);
    assert Swapped(Swapped(c)) == c;
    OneSession(Swapped(c), peer, e, peer.sessions[r.session], Mirror(e.sessions[x.session]));
  }

  lemma SessionAgreed(c: Config, e: End, peer: End, i: nat)
    requires EndOk(c, e, peer) && i < |e.sessions|
    ensures e.sessions[i] in Agreements(e, peer)
  {
    hide Agreements, Within, PendingOk, RepliesOk, DrawsDiffer;
  }

  lemma SessionIndices(c: Config, e: End, peer: End, i: nat, k: nat)
    requires EndOk(c, e, peer) && i < |e.sessions| && k < |e.sessions| && e.sessions[i].local == e.sessions[k].local
    ensures i == k
  {
    hide Agreements, Within, PendingOk, RepliesOk, DrawsDiffer;
  }

  lemma StrangersGenuine(c: Config, j: Pair)
    requires Strangers(j)
    ensures JointGenuine(j)
  {
  }

  /** End to end, over every run in which the network loses, repeats and reorders packets but
      makes none: a payload that passes the replay check was sent by the other end, under the
      mirror image of the session that admits it and with that counter. */
  lemma DeliveredWasSent(c: Config, j: Pair, moves: seq<Move>, first: bool, x: Receipt)
    requires ConfigOk(c) && Strangers(j) && MayRun(c, j, moves) && NoForgery(moves)
    requires x in Side(JointRun(c, j, moves), first).state.receipts
    ensures var t := JointRun(c, j, moves);
            var e, peer := Side(t, first), Side(t, !first);
            exists r :: r in peer.state.sent && SealedFor(r, x, e.sessions, peer.sessions)
  {
    hide ConfigOk, Strangers, MayRun, NoForgery, JointRun, EndOk, Genuine, SlotsOk;
    StrangersOk(c, j);
    StrangersGenuine(c, j);
    JointRunKeeps(c, j, moves);
    RunGenuine(c, j, moves);
    var t := JointRun(c, j, moves);
    var e, peer := Side(t, first), Side(t, !first);
    assert WasSent(x, peer.state.sent, e.sessions) by { GenuineReceipt(e, peer.state.sent, x); }
    var r :| r in peer.state.sent && Carries(r, x, e.sessions);
    assert Swapped(Swapped(c)) == c;
    CarriedKey(if first then c else Swapped(c), e, peer, r, x);
  }

  lemma GenuineReceipt(e: End, sent: seq<Sent>, x: Receipt)
    requires Genuine(e, sent) && x in e.state.receipts
    ensures WasSent(x, sent, e.sessions)
  {
  }

  /** ... and, while no distance is harmful, no packet reaches the IP layer of its receiver twice
      through sessions that the receiver initiated. */
  lemma DeliveredOnce(c: Config, j: Pair, moves: seq<Move>, first: bool, r: Sent, i: nat, k: nat)
    requires ConfigOk(c) && Strangers(j) && MayRun(c, j, moves)
    requires HarmlessEvents(Side(j, first).state, EventsOf(c, j, moves, first))
    requires var e := Side(JointRun(c, j, moves), first);
             && i < k < |e.state.receipts|
             && InitiatorDelivery(e, i) && InitiatorDelivery(e, k)
    ensures var e := Side(JointRun(c, j, moves), first);
            !(Carries(r, e.state.receipts[i], e.sessions) && Carries(r, e.state.receipts[k], e.sessions))
  {
    hide ConfigOk, Strangers, MayRun, JointRun, EndOk, HarmlessEvents, PossibleRun, Run, SlotsOk;
    StrangersOk(c, j);
    JointRunKeeps(c, j, moves);
    EndsRun(c, j, moves, first);
    InitialSide(j, first);
    var t := JointRun(c, j, moves);
    var e, peer := Side(t, first), Side(t, !first);
    var x, y := e.state.receipts[i], e.state.receipts[k];
    if Carries(r, x, e.sessions) && Carries(r, y, e.sessions) {
      assert Swapped(Swapped(c)) == c;
      SessionIndices(if first then c else Swapped(c), e, peer, x.session, y.session);
      InitiatorExactlyOnce(Side(j, first).state, EventsOf(c, j, moves, first), i, k);
    }
  }

  /** A payload that went on to the IP layer in a session that this end initiated. */
  predicate InitiatorDelivery(e: End, i: nat)
    requires i < |e.state.receipts|
  {
    var x := e.state.receipts[i];
    x.delivered && x.session < |e.state.roles| && e.state.roles[x.session]
  }

  lemma InitialSide(j: Pair, first: bool)
    requires Strangers(j)
    ensures Initial(Side(j, first).state)
  {
  }

  // Few packets do no harm

  /** Fewer than 2^32 - 1 packets under any session. */
  ghost predicate FewSent(sent: seq<Sent>) {
    forall r :: r in sent ==> r.counter < TWO32 - 1
  }

  predicate Low(e: Event) {
    e.DataEvent? ==> e.nonce < TWO32 - 1
  }

  predicate WindowsLow(s: State) {
    s.curr.window.counter < TWO32 && s.prev.window.counter < TWO32 && s.next.window.counter < TWO32
  }

  lemma CheckLow(w: Replay.Window, nonce: u64)
    requires w.counter < TWO32 && nonce < TWO32 - 1
    ensures Replay.Check(w, nonce).0.counter < TWO32 && Replay.Harmless(w, nonce)
  {
    hide Replay.Shl, Replay.Or32, And, Bit;
  }

  lemma OutputLow(s: State, payload: Option<seq<byte>>, alloc: bool, sendOk: bool, clock: Clock)
    requires WindowsLow(s)
    ensures WindowsLow(Output(s, payload, alloc, sendOk, clock))
  {
    hide Padded, Expired;
  }

  lemma StartLow(s: State, initiator: bool, now: u32)
    requires WindowsLow(s)
    ensures WindowsLow(StartSession(s, initiator, now))
  {
    hide Kdf.Tau;
  }

  lemma HeardLow(s: State, slot: Slot, clock: Clock)
    requires WindowsLow(s)
    ensures WindowsLow(Heard(s, slot, clock))
  {
    hide Expired;
  }

  lemma AdmitLow(s: State, slot: Slot, session: nat, nonce: u64, destOk: bool)
    requires WindowsLow(s) && nonce < TWO32 - 1
    ensures WindowsLow(Admit(s, slot, session, nonce, destOk))
  {
    hide Replay.Check;
    CheckLow(Get(s, slot).window, nonce);
  }

  lemma DataLow(s: State, index: u32, nonce: u64, alloc: bool, plain: Option<seq<byte>>, destOk: bool, clock: Clock)
    requires WindowsLow(s) && nonce < TWO32 - 1
    ensures WindowsLow(Data(s, index, nonce, alloc, plain, destOk, clock))
  {
    hide Expired, Heard, Admit;
    match Lookup(s, index)
    case None =>
    case Some(slot) =>
      HeardLow(s, slot, clock);
      AdmitLow(Heard(s, slot, clock), slot, Get(s, slot).session, nonce, destOk);
  }

  lemma EventLow(s: State, e: Event)
    requires WindowsLow(s) && Low(e)
    ensures WindowsLow(Step(s, e))
  {
    hide Output, Data, Respond, Complete, BeforeInitiation, ShouldSendInitiation, WindowsLow;
    match e
    case SendEvent(payload, alloc, sendOk, clock) => OutputLow(s, payload, alloc, sendOk, clock);
    case DataEvent(index, nonce, alloc, plain, destOk, clock) =>
      DataLow(s, index, nonce, alloc, plain, destOk, clock);
    case InitiationEvent(sender, dhOk, index, secrets, now) => RespondLow(s, sender, dhOk, index, secrets, now);
    case ResponseEvent(receiver, sender, genuine, secrets, alloc, sendOk, clock) =>
      CompleteLow(s, receiver, sender, genuine, secrets, alloc, sendOk, clock);
    case TimerEvent(alloc, sendOk, reap, keep, init, dhOk, index, secrets, initAlloc) =>
      TickLow(s, alloc, sendOk, reap, keep);
      SameLow(BeforeInitiation(s, alloc, sendOk, reap, keep), Step(s, e));
    case ConnectEvent => SameLow(s, Step(s, e));
    case DisconnectEvent => DisconnectLow(s);
  }

  lemma SameLow(s: State, t: State)
    requires WindowsLow(s) && t.curr == s.curr && t.prev == s.prev && t.next == s.next
    ensures WindowsLow(t)
  {
  }

  lemma DisconnectLow(s: State)
    ensures WindowsLow(Disconnect(s))
  {
  }

  lemma RespondLow(s: State, sender: u32, dhOk: bool, index: u32, secrets: Handshake, now: u32)
    requires WindowsLow(s)
    ensures WindowsLow(Respond(s, sender, dhOk, index, secrets, now))
  {
    hide StartSession;
    var h := secrets.(valid := true, initiator := false, remoteIndex := sender, localIndex := index);
    StartLow(s.(handshake := h), false, now);
  }

  lemma CompleteLow(s: State, receiver: u32, sender: u32, genuine: bool, secrets: Handshake, alloc: bool,
                    sendOk: bool, clock: Clock)
    requires WindowsLow(s)
    ensures WindowsLow(Complete(s, receiver, sender, genuine, secrets, alloc, sendOk, clock))
  {
    hide StartSession, Output;
    var h := s.handshake.(remoteEphemeral := secrets.remoteEphemeral, hash := secrets.hash,
                          chainingKey := secrets.chainingKey, remoteIndex := sender);
    StartLow(s.(handshake := h), true, clock(3));
    OutputLow(StartSession(s.(handshake := h), true, clock(3)), None, alloc, sendOk, clock);
  }

  lemma TickLow(s: State, alloc: bool, sendOk: bool, reap: Clock, keep: Clock)
    requires WindowsLow(s)
    ensures WindowsLow(BeforeInitiation(s, alloc, sendOk, reap, keep))
  {
    hide Output, Expired;
    OutputLow(Reap(s, reap), None, alloc, sendOk, keep);
  }

  lemma LowHarmless(s: State, e: Event)
    requires WindowsLow(s) && Low(e)
    ensures HarmlessEvent(s, e)
  {
    hide Replay.Harmless, Lookup;
    if e.DataEvent? {
      match Lookup(s, e.index)
      case Some(slot) => CheckLow(Get(s, slot).window, e.nonce);
      case None =>
    }
  }

  lemma {:induction false} RunHarmless(s: State, events: seq<Event>)
    requires WindowsLow(s) && forall i :: 0 <= i < |events| ==> Low(events[i])
    ensures HarmlessEvents(s, events)
    decreases |events|
  {
    hide WindowsLow, Low, Step, HarmlessEvent;
    if events != [] {
      EventLow(s, events[0]);
      LowHarmless(s, events[0]);
      RunHarmless(Step(s, events[0]), events[1..]);
    }
  }

  lemma ActLow(c: Config, e: End, peer: End, x: Action)
    requires NotForged(x) && FewSent(peer.state.sent)
    ensures Low(EventOf(c, e, peer, x))
  {
    hide Packet, TransportData.Wire, Decrypted, TypeOf;
    if x.HearPacket? {
      if x.i < |peer.state.sent| { PacketFields(peer.state.sent[x.i]); }
    } else {
      DataEvents(c, e, peer, x);
    }
  }

  lemma MoveSent(c: Config, j: Pair, x: Move, first: bool)
    requires MayMove(c, j, x)
    ensures Side(j, first).state.sent <= Side(JointStep(c, j, x), first).state.sent
  {
    hide Act, MayAct;
    match x
    case AtA(action) => ActLogs(c, j.a, j.b, action);
    case AtB(action) => ActLogs(Swapped(c), j.b, j.a, action);
  }

  lemma {:induction false} RunSentGrows(c: Config, j: Pair, moves: seq<Move>, first: bool)
    requires MayRun(c, j, moves)
    ensures Side(j, first).state.sent <= Side(JointRun(c, j, moves), first).state.sent
    decreases |moves|
  {
    hide MayMove, JointStep, Side;
    if moves != [] {
      MoveSent(c, j, moves[0], first);
      RunSentGrows(c, JointStep(c, j, moves[0]), moves[1..], first);
    }
  }

  lemma {:induction false} EventsLow(c: Config, j: Pair, moves: seq<Move>, first: bool)
    requires MayRun(c, j, moves) && NoForgery(moves) && FewSent(Side(JointRun(c, j, moves), !first).state.sent)
    ensures forall i :: 0 <= i < |EventsOf(c, j, moves, first)| ==> Low(EventsOf(c, j, moves, first)[i])
    decreases |moves|
  {
    hide MayMove, JointStep, Side, NotForged, Low, EventsOfMove;
    if moves != [] {
      RunSentGrows(c, j, moves, !first);
      MoveLow(c, j, moves[0], first);
      EventsLow(c, JointStep(c, j, moves[0]), moves[1..], first);
    }
  }

  lemma MoveLow(c: Config, j: Pair, x: Move, first: bool)
    requires NotForged(x.action) && FewSent(Side(j, !first).state.sent)
    ensures forall i :: 0 <= i < |EventsOfMove(c, j, x, first)| ==> Low(EventsOfMove(c, j, x, first)[i])
  {
    hide EventOf, FewSent, Low, NotForged;
    match x
    case AtA(action) => if first { ActLow(c, j.a, j.b, action); }
    case AtB(action) => if !first { ActLow(Swapped(c), j.b, j.a, action); }
  }

  /** In particular whenever the sender used no session for 2^32 - 1 packets or more. */
  lemma FewDeliveredOnce(c: Config, j: Pair, moves: seq<Move>, first: bool, r: Sent, i: nat, k: nat)
    requires ConfigOk(c) && Strangers(j) && MayRun(c, j, moves) && NoForgery(moves)
    requires FewSent(Side(JointRun(c, j, moves), !first).state.sent)
    requires var e := Side(JointRun(c, j, moves), first);
             && i < k < |e.state.receipts|
             && InitiatorDelivery(e, i) && InitiatorDelivery(e, k)
    ensures var e := Side(JointRun(c, j, moves), first);
            !(Carries(r, e.state.receipts[i], e.sessions) && Carries(r, e.state.receipts[k], e.sessions))
  {
    hide ConfigOk, MayRun, JointRun, NoForgery, FewSent, HarmlessEvents, Low;
    assert WindowsLow(Side(j, first).state);
    EventsLow(c, j, moves, first);
    RunHarmless(Side(j, first).state, EventsOf(c, j, moves, first));
    DeliveredOnce(c, j, moves, first, r, i, k);
  }
}
