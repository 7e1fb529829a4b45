/** What every interleaving of two peers keeps: keypairs whose indices match have mirrored
    keys, and whatever one has ever sent opens at the other or finds no keypair. */
module JointSafety {
  import opened Bytes
  import opened Wrappers
  import opened Messages
  import opened Keypairs
  import opened Session
  import opened SessionSafety
  import opened Noise
  import opened Transport
  import opened Timestamps
  import opened Tunnel
  import Kdf
  import opened Joint

  // States within the sessions of an end

  predicate Named(k: Keypair, sessions: seq<Core>) {
    k.valid ==> k.session < |sessions| && CoreOf(k) == sessions[k.session]
  }

  predicate SentUnder(r: Sent, sessions: seq<Core>) {
    r.session < |sessions| && sessions[r.session].sending == r.key && sessions[r.session].remote == r.receiver
  }

  /** All that the state holds and has sent belongs to these sessions. */
  ghost predicate Within(s: State, sessions: seq<Core>) {
    && |s.roles| == |sessions| && Named(s.curr, sessions) && Named(s.prev, sessions) && Named(s.next, sessions)
    && (forall r :: r in s.sent ==> SentUnder(r, sessions))
  }

  /** The new state holds what the old one did, up to times, counters and windows, and has
      sent nothing more. */
  predicate Follows(s: State, t: State) {
    && t.handshake == s.handshake && t.sent == s.sent && t.roles == s.roles
    && KeepsCore(s.curr, t.curr) && KeepsCore(s.prev, t.prev) && KeepsCore(s.next, t.next)
  }

  predicate KeepsCore(k: Keypair, n: Keypair) {
    n.valid ==> k.valid && CoreOf(n) == CoreOf(k) && n.session == k.session
  }

  lemma FollowsWithin(s: State, t: State, sessions: seq<Core>)
    requires Within(s, sessions) && Follows(s, t)
    ensures Within(t, sessions)
  {
    hide SentUnder;
  }

  lemma OutputWithin(s: State, sessions: seq<Core>, payload: Option<seq<byte>>, alloc: bool, sendOk: bool, clock: Clock)
    requires Within(s, sessions)
    ensures var t := Output(s, payload, alloc, sendOk, clock); Within(t, sessions) && t.handshake == s.handshake
  {
    hide Padded, Expired, Within, Encrypt, Transmitted;
    var slot := SendingSlot(s);
    FollowsWithin(s, Put(s, slot, DESTROYED), sessions);
    if Get(s, slot).valid && Get(s, slot).sendingCounter < REJECT_AFTER_MESSAGES {
      EncryptWithin(s, sessions, slot, Padded(payload));
      TransmittedWithin(Encrypt(s, slot, Padded(payload)), sessions, slot, sendOk, clock);
    }
  }

  lemma EncryptWithin(s: State, sessions: seq<Core>, slot: Slot, plaintext: seq<byte>)
    requires Within(s, sessions) && Get(s, slot).valid && Get(s, slot).sendingCounter < REJECT_AFTER_MESSAGES
    ensures Within(Encrypt(s, slot, plaintext), sessions) && Encrypt(s, slot, plaintext).handshake == s.handshake
  {
    var k := Get(s, slot);
    var r := Sent(k.session, k.sendingKey, k.sendingCounter, k.remoteIndex, plaintext);
    assert SentUnder(r, sessions);
    hide SentUnder;
  }

  lemma TransmittedWithin(s: State, sessions: seq<Core>, slot: Slot, sendOk: bool, clock: Clock)
    requires Within(s, sessions)
    ensures var t := Transmitted(s, slot, sendOk, clock); Within(t, sessions) && t.handshake == s.handshake
  {
    hide Within, Expired;
    FollowsWithin(s, Transmitted(s, slot, sendOk, clock), sessions);
  }

  lemma HeardWithin(s: State, sessions: seq<Core>, slot: Slot, clock: Clock)
    requires Within(s, sessions)
    ensures Within(Heard(s, slot, clock), sessions) && Heard(s, slot, clock).handshake == s.handshake
  {
    hide Expired, SentUnder;
  }

  lemma AdmitWithin(s: State, sessions: seq<Core>, slot: Slot, session: nat, nonce: u64, destOk: bool)
    requires Within(s, sessions)
    ensures var t := Admit(s, slot, session, nonce, destOk); Within(t, sessions) && t.handshake == s.handshake
  {
    hide Within, Replay.Check;
    FollowsWithin(s, Admit(s, slot, session, nonce, destOk), sessions);
  }

  lemma DataWithin(s: State, sessions: seq<Core>, index: u32, nonce: u64, alloc: bool, plain: Option<seq<byte>>,
                   destOk: bool, clock: Clock)
    requires Within(s, sessions)
    ensures var t := Data(s, index, nonce, alloc, plain, destOk, clock);
            Within(t, sessions) && t.handshake == s.handshake
  {
    hide Expired, Within, Heard, Admit;
    match Lookup(s, index)
    case None =>
    case Some(slot) =>
      FollowsWithin(s, Put(s, slot, DESTROYED), sessions);
      HeardWithin(s, sessions, slot, clock);
      AdmitWithin(Heard(s, slot, clock), sessions, slot, Get(s, slot).session, nonce, destOk);
  }

  lemma LocalWithin(s: State, sessions: seq<Core>, e: Event)
    requires Within(s, sessions) && IsLocal(e)
    ensures Within(Step(s, e), sessions) && Step(s, e).handshake == s.handshake
  {
    hide Output, Data, Within;
    match e
    case SendEvent(payload, alloc, sendOk, clock) => OutputWithin(s, sessions, payload, alloc, sendOk, clock);
    case DataEvent(index, nonce, alloc, plain, destOk, clock) =>
      DataWithin(s, sessions, index, nonce, alloc, plain, destOk, clock);
    case ConnectEvent => FollowsWithin(s, Step(s, e), sessions);
    case DisconnectEvent => FollowsWithin(s, Step(s, e), sessions);
  }

  lemma BeforeWithin(s: State, sessions: seq<Core>, alloc: bool, sendOk: bool, reap: Clock, keep: Clock)
    requires Within(s, sessions)
    ensures var t := BeforeInitiation(s, alloc, sendOk, reap, keep); Within(t, sessions) && t.handshake == s.handshake
  {
    hide Output, Expired, SentUnder;
    OutputWithin(Reap(s, reap), sessions, None, alloc, sendOk, keep);
  }

  lemma StartWithin(s: State, sessions: seq<Core>, h: Handshake, initiator: bool, now: u32)
    requires Within(s, sessions)
    ensures var t := StartSession(s.(handshake := h), initiator, now);
            Within(t, sessions + [CoreOf(NewKeypair(h, initiator, 0, 0))]) && t.handshake == IDLE
  {
    hide Kdf.Tau, SentUnder;
    forall r | r in s.sent ensures SentUnder(r, sessions + [CoreOf(NewKeypair(h, initiator, 0, 0))]) {
      SentUnderMore(r, sessions, CoreOf(NewKeypair(h, initiator, 0, 0)));
    }
  }

  lemma SentUnderMore(r: Sent, sessions: seq<Core>, x: Core)
    requires SentUnder(r, sessions)
    ensures SentUnder(r, sessions + [x])
  {
  }

  lemma InitiateWithin(s: State, sessions: seq<Core>, index: u32, h: Handshake, alloc: bool, now: u32)
    requires Within(s, sessions)
    ensures Within(Initiate(s, true, index, h, alloc, now), sessions)
  {
    hide SentUnder;
  }

  // What every step keeps

  /** All indices that an end has used for handshakes are different. */
  ghost predicate DrawsDiffer(e: End) {
    && (forall i, j :: 0 <= i < j < |e.offers| ==> e.offers[i].pending.localIndex != e.offers[j].pending.localIndex)
    && (forall i, j :: 0 <= i < j < |e.replies| ==> e.replies[i].core.local != e.replies[j].core.local)
    && (forall i, j :: 0 <= i < |e.offers| && 0 <= j < |e.replies| ==>
          e.offers[i].pending.localIndex != e.replies[j].core.local)
  }

  predicate Made(c: Config, o: Offer) {
    hide Create;
    Create(c.dh, c.device, c.remote, o.base, o.ephemeral, o.timestamp, o.pending.localIndex)
    == Some((o.message, o.pending))
  }

  /** A pending handshake is that of the latest initiation. */
  ghost predicate PendingOk(c: Config, e: End) {
    && (forall i :: 0 <= i < |e.offers| ==> Made(c, e.offers[i]))
    && (e.state.handshake.valid && e.state.handshake.initiator ==>
          e.offers != [] && e.state.handshake == e.offers[|e.offers| - 1].pending)
  }

  /** The response completes this end's initiation with the mirror image of the session. */
  predicate Fits(c: Config, o: Offer, r: Reply) {
    hide Finish, NewKeypair;
    && r.message.Valid() && r.message.receiver == o.pending.localIndex == r.core.remote
    && var f := Finish(c.dh, c.device, c.remote, o.pending, r.message);
    f.Some? && CoreOf(NewKeypair(f.value, true, 0, 0)) == Mirror(r.core)
  }

  ghost predicate Answers(c: Config, e: End, peer: End, r: Reply) {
    && r.offer < |peer.offers| && Fits(Swapped(c), peer.offers[r.offer], r)
    && FromBE(peer.offers[r.offer].timestamp) <= FromBE(e.memory.greatest)
  }

  /** Every answer fits the initiation that it answers, and no initiation has two. */
  ghost predicate RepliesOk(c: Config, e: End, peer: End) {
    && (forall j :: 0 <= j < |e.replies| ==> Answers(c, e, peer, e.replies[j]))
    && (forall i, j :: 0 <= i < j < |e.replies| ==> e.replies[i].offer != e.replies[j].offer)
  }

  /** All sessions that the two ends agreed on: those that this end answered and those that its
      peer did. */
  ghost function Agreements(e: End, peer: End): set<Core> {
    (set j | 0 <= j < |e.replies| :: e.replies[j].core)
    + (set j | 0 <= j < |peer.replies| :: Mirror(peer.replies[j].core))
  }

  /** The index of a session is different from those of all others and of the pending handshake. */
  ghost predicate SessionsOk(e: End, peer: End) {
    && (forall i :: 0 <= i < |e.sessions| ==> e.sessions[i] in Agreements(e, peer))
    && (forall i, j :: 0 <= i < j < |e.sessions| ==> e.sessions[i].local != e.sessions[j].local)
    && (e.state.handshake.valid && e.state.handshake.initiator ==>
          forall i :: 0 <= i < |e.sessions| ==> e.sessions[i].local != e.state.handshake.localIndex)
  }

  ghost predicate EndOk(c: Config, e: End, peer: End) {
    DrawsDiffer(e) && PendingOk(c, e) && RepliesOk(c, e, peer) && SessionsOk(e, peer) && Within(e.state, e.sessions)
  }

  lemma AnswersOnly(c: Config, e: End, peer: End, f: End)
    requires RepliesOk(c, e, peer) && f.replies == e.replies && FromBE(e.memory.greatest) <= FromBE(f.memory.greatest)
    ensures RepliesOk(c, f, peer)
  {
    hide Fits, FromBE;
    forall j | 0 <= j < |f.replies| ensures Answers(c, f, peer, f.replies[j]) {
      assert Answers(c, e, peer, e.replies[j]);
    }
  }

  lemma SameAgreements(e: End, peer: End, f: End)
    requires f.replies == e.replies
    ensures Agreements(f, peer) == Agreements(e, peer)
  {
  }

  /** A step that makes no message and no session. */
  lemma StateKeeps(c: Config, e: End, peer: End, t: State)
    requires EndOk(c, e, peer) && Within(t, e.sessions)
    requires t.handshake == e.state.handshake || !t.handshake.valid || !t.handshake.initiator
    ensures EndOk(c, e.(state := t), peer)
  {
    var f := e.(state := t);
    hide Within, Made, RepliesOk, Agreements;
    AnswersOnly(c, e, peer, f);
    SameAgreements(e, peer, f);
  }

  lemma LocalKeeps(c: Config, e: End, peer: End, event: Event)
    requires EndOk(c, e, peer) && IsLocal(event)
    ensures EndOk(c, e.(state := Step(e.state, event)), peer)
  {
    LocalWithin(e.state, e.sessions, event);
    hide Step, Within;
    StateKeeps(c, e, peer, Step(e.state, event));
  }

  lemma BeforeKeeps(c: Config, e: End, peer: End, alloc: bool, sendOk: bool, reap: Clock, keep: Clock)
    requires EndOk(c, e, peer)
    ensures EndOk(c, e.(state := BeforeInitiation(e.state, alloc, sendOk, reap, keep)), peer)
  {
    hide BeforeInitiation, Within;
    BeforeWithin(e.state, e.sessions, alloc, sendOk, reap, keep);
    StateKeeps(c, e, peer, BeforeInitiation(e.state, alloc, sendOk, reap, keep));
  }

  /** What one end does never disturbs what the other has. */
  lemma PeerKeeps(c: Config, e: End, peer: End, f: End)
    requires EndOk(c, e, peer) && peer.offers <= f.offers && peer.replies <= f.replies
    ensures EndOk(c, e, f)
  {
    hide Within, Made, Fits, Agreements, FromBE;
    forall j | 0 <= j < |e.replies| ensures Answers(c, e, f, e.replies[j]) {
      assert Answers(c, e, peer, e.replies[j]);
    }
    AgreementsGrow(e, peer, f);
  }

  lemma AgreementsGrow(e: End, peer: End, f: End)
    requires peer.replies <= f.replies
    ensures Agreements(e, peer) <= Agreements(e, f)
  {
    forall x | x in Agreements(e, peer) ensures x in Agreements(e, f) {
      if j :| 0 <= j < |peer.replies| && x == Mirror(peer.replies[j].core) {
        assert peer.replies[j] == f.replies[j];
      }
    }
  }

  // Making an initiation

  lemma OfferedKeeps(c: Config, e: End, peer: End, ephemeral: Key, timestamp: Timestamp, index: u32,
                     scratch: Handshake, alloc: bool, now: u32)
    requires EndOk(c, e, peer) && EndOk(Swapped(c), peer, e)
    requires Draws(e, index) && Usable(c.dh, ephemeral, c.remote.publicKey)
    ensures EndOk(c, Offered(c, e, ephemeral, timestamp, index, scratch, alloc, now), peer)
  {
    hide Create, Initiate, Within, Unique, Usable;
    CreateSome(c.dh, c.device, c.remote, e.state.handshake, ephemeral, timestamp, index);
    var (m, h) := Create(c.dh, c.device, c.remote, e.state.handshake, ephemeral, timestamp, index).value;
    var t := Initiate(e.state, true, index, h, alloc, now);
    InitiateStores(c.dh, c.device, c.remote, e.state, ephemeral, timestamp, index, m, h, alloc, now);
    InitiateWithin(e.state, e.sessions, index, h, alloc, now);
    CreatedIndex(c, e.state.handshake, ephemeral, timestamp, index);
    var o := Offer(e.state.handshake, ephemeral, timestamp, m, h);
    assert Made(c, o);
    AppendOffer(c, e, peer, t, o);
  }

  lemma CreatedIndex(c: Config, h: Handshake, ephemeral: Key, timestamp: Timestamp, index: u32)
    requires Create(c.dh, c.device, c.remote, h, ephemeral, timestamp, index).Some?
    ensures Create(c.dh, c.device, c.remote, h, ephemeral, timestamp, index).value.1.localIndex == index
  {
    hide Opening, Identified;
  }

  /** The step that makes an initiation. */
  lemma AppendOffer(c: Config, e: End, peer: End, t: State, o: Offer)
    requires EndOk(c, e, peer) && EndOk(Swapped(c), peer, e)
    requires Draws(e, o.pending.localIndex) && Made(c, o) && t.handshake == o.pending && Within(t, e.sessions)
    ensures EndOk(c, e.(state := t, offers := e.offers + [o]), peer)
  {
    var f := e.(state := t, offers := e.offers + [o]);
    hide Within, Made, RepliesOk, Agreements, Unique;
    AnswersOnly(c, e, peer, f);
    SameAgreements(e, peer, f);
    DrawnAnew(c, e, peer, o.pending.localIndex);
  }

  /** A fresh index is that of no session. */
  lemma DrawnAnew(c: Config, e: End, peer: End, index: u32)
    requires EndOk(c, e, peer) && EndOk(Swapped(c), peer, e) && Draws(e, index)
    ensures forall i :: 0 <= i < |e.sessions| ==> e.sessions[i].local != index
  {
    hide Within, PendingOk, RepliesOk, DrawsDiffer, Unique;
    forall i | 0 <= i < |e.sessions| ensures e.sessions[i].local != index {
      if j :| 0 <= j < |e.replies| && e.sessions[i] == e.replies[j].core {
      } else {
        var j :| 0 <= j < |peer.replies| && e.sessions[i] == Mirror(peer.replies[j].core);
        ReplyRemote(Swapped(c), peer, e, j);
      }
    }
  }

  // Answering

  /** The peer's initiation is understood, and an answer to it fits. */
  lemma AnswerFits(c: Config, h: Handshake, o: Offer, ephemeral: Key, index: u32, i: nat)
    requires ConfigOk(c) && Made(Swapped(c), o)
    ensures o.message.Valid()
    ensures var p := Process(c.dh, c.device, c.remote, h, o.message);
            && p.Some? && p.value.0 == o.timestamp
            && var a := Answer(c.dh, c.remote, p.value.1, ephemeral, index);
            a.Some? ==> var r := Reply(i, a.value.0, CoreOf(NewKeypair(a.value.1, false, 0, 0)));
                        Fits(Swapped(c), o, r) && r.core.local == index
  {
    hide Commutes, Paired, Create, Process, Answer, Finish, NewKeypair;
    SwappedOk(c);
    HandshakeAgreement(c.dh, c.peerDevice, c.peerRemote, c.device, c.remote, o.base, h, o.ephemeral, ephemeral,
                       o.timestamp, o.pending.localIndex, index, 0, 0, 0, 0);
    var p := Process(c.dh, c.device, c.remote, h, o.message).value.1;
    var a := Answer(c.dh, c.remote, p, ephemeral, index);
    if a.Some? {
      AnsweredIndex(c, p, ephemeral, index);
      FinishedIndex(Swapped(c), o.pending, a.value.0);
      NewCore(a.value.1, false);
      NewCore(Finish(c.dh, c.peerDevice, c.peerRemote, o.pending, a.value.0).value, true);
    }
  }

  lemma NewCore(h: Handshake, initiator: bool)
    ensures var k := NewKeypair(h, initiator, 0, 0);
            k.localIndex == h.localIndex && k.remoteIndex == h.remoteIndex && k.initiator == initiator
  {
    hide Kdf.Tau;
  }

  lemma AnsweredIndex(c: Config, h: Handshake, ephemeral: Key, index: u32)
    requires Answer(c.dh, c.remote, h, ephemeral, index).Some?
    ensures Answer(c.dh, c.remote, h, ephemeral, index).value.1.localIndex == index
  {
    hide Answering;
  }

  lemma FinishedIndex(c: Config, h: Handshake, m: Response)
    requires m.Valid() && Finish(c.dh, c.device, c.remote, h, m).Some?
    ensures Finish(c.dh, c.device, c.remote, h, m).value.localIndex == h.localIndex
  {
    hide Answering;
  }

  /** A greater remembered timestamp. */
  lemma MemoryKeeps(c: Config, e: End, peer: End, memory: Memory)
    requires EndOk(c, e, peer) && FromBE(e.memory.greatest) <= FromBE(memory.greatest)
    ensures EndOk(c, e.(memory := memory), peer)
  {
    var f := e.(memory := memory);
    hide Within, Made, RepliesOk, Agreements;
    AnswersOnly(c, e, peer, f);
    SameAgreements(e, peer, f);
  }

  /** The step that makes a response: its initiation is newer than all answered before. */
  lemma AppendReply(c: Config, e: End, peer: End, t: State, memory: Memory, r: Reply)
    requires EndOk(c, e, peer) && EndOk(Swapped(c), peer, e)
    requires Draws(e, r.core.local) && r.offer < |peer.offers|
    requires FromBE(peer.offers[r.offer].timestamp) > FromBE(e.memory.greatest)
    requires memory.greatest == peer.offers[r.offer].timestamp && t.handshake == IDLE
    requires Within(t, e.sessions + [r.core]) && Fits(Swapped(c), peer.offers[r.offer], r)
    ensures EndOk(c, e.(state := t, memory := memory, replies := e.replies + [r], sessions := e.sessions + [r.core]),
                  peer)
  {
    var f := e.(state := t, memory := memory, replies := e.replies + [r], sessions := e.sessions + [r.core]);
    hide Within, Made, RepliesOk, Unique, FromBE, Agreements, Fits;
    NewReply(c, e, peer, f, r);
    ReplyAdds(e, f, peer, r);
    DrawnAnew(c, e, peer, r.core.local);
  }

  lemma NewReply(c: Config, e: End, peer: End, f: End, r: Reply)
    requires RepliesOk(c, e, peer) && f.replies == e.replies + [r] && r.offer < |peer.offers|
    requires FromBE(peer.offers[r.offer].timestamp) > FromBE(e.memory.greatest)
    requires f.memory.greatest == peer.offers[r.offer].timestamp && Fits(Swapped(c), peer.offers[r.offer], r)
    ensures RepliesOk(c, f, peer)
  {
    hide Fits, FromBE;
    forall j | 0 <= j < |f.replies|
      ensures Answers(c, f, peer, f.replies[j]) && (j < |e.replies| ==> f.replies[j].offer != r.offer)
    {
      if j < |e.replies| { assert Answers(c, e, peer, e.replies[j]); }
    }
  }

  lemma ReplyAdds(e: End, f: End, peer: End, r: Reply)
    requires f.replies == e.replies + [r]
    ensures Agreements(f, peer) == Agreements(e, peer) + {r.core}
  {
    forall x | x in Agreements(e, peer) + {r.core} ensures x in Agreements(f, peer) {
      if j :| 0 <= j < |e.replies| && x == e.replies[j].core {
        assert f.replies[j].core == x;
      } else if x == r.core {
        assert f.replies[|e.replies|].core == x;
      }
    }
  }

  lemma Accepted(memory: Memory, a: Attempt)
    ensures var n := Remember(memory, a);
            && FromBE(memory.greatest) <= FromBE(n.greatest)
            && (Accepts(memory, a) ==> n.greatest == a.timestamp && FromBE(memory.greatest) < FromBE(a.timestamp))
  {
    hide FromBE, Memcmp;
    MemcmpOrders(a.timestamp, memory.greatest);
  }

  /** What hearing an initiation with this timestamp makes of an end, and of its answer. */
  predicate RepliedAs(e: End, r: End, i: nat, sender: u32, timestamp: Timestamp, answer: Option<(Response, Handshake)>,
                      index: u32, scratch: Handshake, now: u32) {
    hide Accepts, Respond, StartSession, NewKeypair;
    if !Accepts(e.memory, Attempt(timestamp, now)) then r == e
    else
      match answer
      case None =>
        r == e.(memory := Memory(timestamp, now), state := Respond(e.state, sender, false, index, scratch, now))
      case Some((m, h)) =>
        r == e.(state := StartSession(e.state.(handshake := h), false, now), memory := Memory(timestamp, now),
                replies := e.replies + [Reply(i, m, CoreOf(NewKeypair(h, false, 0, 0)))],
                sessions := e.sessions + [CoreOf(NewKeypair(h, false, 0, 0))])
  }

  lemma RepliedCases(c: Config, e: End, i: nat, m: Initiation, timestamp: Timestamp, h: Handshake, ephemeral: Key,
                     index: u32, scratch: Handshake, now: u32)
    requires m.Valid() && Process(c.dh, c.device, c.remote, e.state.handshake, m) == Some((timestamp, h))
    ensures RepliedAs(e, Replied(c, e, i, m, ephemeral, index, scratch, now), i, m.sender, timestamp,
                      Answer(c.dh, c.remote, h, ephemeral, index), index, scratch, now)
  {
    hide Process, Answer, Accepts, Respond, StartSession, NewKeypair;
    match Answer(c.dh, c.remote, h, ephemeral, index)
    case None =>
    case Some((m2, h2)) =>
      RespondStores(c.dh, c.device, c.remote, e.state, m, timestamp, h, ephemeral, index, m2, h2, now);
      StartedNext(e.state, h2, now);
  }

  lemma RepliedKeeps(c: Config, e: End, peer: End, i: nat, ephemeral: Key, index: u32, scratch: Handshake, now: u32)
    requires ConfigOk(c) && EndOk(c, e, peer) && EndOk(Swapped(c), peer, e) && Draws(e, index) && i < |peer.offers|
    ensures EndOk(c, Replied(c, e, i, peer.offers[i].message, ephemeral, index, scratch, now), peer)
  {
    hide ConfigOk, Process, Answer, Accepts, Replied, Remember, Respond, EndOk, Fits, FromBE, NewKeypair, Draws, Made,
         StartSession;
    var o := peer.offers[i];
    OfferMade(c, e, peer, i);
    AnswerFits(c, e.state.handshake, o, ephemeral, index, i);
    Accepted(e.memory, Attempt(o.timestamp, now));
    var h := Process(c.dh, c.device, c.remote, e.state.handshake, o.message).value.1;
    RepliedCases(c, e, i, o.message, o.timestamp, h, ephemeral, index, scratch, now);
    if Accepts(e.memory, Attempt(o.timestamp, now)) {
      match Answer(c.dh, c.remote, h, ephemeral, index)
      case None => FailedKeeps(c, e, peer, o.message.sender, index, scratch, Memory(o.timestamp, now), now);
      case Some((m2, h2)) =>
        AnsweredIndex(c, h, ephemeral, index);
        AnsweredKeeps(c, e, peer, i, m2, h2, now);
    }
  }

  lemma StartedNext(s: State, h: Handshake, now: u32)
    ensures var t := StartSession(s.(handshake := h), false, now);
            t.next.valid && CoreOf(t.next) == CoreOf(NewKeypair(h, false, 0, 0))
  {
    hide Kdf.Tau;
  }

  lemma OfferMade(c: Config, e: End, peer: End, i: nat)
    requires EndOk(Swapped(c), peer, e) && i < |peer.offers|
    ensures Made(Swapped(c), peer.offers[i])
  {
    hide Made, RepliesOk, Within, DrawsDiffer;
  }

  lemma AnsweredKeeps(c: Config, e: End, peer: End, i: nat, m: Response, h: Handshake, now: u32)
    requires EndOk(c, e, peer) && EndOk(Swapped(c), peer, e) && Draws(e, h.localIndex) && i < |peer.offers|
    requires FromBE(peer.offers[i].timestamp) > FromBE(e.memory.greatest)
    requires Fits(Swapped(c), peer.offers[i], Reply(i, m, CoreOf(NewKeypair(h, false, 0, 0))))
    ensures EndOk(c, e.(state := StartSession(e.state.(handshake := h), false, now),
                        memory := Memory(peer.offers[i].timestamp, now),
                        replies := e.replies + [Reply(i, m, CoreOf(NewKeypair(h, false, 0, 0)))],
                        sessions := e.sessions + [CoreOf(NewKeypair(h, false, 0, 0))]), peer)
  {
    hide PendingOk, RepliesOk, DrawsDiffer, SessionsOk, Fits, FromBE, NewKeypair, StartSession;
    NewCore(h, false);
    StartWithin(e.state, e.sessions, h, false, now);
    hide Within, Unique;
    AppendReply(c, e, peer, StartSession(e.state.(handshake := h), false, now), Memory(peer.offers[i].timestamp, now),
                Reply(i, m, CoreOf(NewKeypair(h, false, 0, 0))));
  }

  lemma FailedKeeps(c: Config, e: End, peer: End, sender: u32, index: u32, scratch: Handshake, memory: Memory, now: u32)
    requires EndOk(c, e, peer) && Draws(e, index) && FromBE(e.memory.greatest) <= FromBE(memory.greatest)
    ensures EndOk(c, e.(memory := memory, state := Respond(e.state, sender, false, index, scratch, now)), peer)
  {
    MemoryKeeps(c, e, peer, memory);
    hide PendingOk, RepliesOk, DrawsDiffer, Agreements;
    Failed(e.state, e.sessions, sender, index, scratch, now);
    hide Within, Respond, Unique;
    StateKeeps(c, e.(memory := memory), peer, Respond(e.state, sender, false, index, scratch, now));
  }

  /** No answer: only the record of the handshake changes. */
  lemma Failed(s: State, sessions: seq<Core>, sender: u32, index: u32, scratch: Handshake, now: u32)
    requires Within(s, sessions)
    ensures var t := Respond(s, sender, false, index, scratch, now);
            Within(t, sessions) && !t.handshake.initiator
  {
    hide SentUnder;
  }

  // Completing

  /** A response concerns the pending handshake exactly if it was made for it. */
  lemma PendingAnswered(c: Config, e: End, peer: End, i: nat)
    requires EndOk(c, e, peer) && EndOk(Swapped(c), peer, e) && i < |peer.replies|
    requires e.state.handshake.valid && e.state.handshake.initiator
    requires e.state.handshake.localIndex == peer.replies[i].message.receiver
    ensures e.offers != [] && Fits(c, e.offers[|e.offers| - 1], peer.replies[i])
    ensures e.state.handshake == e.offers[|e.offers| - 1].pending
  {
    hide Within, Made, Fits;
    var r := peer.replies[i];
    assert Answers(Swapped(c), peer, e, r);
    assert Swapped(Swapped(c)) == c;
    FitsReceiver(c, e.offers[r.offer], r);
  }

  lemma FitsReceiver(c: Config, o: Offer, r: Reply)
    requires Fits(c, o, r)
    ensures r.message.Valid() && r.message.receiver == o.pending.localIndex
  {
  }

  lemma Ignored(c: Config, e: End, m: Response, alloc: bool, sendOk: bool, clock: Clock)
    requires !(e.state.handshake.valid && e.state.handshake.initiator && e.state.handshake.localIndex == m.receiver)
    ensures Completed(c, e, m, alloc, sendOk, clock) == e
  {
    hide Finish, StartSession, Output;
  }

  lemma FinishedResponse(c: Config, e: End, m: Response, f: Handshake, alloc: bool, sendOk: bool, clock: Clock)
    requires m.Valid() && m.receiver == e.state.handshake.localIndex
    requires Finish(c.dh, c.device, c.remote, e.state.handshake, m) == Some(f)
    ensures Completed(c, e, m, alloc, sendOk, clock)
         == e.(state := Output(StartSession(e.state.(handshake := f), true, clock(3)), None, alloc, sendOk, clock),
               sessions := e.sessions + [CoreOf(NewKeypair(f, true, 0, 0))])
  {
    hide Finish, Complete, StartSession, Output, NewKeypair;
    CompleteStores(c.dh, c.device, c.remote, e.state, m, f, alloc, sendOk, clock);
    OneMoreRole(e.state, f, alloc, sendOk, clock);
  }

  lemma OneMoreRole(s: State, f: Handshake, alloc: bool, sendOk: bool, clock: Clock)
    ensures Output(StartSession(s.(handshake := f), true, clock(3)), None, alloc, sendOk, clock).roles
         == s.roles + [true]
  {
    hide Kdf.Tau, Padded, Expired;
  }

  lemma CompletedKeeps(c: Config, e: End, peer: End, i: nat, alloc: bool, sendOk: bool, clock: Clock)
    requires EndOk(c, e, peer) && EndOk(Swapped(c), peer, e) && i < |peer.replies|
    ensures EndOk(c, Completed(c, e, peer.replies[i].message, alloc, sendOk, clock), peer)
  {
    hide EndOk, Completed, Finish, NewKeypair, Fits;
    var s, m := e.state, peer.replies[i].message;
    if s.handshake.valid && s.handshake.initiator && s.handshake.localIndex == m.receiver {
      PendingAnswered(c, e, peer, i);
      SessionStarts(c, e, peer, i, alloc, sendOk, clock);
    } else {
      Ignored(c, e, m, alloc, sendOk, clock);
    }
  }

  /** The session of a completed handshake is the mirror image of the one that answered it. */
  lemma SessionStarts(c: Config, e: End, peer: End, i: nat, alloc: bool, sendOk: bool, clock: Clock)
    requires EndOk(c, e, peer) && i < |peer.replies| && e.offers != []
    requires e.state.handshake.valid && e.state.handshake.initiator
    requires e.state.handshake == e.offers[|e.offers| - 1].pending
    requires Fits(c, e.offers[|e.offers| - 1], peer.replies[i])
    ensures EndOk(c, Completed(c, e, peer.replies[i].message, alloc, sendOk, clock), peer)
  {
    hide PendingOk, RepliesOk, DrawsDiffer, SessionsOk, Completed, Finish, NewKeypair, StartSession, Output;
    var s, m := e.state, peer.replies[i].message;
    var f := Finish(c.dh, c.device, c.remote, s.handshake, m).value;
    FinishedResponse(c, e, m, f, alloc, sendOk, clock);
    StartWithin(s, e.sessions, f, true, clock(3));
    var t := StartSession(s.(handshake := f), true, clock(3));
    var x := CoreOf(NewKeypair(f, true, 0, 0));
    OutputWithin(t, e.sessions + [x], None, alloc, sendOk, clock);
    PeerAgreed(e, peer, i);
    AppendSession(c, e, peer, Output(t, None, alloc, sendOk, clock), x);
  }

  lemma PeerAgreed(e: End, peer: End, i: nat)
    requires i < |peer.replies|
    ensures Mirror(peer.replies[i].core) in Agreements(e, peer)
  {
  }

  lemma AppendSession(c: Config, e: End, peer: End, t: State, x: Core)
    requires EndOk(c, e, peer) && e.state.handshake.valid && e.state.handshake.initiator
    requires x.local == e.state.handshake.localIndex && x in Agreements(e, peer)
    requires Within(t, e.sessions + [x]) && t.handshake == IDLE
    ensures EndOk(c, e.(state := t, sessions := e.sessions + [x]), peer)
  {
    var f := e.(state := t, sessions := e.sessions + [x]);
    hide Within, Made, RepliesOk, Agreements, SessionsOk, FromBE;
    NewSession(e, peer, f, x);
    AnswersOnly(c, e, peer, f);
  }

  lemma NewSession(e: End, peer: End, f: End, x: Core)
    requires SessionsOk(e, peer) && e.state.handshake.valid && e.state.handshake.initiator
    requires x.local == e.state.handshake.localIndex && x in Agreements(e, peer)
    requires f.sessions == e.sessions + [x] && f.replies == e.replies && f.state.handshake == IDLE
    ensures SessionsOk(f, peer)
  {
    SameAgreements(e, peer, f);
    hide Agreements;
  }

  lemma HeardKeeps(c: Config, e: End, peer: End, data: seq<byte>, alloc: bool, destOk: bool, clock: Clock)
    requires EndOk(c, e, peer)
    ensures EndOk(c, e.(state := Receive(e.state, data, alloc, destOk, clock)), peer)
  {
    hide EndOk, Receive, Step, PacketHeard;
    HeardPacketIsStep(e.state, data, alloc, destOk, clock);
    var v := PacketHeard(e.state, data, alloc, destOk, clock);
    assert v == NOTHING || IsLocal(v) by { hide *; PacketIsLocal(e.state, data, alloc, destOk, clock); }
    Nothing(e.state);
    if v != NOTHING { LocalKeeps(c, e, peer, v); }
  }

  lemma PacketIsLocal(s: State, data: seq<byte>, alloc: bool, destOk: bool, clock: Clock)
    ensures var v := PacketHeard(s, data, alloc, destOk, clock); v == NOTHING || IsLocal(v)
  {
    hide TypeOf, Decrypted, ReceiverOf, CounterOf;
  }

  // Every run

  lemma ActKeeps(c: Config, e: End, peer: End, x: Action)
    requires ConfigOk(c) && EndOk(c, e, peer) && EndOk(Swapped(c), peer, e) && MayAct(c, e, x)
    ensures EndOk(c, Act(c, e, peer, x), peer) && EndOk(Swapped(c), peer, Act(c, e, peer, x))
  {
    hide EndOk, ConfigOk, Step, BeforeInitiation, Offered, Replied, Completed, Draws, Usable, Receive, Packet,
         TransportData.Wire;
    ActAdds(c, e, peer, x);
    PeerKeeps(Swapped(c), peer, e, Act(c, e, peer, x));
    match x
    case Local(event) => LocalKeeps(c, e, peer, event);
    case Tick(alloc, sendOk, reap, keep, init, ephemeral, timestamp, index, scratch, initAlloc) =>
      BeforeKeeps(c, e, peer, alloc, sendOk, reap, keep);
      var t := e.(state := BeforeInitiation(e.state, alloc, sendOk, reap, keep));
      if ShouldSendInitiation(t.state, init) {
        PeerKeeps(Swapped(c), peer, e, t);
        OfferedKeeps(c, t, peer, ephemeral, timestamp, index, scratch, initAlloc, init(2));
      }
    case HearInitiation(i, ephemeral, index, scratch, now) =>
      if i < |peer.offers| { RepliedKeeps(c, e, peer, i, ephemeral, index, scratch, now); }
    case HearResponse(i, alloc, sendOk, clock) =>
      if i < |peer.replies| { CompletedKeeps(c, e, peer, i, alloc, sendOk, clock); }
    case HearPacket(i, alloc, destOk, clock) =>
      if i < |peer.state.sent| { HeardKeeps(c, e, peer, Packet(peer.state.sent[i]).Wire(), alloc, destOk, clock); }
  }

  lemma ActAdds(c: Config, e: End, peer: End, x: Action)
    ensures e.offers <= Act(c, e, peer, x).offers && e.replies <= Act(c, e, peer, x).replies
    ensures e.sessions <= Act(c, e, peer, x).sessions
  {
    hide Step, BeforeInitiation, ShouldSendInitiation, BeginExchange, ReceiveInitiation, ReceiveResponse, Recorded,
         Receive, Finish, NewKeypair, Packet, TransportData.Wire;
  }

  ghost predicate JointOk(c: Config, j: Pair) {
    EndOk(c, j.a, j.b) && EndOk(Swapped(c), j.b, j.a) && SlotsOk(j.a.state) && SlotsOk(j.b.state)
  }

  lemma StepKeeps(c: Config, j: Pair, x: Move)
    requires ConfigOk(c) && JointOk(c, j) && MayMove(c, j, x)
    ensures JointOk(c, JointStep(c, j, x))
  {
    hide EndOk, Act, MayAct, ConfigOk, SlotsOk, Step, Possible, EventOf;
    match x
    case AtA(action) =>
      ActKeeps(c, j.a, j.b, action);
      ActIsStep(c, j.a, j.b, action);
      StepSlots(j.a.state, EventOf(c, j.a, j.b, action));
    case AtB(action) =>
      SwappedOk(c);
      assert Swapped(Swapped(c)) == c;
      ActKeeps(Swapped(c), j.b, j.a, action);
      ActIsStep(Swapped(c), j.b, j.a, action);
      StepSlots(j.b.state, EventOf(Swapped(c), j.b, j.a, action));
  }

  lemma {:induction false} JointRunKeeps(c: Config, j: Pair, moves: seq<Move>)
    requires ConfigOk(c) && JointOk(c, j) && MayRun(c, j, moves)
    ensures JointOk(c, JointRun(c, j, moves))
    decreases |moves|
  {
    hide JointOk, ConfigOk, MayMove, JointStep;
    if moves != [] {
      StepKeeps(c, j, moves[0]);
      JointRunKeeps(c, JointStep(c, j, moves[0]), moves[1..]);
    }
  }

  lemma StrangersOk(c: Config, j: Pair)
    requires Strangers(j)
    ensures JointOk(c, j)
  {
  }

  // Matching indices

  /** Of all sessions that an end may have, no two have the same index of its peer. */
  lemma OneSession(c: Config, e: End, peer: End, x: Core, y: Core)
    requires EndOk(c, e, peer) && EndOk(Swapped(c), peer, e)
    requires x in Agreements(e, peer) && y in Agreements(e, peer) && x.remote == y.remote
    ensures x == y
  {
    hide Within, PendingOk, RepliesOk, DrawsDiffer;
    if i :| 0 <= i < |e.replies| && x == e.replies[i].core {
      if k :| 0 <= k < |e.replies| && y == e.replies[k].core {
        SameReply(c, e, peer, i, k);
      } else {
        var k :| 0 <= k < |peer.replies| && y == Mirror(peer.replies[k].core);
        OfferAndReply(c, e, peer, i, k);
      }
    } else {
      var i :| 0 <= i < |peer.replies| && x == Mirror(peer.replies[i].core);
      if k :| 0 <= k < |e.replies| && y == e.replies[k].core {
        OfferAndReply(c, e, peer, k, i);
      } else {
        var k :| 0 <= k < |peer.replies| && y == Mirror(peer.replies[k].core);
        SameDraw(c, e, peer, i, k);
      }
    }
  }

  /** Two answers to one initiation are one. */
  lemma SameReply(c: Config, e: End, peer: End, i: nat, k: nat)
    requires EndOk(c, e, peer) && EndOk(Swapped(c), peer, e) && i < |e.replies| && k < |e.replies|
    requires e.replies[i].core.remote == e.replies[k].core.remote
    ensures i == k
  {
    hide Within, PendingOk, Answers;
    ReplyRemote(c, e, peer, i);
    ReplyRemote(c, e, peer, k);
  }

  lemma OfferAndReply(c: Config, e: End, peer: End, i: nat, k: nat)
    requires EndOk(c, e, peer) && EndOk(Swapped(c), peer, e) && i < |e.replies| && k < |peer.replies|
    ensures e.replies[i].core.remote != peer.replies[k].core.local
  {
    hide Within, PendingOk, Answers;
    ReplyRemote(c, e, peer, i);
  }

  lemma SameDraw(c: Config, e: End, peer: End, i: nat, k: nat)
    requires EndOk(Swapped(c), peer, e) && i < |peer.replies| && k < |peer.replies|
    requires peer.replies[i].core.local == peer.replies[k].core.local
    ensures i == k
  {
    hide Within, PendingOk, RepliesOk;
  }

  lemma ReplyRemote(c: Config, e: End, peer: End, i: nat)
    requires EndOk(c, e, peer) && i < |e.replies|
    ensures e.replies[i].offer < |peer.offers|
    ensures e.replies[i].core.remote == peer.offers[e.replies[i].offer].pending.localIndex
  {
    hide Within, PendingOk, DrawsDiffer, Finish, NewKeypair;
    assert Answers(c, e, peer, e.replies[i]);
  }

  /** What one end calls a session, the other calls its mirror image. */
  lemma AgreementsMirrored(e: End, peer: End, x: Core)
    requires x in Agreements(peer, e)
    ensures Mirror(x) in Agreements(e, peer)
  {
    if i :| 0 <= i < |e.replies| && x == Mirror(e.replies[i].core) {
      assert Mirror(x) == e.replies[i].core;
    } else {
      var i :| 0 <= i < |peer.replies| && x == peer.replies[i].core;
    }
  }

  lemma SlotAgreed(c: Config, e: End, peer: End, slot: Slot)
    requires EndOk(c, e, peer) && Get(e.state, slot).valid
    ensures CoreOf(Get(e.state, slot)) in Agreements(e, peer)
  {
    hide SentUnder, Agreements, PendingOk, RepliesOk, DrawsDiffer;
  }

  lemma SlotsMirrored(c: Config, e: End, peer: End, x: Slot, y: Slot)
    requires EndOk(c, e, peer) && EndOk(Swapped(c), peer, e)
    requires Get(e.state, x).valid && Get(peer.state, y).valid
    requires Get(e.state, x).remoteIndex == Get(peer.state, y).localIndex
    ensures Mirrored(Get(e.state, x), Get(peer.state, y))
  {
    hide EndOk, Agreements;
    SlotAgreed(c, e, peer, x);
    SlotAgreed(Swapped(c), peer, e, y);
    AgreementsMirrored(e, peer, CoreOf(Get(peer.state, y)));
    OneSession(c, e, peer, CoreOf(Get(e.state, x)), Mirror(CoreOf(Get(peer.state, y))));
  }

  /** In every reachable state of both ends: if a keypair of one carries, as the index of the
      other side, the index of a keypair of the other, then the two mirror each other, whatever
      was lost, repeated or reordered on the way. */
  lemma MatchingSlotsMirror(c: Config, j: Pair, moves: seq<Move>, x: Slot, y: Slot)
    requires ConfigOk(c) && Strangers(j) && MayRun(c, j, moves)
    ensures var t := JointRun(c, j, moves);
            var k, n := Get(t.a.state, x), Get(t.b.state, y);
            k.valid && n.valid && (k.remoteIndex == n.localIndex || n.remoteIndex == k.localIndex) ==> Mirrored(k, n)
  {
    hide Strangers, ConfigOk, EndOk, MayMove, JointStep, MayRun, JointRun;
    var t := JointRun(c, j, moves);
    StrangersOk(c, j);
    JointRunKeeps(c, j, moves);
    var k, n := Get(t.a.state, x), Get(t.b.state, y);
    if k.valid && n.valid {
      if k.remoteIndex == n.localIndex { SlotsMirrored(c, t.a, t.b, x, y); }
      assert Swapped(Swapped(c)) == c;
      if n.remoteIndex == k.localIndex { SlotsMirrored(Swapped(c), t.b, t.a, y, x); }
    }
  }

  // Every packet ever sent

  /** Whatever was sent selects no slot here or opens to what was sent. */
  ghost predicate Understands(s: State, sent: seq<Sent>) {
    forall r, slot :: r in sent && |r.plaintext| < 0x1000_0000 && Lookup(s, r.receiver) == Some(slot) ==>
      Reaches(Packet(r).Wire(), s, slot, r.counter, r.plaintext)
  }

  lemma SentAgreed(c: Config, e: End, peer: End, r: Sent)
    requires EndOk(c, e, peer) && r in e.state.sent
    ensures SentUnder(r, e.sessions) && e.sessions[r.session] in Agreements(e, peer)
  {
    hide Agreements, PendingOk, RepliesOk, DrawsDiffer;
  }

  lemma SentOpens(c: Config, e: End, peer: End, r: Sent, slot: Slot)
    requires EndOk(c, e, peer) && EndOk(Swapped(c), peer, e) && SlotsOk(peer.state)
    requires r in e.state.sent && |r.plaintext| < 0x1000_0000 && Lookup(peer.state, r.receiver) == Some(slot)
    ensures Reaches(Packet(r).Wire(), peer.state, slot, r.counter, r.plaintext)
  {
    hide EndOk, Agreements, Lookup, Reaches, Packet;
    LookupExact(peer.state, r.receiver, slot);
    var n := Get(peer.state, slot);
    SentAgreed(c, e, peer, r);
    var x := e.sessions[r.session];
    SlotAgreed(Swapped(c), peer, e, slot);
    AgreementsMirrored(e, peer, CoreOf(n));
    OneSession(c, e, peer, x, Mirror(CoreOf(n)));
    var k := n.(initiator := !n.initiator, sendingKey := n.receivingKey, receivingKey := n.sendingKey,
                localIndex := n.remoteIndex, remoteIndex := n.localIndex);
    MirrorDecrypts(k, peer.state, slot, r);
  }

  /** In every reachable state of both ends, every packet that one end has ever sent, delivered
      now and not only for the first time, finds no keypair at the other or opens to exactly
      what was sent. */
  lemma PacketsOpen(c: Config, j: Pair, moves: seq<Move>)
    requires ConfigOk(c) && Strangers(j) && MayRun(c, j, moves)
    ensures var t := JointRun(c, j, moves);
            Understands(t.b.state, t.a.state.sent) && Understands(t.a.state, t.b.state.sent)
  {
    hide Strangers, ConfigOk, EndOk, MayMove, JointStep, MayRun, JointRun, Lookup, Reaches, Packet;
    var t := JointRun(c, j, moves);
    StrangersOk(c, j);
    JointRunKeeps(c, j, moves);
    assert Swapped(Swapped(c)) == c;
    forall r, slot | r in t.a.state.sent && |r.plaintext| < 0x1000_0000 && Lookup(t.b.state, r.receiver) == Some(slot)
      ensures Reaches(Packet(r).Wire(), t.b.state, slot, r.counter, r.plaintext)
    {
      SentOpens(c, t.a, t.b, r, slot);
    }
    forall r, slot | r in t.b.state.sent && |r.plaintext| < 0x1000_0000 && Lookup(t.a.state, r.receiver) == Some(slot)
      ensures Reaches(Packet(r).Wire(), t.a.state, slot, r.counter, r.plaintext)
    {
      SentOpens(Swapped(c), t.b, t.a, r, slot);
    }
  }

  // Matching keypairs are reached

  /** The first peer connects, its timer makes an initiation, the other answers it and the
      answer comes back. */
  function Meeting(ephemeralA: Key, ephemeralB: Key, timestamp: Timestamp, indexA: u32, indexB: u32, now: u32,
                   clock: Clock): seq<Move> {
    [AtA(Local(ConnectEvent)),
     AtA(Tick(true, true, clock, clock, clock, ephemeralA, timestamp, indexA, IDLE, true)),
     AtB(HearInitiation(0, ephemeralB, indexB, IDLE, now)),
     AtA(HearResponse(0, true, true, clock))]
  }

  lemma FourMoves(c: Config, j: Pair, m: seq<Move>)
    requires |m| == 4
    requires var j1 := JointStep(c, j, m[0]); var j2 := JointStep(c, j1, m[1]); var j3 := JointStep(c, j2, m[2]);
             MayMove(c, j, m[0]) && MayMove(c, j1, m[1]) && MayMove(c, j2, m[2]) && MayMove(c, j3, m[3])
    ensures MayRun(c, j, m)
    ensures JointRun(c, j, m) == JointStep(c, JointStep(c, JointStep(c, JointStep(c, j, m[0]), m[1]), m[2]), m[3])
  {
    hide MayMove, JointStep;
    var j1 := JointStep(c, j, m[0]);
    var j2 := JointStep(c, j1, m[1]);
    var j3 := JointStep(c, j2, m[2]);
    var j4 := JointStep(c, j3, m[3]);
    assert m[1..][1..] == m[2..] && m[2..][1..] == m[3..] && m[3..][1..] == [];
    NoMoves(c, j4);
    FirstMove(c, j3, m[3..]);
    FirstMove(c, j2, m[2..]);
    FirstMove(c, j1, m[1..]);
    FirstMove(c, j, m);
  }

  lemma NoMoves(c: Config, j: Pair)
    ensures MayRun(c, j, []) && JointRun(c, j, []) == j
  {
  }

  lemma FirstMove(c: Config, j: Pair, m: seq<Move>)
    requires m != [] && MayMove(c, j, m[0]) && MayRun(c, JointStep(c, j, m[0]), m[1..])
    ensures MayRun(c, j, m) && JointRun(c, j, m) == JointRun(c, JointStep(c, j, m[0]), m[1..])
  {
    hide MayMove, JointStep;
  }

  /** The timer of a connected stranger initiates. */
  lemma FirstTick(c: Config, e: End, peer: End, ephemeral: Key, timestamp: Timestamp, index: u32, clock: Clock)
    requires Initial(e.state) && e.offers == [] && e.replies == [] && e.state.active && e.state.lastInitiationTx == 0
    requires Assignable(index) && Usable(c.dh, ephemeral, c.remote.publicKey)
    ensures var x := Tick(true, true, clock, clock, clock, ephemeral, timestamp, index, IDLE, true);
            && MayAct(c, e, x)
            && Act(c, e, peer, x) == Offered(c, e, ephemeral, timestamp, index, IDLE, true, clock(2))
  {
    hide Output, Offered, Usable;
    assert BeforeInitiation(e.state, true, true, clock, clock) == e.state;
    hide BeforeInitiation;
  }

  /** One more initiation, made from this key, and its handshake pending. */
  predicate HasOffered(c: Config, e: End, o: End, ephemeral: Key, timestamp: Timestamp, index: u32) {
    hide Made;
    && |o.offers| == |e.offers| + 1 && o.replies == e.replies
    && var offer := o.offers[|e.offers|];
    && Made(c, offer) && o.state.handshake == offer.pending && offer.pending.localIndex == index
    && offer.timestamp == timestamp && offer.message.ephemeral == c.dh(ephemeral, BASE_POINT)
  }

  lemma FirstOffer(c: Config, e: End, ephemeral: Key, timestamp: Timestamp, index: u32, now: u32)
    requires Usable(c.dh, ephemeral, c.remote.publicKey)
    ensures HasOffered(c, e, Offered(c, e, ephemeral, timestamp, index, IDLE, true, now), ephemeral, timestamp, index)
  {
    hide Create, Initiate, Usable;
    var s := e.state;
    CreateSome(c.dh, c.device, c.remote, s.handshake, ephemeral, timestamp, index);
    CreatedIndex(c, s.handshake, ephemeral, timestamp, index);
    var (m, h) := Create(c.dh, c.device, c.remote, s.handshake, ephemeral, timestamp, index).value;
    InitiateStores(c.dh, c.device, c.remote, s, ephemeral, timestamp, index, m, h, true, now);
  }

  lemma CompletedCurr(s: State, f: Handshake, clock: Clock)
    requires !Expired(clock(0), clock(3), REJECT_AFTER_TIME)
    ensures var t := Output(StartSession(s.(handshake := f), true, clock(3)), None, true, true, clock);
            t.curr.valid && CoreOf(t.curr) == CoreOf(NewKeypair(f, true, 0, 0))
  {
    hide Expired, Output, Transmits, Padded;
    var u := StartSession(s.(handshake := f), true, clock(3));
    FreshSessionTransmits(s.(handshake := f), true, clock);
    StartedCurr(s, f, clock(3));
    hide StartSession, NewKeypair;
    OutputRecord(u, None, true, true, clock);
  }

  lemma StartedCurr(s: State, h: Handshake, now: u32)
    ensures var t := StartSession(s.(handshake := h), true, now);
            t.curr.valid && t.curr.initiator && CoreOf(t.curr) == CoreOf(NewKeypair(h, true, 0, 0))
  {
    hide Kdf.Tau;
  }

  /** After the answer arrives, the current keypair is the mirror image of the answered session. */
  lemma AnswerCompletes(c: Config, e: End, peer: End, i: nat, clock: Clock)
    requires i < |peer.replies| && e.offers != [] && e.state.handshake == e.offers[|e.offers| - 1].pending
    requires !Expired(clock(0), clock(3), REJECT_AFTER_TIME) && Fits(c, e.offers[|e.offers| - 1], peer.replies[i])
    ensures var t := Act(c, e, peer, HearResponse(i, true, true, clock)).state;
            t.curr.valid && CoreOf(t.curr) == Mirror(peer.replies[i].core)
  {
    hide Completed, Finish, NewKeypair, StartSession, Output, Expired;
    var s, m := e.state, peer.replies[i].message;
    var f := Finish(c.dh, c.device, c.remote, s.handshake, m).value;
    FinishedResponse(c, e, m, f, true, true, clock);
    CompletedCurr(s, f, clock);
  }

  /** One response, which fits the initiation, and its session in the next slot. */
  predicate HasReplied(c: Config, e: End, o: Offer, t: End) {
    hide Fits;
    && t.offers == e.offers && |t.replies| == 1 && Fits(Swapped(c), o, t.replies[0])
    && t.state.next.valid && CoreOf(t.state.next) == t.replies[0].core
  }

  /** A peer that has made no response yet answers an understood initiation. */
  lemma FirstReply(c: Config, e: End, o: Offer, ephemeral: Key, index: u32, now: u32)
    requires |o.message.ephemeral| == 32 && c.dh(ephemeral, o.message.ephemeral) != ZERO_KEY && e.replies == []
    requires Usable(c.dh, ephemeral, c.remote.publicKey) && Accepts(e.memory, Attempt(o.timestamp, now))
    requires ConfigOk(c) && Made(Swapped(c), o)
    ensures HasReplied(c, e, o, Replied(c, e, 0, o.message, ephemeral, index, IDLE, now))
  {
    hide ConfigOk, Made, Process, Answer, Accepts, Replied, Fits, NewKeypair, StartSession, Usable;
    AnswerFits(c, e.state.handshake, o, ephemeral, index, 0);
    var h := Process(c.dh, c.device, c.remote, e.state.handshake, o.message).value.1;
    ProcessedRole(c, e.state.handshake, o.message);
    AnswerSome(c.dh, c.remote, h, ephemeral, index);
    RepliedCases(c, e, 0, o.message, o.timestamp, h, ephemeral, index, IDLE, now);
    StartedNext(e.state, Answer(c.dh, c.remote, h, ephemeral, index).value.1, now);
  }

  lemma ProcessedRole(c: Config, h: Handshake, m: Initiation)
    requires m.Valid() && Process(c.dh, c.device, c.remote, h, m).Some?
    ensures var p := Process(c.dh, c.device, c.remote, h, m).value.1;
            p.valid && !p.initiator && p.remoteEphemeral == m.ephemeral
  {
    hide Opening, Identified;
  }

  /** From any two strangers a run reaches keypairs whose indices match. */
  lemma MeetingMatches(c: Config, j: Pair, ephemeralA: Key, ephemeralB: Key, timestamp: Timestamp, indexA: u32,
                       indexB: u32, now: u32, clock: Clock)
    requires ConfigOk(c) && Strangers(j) && j.a.state.lastInitiationTx == 0
    requires Assignable(indexA) && Assignable(indexB) && !Expired(clock(0), clock(3), REJECT_AFTER_TIME)
    requires Usable(c.dh, ephemeralA, c.remote.publicKey) && Usable(c.dh, ephemeralB, c.peerRemote.publicKey)
    requires c.dh(ephemeralB, c.dh(ephemeralA, BASE_POINT)) != ZERO_KEY
    requires Accepts(j.b.memory, Attempt(timestamp, now))
    ensures var moves := Meeting(ephemeralA, ephemeralB, timestamp, indexA, indexB, now, clock);
            && MayRun(c, j, moves)
            && var t := JointRun(c, j, moves); Mirrored(t.a.state.curr, t.b.state.next)
  {
    hide ConfigOk, Usable, Accepts, Expired, Made, Fits, Replied, Offered, BeforeInitiation, Completed,
         ShouldSendInitiation, MayRun, JointRun;
    var m := Meeting(ephemeralA, ephemeralB, timestamp, indexA, indexB, now, clock);
    var j1 := JointStep(c, j, m[0]);
    var e := j.a.(state := j.a.state.(active := true));
    assert j1 == Pair(e, j.b);
    FirstTick(c, e, j.b, ephemeralA, timestamp, indexA, clock);
    FirstOffer(c, e, ephemeralA, timestamp, indexA, clock(2));
    var j2 := JointStep(c, j1, m[1]);
    SwappedOk(c);
    FirstReply(Swapped(c), j.b, j2.a.offers[0], ephemeralB, indexB, now);
    var j3 := JointStep(c, j2, m[2]);
    AnswerCompletes(c, j2.a, j3.b, 0, clock);
    FourMoves(c, j, m);
  }
}
