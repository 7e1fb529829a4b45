/** Two peers configured for each other over a network that loses, repeats and reorders what
    they send: the steps of both, and the run of the session machine that each makes. */
module Joint {
  import opened Bits
  import opened Bytes
  import opened Messages
  import opened Keypairs
  import opened Session
  import opened SessionSafety
  import opened Noise
  import opened Transport
  import opened Timestamps
  import opened Tunnel

  // The two ends

  /** What one end of a session knows and the other must know in mirror image. */
  datatype Core = Core(initiator: bool, sending: Key, receiving: Key, local: u32, remote: u32)

  function CoreOf(k: Keypair): Core {
    Core(k.initiator, k.sendingKey, k.receivingKey, k.localIndex, k.remoteIndex)
  }

  function Mirror(c: Core): Core {
    Core(!c.initiator, c.receiving, c.sending, c.remote, c.local)
  }

  /** An initiation that an end has made, and what it was made from. */
  datatype Offer = Offer(base: Handshake, ephemeral: Key, timestamp: Timestamp, message: Initiation,
                         pending: Handshake)

  /** An answer to the other end's initiation with that number, and the session started for it. */
  datatype Reply = Reply(offer: nat, message: Response, core: Core)

  /** One end, with all initiations and responses that it has ever made and all sessions that it
      has ever started, in order. */
  datatype End = End(state: State, memory: Memory, offers: seq<Offer>, replies: seq<Reply>, sessions: seq<Core>)

  /** The configuration of an end and that of its peer. */
  datatype Config = Config(dh: Dh, device: Device, remote: Remote, peerDevice: Device, peerRemote: Remote)

  function Swapped(c: Config): Config {
    Config(c.dh, c.peerDevice, c.peerRemote, c.device, c.remote)
  }

  ghost predicate ConfigOk(c: Config) {
    Commutes(c.dh) && Paired(c.dh, c.device, c.remote, c.peerDevice, c.peerRemote)
  }

  lemma SwappedOk(c: Config)
    requires ConfigOk(c)
    ensures ConfigOk(Swapped(c))
  {
    hide Commutes, DeviceOk, RemoteOk;
  }

  // Steps

  /** A network that delivers anything made so far, once, often or never. A local data event is
      a transport packet that the peer did not make, with any contents. */
  datatype Action =
    | Local(event: Event)
    | Tick(alloc: bool, sendOk: bool, reap: Clock, keep: Clock, init: Clock, ephemeral: Key, timestamp: Timestamp,
           index: u32, scratch: Handshake, initAlloc: bool)
    | HearInitiation(i: nat, ephemeral: Key, index: u32, scratch: Handshake, now: u32)
    | HearResponse(i: nat, alloc: bool, sendOk: bool, clock: Clock)
    | HearPacket(i: nat, alloc: bool, destOk: bool, clock: Clock)

  function Offered(c: Config, e: End, ephemeral: Key, timestamp: Timestamp, index: u32, scratch: Handshake,
                   alloc: bool, now: u32): End {
    hide BeginExchange;
    var (t, m) := BeginExchange(c.dh, c.device, c.remote, e.state, ephemeral, timestamp, index, scratch, alloc, now);
    if m.None? then e.(state := t)
    else e.(state := t, offers := e.offers + [Offer(e.state.handshake, ephemeral, timestamp, m.value, t.handshake)])
  }

  /** The timestamp and the time that an end remembers after an initiation. */
  function Recorded(c: Config, e: End, m: Initiation, now: u32): Memory {
    hide Process, Remember;
    if !m.Valid() then e.memory
    else
      match Process(c.dh, c.device, c.remote, e.state.handshake, m)
      case None => e.memory
      case Some((timestamp, _)) => Remember(e.memory, Attempt(timestamp, now))
  }

  function Replied(c: Config, e: End, i: nat, m: Initiation, ephemeral: Key, index: u32, scratch: Handshake,
                   now: u32): End {
    hide ReceiveInitiation, Recorded;
    var (t, a) := ReceiveInitiation(c.dh, c.device, c.remote, e.state, e.memory, m, ephemeral, index, scratch, now);
    e.(state := t, memory := Recorded(c, e, m, now),
       replies := if a.Some? then e.replies + [Reply(i, a.value, CoreOf(t.next))] else e.replies,
       sessions := if a.Some? then e.sessions + [CoreOf(t.next)] else e.sessions)
  }

  function Completed(c: Config, e: End, m: Response, alloc: bool, sendOk: bool, clock: Clock): End {
    hide ReceiveResponse, Finish, NewKeypair;
    var t := e.(state := ReceiveResponse(c.dh, c.device, c.remote, e.state, m, alloc, sendOk, clock));
    if !m.Valid() || t.state.roles == e.state.roles then t
    else
      match Finish(c.dh, c.device, c.remote, e.state.handshake, m)
      case None => t
      case Some(h) => t.(sessions := e.sessions + [CoreOf(NewKeypair(h, true, 0, 0))])
  }

  function Act(c: Config, e: End, peer: End, x: Action): End {
    hide Step, BeforeInitiation, Offered, Replied, Completed, Receive, Packet, TransportData.Wire;
    match x
    case Local(event) => e.(state := Step(e.state, event))
    case Tick(alloc, sendOk, reap, keep, init, ephemeral, timestamp, index, scratch, initAlloc) =>
      var t := e.(state := BeforeInitiation(e.state, alloc, sendOk, reap, keep));
      if ShouldSendInitiation(t.state, init)
      then Offered(c, t, ephemeral, timestamp, index, scratch, initAlloc, init(2)) else t
    case HearInitiation(i, ephemeral, index, scratch, now) =>
      if i < |peer.offers| then Replied(c, e, i, peer.offers[i].message, ephemeral, index, scratch, now) else e
    case HearResponse(i, alloc, sendOk, clock) =>
      if i < |peer.replies| then Completed(c, e, peer.replies[i].message, alloc, sendOk, clock) else e
    case HearPacket(i, alloc, destOk, clock) =>
      if i < |peer.state.sent|
      then e.(state := Receive(e.state, Packet(peer.state.sent[i]).Wire(), alloc, destOk, clock))
      else e
  }

  predicate IsLocal(e: Event) {
    e.SendEvent? || e.DataEvent? || e.ConnectEvent? || e.DisconnectEvent?
  }

  /** The index differs from all live ones, as the generator ensures, and from all that this end
      has used before. */
  ghost predicate Draws(e: End, index: u32) {
    && Unique(e.state, index)
    && (forall i :: 0 <= i < |e.offers| ==> e.offers[i].pending.localIndex != index)
    && (forall i :: 0 <= i < |e.replies| ==> e.replies[i].core.local != index)
  }

  ghost predicate MayAct(c: Config, e: End, x: Action) {
    match x
    case Local(event) => IsLocal(event)
    case Tick(alloc, sendOk, reap, keep, init, ephemeral, timestamp, index, scratch, initAlloc) =>
      var t := e.(state := BeforeInitiation(e.state, alloc, sendOk, reap, keep));
      ShouldSendInitiation(t.state, init) ==> Draws(t, index) && Usable(c.dh, ephemeral, c.remote.publicKey)
    case HearInitiation(i, ephemeral, index, scratch, now) => Draws(e, index)
    case _ => true
  }

  // Runs

  datatype Pair = Pair(a: End, b: End)

  datatype Move = AtA(action: Action) | AtB(action: Action)

  function JointStep(c: Config, j: Pair, x: Move): Pair {
    match x
    case AtA(action) => j.(a := Act(c, j.a, j.b, action))
    case AtB(action) => j.(b := Act(Swapped(c), j.b, j.a, action))
  }

  ghost predicate MayMove(c: Config, j: Pair, x: Move) {
    match x
    case AtA(action) => MayAct(c, j.a, action)
    case AtB(action) => MayAct(Swapped(c), j.b, action)
  }

  function JointRun(c: Config, j: Pair, moves: seq<Move>): Pair
    decreases |moves|
  {
    if moves == [] then j else JointRun(c, JointStep(c, j, moves[0]), moves[1..])
  }

  ghost predicate MayRun(c: Config, j: Pair, moves: seq<Move>)
    decreases |moves|
  {
    moves == [] || (MayMove(c, j, moves[0]) && MayRun(c, JointStep(c, j, moves[0]), moves[1..]))
  }

  /** Two peers that have not met, whatever timestamps they remember. */
  ghost predicate Strangers(j: Pair) {
    Initial(j.a.state) && Initial(j.b.state) && j.a.offers == j.b.offers == [] && j.a.replies == j.b.replies == []
    && j.a.sessions == j.b.sessions == []
  }

  // Each end runs the session machine

  const NOTHING := ResponseEvent(0, 0, false, IDLE, false, false, i => 0)

  function InitiationHeard(c: Config, e: End, m: Initiation, ephemeral: Key, index: u32, scratch: Handshake,
                           now: u32): Event {
    hide Process, Answer, Accepts;
    if !m.Valid() then NOTHING
    else
      match Process(c.dh, c.device, c.remote, e.state.handshake, m)
      case None => NOTHING
      case Some((timestamp, h)) =>
        if !Accepts(e.memory, Attempt(timestamp, now)) then NOTHING
        else
          match Answer(c.dh, c.remote, h, ephemeral, index)
          case None => InitiationEvent(m.sender, false, index, scratch, now)
          case Some((_, done)) => InitiationEvent(m.sender, true, index, done, now)
  }

  function ResponseHeard(c: Config, s: State, m: Response, alloc: bool, sendOk: bool, clock: Clock): Event {
    hide Finish;
    if !m.Valid() then NOTHING
    else
      match Finish(c.dh, c.device, c.remote, s.handshake, m)
      case None => NOTHING
      case Some(h) => ResponseEvent(m.receiver, m.sender, true, h, alloc, sendOk, clock)
  }

  function Ticked(c: Config, s: State, x: Action): Event
    requires x.Tick?
  {
    hide Create, BeforeInitiation;
    var t := BeforeInitiation(s, x.alloc, x.sendOk, x.reap, x.keep);
    match Create(c.dh, c.device, c.remote, t.handshake, x.ephemeral, x.timestamp, x.index)
    case None => TimerEvent(x.alloc, x.sendOk, x.reap, x.keep, x.init, false, x.index, x.scratch, x.initAlloc)
    case Some((_, h)) => TimerEvent(x.alloc, x.sendOk, x.reap, x.keep, x.init, true, x.index, h, x.initAlloc)
  }

  function PacketHeard(s: State, data: seq<byte>, alloc: bool, destOk: bool, clock: Clock): Event {
    hide TypeOf, Decrypted;
    if TypeOf(data) != TransportMessage || !(16 <= |data| < TWO32) then NOTHING
    else DataEvent(ReceiverOf(data), CounterOf(data), alloc, Decrypted(s, data), destOk, clock)
  }

  /** The event of the session machine that an action comes to. */
  function EventOf(c: Config, e: End, peer: End, x: Action): Event {
    match x
    case Local(event) => event
    case Tick(_, _, _, _, _, _, _, _, _, _) => Ticked(c, e.state, x)
    case HearInitiation(i, ephemeral, index, scratch, now) =>
      if i < |peer.offers| then InitiationHeard(c, e, peer.offers[i].message, ephemeral, index, scratch, now)
      else NOTHING
    case HearResponse(i, alloc, sendOk, clock) =>
      if i < |peer.replies| then ResponseHeard(c, e.state, peer.replies[i].message, alloc, sendOk, clock) else NOTHING
    case HearPacket(i, alloc, destOk, clock) =>
      if i < |peer.state.sent| then PacketHeard(e.state, Packet(peer.state.sent[i]).Wire(), alloc, destOk, clock)
      else NOTHING
  }

  lemma Nothing(s: State)
    ensures Step(s, NOTHING) == s && Possible(s, NOTHING)
  {
  }

  lemma TickIsStep(c: Config, e: End, peer: End, x: Action)
    requires x.Tick? && MayAct(c, e, x)
    ensures Possible(e.state, Ticked(c, e.state, x))
    ensures Act(c, e, peer, x).state == Step(e.state, Ticked(c, e.state, x))
  {
    hide Create, BeforeInitiation, ShouldSendInitiation, Initiate, Usable, Unique;
  }

  lemma HeardInitiationIsStep(c: Config, e: End, i: nat, m: Initiation, ephemeral: Key, index: u32, scratch: Handshake,
                              now: u32)
    requires Unique(e.state, index)
    ensures var v := InitiationHeard(c, e, m, ephemeral, index, scratch, now);
            Possible(e.state, v) && Replied(c, e, i, m, ephemeral, index, scratch, now).state == Step(e.state, v)
  {
    hide Process, Answer, Accepts, Respond, Complete, Unique;
    Nothing(e.state);
  }

  lemma HeardResponseIsStep(c: Config, s: State, m: Response, alloc: bool, sendOk: bool, clock: Clock)
    ensures var v := ResponseHeard(c, s, m, alloc, sendOk, clock);
            && Possible(s, v)
            && ReceiveResponse(c.dh, c.device, c.remote, s, m, alloc, sendOk, clock) == Step(s, v)
  {
    hide Finish, Complete;
    Nothing(s);
    NotGenuine(s, m.receiver, m.sender, alloc, sendOk, clock);
  }

  lemma NotGenuine(s: State, receiver: u32, sender: u32, alloc: bool, sendOk: bool, clock: Clock)
    ensures Complete(s, receiver, sender, false, IDLE, alloc, sendOk, clock) == s
  {
  }

  lemma HeardPacketIsStep(s: State, data: seq<byte>, alloc: bool, destOk: bool, clock: Clock)
    ensures var v := PacketHeard(s, data, alloc, destOk, clock);
            Possible(s, v) && Receive(s, data, alloc, destOk, clock) == Step(s, v)
  {
    hide Data, Decrypted;
    Nothing(s);
  }

  lemma ActIsStep(c: Config, e: End, peer: End, x: Action)
    requires MayAct(c, e, x)
    ensures Possible(e.state, EventOf(c, e, peer, x))
    ensures Act(c, e, peer, x).state == Step(e.state, EventOf(c, e, peer, x))
  {
    hide Step, BeforeInitiation, Offered, Replied, ReceiveResponse, Ticked, InitiationHeard, ResponseHeard, Unique,
         Receive, PacketHeard, Packet, TransportData.Wire;
    Nothing(e.state);
    match x
    case Local(event) =>
    case Tick(_, _, _, _, _, _, _, _, _, _) => TickIsStep(c, e, peer, x);
    case HearInitiation(i, ephemeral, index, scratch, now) =>
      if i < |peer.offers| {
        HeardInitiationIsStep(c, e, i, peer.offers[i].message, ephemeral, index, scratch, now);
      }
    case HearResponse(i, alloc, sendOk, clock) =>
      if i < |peer.replies| {
        HeardResponseIsStep(c, e.state, peer.replies[i].message, alloc, sendOk, clock);
      }
    case HearPacket(i, alloc, destOk, clock) =>
      if i < |peer.state.sent| {
        HeardPacketIsStep(e.state, Packet(peer.state.sent[i]).Wire(), alloc, destOk, clock);
      }
  }

  function Side(j: Pair, first: bool): End {
    if first then j.a else j.b
  }

  function EventsOfMove(c: Config, j: Pair, x: Move, first: bool): seq<Event> {
    match x
    case AtA(action) => if first then [EventOf(c, j.a, j.b, action)] else []
    case AtB(action) => if first then [] else [EventOf(Swapped(c), j.b, j.a, action)]
  }

  /** The session events of one end in a run of both. */
  function EventsOf(c: Config, j: Pair, moves: seq<Move>, first: bool): seq<Event>
    decreases |moves|
  {
    hide EventsOfMove, JointStep;
    if moves == [] then []
    else EventsOfMove(c, j, moves[0], first) + EventsOf(c, JointStep(c, j, moves[0]), moves[1..], first)
  }

  lemma MoveIsStep(c: Config, j: Pair, x: Move, first: bool)
    requires MayMove(c, j, x)
    ensures var events := EventsOfMove(c, j, x, first);
            && PossibleRun(Side(j, first).state, events)
            && Run(Side(j, first).state, events) == Side(JointStep(c, j, x), first).state
  {
    hide Act, MayAct, EventOf, Step, Possible;
    var s := Side(j, first).state;
    match x
    case AtA(action) =>
      ActIsStep(c, j.a, j.b, action);
      if first { OneEvent(s, EventOf(c, j.a, j.b, action)); }
    case AtB(action) =>
      ActIsStep(Swapped(c), j.b, j.a, action);
      if !first { OneEvent(s, EventOf(Swapped(c), j.b, j.a, action)); }
  }

  lemma OneEvent(s: State, e: Event)
    requires Possible(s, e)
    ensures PossibleRun(s, [e]) && Run(s, [e]) == Step(s, e)
  {
    hide Possible, Step;
    var t, none := Step(s, e), [e][1..];
    assert none == [];
    assert PossibleRun(t, none) && Run(t, none) == t;
  }

  lemma {:induction false} RunsJoin(s: State, first: seq<Event>, rest: seq<Event>)
    requires PossibleRun(s, first) && PossibleRun(Run(s, first), rest)
    ensures PossibleRun(s, first + rest) && Run(s, first + rest) == Run(Run(s, first), rest)
    decreases |first|
  {
    hide Possible, Step;
    if first == [] {
      assert first + rest == rest;
    } else {
      assert (first + rest)[1..] == first[1..] + rest;
      RunsJoin(Step(s, first[0]), first[1..], rest);
    }
  }

  /** Each end of a joint run makes a possible run of the session machine, so what is proved
      about all runs of one peer holds here too. */
  lemma {:induction false} EndsRun(c: Config, j: Pair, moves: seq<Move>, first: bool)
    requires MayRun(c, j, moves)
    ensures var events := EventsOf(c, j, moves, first);
            && PossibleRun(Side(j, first).state, events)
            && Run(Side(j, first).state, events) == Side(JointRun(c, j, moves), first).state
    decreases |moves|
  {
    hide MayMove, JointStep, EventsOfMove, PossibleRun, Run, Side;
    if moves == [] {
      NoEvents(Side(j, first).state);
    } else {
      MoveIsStep(c, j, moves[0], first);
      EndsRun(c, JointStep(c, j, moves[0]), moves[1..], first);
      RunsJoin(Side(j, first).state, EventsOfMove(c, j, moves[0], first),
               EventsOf(c, JointStep(c, j, moves[0]), moves[1..], first));
    }
  }

  lemma NoEvents(s: State)
    ensures PossibleRun(s, []) && Run(s, []) == s
  {
  }

  /** In particular neither end reuses a nonce. */
  lemma JointNonces(c: Config, j: Pair, moves: seq<Move>)
    requires Strangers(j) && MayRun(c, j, moves)
    ensures var t := JointRun(c, j, moves); NoncesInOrder(t.a.state.sent) && NoncesInOrder(t.b.state.sent)
  {
    hide MayRun, JointRun, EventsOf, NoncesInOrder, PossibleRun, Run;
    EndsRun(c, j, moves, true);
    EndsRun(c, j, moves, false);
    NoNonceReuse(j.a.state, EventsOf(c, j, moves, true));
    NoNonceReuse(j.b.state, EventsOf(c, j, moves, false));
  }
}
