/** The order of handshake initiations: TAI64N timestamps under bytewise comparison, the
    greatest timestamp accepted from a peer, and the spacing of initiations by the timer. */
module Timestamps {
  import opened Bits
  import opened Bytes
  import opened Wrappers
  import opened Keypairs
  import opened Session
  import Kdf
  import Replay
  import SessionReplay

  // Timestamps as bytes

  /** memcmp on strings of one length: the sign of the first difference. */
  function Memcmp(a: seq<byte>, b: seq<byte>): int
    requires |a| == |b|
  {
    if a == [] then 0 else if a[0] != b[0] then a[0] as int - b[0] as int else Memcmp(a[1..], b[1..])
  }

  function FromBE(s: seq<byte>): nat {
    if s == [] then 0 else s[0] * Pow256(|s| - 1) + FromBE(s[1..])
  }

  lemma {:induction false} FromBEBound(s: seq<byte>)
    ensures FromBE(s) < Pow256(|s|)
  {
    if s != [] {
      FromBEBound(s[1..]);
      LeadingByte(s[0], 256, Pow256(|s| - 1), FromBE(s[1..]), 0);
    }
  }

  /** Bytewise comparison of big-endian strings compares the numbers. */
  lemma {:induction false} MemcmpOrders(a: seq<byte>, b: seq<byte>)
    requires |a| == |b|
    ensures Memcmp(a, b) < 0 <==> FromBE(a) < FromBE(b)
    ensures Memcmp(a, b) == 0 <==> a == b
    ensures Memcmp(a, b) > 0 <==> FromBE(a) > FromBE(b)
  {
    if a != [] {
      var p := Pow256(|a| - 1);
      FromBEBound(a[1..]);
      FromBEBound(b[1..]);
      if a[0] == b[0] {
        MemcmpOrders(a[1..], b[1..]);
        assert a == [a[0]] + a[1..] && b == [b[0]] + b[1..];
      } else if a[0] < b[0] {
        LeadingByte(a[0], b[0], p, FromBE(a[1..]), FromBE(b[1..]));
      } else {
        LeadingByte(b[0], a[0], p, FromBE(b[1..]), FromBE(a[1..]));
      }
    }
  }

  lemma LeadingByte(x: int, y: int, p: nat, u: nat, v: nat)
    requires x < y && u < p
    ensures x * p + u < y * p + v
  {
    Distribute(y - x, x, p);
    AtLeast(y - x, p);
  }

  lemma Distribute(a: int, b: int, p: int)
    ensures (a + b) * p == a * p + b * p
  {
  }

  lemma AtLeast(d: int, p: nat)
    requires d >= 1
    ensures d * p >= p
  {
    Distribute(d - 1, 1, p);
  }

  lemma {:induction false} FromBESnoc(s: seq<byte>, x: byte)
    ensures FromBE(s + [x]) == 256 * FromBE(s) + x
  {
    if s == [] {
      assert s + [x] == [x];
    } else {
      FromBESnoc(s[1..], x);
      assert (s + [x])[1..] == s[1..] + [x];
      MulAssoc(s[0], 256, Pow256(|s| - 1));
      MulAssoc(256, s[0], Pow256(|s| - 1));
    }
  }

  lemma {:induction false} FromBEToBE(n: nat, v: nat)
    requires v < Pow256(n)
    ensures FromBE(ToBE(n, v)) == v
  {
    if n > 0 {
      FromBEToBE(n - 1, v / 256);
      FromBESnoc(ToBE(n - 1, v / 256), v % 256);
    }
  }

  lemma {:induction false} FromBEAppend(a: seq<byte>, b: seq<byte>)
    ensures FromBE(a + b) == FromBE(a) * Pow256(|b|) + FromBE(b)
    decreases |b|
  {
    if b == [] {
      assert a + b == a;
    } else {
      var n := |b| - 1;
      assert a + b == (a + b[..n]) + [b[n]] && b == b[..n] + [b[n]];
      FromBEAppend(a, b[..n]);
      FromBESnoc(a + b[..n], b[n]);
      FromBESnoc(b[..n], b[n]);
      MulAssoc(FromBE(a), 256, Pow256(n));
      MulAssoc(256, FromBE(a), Pow256(n));
    }
  }

  const EPOCH: int := 0x4000_0000_0000_000a

  /** wireguard_tai64n_now for a time of day. */
  function Tai64n(seconds: int, micros: nat): (t: seq<byte>)
    ensures |t| == 12
  {
    ToBE(8, (EPOCH + seconds) % 0x1_0000_0000_0000_0000) + ToBE(4, micros * 1000)
  }

  /** The byte stores of wireguard_tai64n_now. */
  method Tai64nNow(output: array<byte>, seconds: int, micros: nat)
    requires output.Length == 12 && micros < 1_000_000
    modifies output
    ensures output[..] == Tai64n(seconds, micros)
  {
    var s: u64 := (EPOCH + seconds) % 0x1_0000_0000_0000_0000;
    BigEndian8(s);
    hide ToBE;
    ghost var o := output[..];
    StoreBE(output, 4, s % TWO32);
    StoreBE(output, 0, s / TWO32);
    StoreBE(output, 8, micros * 1000);
    ThreeStores(o, ToBE(4, s / TWO32), ToBE(4, s % TWO32), ToBE(4, micros * 1000));
  }

  lemma ThreeStores(o: seq<byte>, a: seq<byte>, b: seq<byte>, c: seq<byte>)
    requires |o| == 12 && |a| == |b| == |c| == 4
    ensures Splice(Splice(Splice(o, 4, b), 0, a), 8, c) == (a + b) + c
  {
  }

  /** Four bytes, the last one first, as `U64TO8_BIG` and `U32TO8_BIG` store them. */
  method StoreBE(output: array<byte>, at: nat, v: u32)
    requires at + 4 <= output.Length
    modifies output
    ensures output[..] == Splice(old(output[..]), at, ToBE(4, v))
  {
    BigEndian4(v);
    hide ToBE, Byte;
    output[at + 3], output[at + 2], output[at + 1], output[at] := Byte(v, 0), Byte(v, 1), Byte(v, 2), Byte(v, 3);
  }

  /** `U8V(v >> (8 * i))` */
  function Byte(v: u32, i: nat): byte
    requires i < 4
  {
    if i == 0 then v % 0x100 else if i == 1 then v / 0x100 % 0x100
    else if i == 2 then v / 0x1_0000 % 0x100 else v / 0x100_0000 % 0x100
  }

  lemma BigEndian4(v: u32)
    ensures ToBE(4, v) == [Byte(v, 3), Byte(v, 2), Byte(v, 1), Byte(v, 0)]
  {
    assert v / 0x100 / 0x100 == v / 0x1_0000 && v / 0x1_0000 / 0x100 == v / 0x100_0000;
    assert ToBE(1, v / 0x100_0000) == [v / 0x100_0000 % 0x100];
    assert ToBE(2, v / 0x1_0000) == ToBE(1, v / 0x100_0000) + [v / 0x1_0000 % 0x100];
    assert ToBE(3, v / 0x100) == ToBE(2, v / 0x1_0000) + [v / 0x100 % 0x100];
  }

  lemma BigEndian8(v: u64)
    ensures ToBE(8, v) == ToBE(4, v / TWO32) + ToBE(4, v % TWO32)
  {
    assert Pow256(4) == TWO32;
    ToBESplit(4, 4, v / TWO32, v % TWO32);
  }

  lemma {:induction false} ToBESplit(m: nat, n: nat, high: nat, low: nat)
    requires low < Pow256(n)
    ensures ToBE(m + n, high * Pow256(n) + low) == ToBE(m, high) + ToBE(n, low)
    decreases n
  {
    if n > 0 {
      var p := Pow256(n - 1);
      MulAssoc(high, 256, p);
      MulAssoc(256, high, p);
      LastByte(high * p, low);
      ToBESplit(m, n - 1, high, low / 256);
    }
  }

  lemma LastByte(x: nat, low: nat)
    ensures (256 * x + low) / 256 == x + low / 256 && (256 * x + low) % 256 == low % 256
  {
  }

  lemma PowersOf256()
    ensures Pow256(4) == TWO32 && Pow256(8) == 0x1_0000_0000_0000_0000
  {
  }

  lemma Tai64nValue(seconds: int, micros: nat)
    requires -EPOCH <= seconds < 0x8000_0000_0000_0000 && micros < 1_000_000
    ensures FromBE(Tai64n(seconds, micros)) == (EPOCH + seconds) * TWO32 + micros * 1000
  {
    hide Pow256, FromBE, ToBE;
    PowersOf256();
    var high := EPOCH + seconds;
    FromBEToBE(8, high);
    FromBEToBE(4, micros * 1000);
    FromBEAppend(ToBE(8, high), ToBE(4, micros * 1000));
  }

  /** Later times have bytewise greater timestamps, and only they. */
  lemma Tai64nMonotone(s1: int, u1: nat, s2: int, u2: nat)
    requires -EPOCH <= s1 < 0x8000_0000_0000_0000 && -EPOCH <= s2 < 0x8000_0000_0000_0000
    requires u1 < 1_000_000 && u2 < 1_000_000
    ensures Memcmp(Tai64n(s1, u1), Tai64n(s2, u2)) < 0 <==> s1 < s2 || (s1 == s2 && u1 < u2)
  {
    hide Tai64n, Memcmp, FromBE;
    Tai64nValue(s1, u1);
    Tai64nValue(s2, u2);
    MemcmpOrders(Tai64n(s1, u1), Tai64n(s2, u2));
  }

  // Accepted timestamps

  /** One authentic initiation: its timestamp and the clock at its arrival. */
  datatype Attempt = Attempt(timestamp: Timestamp, now: u32)

  /** What a peer remembers about initiations it accepted. */
  datatype Memory = Memory(greatest: Timestamp, lastRx: u32)

  /** Neither a replay nor rate limited (the difference is taken as the code takes it). */
  predicate Accepts(m: Memory, a: Attempt) {
    Memcmp(a.timestamp, m.greatest) > 0 && (m.lastRx - a.now) % TWO32 >= 500
  }

  function Remember(m: Memory, a: Attempt): Memory {
    if Accepts(m, a) then Memory(a.timestamp, a.now) else m
  }

  function Memories(m: Memory, attempts: seq<Attempt>): Memory {
    if attempts == [] then m else Remember(Memories(m, attempts[..|attempts| - 1]), attempts[|attempts| - 1])
  }

  predicate AcceptedAt(m: Memory, attempts: seq<Attempt>, i: nat)
    requires i < |attempts|
  {
    Accepts(Memories(m, attempts[..i]), attempts[i])
  }

  /** The greatest timestamp never falls, and it covers every accepted one. */
  lemma {:induction false} GreatestCovers(m: Memory, attempts: seq<Attempt>, i: nat)
    requires i < |attempts| && AcceptedAt(m, attempts, i)
    ensures FromBE(attempts[i].timestamp) <= FromBE(Memories(m, attempts).greatest)
    decreases |attempts|
  {
    hide Memcmp, FromBE;
    var n := |attempts| - 1;
    var before := attempts[..n];
    var u := Memories(m, before);
    MemcmpOrders(attempts[n].timestamp, u.greatest);
    if i < n {
      assert before[..i] == attempts[..i];
      GreatestCovers(m, before, i);
    }
  }

  /** Timestamps accepted from one peer strictly increase over any run, so none is accepted
      twice. */
  lemma AcceptedIncrease(m: Memory, attempts: seq<Attempt>, i: nat, j: nat)
    requires i < j < |attempts| && AcceptedAt(m, attempts, i) && AcceptedAt(m, attempts, j)
    ensures Memcmp(attempts[i].timestamp, attempts[j].timestamp) < 0
  {
    hide Memcmp, FromBE;
    var before := attempts[..j];
    assert before[..i] == attempts[..i];
    GreatestCovers(m, before, i);
    MemcmpOrders(attempts[j].timestamp, Memories(m, before).greatest);
    MemcmpOrders(attempts[i].timestamp, attempts[j].timestamp);
  }

  // The spacing of timer-driven initiations

  /** This timer tick sends an initiation. */
  predicate SendsInitiation(s: State, e: Event) {
    match e
    case TimerEvent(alloc, sendOk, reap, keep, init, dhOk, _, _, initAlloc) =>
      ShouldSendInitiation(BeforeInitiation(s, alloc, sendOk, reap, keep), init) && dhOk && initAlloc
    case _ => false
  }

  /** Only such a tick changes the time of the last initiation, and it stores its clock. */
  lemma LastInitiation(s: State, e: Event)
    ensures Step(s, e).lastInitiationTx == if SendsInitiation(s, e) then e.init(2) else s.lastInitiationTx
  {
    hide Expired, Padded, Kdf.Tau, ShouldSendInitiation;
    match e
    case SendEvent(payload, alloc, sendOk, clock) => KeepsOutput(s, payload, alloc, sendOk, clock);
    case DataEvent(index, nonce, alloc, plain, destOk, clock) =>
      KeepsData(s, index, nonce, alloc, plain, destOk, clock);
    case ResponseEvent(receiver, sender, genuine, secrets, alloc, sendOk, clock) =>
      KeepsComplete(s, receiver, sender, genuine, secrets, alloc, sendOk, clock);
    case TimerEvent(alloc, sendOk, reap, keep, init, dhOk, index, secrets, initAlloc) =>
      KeepsBefore(s, alloc, sendOk, reap, keep);
      hide BeforeInitiation;
    case _ =>
  }

  lemma KeepsOutput(s: State, payload: Option<seq<byte>>, alloc: bool, sendOk: bool, clock: Clock)
    ensures Output(s, payload, alloc, sendOk, clock).lastInitiationTx == s.lastInitiationTx
  {
    hide Expired, Padded;
  }

  lemma KeepsData(s: State, index: u32, nonce: u64, alloc: bool, plain: Option<seq<byte>>, destOk: bool, clock: Clock)
    ensures Data(s, index, nonce, alloc, plain, destOk, clock).lastInitiationTx == s.lastInitiationTx
  {
    hide Expired, Arrived;
    match Lookup(s, index)
    case None =>
    case Some(slot) => if plain.Some? { KeepsArrived(s, slot, nonce, plain.value, destOk, clock); }
  }

  lemma KeepsArrived(s: State, slot: Slot, nonce: u64, payload: seq<byte>, destOk: bool, clock: Clock)
    ensures Arrived(s, slot, nonce, payload, destOk, clock).lastInitiationTx == s.lastInitiationTx
  {
    hide Heard, Admit;
    KeepsHeard(s, slot, clock);
    KeepsAdmit(Heard(s, slot, clock), slot, Get(s, slot).session, nonce, destOk);
  }

  lemma KeepsHeard(s: State, slot: Slot, clock: Clock)
    ensures Heard(s, slot, clock).lastInitiationTx == s.lastInitiationTx
  {
    hide Expired;
  }

  lemma KeepsAdmit(s: State, slot: Slot, session: nat, nonce: u64, destOk: bool)
    ensures Admit(s, slot, session, nonce, destOk).lastInitiationTx == s.lastInitiationTx
  {
    hide Replay.Check;
  }

  lemma KeepsComplete(s: State, receiver: u32, sender: u32, genuine: bool, secrets: Handshake, alloc: bool,
                      sendOk: bool, clock: Clock)
    ensures Complete(s, receiver, sender, genuine, secrets, alloc, sendOk, clock).lastInitiationTx == s.lastInitiationTx
  {
    hide Output, Kdf.Tau;
    var h := s.handshake.(remoteEphemeral := secrets.remoteEphemeral, hash := secrets.hash,
                          chainingKey := secrets.chainingKey, remoteIndex := sender);
    KeepsOutput(StartSession(s.(handshake := h), true, clock(3)), None, alloc, sendOk, clock);
  }

  lemma KeepsBefore(s: State, alloc: bool, sendOk: bool, reap: Clock, keep: Clock)
    ensures BeforeInitiation(s, alloc, sendOk, reap, keep).lastInitiationTx == s.lastInitiationTx
  {
    hide Output, Expired;
    KeepsOutput(Reap(s, reap), None, alloc, sendOk, keep);
  }

  /** An event with the real time, in milliseconds since boot, at which a timer tick decides
      about an initiation and at which it records having sent one. */
  datatype Timed = Timed(event: Event, decided: nat, recorded: nat)

  predicate Clocked(e: Timed) {
    e.event.TimerEvent? ==>
      e.decided <= e.recorded && e.event.init(0) == e.decided % TWO32 && e.event.init(2) == e.recorded % TWO32
  }

  predicate Timeline(events: seq<Timed>) {
    && (forall i :: 0 <= i < |events| ==> Clocked(events[i]))
    && (forall i, j :: 0 <= i < j < |events| ==> events[i].recorded <= events[j].decided)
  }

  function After(s: State, events: seq<Timed>): State {
    if events == [] then s else Step(After(s, events[..|events| - 1]), events[|events| - 1].event)
  }

  predicate SendsAt(s: State, events: seq<Timed>, i: nat)
    requires i < |events|
  {
    SendsInitiation(After(s, events[..i]), events[i].event)
  }

  /** 32-bit expiry in terms of real time: once 5000 ms have really passed or the clock has
      wrapped around, never earlier. */
  lemma ExpiredInRealTime(created: nat, now: nat)
    requires created <= now && Expired(now % TWO32, created % TWO32, REKEY_TIMEOUT)
    ensures now - created >= 5000
  {
    var d := now - created;
    assert (now % TWO32 - created % TWO32) % TWO32 == d % TWO32 by {
      ModAddMultiple(now % TWO32 - created % TWO32, TWO32, now / TWO32 - created / TWO32);
      assert d == now % TWO32 - created % TWO32 + TWO32 * (now / TWO32 - created / TWO32);
    }
  }

  /** A sending tick is 5 s after the recorded last one, unless that was at clock zero. */
  lemma SendsAfterPause(s: State, e: Timed, last: nat)
    requires SendsInitiation(s, e.event) && Clocked(e) && last <= e.decided
    requires s.lastInitiationTx == last % TWO32 != 0
    ensures e.decided - last >= 5000
  {
    match e.event
    case TimerEvent(alloc, sendOk, reap, keep, init, dhOk, index, secrets, initAlloc) =>
      KeepsBefore(s, alloc, sendOk, reap, keep);
      hide BeforeInitiation, Expired;
      ExpiredInRealTime(last, e.decided);
  }

  /** If tick i sent an initiation and none was sent after it, its time is on record. */
  lemma {:induction false} OnRecord(s: State, events: seq<Timed>, i: nat)
    requires Timeline(events) && i < |events| && SendsAt(s, events, i)
    requires forall j :: i < j < |events| ==> !SendsAt(s, events, j)
    ensures After(s, events).lastInitiationTx == events[i].recorded % TWO32
    decreases |events|
  {
    hide SendsInitiation, Step;
    var n := |events| - 1;
    var before := events[..n];
    LastInitiation(After(s, before), events[n].event);
    if i < n {
      assert before[..i] == events[..i];
      forall j | i < j < n ensures !SendsAt(s, before, j) {
        assert before[..j] == events[..j] && !SendsAt(s, events, j);
      }
      assert !SendsAt(s, events, n);
      OnRecord(s, before, i);
    } else {
      assert events[n].event.TimerEvent? by { SendersAreTimers(After(s, before), events[n].event); }
    }
  }

  lemma SendersAreTimers(s: State, e: Event)
    requires SendsInitiation(s, e)
    ensures e.TimerEvent?
  {
  }

  /** Two initiations sent by the timer are at least 5 s of real time apart, across any
      number of wraparounds of the 32-bit clock, if the first is recorded at a clock other
      than zero. */
  lemma {:induction false} InitiationsApart(s: State, events: seq<Timed>, i: nat, j: nat)
    requires Timeline(events) && i < j < |events|
    requires SendsAt(s, events, i) && SendsAt(s, events, j) && events[i].recorded % TWO32 != 0
    ensures events[j].decided - events[i].recorded >= 5000
    decreases j
  {
    hide SendsInitiation, Step;
    if k :| i < k < j && SendsAt(s, events, k) {
      InitiationsApart(s, events, i, k);
      SendersAreTimers(After(s, events[..k]), events[k].event);
      assert events[k].decided <= events[k].recorded <= events[j].decided;
    } else {
      var before := events[..j];
      assert before[..i] == events[..i];
      forall k | i < k < |before| ensures !SendsAt(s, before, k) {
        assert before[..k] == events[..k] && !SendsAt(s, events, k);
      }
      OnRecord(s, before, i);
      SendsAfterPause(After(s, before), events[j], events[i].recorded);
    }
  }

  /** A tick that sends an initiation at once in a state that is still waiting for its first
      session. */
  function Impatient(now: nat, index: u32): Timed {
    var t := _ => now % TWO32;
    Timed(TimerEvent(true, true, t, t, t, true, index, IDLE, true), now, now)
  }

  /** The exact condition for the pause, for a peer that is still waiting for its first
      session: the last initiation was not recorded at clock zero. Recorded at clock zero it
      counts as never sent, and the very next tick may send again. */
  lemma PauseExactly(s: State, last: nat)
    requires s.active && !s.curr.valid && s.lastInitiationTx == last % TWO32
    ensures (forall e: Timed ::
               SendsInitiation(s, e.event) && Possible(s, e.event) && Clocked(e) && last <= e.decided
               ==> e.decided - last >= 5000)
       <==> last % TWO32 != 0
  {
    hide SendsInitiation, Possible, Unique;
    if last % TWO32 != 0 {
      forall e: Timed | SendsInitiation(s, e.event) && Possible(s, e.event) && Clocked(e) && last <= e.decided
        ensures e.decided - last >= 5000
      {
        SendsAfterPause(s, e, last);
      }
    } else {
      var index := SomeUnique(s);
      ImpatientSends(s, last, index);
      assert Clocked(Impatient(last, index));
    }
  }

  lemma SomeUnique(s: State) returns (index: u32)
    ensures Unique(s, index)
  {
    assert Unique(s, 1) || Unique(s, 2) || Unique(s, 3) || Unique(s, 4) || Unique(s, 5);
    index :| Unique(s, index);
  }

  lemma ImpatientSends(s: State, now: nat, index: u32)
    requires s.active && !s.curr.valid && s.lastInitiationTx == 0 && Unique(s, index)
    ensures SendsInitiation(s, Impatient(now, index).event) && Possible(s, Impatient(now, index).event)
    ensures var t := Step(s, Impatient(now, index).event);
            && t.active && !t.curr.valid && t.lastInitiationTx == now % TWO32
            && t.curr == s.curr && t.prev == s.prev && t.next == s.next && t.handshake.localIndex == index
  {
    hide Expired, Padded;
  }

  /** Such a run exists: a fresh peer that is connected at a moment when the clock reads zero
      sends two initiations at that moment. */
  lemma TwoAtOnce(s: State, now: nat)
    requires Initial(s) && s.lastInitiationTx == 0 && now % TWO32 == 0
    ensures var first, second := Impatient(now, 1), Impatient(now, 2);
            var events := [Timed(ConnectEvent, now, now), first, second];
            && PossibleRun(s, [ConnectEvent, first.event, second.event]) && Timeline(events)
            && SendsAt(s, events, 1) && SendsAt(s, events, 2)
            && events[2].decided - events[1].recorded == 0
  {
    var connect, first, second := Timed(ConnectEvent, now, now), Impatient(now, 1), Impatient(now, 2);
    var events := [connect, first, second];
    assert events[..0] == [] && events[..1] == [connect] && events[..2] == [connect, first];
    assert [connect][..0] == [] && [connect, first][..1] == [connect];
    var s1 := Step(s, ConnectEvent);
    ImpatientSends(s1, now, 1);
    var s2 := Step(s1, first.event);
    ImpatientSends(s2, now, 2);
    SessionReplay.ThreeSteps(s, ConnectEvent, first.event, second.event);
    hide SendsInitiation, PossibleRun;
    assert After(s, [connect]) == s1 && After(s, [connect, first]) == s2 by { hide Step; AfterTwo(s, connect, first); }
  }

  lemma AfterTwo(s: State, a: Timed, b: Timed)
    ensures After(s, [a]) == Step(s, a.event) && After(s, [a, b]) == Step(Step(s, a.event), b.event)
  {
    hide Step;
    assert [a][..0] == [] && [a, b][..1] == [a];
  }

  // In numbers

  /** The timestamp is 2^62 + 10 plus the seconds, and the nanoseconds, both big-endian. */
  lemma Tai64nNumbers(seconds: int, micros: nat)
    requires 0 <= seconds < 0x1_0000_0000_0000 && micros < 1_000_000
    ensures var t := Tai64n(seconds, micros);
            FromBE(t[..8]) == 0x4000_0000_0000_000a + seconds && FromBE(t[8..]) == micros * 1000
  {
    hide Pow256, FromBE, ToBE;
    PowersOf256();
    FromBEToBE(8, EPOCH + seconds);
    FromBEToBE(4, micros * 1000);
  }

  /** An initiation is accepted exactly if its timestamp is greater than all accepted ones and the
      reversed difference of the clocks is at least 500 ms; only then is it remembered. */
  lemma AcceptsExactly(m: Memory, a: Attempt)
    ensures Accepts(m, a) <==>
            FromBE(a.timestamp) > FromBE(m.greatest) && (m.lastRx - a.now) % TWO32 >= 500
    ensures Remember(m, a) == if Accepts(m, a) then Memory(a.timestamp, a.now) else m
  {
    hide FromBE, Memcmp;
    MemcmpOrders(a.timestamp, m.greatest);
  }
}
