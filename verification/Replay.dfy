/** The sliding replay window of wireguard_check_replay (after Appendix C of RFC 2401): a
    32-bit bitmap below the highest accepted sequence number, refining the set of all
    accepted sequence numbers. */
module Replay {
  import opened Bits
  import opened Bytes

  const WINDOW := 32

  /** The replay fields of a keypair. */
  datatype Window = Window(bitmap: u32, counter: u64)

  const FRESH := Window(0, 0)

  function Shl(x: u32, k: nat): u32 {
    (x * Pow2(k)) % TWO32
  }

  /** The sequence number of a packet counter: counters start at 0, sequence numbers at 1. */
  function Sequence(nonce: u64): u64 {
    (nonce + 1) % 0x1_0000_0000_0000_0000
  }

  /** The new window and the verdict. */
  function Check(w: Window, nonce: u64): (Window, bool) {
    var s := Sequence(nonce);
    if s == 0 then (w, false)
    else if s > w.counter then
      var diff: u32 := (s - w.counter) % TWO32;
      (Window(if diff < WINDOW then Or32(Shl(w.bitmap, diff), 1) else 1, s), true)
    else
      var diff: u32 := (w.counter - s) % TWO32;
      if diff >= WINDOW || And(w.bitmap, Shl(1, diff)) != 0 then (w, false)
      else (Window(Or32(w.bitmap, Shl(1, diff)), w.counter), true)
  }

  function Or32(x: u32, y: u32): u32 {
    Pow2Values();
    OrBound(x, y, 32);
    Or(x, y)
  }

  /** wireguard_check_replay */
  method CheckReplay(w: Window, nonce: u64) returns (v: Window, result: bool)
    ensures (v, result) == Check(w, nonce)
  {
    hide Shl, Or32, And;
    v := w;
    result := false;
    var s := Sequence(nonce);
    if s != 0 {
      if s > v.counter {
        var diff: u32 := (s - v.counter) % TWO32;
        if diff < WINDOW {
          v := v.(bitmap := Shl(v.bitmap, diff));
          v := v.(bitmap := Or32(v.bitmap, 1));
        } else {
          v := v.(bitmap := 1);
        }
        v := v.(counter := s);
        result := true;
      } else {
        var diff: u32 := (v.counter - s) % TWO32;
        if diff < WINDOW {
          if And(v.bitmap, Shl(1, diff)) == 0 {
            v := v.(bitmap := Or32(v.bitmap, Shl(1, diff)));
            result := true;
          }
        }
      }
    }
  }

  // What the window stands for

  /** Bit d of the bitmap says whether the sequence number d below the highest was accepted. */
  ghost predicate Represents(w: Window, accepted: set<u64>) {
    && (forall s :: s in accepted ==> 0 < s <= w.counter)
    && (w.counter > 0 ==> w.counter in accepted)
    && (forall d: nat :: d < WINDOW ==> (Bit(w.bitmap, d) <==> w.counter - d in accepted))
  }

  /** What the window is for: new, and ahead or fewer than 32 behind the highest. */
  ghost predicate Acceptable(w: Window, accepted: set<u64>, nonce: u64) {
    var s := Sequence(nonce);
    s != 0 && s !in accepted && s + WINDOW > w.counter
  }

  function Distance(w: Window, nonce: u64): u64 {
    var s := Sequence(nonce);
    if s > w.counter then s - w.counter else w.counter - s
  }

  /** The distance is kept in 32 bits: it may look small when it is not. */
  predicate Aliased(w: Window, nonce: u64) {
    Distance(w, nonce) >= TWO32 && Distance(w, nonce) % TWO32 < WINDOW
  }

  /** An aliased distance does no harm if it misses: ahead, when no bit that the small shift
      leaves in the word marks another number than the new one; behind, when the bit that it
      tests is set. */
  predicate Harmless(w: Window, nonce: u64) {
    var s, k := Sequence(nonce), Distance(w, nonce) % TWO32;
    Aliased(w, nonce) && s != 0 ==>
      if s > w.counter then forall e: nat :: e < WINDOW && Bit(w.bitmap, e) ==> e + k >= WINDOW || e + k == 0
      else Bit(w.bitmap, k)
  }

  /** One call does what the window is for: the verdict is right and the new window stands for
      the new set. */
  ghost predicate Refines(w: Window, accepted: set<u64>, nonce: u64) {
    var (v, ok) := Check(w, nonce);
    ok == Acceptable(w, accepted, nonce) && Represents(v, if ok then accepted + {Sequence(nonce)} else accepted)
  }

  lemma {:induction false} AndPow2(x: nat, k: nat)
    ensures And(x, Pow2(k)) != 0 <==> Bit(x, k)
    decreases k
  {
    if x == 0 {
      ZeroBit(k);
    } else if k == 0 {
      AndZero(x / 2);
    } else {
      AndPow2(x / 2, k - 1);
    }
  }

  lemma {:induction false} Pow2Below32(k: nat)
    requires k < WINDOW
    ensures Pow2(k) < TWO32
  {
    Pow2Values();
    Pow2Add(k, 32 - k);
    Pow2AtLeast2(32 - k);
    assert Pow2(k) * 2 <= Pow2(k) * Pow2(32 - k);
  }

  lemma Pow2AtLeast2(k: nat)
    requires k > 0
    ensures Pow2(k) >= 2
  {
  }

  lemma ShlBit(x: u32, k: nat, d: nat)
    requires d < WINDOW
    ensures Bit(Shl(x, k), d) <==> d >= k && Bit(x, d - k)
  {
    Pow2Values();
    ModPow2Bit(x * Pow2(k), 32, d);
    TimesPow2Bit(x, k, d);
  }

  lemma OneShl(k: nat, d: nat)
    requires k < WINDOW && d < WINDOW
    ensures Shl(1, k) == Pow2(k) && (Bit(Shl(1, k), d) <==> d == k)
  {
    Pow2Below32(k);
    Pow2Bit(k, d);
  }

  lemma OneBit(d: nat)
    ensures Bit(1, d) <==> d == 0
  {
    Pow2Bit(0, d);
  }

  /** Moving the window ahead. */
  lemma Ahead(w: Window, accepted: set<u64>, nonce: u64)
    requires Represents(w, accepted) && !Aliased(w, nonce) && Sequence(nonce) > w.counter
    ensures Represents(Check(w, nonce).0, accepted + {Sequence(nonce)})
  {
    var s, v := Sequence(nonce), Check(w, nonce).0;
    var diff := s - w.counter;
    hide Shl, Or32;
    forall d: nat | d < WINDOW ensures Bit(v.bitmap, d) <==> s - d in accepted + {s} {
      OneBit(d);
      if diff % TWO32 < WINDOW {
        ShlBit(w.bitmap, diff, d);
        Or32Bit(Shl(w.bitmap, diff), 1, d);
        if d >= diff { assert s - d == w.counter - (d - diff); }
      }
    }
  }

  lemma Or32Bit(x: u32, y: u32, d: nat)
    ensures Bit(Or32(x, y), d) <==> Bit(x, d) || Bit(y, d)
  {
    OrBit(x, y, d);
  }

  /** Filling a gap inside the window. */
  lemma Inside(w: Window, accepted: set<u64>, nonce: u64)
    requires Represents(w, accepted) && !Aliased(w, nonce) && 0 < Sequence(nonce) <= w.counter
    ensures var (v, ok) := Check(w, nonce);
            && ok == Acceptable(w, accepted, nonce)
            && Represents(v, if ok then accepted + {Sequence(nonce)} else accepted)
  {
    var s := Sequence(nonce);
    var (v, ok) := Check(w, nonce);
    var k := w.counter - s;
    hide Shl, Or32;
    if k < WINDOW {
      OneShl(k, k);
      AndPow2(w.bitmap, k);
      if ok {
        forall d: nat | d < WINDOW ensures Bit(v.bitmap, d) <==> w.counter - d in accepted + {s} {
          OneShl(k, d);
          Or32Bit(w.bitmap, Shl(1, k), d);
        }
      }
    }
  }

  /** Moving the window 2^32 + k ahead: only the bit of the new number may remain. */
  lemma AheadAliased(w: Window, accepted: set<u64>, nonce: u64)
    requires Represents(w, accepted) && Aliased(w, nonce) && Sequence(nonce) > w.counter
    ensures Represents(Check(w, nonce).0, accepted + {Sequence(nonce)}) <==> Harmless(w, nonce)
  {
    var s, v, k := Sequence(nonce), Check(w, nonce).0, Distance(w, nonce) % TWO32;
    var all := accepted + {s};
    hide Shl, Or32, Check, Sequence;
    assert v == Window(Or32(Shl(w.bitmap, k), 1), s) by { CheckAhead(w, nonce); }
    forall d: nat | d < WINDOW
      ensures Bit(v.bitmap, d) <==> d == 0 || (d >= k && Bit(w.bitmap, d - k))
      ensures s - d in all <==> d == 0
    {
      OneBit(d);
      ShlBit(w.bitmap, k, d);
      Or32Bit(Shl(w.bitmap, k), 1, d);
    }
    if Represents(v, all) {
      forall e: nat | e < WINDOW && Bit(w.bitmap, e) ensures e + k >= WINDOW || e + k == 0 {
        if e + k < WINDOW { assert Bit(v.bitmap, e + k); }
      }
    }
  }

  lemma CheckAhead(w: Window, nonce: u64)
    requires Sequence(nonce) > w.counter && Distance(w, nonce) % TWO32 < WINDOW
    ensures Check(w, nonce) == (Window(Or32(Shl(w.bitmap, Distance(w, nonce) % TWO32), 1), Sequence(nonce)), true)
  {
    hide Shl, Or32;
  }

  /** Falling back 2^32 + k behind: right exactly when the tested bit is set. */
  lemma BehindAliased(w: Window, accepted: set<u64>, nonce: u64)
    requires Represents(w, accepted) && Aliased(w, nonce) && 0 < Sequence(nonce) <= w.counter
    ensures Refines(w, accepted, nonce) <==> Harmless(w, nonce)
  {
    var k := Distance(w, nonce) % TWO32;
    hide Shl, Or32;
    OneShl(k, k);
    AndPow2(w.bitmap, k);
  }

  /** The exact condition, for every window and the set it stands for: a call does what the
      window is for if and only if the distance is harmless. */
  lemma CheckExact(w: Window, accepted: set<u64>, nonce: u64)
    requires Represents(w, accepted)
    ensures Refines(w, accepted, nonce) <==> Harmless(w, nonce)
  {
    hide Represents, Check, Bit;
    var s := Sequence(nonce);
    if s == 0 {
      CheckZero(w, nonce);
    } else if s > w.counter {
      AheadAccepted(w, accepted, nonce);
      if Aliased(w, nonce) { AheadAliased(w, accepted, nonce); } else { Ahead(w, accepted, nonce); }
    } else if Aliased(w, nonce) {
      BehindAliased(w, accepted, nonce);
    } else {
      Inside(w, accepted, nonce);
    }
  }

  lemma CheckZero(w: Window, nonce: u64)
    requires Sequence(nonce) == 0
    ensures Check(w, nonce) == (w, false)
  {
  }

  lemma AheadAccepted(w: Window, accepted: set<u64>, nonce: u64)
    requires Represents(w, accepted) && Sequence(nonce) > w.counter
    ensures Check(w, nonce).1 && Acceptable(w, accepted, nonce)
  {
    hide Shl, Or32;
  }

  /** The verdict alone is wrong exactly for a number 2^32 or more behind whose distance looks
      small and hits a clear bit; a jump ahead is only paid for later. */
  lemma VerdictExact(w: Window, accepted: set<u64>, nonce: u64)
    requires Represents(w, accepted)
    ensures Check(w, nonce).1 == Acceptable(w, accepted, nonce)
       <==> !(Aliased(w, nonce) && 0 < Sequence(nonce) <= w.counter && !Bit(w.bitmap, Distance(w, nonce) % TWO32))
  {
    var s := Sequence(nonce);
    if !Aliased(w, nonce) {
      CheckRefines(w, accepted, nonce);
    } else if 0 < s <= w.counter {
      var k := (w.counter - s) % TWO32;
      hide Shl, Or32;
      OneShl(k, k);
      AndPow2(w.bitmap, k);
    }
  }

  /** A harmless distance, in particular every distance below 2^32. */
  lemma CheckRefines(w: Window, accepted: set<u64>, nonce: u64)
    requires Represents(w, accepted) && Harmless(w, nonce)
    ensures Refines(w, accepted, nonce)
  {
    CheckExact(w, accepted, nonce);
  }

  /** Behind: after one packet the counter 2^32 + 1 below it is accepted, although it is far
      too old. */
  lemma FarBehindAccepted()
    ensures var w := Check(FRESH, 0x1_0000_0004).0;
            Check(w, 3).1 && Sequence(3) + WINDOW <= w.counter && !Harmless(w, 3)
  {
    FarWindow();
    OneShl(1, 1);
    OneBit(1);
    AndPow2(1, 1);
    hide Shl, Or32, And, Bit;
  }

  lemma FarWindow()
    ensures Check(FRESH, 0x1_0000_0004).0 == Window(1, 0x1_0000_0005)
  {
    hide And;
    var s := Sequence(0x1_0000_0004);
    CheckAhead(FRESH, 0x1_0000_0004);
    var shifted := Shl(0, 5);
    assert shifted == 0;
    OrZero(1);
  }

  /** Ahead: after a jump by 2^32 + 10 the old bit marks a number that was never accepted,
      and the new packet with that number, 10 behind, is rejected. */
  lemma JumpMarksStranger()
    ensures var w := Check(FRESH, 0).0; var (v, ok) := Check(w, 0x1_0000_000A);
            && Represents(w, {1}) && ok && !Harmless(w, 0x1_0000_000A)
            && Acceptable(v, {1, 0x1_0000_000B}, 0x1_0000_0000) && !Check(v, 0x1_0000_0000).1
  {
    var w := Check(FRESH, 0).0;
    FirstWindow();
    var v := Check(w, 0x1_0000_000A).0;
    assert v == Window(Or32(Shl(1, 10), 1), 0x1_0000_000B) by { hide Shl, Or32, Represents; }
    hide Shl, Or32, Represents;
    OneShl(10, 10);
    OneBit(0);
    Or32Bit(Shl(1, 10), 1, 10);
    AndPow2(v.bitmap, 10);
  }

  lemma FirstWindow()
    ensures Check(FRESH, 0).0 == Window(1, 1) && Represents(Window(1, 1), {1})
  {
    FreshRepresents();
    CheckRefines(FRESH, {}, 0);
    assert {} + {1} == {1};
    Pow2Values();
    hide Represents;
  }

  lemma FreshRepresents()
    ensures Represents(FRESH, {})
  {
    forall d: nat ensures !Bit(0, d) { ZeroBit(d); }
  }

  /** An accepted counter is rejected at once the second time, in any state of the window. */
  lemma DuplicateRejected(w: Window, nonce: u64)
    requires Check(w, nonce).1
    ensures !Check(Check(w, nonce).0, nonce).1
  {
    var s, v := Sequence(nonce), Check(w, nonce).0;
    var k := (v.counter - s) % TWO32;
    hide Shl, Or32, Bit;
    assert k < WINDOW && s <= v.counter && Bit(v.bitmap, k) by {
      if s > w.counter {
        OneBit(0);
        Or32Bit(Shl(w.bitmap, (s - w.counter) % TWO32), 1, 0);
      } else {
        OneShl(k, k);
        Or32Bit(w.bitmap, Shl(1, k), k);
      }
    }
    MarkedRejected(v, nonce);
  }

  /** A counter whose bit is set is rejected. */
  lemma MarkedRejected(w: Window, nonce: u64)
    requires Sequence(nonce) <= w.counter
    requires var k := (w.counter - Sequence(nonce)) % TWO32; k < WINDOW && Bit(w.bitmap, k)
    ensures !Check(w, nonce).1
  {
    var k := (w.counter - Sequence(nonce)) % TWO32;
    hide Shl, Or32, Bit;
    OneShl(k, k);
    AndPow2(w.bitmap, k);
  }

  // Whole runs

  function RunWindow(nonces: seq<u64>): Window {
    if nonces == [] then FRESH else Check(RunWindow(nonces[..|nonces| - 1]), nonces[|nonces| - 1]).0
  }

  predicate RunAccepts(nonces: seq<u64>, i: nat)
    requires i < |nonces|
  {
    Check(RunWindow(nonces[..i]), nonces[i]).1
  }

  ghost function AcceptedSet(nonces: seq<u64>): set<u64> {
    set i | 0 <= i < |nonces| && RunAccepts(nonces, i) :: Sequence(nonces[i])
  }

  ghost predicate HarmlessRun(nonces: seq<u64>) {
    forall i :: 0 <= i < |nonces| ==> Harmless(RunWindow(nonces[..i]), nonces[i])
  }

  ghost predicate RefinesAt(nonces: seq<u64>, i: nat)
    requires i < |nonces|
  {
    Refines(RunWindow(nonces[..i]), AcceptedSet(nonces[..i]), nonces[i])
  }

  lemma Prefix(nonces: seq<u64>, n: nat)
    requires n <= |nonces|
    ensures HarmlessRun(nonces) ==> HarmlessRun(nonces[..n])
    ensures forall i :: 0 <= i < n ==> RefinesAt(nonces[..n], i) == RefinesAt(nonces, i)
  {
    hide Refines, Harmless, RunWindow, AcceptedSet;
    forall i | 0 <= i < n
      ensures RefinesAt(nonces[..n], i) == RefinesAt(nonces, i)
      ensures HarmlessRun(nonces) ==> Harmless(RunWindow(nonces[..n][..i]), nonces[..n][i])
    {
      assert nonces[..n][..i] == nonces[..i];
    }
  }

  /** From a fresh keypair, as long as every call does what it should, the window holds the
      set of accepted numbers. */
  lemma {:induction false} RefinedSoFar(nonces: seq<u64>)
    requires forall i :: 0 <= i < |nonces| ==> RefinesAt(nonces, i)
    ensures Represents(RunWindow(nonces), AcceptedSet(nonces))
  {
    hide Represents, Acceptable, Check;
    if nonces == [] {
      FreshRepresents();
      assert AcceptedSet([]) == {};
    } else {
      AcceptedGrows(nonces);
      assert RefinesAt(nonces, |nonces| - 1);
    }
  }

  /** The exact condition over whole runs: every verdict is right and the window always stands
      for the accepted set if and only if no call meets a harmful distance. */
  lemma {:induction false} RunExact(nonces: seq<u64>)
    ensures HarmlessRun(nonces) <==> forall i :: 0 <= i < |nonces| ==> RefinesAt(nonces, i)
    decreases |nonces|
  {
    hide Represents, Acceptable, Check, Harmless, Refines, RunWindow, AcceptedSet;
    if nonces != [] {
      var n := |nonces| - 1;
      var before := nonces[..n];
      RunExact(before);
      Prefix(nonces, n);
      if forall i :: 0 <= i < n ==> RefinesAt(nonces, i) {
        RefinedSoFar(before);
        CheckExact(RunWindow(before), AcceptedSet(before), nonces[n]);
        assert RefinesAt(nonces, n) <==> Harmless(RunWindow(nonces[..n]), nonces[n]);
        if RefinesAt(nonces, n) { HarmlessSnoc(nonces); }
      }
    }
  }

  lemma HarmlessSnoc(nonces: seq<u64>)
    requires nonces != [] && Harmless(RunWindow(nonces[..|nonces| - 1]), nonces[|nonces| - 1])
    ensures HarmlessRun(nonces[..|nonces| - 1]) ==> HarmlessRun(nonces)
  {
    hide Harmless, RunWindow;
    var before := nonces[..|nonces| - 1];
    forall i | 0 <= i < |before| && HarmlessRun(before) ensures Harmless(RunWindow(nonces[..i]), nonces[i]) {
      assert before[..i] == nonces[..i] && before[i] == nonces[i];
    }
  }

  /** In particular bit d of the window says whether the number d below the highest was
      accepted. */
  lemma RunRefines(nonces: seq<u64>)
    requires HarmlessRun(nonces)
    ensures Represents(RunWindow(nonces), AcceptedSet(nonces))
  {
    RunExact(nonces);
    RefinedSoFar(nonces);
  }

  lemma AcceptedGrows(nonces: seq<u64>)
    requires nonces != []
    ensures var n := |nonces| - 1; var before := nonces[..n];
            AcceptedSet(nonces) == if RunAccepts(nonces, n) then AcceptedSet(before) + {Sequence(nonces[n])}
                                   else AcceptedSet(before)
  {
    hide RunWindow, Check;
    var n := |nonces| - 1;
    var before := nonces[..n];
    forall i | 0 <= i < n ensures RunAccepts(before, i) == RunAccepts(nonces, i) && before[i] == nonces[i] {
      assert before[..i] == nonces[..i];
    }
    forall s | s in AcceptedSet(nonces)
      ensures s in AcceptedSet(before) || (RunAccepts(nonces, n) && s == Sequence(nonces[n]))
    {
      var i :| 0 <= i < |nonces| && RunAccepts(nonces, i) && s == Sequence(nonces[i]);
      if i < n { assert RunAccepts(before, i); }
    }
    forall s | s in AcceptedSet(before) ensures s in AcceptedSet(nonces) {
      var i :| 0 <= i < |before| && RunAccepts(before, i) && s == Sequence(before[i]);
      assert RunAccepts(nonces, i);
    }
  }

  /** No counter is accepted twice in such a run. */
  lemma AcceptedOnce(nonces: seq<u64>, i: nat, j: nat)
    requires HarmlessRun(nonces) && i < j < |nonces|
    requires RunAccepts(nonces, i) && RunAccepts(nonces, j)
    ensures nonces[i] != nonces[j]
  {
    hide Represents, Harmless;
    var before := nonces[..j];
    assert before[..i] == nonces[..i];
    assert RunAccepts(before, i);
    RunExact(nonces);
    assert RefinesAt(nonces, j);
    assert Sequence(nonces[i]) in AcceptedSet(before);
  }

  /** What is acceptable, in numbers: a counter below 2^64 - 1 that is new and less than 32 behind
      the highest one. */
  lemma AcceptableExactly(w: Window, accepted: set<u64>, nonce: u64)
    ensures Acceptable(w, accepted, nonce) <==>
            && nonce < 0xFFFF_FFFF_FFFF_FFFF && (nonce as int + 1) !in accepted && nonce + 1 + 32 > w.counter
  {
  }
}
