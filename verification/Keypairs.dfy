/** The keypair and handshake records of wireguard.h, and the keypair that
    wireguard_start_session derives from a finished handshake. */
module Keypairs {
  import opened Bits
  import opened Bytes
  import opened Replay
  import Kdf

  const REKEY_AFTER_MESSAGES: u64 := 0x1000_0000_0000_0000
  const REJECT_AFTER_MESSAGES: u64 := 0xFFFF_FFFF_FFFF_FFFF - 0x2000
  const REKEY_AFTER_TIME: u32 := 120
  const REJECT_AFTER_TIME: u32 := 180
  const REKEY_TIMEOUT: u32 := 5
  const COOKIE_SECRET_MAX_AGE: u32 := 120

  type Key = k: seq<byte> | |k| == 32 witness Zeros(32)
  type Cookie = c: seq<byte> | |c| == 16 witness Zeros(16)
  type Timestamp = t: seq<byte> | |t| == 12 witness Zeros(12)

  /** Keypairs are copied by value. `session` names the session a keypair belongs to: it
      exists in the model only, to tell copies of one session from different sessions. */
  datatype Keypair = Keypair(
    valid: bool, initiator: bool, millis: u32,
    sendingKey: Key, sendingCounter: u64, receivingKey: Key, receivingValid: bool,
    lastTx: u32, lastRx: u32, window: Window,
    localIndex: u32, remoteIndex: u32, session: nat)

  /** What keypair_destroy leaves behind. */
  const DESTROYED := Keypair(false, false, 0, Zeros(32), 0, Zeros(32), false, 0, 0, FRESH, 0, 0, 0)

  datatype Handshake = Handshake(
    valid: bool, initiator: bool, localIndex: u32, remoteIndex: u32,
    ephemeralPrivate: Key, remoteEphemeral: Key, hash: Key, chainingKey: Key)

  /** `Eprivi = Epubi = Eprivr = Epubr = Ci = Cr := E` */
  const IDLE := Handshake(false, false, 0, 0, Zeros(32), Zeros(32), Zeros(32), Zeros(32))

  /** The keypair of a new session (section 5.4.5 of the WireGuard paper). */
  function NewKeypair(h: Handshake, initiator: bool, now: u32, session: nat): Keypair {
    hide Kdf.Tau;
    var first, second := Kdf.Tau(h.chainingKey, [], 1), Kdf.Tau(h.chainingKey, [], 2);
    Keypair(true, initiator, now, if initiator then first else second, 0, if initiator then second else first, true,
            0, 0, FRESH, h.localIndex, h.remoteIndex, session)
  }

  /** wireguard_expired on 32-bit millisecond clocks. */
  predicate Expired(now: u32, created: u32, seconds: int) {
    (now - created) % TWO32 >= (seconds % TWO32 * 1000) % TWO32
  }

  /** The exit test of wireguard_generate_unique_index for one random draw. */
  predicate Assignable(index: u32) {
    index != 0 && index != 0xFFFF_FFFF
  }

  /** The limits of section 6.1 of the WireGuard paper, and expiry on the 32-bit clock. */
  lemma Limits(now: u32, created: u32, seconds: nat)
    requires seconds < 1_000_000
    ensures REKEY_AFTER_MESSAGES == 0x1000_0000_0000_0000 && REJECT_AFTER_MESSAGES == 0xFFFF_FFFF_FFFF_DFFF
    ensures REKEY_AFTER_TIME == 120 && REJECT_AFTER_TIME == 180 && REKEY_TIMEOUT == 5 && COOKIE_SECRET_MAX_AGE == 120
    ensures Expired(now, created, seconds) <==> (now - created) % TWO32 >= 1000 * seconds
    ensures Assignable(now) <==> 1 <= now <= 0xFFFF_FFFE
  {
  }
}
