/** The handshake code of wireguard.c in its own form: the hash and the chaining key of the
    pending handshake are buffers that the key derivation overwrites in place, and a message
    changes a peer only once everything in it has been checked. Every method is proved to
    compute the transcript function of `Noise`, about which agreement is proved. */
module NoisePeer {
  import opened Bits
  import opened Bytes
  import opened Wrappers
  import opened Kdf
  import opened Keypairs
  import opened Messages
  import opened Noise
  import opened Timestamps
  import Aead

  predicate Buffer(a: array<byte>) {
    a.Length == 32
  }

  /** memcpy of 32 bytes */
  method Copy(out: array<byte>, k: Key)
    requires Buffer(out)
    modifies out
    ensures out[..] == k
  {
    Store(out, k);
  }

  // The recurring steps, on any pair of buffers for the hash and the chaining key

  /** `Ci := Hash(Construction); Hi := Hash(Ci || Identifier); Hi := Hash(Hi || Spubr)` */
  method Begin(hash: array<byte>, chain: array<byte>, staticKey: Key)
    requires Buffer(hash) && Buffer(chain) && hash != chain
    modifies hash, chain
    ensures hash[..] == Digest(IdentifierHash() + staticKey) && chain[..] == ConstructionHash()
  {
    hide Digest, IdentifierHash, ConstructionHash;
    Copy(chain, ConstructionHash());
    Copy(hash, IdentifierHash());
    MixHash(hash, staticKey);
    assert chain[..] == ConstructionHash();
  }

  /** `C := Kdf1(C, e); H := Hash(H || e)` */
  method MixEphemeral(hash: array<byte>, chain: array<byte>, ephemeral: Key)
    requires Buffer(hash) && Buffer(chain) && hash != chain
    modifies hash, chain
    ensures hash[..] == Digest(old(hash[..]) + ephemeral) && chain[..] == Tau(old(chain[..]), ephemeral, 1)
  {
    hide Digest, Tau;
    Kdf1(chain, chain, ephemeral);
    MixHash(hash, ephemeral);
  }

  /** `(C, k) := Kdf2(C, secret); msg := AEAD(k, 0, plain, H); H := Hash(H || msg)` */
  method MixAndSeal(hash: array<byte>, chain: array<byte>, secret: Key, plain: seq<byte>) returns (box: seq<byte>)
    requires Buffer(hash) && Buffer(chain) && hash != chain
    modifies hash, chain
    ensures chain[..] == Tau(old(chain[..]), secret, 1)
    ensures box == Aead.Seal(Tau(old(chain[..]), secret, 2), 0, old(hash[..]), plain)
    ensures hash[..] == Digest(old(hash[..]) + box)
  {
    hide Digest, Tau, Aead.Seal;
    var key := new byte[32];
    Kdf2(chain, key, chain, secret);
    box := Aead.Seal(key[..], 0, hash[..], plain);
    MixHash(hash, box);
  }

  /** The same steps on the receiving end; nothing is mixed if the box does not open. */
  method MixAndOpen(hash: array<byte>, chain: array<byte>, secret: Key, box: seq<byte>)
    returns (plain: Option<seq<byte>>)
    requires Buffer(hash) && Buffer(chain) && hash != chain && 16 <= |box| < 0x8000_0000
    modifies hash, chain
    ensures chain[..] == Tau(old(chain[..]), secret, 1)
    ensures plain == Aead.Open(Tau(old(chain[..]), secret, 2), 0, old(hash[..]), box)
    ensures plain.Some? ==> hash[..] == Digest(old(hash[..]) + box)
  {
    hide Digest, Tau, Aead.Open;
    var key := new byte[32];
    Kdf2(chain, key, chain, secret);
    plain := Aead.Open(key[..], 0, hash[..], box);
    if plain.Some? {
      MixHash(hash, box);
    }
  }

  /** `(Cr, t, k) := Kdf3(Cr, Q); Hr := Hash(Hr || t)` */
  method MixPresharedKey(hash: array<byte>, chain: array<byte>, psk: Key) returns (key: Key)
    requires Buffer(hash) && Buffer(chain) && hash != chain
    modifies hash, chain
    ensures chain[..] == Tau(old(chain[..]), psk, 1) && key == Tau(old(chain[..]), psk, 3)
    ensures hash[..] == Digest(old(hash[..]) + Tau(old(chain[..]), psk, 2))
  {
    hide Digest, Tau;
    var tau, k := new byte[32], new byte[32];
    Kdf3(chain, tau, k, chain, psk);
    MixHash(hash, tau[..]);
    key := k[..];
  }

  /** The initiation is read as this timestamp, hash and chaining key. */
  predicate Reads(dh: Dh, d: Device, r: Remote, h0: Handshake, m: Initiation,
                  t: Option<Timestamp>, hash: seq<byte>, chain: seq<byte>)
  {
    hide Process;
    && m.Valid() && |hash| == |chain| == 32
    && Process(dh, d, r, h0, m) ==
       if t.None? then None
       else Some((t.value, h0.(valid := true, initiator := false, remoteIndex := m.sender,
                               remoteEphemeral := m.ephemeral, hash := hash, chainingKey := chain)))
  }

  /** The cryptography of wireguard_process_initiation_message, in local buffers. */
  method ReadInitiation(dh: Dh, d: Device, r: Remote, ghost h0: Handshake, m: Initiation)
    returns (h: array<byte>, c: array<byte>, t: Option<Timestamp>)
    requires m.Valid()
    ensures fresh(h) && fresh(c) && Buffer(h) && Buffer(c)
    ensures Reads(dh, d, r, h0, m, t, h[..], c[..])
  {
    hide Digest, Tau, Aead.Open, IdentifierHash, ConstructionHash;
    t := None;
    h, c := new byte[32], new byte[32];
    Begin(h, c, d.publicKey);
    MixEphemeral(h, c, m.ephemeral);
    var es := dh(d.privateKey, m.ephemeral);
    if es != ZERO_KEY {
      var sender := MixAndOpen(h, c, es, m.encStatic);
      if sender == Some(r.publicKey) {
        t := MixAndOpen(h, c, r.publicKeyDh, m.encTimestamp);
      }
    }
  }

  // The peer

  class HandshakeState {
    // struct wireguard_handshake
    var valid: bool
    var initiator: bool
    var localIndex: u32
    var remoteIndex: u32
    const ephemeralPrivate: array<byte>
    const remoteEphemeral: array<byte>
    const hash: array<byte>
    const chainingKey: array<byte>
    // accepted initiations
    var greatestTimestamp: Timestamp
    var lastInitiationRx: u32

    ghost predicate Valid() {
      && Buffer(ephemeralPrivate) && Buffer(remoteEphemeral) && Buffer(hash) && Buffer(chainingKey)
      && ephemeralPrivate != remoteEphemeral && ephemeralPrivate != hash && ephemeralPrivate != chainingKey
      && remoteEphemeral != hash && remoteEphemeral != chainingKey && hash != chainingKey
    }

    ghost function Pending(): Handshake
      requires Valid()
      reads this, ephemeralPrivate, remoteEphemeral, hash, chainingKey
    {
      Handshake(valid, initiator, localIndex, remoteIndex, ephemeralPrivate[..], remoteEphemeral[..], hash[..],
                chainingKey[..])
    }

    ghost function Accepted(): Memory
      reads this
    {
      Memory(greatestTimestamp, lastInitiationRx)
    }

    /** wireguard_peer_init, as far as the handshake is concerned */
    constructor ()
      ensures Valid() && Pending() == IDLE && Accepted() == Memory(Zeros(12), 0)
      ensures fresh(ephemeralPrivate) && fresh(remoteEphemeral) && fresh(hash) && fresh(chainingKey)
    {
      valid, initiator, localIndex, remoteIndex := false, false, 0, 0;
      ephemeralPrivate, remoteEphemeral := new byte[32](_ => 0), new byte[32](_ => 0);
      hash, chainingKey := new byte[32](_ => 0), new byte[32](_ => 0);
      greatestTimestamp, lastInitiationRx := Zeros(12), 0;
      new;
      assert ephemeralPrivate[..] == remoteEphemeral[..] == hash[..] == chainingKey[..] == Zeros(32);
    }

    /** wireguard_create_handshake_initiation up to the MACs. A failure leaves the identity of
        the pending handshake alone; only its secrets are overwritten. */
    method CreateInitiation(dh: Dh, d: Device, r: Remote, ephemeral: Key, timestamp: Timestamp, index: u32)
      returns (m: Option<Initiation>)
      requires Valid()
      modifies this, ephemeralPrivate, hash, chainingKey
      ensures Valid() && Accepted() == old(Accepted())
      ensures var c := Create(dh, d, r, old(Pending()), ephemeral, timestamp, index);
              && m.Some? == c.Some?
              && (c.Some? ==> m.value == c.value.0 && Pending() == c.value.1)
      ensures m.None? ==>
                Pending() == old(Pending()).(ephemeralPrivate := Pending().ephemeralPrivate, hash := Pending().hash,
                                             chainingKey := Pending().chainingKey)
    {
      hide Digest, Tau, Aead.Seal, IdentifierHash, ConstructionHash;
      m := None;
      Begin(hash, chainingKey, r.publicKey);
      Copy(ephemeralPrivate, ephemeral);
      var pub := dh(ephemeral, BASE_POINT);
      if ephemeral != ZERO_KEY && pub != ZERO_KEY {
        MixEphemeral(hash, chainingKey, pub);
        var es := dh(ephemeral, r.publicKey);
        if es != ZERO_KEY {
          var encStatic := MixAndSeal(hash, chainingKey, es, d.publicKey);
          var encTimestamp := MixAndSeal(hash, chainingKey, r.publicKeyDh, timestamp);
          valid, initiator, localIndex := true, true, index;
          m := Some(Initiation(index, pub, encStatic, encTimestamp, Zeros(16), Zeros(16)));
        }
      }
    }

    /** wireguard_process_initiation_message for a device with one peer. */
    method ProcessInitiation(dh: Dh, d: Device, r: Remote, m: Initiation, now: u32) returns (ok: bool)
      requires Valid() && m.Valid()
      modifies this, remoteEphemeral, hash, chainingKey
      ensures Valid()
      ensures var p := Process(dh, d, r, old(Pending()), m);
              ok == (p.Some? && Accepts(old(Accepted()), Attempt(p.value.0, now)))
      ensures ok ==> Accepted().lastRx == now &&
                     Process(dh, d, r, old(Pending()), m) == Some((Accepted().greatest, Pending()))
      ensures !ok ==> Pending() == old(Pending()) && Accepted() == old(Accepted())
    {
      hide Process, Memcmp;
      ok := false;
      var h, c, t := ReadInitiation(dh, d, r, Pending(), m);
      if t.Some? {
        var replay := Memcmp(t.value, greatestTimestamp) <= 0;
        var rateLimit := (lastInitiationRx - now) % TWO32 < 1000 / 2;
        if !replay && !rateLimit {
          ok := true;
          lastInitiationRx, greatestTimestamp := now, t.value;
          Copy(remoteEphemeral, m.ephemeral);
          Copy(hash, h[..]);
          Copy(chainingKey, c[..]);
          valid, initiator, remoteIndex := true, false, m.sender;
        }
      }
    }

    /** wireguard_create_handshake_response up to the MACs. */
    method CreateResponse(dh: Dh, r: Remote, ephemeral: Key, index: u32) returns (m: Option<Response>)
      requires Valid()
      modifies this, ephemeralPrivate, hash, chainingKey
      ensures Valid() && Accepted() == old(Accepted())
      ensures var a := Answer(dh, r, old(Pending()), ephemeral, index);
              && m.Some? == a.Some?
              && (a.Some? ==> m.value == a.value.0 && Pending() == a.value.1)
      ensures m.None? ==>
                Pending() == old(Pending()).(ephemeralPrivate := Pending().ephemeralPrivate, hash := Pending().hash,
                                             chainingKey := Pending().chainingKey)
    {
      hide Digest, Tau, Aead.Seal;
      m := None;
      if valid && !initiator {
        Copy(ephemeralPrivate, ephemeral);
        var pub := dh(ephemeral, BASE_POINT);
        if ephemeral != ZERO_KEY && pub != ZERO_KEY {
          MixEphemeral(hash, chainingKey, pub);
          var ee := dh(ephemeral, remoteEphemeral[..]);
          if ee != ZERO_KEY {
            Kdf1(chainingKey, chainingKey, ee);
            var se := dh(ephemeral, r.publicKey);
            if se != ZERO_KEY {
              Kdf1(chainingKey, chainingKey, se);
              var key := MixPresharedKey(hash, chainingKey, r.presharedKey);
              var encEmpty := Aead.Seal(key, 0, hash[..], []);
              MixHash(hash, encEmpty);
              m := Some(Response(index, remoteIndex, pub, encEmpty, Zeros(16), Zeros(16)));
              localIndex := index;
            }
          }
        }
      }
    }

    /** wireguard_process_handshake_response */
    method ProcessResponse(dh: Dh, d: Device, r: Remote, m: Response) returns (ok: bool)
      requires Valid() && m.Valid()
      modifies this, remoteEphemeral, hash, chainingKey
      ensures Valid() && Accepted() == old(Accepted())
      ensures ok == Finish(dh, d, r, old(Pending()), m).Some?
      ensures Pending() == if ok then Finish(dh, d, r, old(Pending()), m).value else old(Pending())
    {
      hide Digest, Tau, Aead.Open;
      ok := false;
      if valid && initiator {
        var h, c := new byte[32], new byte[32];
        Copy(h, hash[..]);
        Copy(c, chainingKey[..]);
        MixEphemeral(h, c, m.ephemeral);
        var ee := dh(ephemeralPrivate[..], m.ephemeral);
        if ee != ZERO_KEY {
          Kdf1(c, c, ee);
          var se := dh(d.privateKey, m.ephemeral);
          if se != ZERO_KEY {
            Kdf1(c, c, se);
            var key := MixPresharedKey(h, c, r.presharedKey);
            if Aead.Open(key, 0, h[..], m.encEmpty).Some? {
              Copy(remoteEphemeral, m.ephemeral);
              Copy(hash, h[..]);
              Copy(chainingKey, c[..]);
              remoteIndex := m.sender;
              ok := true;
            }
          }
        }
      }
    }
  }
}
