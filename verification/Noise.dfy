/** The Noise_IKpsk2 handshake of wireguard.c: the transcripts of sections 5.4.2 and 5.4.3
    of the WireGuard paper, what each end computes from the messages it sees, and the
    agreement of the two ends. The scalar multiplication is a parameter. */
module Noise {
  import opened Bytes
  import opened Wrappers
  import opened Kdf
  import opened Keypairs
  import opened Messages
  import Aead

  /** The scalar multiplication; the all-zero result stands for its failure. */
  type Dh = (Key, Key) -> Key

  const ZERO_KEY: Key := Zeros(32)
  const BASE_POINT: Key := [9] + Zeros(31)

  ghost predicate Commutes(dh: Dh) {
    forall a: Key, b: Key :: dh(a, dh(b, BASE_POINT)) == dh(b, dh(a, BASE_POINT))
  }

  function Chars(s: string): (b: seq<byte>)
    requires forall i :: 0 <= i < |s| ==> s[i] as int < 256
    ensures |b| == |s|
  {
    seq<byte>(|s|, i requires 0 <= i < |s| => s[i] as int)
  }

  const CONSTRUCTION: seq<byte> := Chars("Noise_IKpsk2_25519_ChaChaPoly_BLAKE2s")
  const IDENTIFIER: seq<byte> := Chars("WireGuard v1 zx2c4 Jason@zx2c4.com")
  const LABEL_MAC1: seq<byte> := Chars("mac1----")
  const LABEL_COOKIE: seq<byte> := Chars("cookie--")

  /** wireguard_init */
  function ConstructionHash(): Key { Digest(CONSTRUCTION) }
  function IdentifierHash(): Key { Digest(ConstructionHash() + IDENTIFIER) }

  /** wireguard_mac_key */
  function MacKey(purpose: seq<byte>, publicKey: Key): Key { Digest(purpose + publicKey) }

  // The long-term configuration of an end

  datatype Device = Device(privateKey: Key, publicKey: Key, labelMac1Key: Key, labelCookieKey: Key)

  datatype Remote = Remote(publicKey: Key, presharedKey: Key, publicKeyDh: Key, labelMac1Key: Key, labelCookieKey: Key)

  /** What wireguard_device_init and wireguard_peer_init establish. */
  predicate DeviceOk(dh: Dh, d: Device) {
    && d.publicKey == dh(d.privateKey, BASE_POINT)
    && d.labelMac1Key == MacKey(LABEL_MAC1, d.publicKey) && d.labelCookieKey == MacKey(LABEL_COOKIE, d.publicKey)
  }

  predicate RemoteOk(dh: Dh, d: Device, r: Remote) {
    && r.publicKeyDh == dh(d.privateKey, r.publicKey)
    && r.labelMac1Key == MacKey(LABEL_MAC1, r.publicKey) && r.labelCookieKey == MacKey(LABEL_COOKIE, r.publicKey)
  }

  /** Two ends configured for each other. */
  predicate Paired(dh: Dh, a: Device, ra: Remote, b: Device, rb: Remote) {
    && DeviceOk(dh, a) && DeviceOk(dh, b) && RemoteOk(dh, a, ra) && RemoteOk(dh, b, rb)
    && ra.publicKey == b.publicKey && rb.publicKey == a.publicKey && ra.presharedKey == rb.presharedKey
  }

  /** wireguard_clamp_private_key */
  function Clamped(key: Key): Key {
    key[0 := key[0] - key[0] % 8][31 := key[31] % 64 + 64]
  }

  /** The scalar multiplication clamps its scalar itself. */
  ghost predicate IgnoresClamping(dh: Dh) {
    forall a: Key, p: Key :: dh(Clamped(a), p) == dh(a, p)
  }

  /** wireguard_device_init: the public key comes from the key as given, the clamped key is
      kept. */
  function InitDevice(dh: Dh, privateKey: Key): Option<Device> {
    hide Digest;
    var pub := dh(privateKey, BASE_POINT);
    if privateKey == ZERO_KEY || pub == ZERO_KEY then None
    else Some(Device(Clamped(privateKey), pub, MacKey(LABEL_MAC1, pub), MacKey(LABEL_COOKIE, pub)))
  }

  /** wireguard_peer_init; no pre-shared key is the zero key. */
  function InitPeer(dh: Dh, d: Device, publicKey: Key, psk: Option<Key>): Option<Remote> {
    hide Digest;
    var s := dh(d.privateKey, publicKey);
    if s == ZERO_KEY then None
    else Some(Remote(publicKey, if psk.Some? then psk.value else ZERO_KEY, s, MacKey(LABEL_MAC1, publicKey),
                     MacKey(LABEL_COOKIE, publicKey)))
  }

  /** Two devices initialised as each other's peers with one pre-shared key are configured for
      each other. */
  lemma InitPairs(dh: Dh, x: Key, y: Key, psk: Option<Key>, a: Device, b: Device, ra: Remote, rb: Remote)
    requires IgnoresClamping(dh)
    requires InitDevice(dh, x) == Some(a) && InitDevice(dh, y) == Some(b)
    requires InitPeer(dh, a, b.publicKey, psk) == Some(ra) && InitPeer(dh, b, a.publicKey, psk) == Some(rb)
    ensures Paired(dh, a, ra, b, rb)
  {
    hide MacKey, Digest, Clamped;
    assert dh(Clamped(x), BASE_POINT) == dh(x, BASE_POINT) && dh(Clamped(y), BASE_POINT) == dh(y, BASE_POINT);
  }

  /** Bytewise addition after clamping: an operation that meets both hypotheses. */
  function AddBytes(a: Key, p: Key): Key {
    var c := Clamped(a);
    seq<byte>(32, i requires 0 <= i < 32 => (c[i] as int + p[i] as int) % 256)
  }

  lemma HypothesesMeet()
    ensures Commutes(AddBytes) && IgnoresClamping(AddBytes)
  {
    hide AddBytes, Clamped;
    forall a: Key, b: Key ensures AddBytes(a, AddBytes(b, BASE_POINT)) == AddBytes(b, AddBytes(a, BASE_POINT)) {
      AddCommutes(a, b, BASE_POINT);
    }
    forall a: Key, p: Key ensures AddBytes(Clamped(a), p) == AddBytes(a, p) {
      AddClamps(a, p);
    }
  }

  /** ... and never yields zero, so that no handshake fails. */
  lemma AddNonzero(a: Key, b: Key)
    ensures AddBytes(a, BASE_POINT) != ZERO_KEY && AddBytes(a, AddBytes(b, BASE_POINT)) != ZERO_KEY
  {
    hide Clamped;
    TopByte(a);
    TopByte(b);
    var p := AddBytes(b, BASE_POINT);
    assert AddBytes(a, BASE_POINT)[31] == Clamped(a)[31] && p[31] == Clamped(b)[31];
    assert AddBytes(a, p)[31] == Clamped(a)[31] as int + p[31] as int;
    assert ZERO_KEY[31] == 0;
  }

  /** Any two non-zero private keys can be configured for each other under it. */
  lemma AddPairs(x: Key, y: Key, psk: Option<Key>)
    requires x != ZERO_KEY && y != ZERO_KEY
    ensures var a, b := InitDevice(AddBytes, x), InitDevice(AddBytes, y);
            && a.Some? && b.Some?
            && var ra, rb := InitPeer(AddBytes, a.value, b.value.publicKey, psk),
                             InitPeer(AddBytes, b.value, a.value.publicKey, psk);
            ra.Some? && rb.Some? && Paired(AddBytes, a.value, ra.value, b.value, rb.value)
  {
    hide AddBytes, Clamped, Paired, MacKey;
    HypothesesMeet();
    AddNonzero(x, y);
    AddNonzero(y, x);
    AddNonzero(Clamped(x), y);
    AddNonzero(Clamped(y), x);
    var a, b := InitDevice(AddBytes, x).value, InitDevice(AddBytes, y).value;
    InitPairs(AddBytes, x, y, psk, a, b, InitPeer(AddBytes, a, b.publicKey, psk).value,
              InitPeer(AddBytes, b, a.publicKey, psk).value);
  }

  lemma TopByte(a: Key)
    ensures 64 <= Clamped(a)[31] < 128
  {
  }

  lemma AddCommutes(a: Key, b: Key, p: Key)
    ensures AddBytes(a, AddBytes(b, p)) == AddBytes(b, AddBytes(a, p))
  {
    hide Clamped;
    forall i | 0 <= i < 32 ensures AddBytes(a, AddBytes(b, p))[i] == AddBytes(b, AddBytes(a, p))[i] {
      AddedTwice(Clamped(a)[i], Clamped(b)[i], p[i]);
    }
  }

  lemma AddedTwice(x: byte, y: byte, z: byte)
    ensures (x as int + (y as int + z as int) % 256) % 256 == (y as int + (x as int + z as int) % 256) % 256
  {
  }

  lemma AddClamps(a: Key, p: Key)
    ensures AddBytes(Clamped(a), p) == AddBytes(a, p)
  {
    assert Clamped(Clamped(a)) == Clamped(a);
    hide Clamped;
  }

  // The transcripts, in terms of the shared secrets

  /** Section 5.4.2 up to the encrypted static key: hash, chaining key and key. */
  datatype Stage = Stage(hash: Key, chain: Key, key: Key)

  function Opening(staticR: Key, ephemeralI: Key, es: Key): Stage {
    hide Digest, Tau, Aead.Seal, Aead.Open;
    var h := Digest(Digest(IdentifierHash() + staticR) + ephemeralI);
    var c := Tau(ConstructionHash(), ephemeralI, 1);
    Stage(h, Tau(c, es, 1), Tau(c, es, 2))
  }

  /** ... and up to the encrypted timestamp. */
  function Identified(s: Stage, encStatic: seq<byte>, ss: Key): Stage {
    hide Digest, Tau, Aead.Seal, Aead.Open;
    Stage(Digest(s.hash + encStatic), Tau(s.chain, ss, 1), Tau(s.chain, ss, 2))
  }

  /** Section 5.4.3 up to the encrypted empty string. */
  function Answering(hash: Key, chain: Key, ephemeralR: Key, ee: Key, se: Key, psk: Key): Stage {
    hide Digest, Tau, Aead.Seal, Aead.Open;
    var c := Tau(Tau(Tau(chain, ephemeralR, 1), ee, 1), se, 1);
    Stage(Digest(Digest(hash + ephemeralR) + Tau(c, psk, 2)), Tau(c, psk, 1), Tau(c, psk, 3))
  }

  // What the ends do

  /** wireguard_create_handshake_initiation up to the MACs: the message body and the pending
      handshake, unless a scalar multiplication fails. */
  function Create(dh: Dh, d: Device, r: Remote, h0: Handshake, ephemeral: Key, timestamp: Timestamp, index: u32)
    : Option<(Initiation, Handshake)>
  {
    hide Digest, Tau, Aead.Seal, Aead.Open;
    var es := dh(ephemeral, r.publicKey);
    var pub := dh(ephemeral, BASE_POINT);
    if ephemeral == ZERO_KEY || pub == ZERO_KEY || es == ZERO_KEY then None
    else
      var s1 := Opening(r.publicKey, pub, es);
      var encStatic := Aead.Seal(s1.key, 0, s1.hash, d.publicKey);
      var s2 := Identified(s1, encStatic, r.publicKeyDh);
      var encTimestamp := Aead.Seal(s2.key, 0, s2.hash, timestamp);
      Some((Initiation(index, pub, encStatic, encTimestamp, Zeros(16), Zeros(16)),
            h0.(valid := true, initiator := true, localIndex := index, ephemeralPrivate := ephemeral,
                 hash := Digest(s2.hash + encTimestamp), chainingKey := s2.chain)))
  }

  /** The cryptography of wireguard_process_initiation_message: the sender's static key, the
      timestamp and the resulting handshake, if everything decrypts and the sender is r. */
  function Process(dh: Dh, d: Device, r: Remote, h0: Handshake, m: Initiation): Option<(Timestamp, Handshake)>
    requires m.Valid()
  {
    hide Digest, Tau, Aead.Seal, Aead.Open;
    var es := dh(d.privateKey, m.ephemeral);
    if es == ZERO_KEY then None
    else
      var s1 := Opening(d.publicKey, m.ephemeral, es);
      var sender := Aead.Open(s1.key, 0, s1.hash, m.encStatic);
      if sender != Some(r.publicKey) then None
      else
        var s2 := Identified(s1, m.encStatic, r.publicKeyDh);
        match Aead.Open(s2.key, 0, s2.hash, m.encTimestamp)
        case None => None
        case Some(timestamp) =>
          Some((timestamp,
                h0.(valid := true, initiator := false, remoteIndex := m.sender, remoteEphemeral := m.ephemeral,
                     hash := Digest(s2.hash + m.encTimestamp), chainingKey := s2.chain)))
  }

  /** wireguard_create_handshake_response up to the MACs. */
  function Answer(dh: Dh, r: Remote, h: Handshake, ephemeral: Key, index: u32): Option<(Response, Handshake)>
  {
    hide Digest, Tau, Aead.Seal, Aead.Open;
    var pub := dh(ephemeral, BASE_POINT);
    var ee := dh(ephemeral, h.remoteEphemeral);
    var se := dh(ephemeral, r.publicKey);
    if !h.valid || h.initiator || ephemeral == ZERO_KEY || pub == ZERO_KEY || ee == ZERO_KEY || se == ZERO_KEY then None
    else
      var s := Answering(h.hash, h.chainingKey, pub, ee, se, r.presharedKey);
      var encEmpty := Aead.Seal(s.key, 0, s.hash, []);
      Some((Response(index, h.remoteIndex, pub, encEmpty, Zeros(16), Zeros(16)),
            h.(localIndex := index, ephemeralPrivate := ephemeral, hash := Digest(s.hash + encEmpty),
               chainingKey := s.chain)))
  }

  /** wireguard_process_handshake_response */
  function Finish(dh: Dh, d: Device, r: Remote, h: Handshake, m: Response): Option<Handshake>
    requires m.Valid()
  {
    hide Digest, Tau, Aead.Seal, Aead.Open;
    var ee := dh(h.ephemeralPrivate, m.ephemeral);
    var se := dh(d.privateKey, m.ephemeral);
    if !h.valid || !h.initiator || ee == ZERO_KEY || se == ZERO_KEY then None
    else
      var s := Answering(h.hash, h.chainingKey, m.ephemeral, ee, se, r.presharedKey);
      if Aead.Open(s.key, 0, s.hash, m.encEmpty).None? then None
      else Some(h.(remoteEphemeral := m.ephemeral, hash := s.hash, chainingKey := s.chain, remoteIndex := m.sender))
  }

  /** The MACs of section 5.4.4: mac2 is zero unless a fresh cookie is at hand. */
  function Macs(labelMac1Key: Key, cookie: Option<Cookie>, body: seq<byte>): (m: (seq<byte>, seq<byte>))
    ensures |m.0| == 16 && |m.1| == 16
  {
    var mac1 := Mac(labelMac1Key, body);
    (mac1, match cookie case None => Zeros(16) case Some(c) => Mac(c, body + mac1))
  }

  function SignedInitiation(labelMac1Key: Key, cookie: Option<Cookie>, m: Initiation): Initiation {
    hide Macs;
    var (mac1, mac2) := Macs(labelMac1Key, cookie, m.Body());
    m.(mac1 := mac1, mac2 := mac2)
  }

  function SignedResponse(labelMac1Key: Key, cookie: Option<Cookie>, m: Response): Response {
    hide Macs;
    var (mac1, mac2) := Macs(labelMac1Key, cookie, m.Body());
    m.(mac1 := mac1, mac2 := mac2)
  }

  // Agreement

  /** The two ends derive the same shared secrets. */
  lemma SharedSecrets(dh: Dh, a: Key, b: Key)
    requires Commutes(dh)
    ensures dh(a, dh(b, BASE_POINT)) == dh(b, dh(a, BASE_POINT))
  {
  }

  /** The responder accepts the initiator's message, reads the timestamp, and ends in the
      initiator's hash and chaining key. */
  lemma InitiationAgrees(dh: Dh, a: Device, ra: Remote, b: Device, rb: Remote, ha: Handshake, hb: Handshake,
                         ephemeral: Key, timestamp: Timestamp, index: u32)
    requires Commutes(dh) && Paired(dh, a, ra, b, rb)
    requires Create(dh, a, ra, ha, ephemeral, timestamp, index).Some?
    ensures var (m, h) := Create(dh, a, ra, ha, ephemeral, timestamp, index).value;
            && m.Valid()
            && Process(dh, b, rb, hb, m) == Some((timestamp,
                 hb.(valid := true, initiator := false, remoteIndex := index, remoteEphemeral := m.ephemeral,
                     hash := h.hash, chainingKey := h.chainingKey)))
  {
    hide Commutes, Aead.Seal, Aead.Open, Digest, Tau, DeviceOk, IdentifierHash, ConstructionHash;
    assert b.publicKey == dh(b.privateKey, BASE_POINT) && a.publicKey == dh(a.privateKey, BASE_POINT) by {
      DevicePublic(dh, a);
      DevicePublic(dh, b);
    }
    SharedSecrets(dh, ephemeral, b.privateKey);
    SharedSecrets(dh, a.privateKey, b.privateKey);
    var s1 := Opening(ra.publicKey, dh(ephemeral, BASE_POINT), dh(ephemeral, ra.publicKey));
    Aead.OpenSeal(s1.key, 0, s1.hash, a.publicKey);
    var s2 := Identified(s1, Aead.Seal(s1.key, 0, s1.hash, a.publicKey), ra.publicKeyDh);
    Aead.OpenSeal(s2.key, 0, s2.hash, timestamp);
  }

  lemma DevicePublic(dh: Dh, d: Device)
    requires DeviceOk(dh, d)
    ensures d.publicKey == dh(d.privateKey, BASE_POINT)
  {
  }

  /** The initiator's pending handshake and the responder's record of it. */
  predicate InStep(dh: Dh, ha: Handshake, hb: Handshake) {
    && ha.valid && ha.initiator
    && hb.hash == ha.hash && hb.chainingKey == ha.chainingKey
    && hb.remoteEphemeral == dh(ha.ephemeralPrivate, BASE_POINT) && hb.remoteIndex == ha.localIndex
  }

  predicate Completes(dh: Dh, a: Device, ra: Remote, ha: Handshake, m: Response, h: Handshake)
  {
    hide Finish;
    && m.Valid() && m.receiver == ha.localIndex
    && var f := Finish(dh, a, ra, ha, m);
    && f.Some? && f.value.chainingKey == h.chainingKey
    && f.value.localIndex == h.remoteIndex && f.value.remoteIndex == h.localIndex
  }

  /** The initiator accepts the responder's answer and ends in its chaining key, and both
      know each other's index. */
  lemma ResponseAgrees(dh: Dh, a: Device, ra: Remote, b: Device, rb: Remote, ha: Handshake, hb: Handshake,
                       ephemeral: Key, index: u32, m: Response, h: Handshake)
    requires Commutes(dh) && Paired(dh, a, ra, b, rb)
    requires InStep(dh, ha, hb)
    requires Answer(dh, rb, hb, ephemeral, index) == Some((m, h))
    ensures Completes(dh, a, ra, ha, m, h)
  {
    hide Commutes, Aead.Seal, Aead.Open, Digest, Tau, DeviceOk;
    assert a.publicKey == dh(a.privateKey, BASE_POINT) by { DevicePublic(dh, a); }
    SharedSecrets(dh, ephemeral, ha.ephemeralPrivate);
    SharedSecrets(dh, ephemeral, a.privateKey);
    var s := Answering(hb.hash, hb.chainingKey, dh(ephemeral, BASE_POINT), dh(ephemeral, hb.remoteEphemeral),
                       dh(ephemeral, rb.publicKey), rb.presharedKey);
    Aead.OpenSeal(s.key, 0, s.hash, []);
  }

  /** Two keypairs that can talk to each other. */
  predicate Mirrored(x: Keypair, y: Keypair) {
    && x.valid && y.valid && x.initiator != y.initiator
    && x.sendingKey == y.receivingKey && y.sendingKey == x.receivingKey
    && x.localIndex == y.remoteIndex && y.localIndex == x.remoteIndex
  }

  /** Handshake agreement: with commuting scalar multiplication, ends configured for each
      other and unaltered messages, whatever the initiator creates and the responder can
      answer completes, and the keypairs of the two new sessions mirror each other. */
  lemma HandshakeAgreement(dh: Dh, a: Device, ra: Remote, b: Device, rb: Remote, ha: Handshake, hb: Handshake,
                           ephemeralA: Key, ephemeralB: Key, timestamp: Timestamp, indexA: u32, indexB: u32,
                           nowA: u32, nowB: u32, sessionA: nat, sessionB: nat)
    requires Commutes(dh) && Paired(dh, a, ra, b, rb)
    requires Create(dh, a, ra, ha, ephemeralA, timestamp, indexA).Some?
    ensures var (m1, pendingA) := Create(dh, a, ra, ha, ephemeralA, timestamp, indexA).value;
            && m1.Valid() && Process(dh, b, rb, hb, m1).Some? && Process(dh, b, rb, hb, m1).value.0 == timestamp
            && var pendingB := Process(dh, b, rb, hb, m1).value.1;
            && (Answer(dh, rb, pendingB, ephemeralB, indexB).Some? ==>
                  var (m2, doneB) := Answer(dh, rb, pendingB, ephemeralB, indexB).value;
                  && m2.Valid() && m2.receiver == pendingA.localIndex
                  && Finish(dh, a, ra, pendingA, m2).Some?
                  && Mirrored(NewKeypair(Finish(dh, a, ra, pendingA, m2).value, true, nowA, sessionA),
                              NewKeypair(doneB, false, nowB, sessionB)))
  {
    hide Commutes, Aead.Seal, Aead.Open, Digest, Tau, Paired, Process, Finish, Opening, Identified, Answering;
    InitiationAgrees(dh, a, ra, b, rb, ha, hb, ephemeralA, timestamp, indexA);
    var (m1, pendingA) := Create(dh, a, ra, ha, ephemeralA, timestamp, indexA).value;
    var pendingB := Process(dh, b, rb, hb, m1).value.1;
    if Answer(dh, rb, pendingB, ephemeralB, indexB).Some? {
      var (m2, doneB) := Answer(dh, rb, pendingB, ephemeralB, indexB).value;
      ResponseAgrees(dh, a, ra, b, rb, pendingA, pendingB, ephemeralB, indexB, m2, doneB);
    }
  }

  /** wireguard_check_mac1 accepts what the paired sender computes. */
  lemma Mac1Accepted(dh: Dh, a: Device, ra: Remote, b: Device, rb: Remote, cookie: Option<Cookie>, body: seq<byte>)
    requires Paired(dh, a, ra, b, rb)
    ensures Macs(ra.labelMac1Key, cookie, body).0 == Mac(b.labelMac1Key, body)
  {
    hide Mac, Digest;
  }
}
