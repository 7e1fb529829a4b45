/** The Noise protocol IKpsk2 as its specification states it (revision 34 of the Noise Protocol
    Framework, sections 5, 7 and 9): symmetric state, message tokens and patterns, with HMAC of
    RFC 2104 and HKDF as in section 4.3 there. `Noise` is proved to compute it. */
module NoiseReference {
  import opened Bits
  import opened Bytes
  import opened Wrappers
  import opened Keypairs
  import opened Messages
  import opened Noise
  import Aead
  import Blake2s
  import Kdf

  // Hash functions

  function HASH(data: seq<byte>): (d: Key) {
    Blake2s.Hash(32, [], data)
  }

  /** Section 2 of RFC 2104 with a block of 64 bytes. */
  function HMAC(key: seq<byte>, text: seq<byte>): (d: Key) {
    hide HASH, XorBytes, Zeros;
    var k0 := if |key| > 64 then HASH(key) else key;
    var k := k0 + Zeros(64 - |k0|);
    var ipad := XorBytes(k, seq(64, i requires 0 <= i < 64 => 0x36));
    var opad := XorBytes(k, seq(64, i requires 0 <= i < 64 => 0x5c));
    HASH(opad + HASH(ipad + text))
  }

  /** `output_i = HMAC(temp_key, output_(i-1) || byte(i))`, output_0 being empty. */
  function Output(tempKey: Key, i: byte): (d: seq<byte>)
    ensures |d| == if i == 0 then 0 else 32
    decreases i
  {
    if i == 0 then [] else HMAC(tempKey, Output(tempKey, i - 1) + [i])
  }

  function HKDF(chainingKey: Key, inputKeyMaterial: seq<byte>, i: byte): (d: Key)
    requires i > 0
  {
    Output(HMAC(chainingKey, inputKeyMaterial), i)
  }

  lemma HmacIs(key: seq<byte>, text: seq<byte>)
    ensures Kdf.Hmac(key, text) == HMAC(key, text)
  {
    hide Blake2s.Hash, XorByte, Zeros;
    var k := Kdf.BlockKey(key);
    assert XorBytes(k, seq(64, i requires 0 <= i < 64 => 0x36)) == Kdf.Masked(k, 0x36);
    assert XorBytes(k, seq(64, i requires 0 <= i < 64 => 0x5c)) == Kdf.Masked(k, 0x5c);
  }

  lemma {:induction false} OutputIs(key: Key, input: seq<byte>, i: byte)
    requires i > 0
    ensures Kdf.Tau(key, input, i) == Output(HMAC(key, input), i)
    decreases i
  {
    hide Kdf.Hmac, HMAC;
    HmacIs(key, input);
    var t := HMAC(key, input);
    if i == 1 {
      assert Output(t, 0) + [i] == [1];
      HmacIs(t, [1]);
    } else {
      OutputIs(key, input, i - 1);
      HmacIs(t, Output(t, i - 1) + [i]);
    }
  }

  /** The derivation chain is HKDF. */
  lemma TauIsHkdf(key: Key, input: seq<byte>, i: byte)
    requires i > 0
    ensures Kdf.Tau(key, input, i) == HKDF(key, input, i)
  {
    hide HMAC;
    OutputIs(key, input, i);
  }

  // The symmetric state: chaining key, hash, and a cipher key with its nonce

  datatype Symmetric = Symmetric(ck: Key, h: Key, k: Key, n: u64)

  function InitializeSymmetric(protocolName: seq<byte>): Symmetric {
    hide HASH;
    var h := HASH(protocolName);
    Symmetric(h, h, Zeros(32), 0)
  }

  function MixKey(s: Symmetric, input: seq<byte>): Symmetric {
    hide HKDF;
    s.(ck := HKDF(s.ck, input, 1), k := HKDF(s.ck, input, 2), n := 0)
  }

  function MixHash(s: Symmetric, data: seq<byte>): Symmetric {
    hide HASH;
    s.(h := HASH(s.h + data))
  }

  function MixKeyAndHash(s: Symmetric, input: seq<byte>): Symmetric {
    hide HKDF;
    MixHash(s.(ck := HKDF(s.ck, input, 1)), HKDF(s.ck, input, 2)).(k := HKDF(s.ck, input, 3), n := 0)
  }

  function EncryptAndHash(s: Symmetric, plaintext: seq<byte>): (Symmetric, seq<byte>) {
    hide Aead.Seal;
    var c := Aead.Seal(s.k, s.n, s.h, plaintext);
    (MixHash(s, c).(n := (s.n + 1) % 0x1_0000_0000_0000_0000), c)
  }

  function DecryptAndHash(s: Symmetric, ciphertext: seq<byte>): Option<(Symmetric, seq<byte>)>
    requires |ciphertext| < 0x1_0000_0000
  {
    hide Aead.Open;
    match Aead.Open(s.k, s.n, s.h, ciphertext)
    case None => None
    case Some(p) => Some((MixHash(s, ciphertext).(n := (s.n + 1) % 0x1_0000_0000_0000_0000), p))
  }

  // The handshake state and its tokens

  datatype Token = E | S | EE | ES | SE | SS | PSK

  /** One end: its static and ephemeral keys, and what it knows of the other end's. */
  datatype Party = Party(initiator: bool, s: Key, sPublic: Key, e: Key, ePublic: Key, rs: Key, re: Key, psk: Key)

  /** The shared secret of a token. */
  function Shared(dh: Dh, p: Party, token: Token): Key
    requires token.EE? || token.ES? || token.SE? || token.SS?
  {
    match token
    case EE => dh(p.e, p.re)
    case ES => if p.initiator then dh(p.e, p.rs) else dh(p.s, p.re)
    case SE => if p.initiator then dh(p.s, p.re) else dh(p.e, p.rs)
    case SS => dh(p.s, p.rs)
  }

  /** WriteMessage, token by token: the symmetric state and the buffer. */
  function Write(dh: Dh, p: Party, y: Symmetric, tokens: seq<Token>, buffer: seq<byte>): (Symmetric, seq<byte>)
    decreases |tokens|
  {
    hide MixHash, MixKey, MixKeyAndHash, EncryptAndHash, Shared;
    if tokens == [] then (y, buffer)
    else
      var rest := tokens[1..];
      match tokens[0]
      case E => Write(dh, p, MixKey(MixHash(y, p.ePublic), p.ePublic), rest, buffer + p.ePublic)
      case S => var (z, c) := EncryptAndHash(y, p.sPublic); Write(dh, p, z, rest, buffer + c)
      case PSK => Write(dh, p, MixKeyAndHash(y, p.psk), rest, buffer)
      case _ => Write(dh, p, MixKey(y, Shared(dh, p, tokens[0])), rest, buffer)
  }

  function WriteMessage(dh: Dh, p: Party, y: Symmetric, tokens: seq<Token>, payload: seq<byte>)
    : (Symmetric, seq<byte>)
  {
    hide Write, EncryptAndHash;
    var (z, buffer) := Write(dh, p, y, tokens, []);
    var (w, c) := EncryptAndHash(z, payload);
    (w, buffer + c)
  }

  // IKpsk2: the pre-message of the responder's static key and the two messages

  const NAME: seq<byte> := [
    0x4e, 0x6f, 0x69, 0x73, 0x65, 0x5f, 0x49, 0x4b, 0x70, 0x73, 0x6b, 0x32, 0x5f, 0x32, 0x35, 0x35, 0x31, 0x39, 0x5f,
    0x43, 0x68, 0x61, 0x43, 0x68, 0x61, 0x50, 0x6f, 0x6c, 0x79, 0x5f, 0x42, 0x4c, 0x41, 0x4b, 0x45, 0x32, 0x73]

  const PROLOGUE: seq<byte> := [
    0x57, 0x69, 0x72, 0x65, 0x47, 0x75, 0x61, 0x72, 0x64, 0x20, 0x76, 0x31, 0x20, 0x7a, 0x78, 0x32, 0x63, 0x34, 0x20,
    0x4a, 0x61, 0x73, 0x6f, 0x6e, 0x40, 0x7a, 0x78, 0x32, 0x63, 0x34, 0x2e, 0x63, 0x6f, 0x6d]

  const FIRST: seq<Token> := [E, ES, S, SS]
  const SECOND: seq<Token> := [E, EE, SE, PSK]

  function Initialize(responderStatic: Key): Symmetric {
    hide InitializeSymmetric, MixHash;
    MixHash(MixHash(InitializeSymmetric(NAME), PROLOGUE), responderStatic)
  }

  lemma Names()
    ensures CONSTRUCTION == NAME && IDENTIFIER == PROLOGUE
  {
  }

  lemma InitializeIs(responderStatic: Key)
    ensures var y := Initialize(responderStatic);
            y.ck == ConstructionHash() && y.h == Kdf.Digest(IdentifierHash() + responderStatic)
  {
    hide Blake2s.Hash;
    Names();
  }

  /** ReadMessage, token by token: what is left of the message, and the keys learnt. */
  function Read(dh: Dh, p: Party, y: Symmetric, tokens: seq<Token>, message: seq<byte>)
    : Option<(Symmetric, Party, seq<byte>)>
    decreases |tokens|
  {
    hide MixHash, MixKey, MixKeyAndHash, DecryptAndHash, Shared;
    if tokens == [] then Some((y, p, message))
    else
      var rest := tokens[1..];
      match tokens[0]
      case E =>
        if |message| < 32 then None
        else
          var re := message[..32];
          Read(dh, p.(re := re), MixKey(MixHash(y, re), re), rest, message[32..])
      case S =>
        if |message| < 48 then None
        else
          (match DecryptAndHash(y, message[..48])
           case None => None
           case Some((z, rs)) => if |rs| != 32 then None else Read(dh, p.(rs := rs), z, rest, message[48..]))
      case PSK => Read(dh, p, MixKeyAndHash(y, p.psk), rest, message)
      case _ => Read(dh, p, MixKey(y, Shared(dh, p, tokens[0])), rest, message)
  }

  function ReadMessage(dh: Dh, p: Party, y: Symmetric, tokens: seq<Token>, message: seq<byte>)
    : Option<(Symmetric, Party, seq<byte>)>
    requires |message| < 0x1_0000
  {
    hide Read, DecryptAndHash;
    match Read(dh, p, y, tokens, message)
    case None => None
    case Some((z, q, rest)) =>
      if |rest| >= 0x1_0000 then None
      else
        match DecryptAndHash(z, rest)
        case None => None
        case Some((w, payload)) => Some((w, q, payload))
  }

  // The steps in terms of `Kdf`

  lemma MixHashIs(y: Symmetric, data: seq<byte>)
    ensures MixHash(y, data) == y.(h := Kdf.Digest(y.h + data))
  {
    hide Blake2s.Hash;
  }

  function KeyMixed(y: Symmetric, input: seq<byte>): Symmetric {
    hide Kdf.Tau;
    y.(ck := Kdf.Tau(y.ck, input, 1), k := Kdf.Tau(y.ck, input, 2), n := 0)
  }

  lemma MixKeyIs(y: Symmetric, input: seq<byte>)
    ensures MixKey(y, input) == KeyMixed(y, input)
  {
    hide HKDF, Kdf.Tau;
    TauIsHkdf(y.ck, input, 1);
    TauIsHkdf(y.ck, input, 2);
  }

  function KeyAndHashMixed(y: Symmetric, input: seq<byte>): Symmetric {
    hide Kdf.Tau, Kdf.Digest;
    y.(ck := Kdf.Tau(y.ck, input, 1), h := Kdf.Digest(y.h + Kdf.Tau(y.ck, input, 2)), k := Kdf.Tau(y.ck, input, 3),
       n := 0)
  }

  lemma MixKeyAndHashIs(y: Symmetric, input: seq<byte>)
    ensures MixKeyAndHash(y, input) == KeyAndHashMixed(y, input)
  {
    hide HKDF, Kdf.Tau, Blake2s.Hash;
    TauIsHkdf(y.ck, input, 1);
    TauIsHkdf(y.ck, input, 2);
    TauIsHkdf(y.ck, input, 3);
  }

  lemma EncryptIs(y: Symmetric, plaintext: seq<byte>)
    ensures var c := Aead.Seal(y.k, y.n, y.h, plaintext);
            EncryptAndHash(y, plaintext)
            == (y.(h := Kdf.Digest(y.h + c), n := (y.n + 1) % 0x1_0000_0000_0000_0000), c)
  {
    hide Aead.Seal, MixHash, Kdf.Digest;
    MixHashIs(y, Aead.Seal(y.k, y.n, y.h, plaintext));
  }

  lemma DecryptIs(y: Symmetric, c: seq<byte>)
    requires |c| < 0x1_0000_0000
    ensures var p := Aead.Open(y.k, y.n, y.h, c);
            DecryptAndHash(y, c) ==
            if p.None? then None
            else Some((y.(h := Kdf.Digest(y.h + c), n := (y.n + 1) % 0x1_0000_0000_0000_0000), p.value))
  {
    hide Aead.Open, MixHash, Kdf.Digest;
    MixHashIs(y, c);
  }

  // Writing the first message

  /** The tokens e, es, s, ss one after the other. */
  function FirstWritten(dh: Dh, p: Party, y: Symmetric): (Symmetric, seq<byte>) {
    hide MixHash, MixKey, EncryptAndHash, Shared;
    var (z, c) := EncryptAndHash(MixKey(MixKey(MixHash(y, p.ePublic), p.ePublic), Shared(dh, p, ES)), p.sPublic);
    (MixKey(z, Shared(dh, p, SS)), p.ePublic + c)
  }

  lemma FirstTokens(dh: Dh, p: Party, y: Symmetric)
    ensures Write(dh, p, y, FIRST, []) == FirstWritten(dh, p, y)
  {
    hide MixHash, MixKey, MixKeyAndHash, EncryptAndHash, Shared;
    assert FIRST[1..] == [ES, S, SS] && [ES, S, SS][1..] == [S, SS] && [S, SS][1..] == [SS] && [SS][1..] == [];
    var y0 := MixKey(MixHash(y, p.ePublic), p.ePublic);
    var y1 := MixKey(y0, Shared(dh, p, ES));
    var (y2, c) := EncryptAndHash(y1, p.sPublic);
    var b := [] + p.ePublic;
    assert b == p.ePublic;
    assert Write(dh, p, y0, [ES, S, SS], b) == Write(dh, p, y1, [S, SS], b);
    assert Write(dh, p, y1, [S, SS], b) == Write(dh, p, y2, [SS], b + c);
  }

  /** The initiator of a handshake with r. */
  function Initiator(dh: Dh, d: Device, r: Remote, ephemeral: Key, re: Key): Party {
    Party(true, d.privateKey, d.publicKey, ephemeral, dh(ephemeral, BASE_POINT), r.publicKey, re, r.presharedKey)
  }

  function Responder(dh: Dh, d: Device, r: Remote, ephemeral: Key, re: Key): Party {
    Initiator(dh, d, r, ephemeral, re).(initiator := false)
  }

  /** The initiation is the first message of the pattern, and the pending handshake holds the
      chaining key and the hash that it leaves. */
  lemma CreateIsNoise(dh: Dh, d: Device, r: Remote, h0: Handshake, ephemeral: Key, timestamp: Timestamp, index: u32,
                      re: Key)
    requires RemoteOk(dh, d, r) && Create(dh, d, r, h0, ephemeral, timestamp, index).Some?
    ensures var (m, h) := Create(dh, d, r, h0, ephemeral, timestamp, index).value;
            var (y, buffer) := WriteMessage(dh, Initiator(dh, d, r, ephemeral, re), Initialize(r.publicKey), FIRST,
                                            timestamp);
            buffer == m.ephemeral + m.encStatic + m.encTimestamp && y.h == h.hash && y.ck == h.chainingKey
  {
    hide Kdf.Tau, Kdf.Digest, Aead.Seal, IdentifierHash, ConstructionHash, Initialize, MixHash, MixKey, EncryptAndHash,
         Write, MacKey;
    var p, y := Initiator(dh, d, r, ephemeral, re), Initialize(r.publicKey);
    InitializeIs(r.publicKey);
    FirstTokens(dh, p, y);
    var y1 := MixHash(y, p.ePublic);
    var y2 := MixKey(y1, p.ePublic);
    var y3 := MixKey(y2, Shared(dh, p, ES));
    var (y4, c) := EncryptAndHash(y3, p.sPublic);
    var y5 := MixKey(y4, Shared(dh, p, SS));
    MixHashIs(y, p.ePublic);
    MixKeyIs(y1, p.ePublic);
    MixKeyIs(y2, Shared(dh, p, ES));
    EncryptIs(y3, p.sPublic);
    MixKeyIs(y4, Shared(dh, p, SS));
    EncryptIs(y5, timestamp);
  }

  // Writing the second message

  function SecondWritten(dh: Dh, p: Party, y: Symmetric): (Symmetric, seq<byte>) {
    hide MixHash, MixKey, MixKeyAndHash, Shared;
    var z := MixKey(MixKey(MixKey(MixHash(y, p.ePublic), p.ePublic), Shared(dh, p, EE)), Shared(dh, p, SE));
    (MixKeyAndHash(z, p.psk), p.ePublic)
  }

  lemma SecondTokens(dh: Dh, p: Party, y: Symmetric)
    ensures Write(dh, p, y, SECOND, []) == SecondWritten(dh, p, y)
  {
    hide MixHash, MixKey, MixKeyAndHash, EncryptAndHash, Shared;
    assert SECOND[1..] == [EE, SE, PSK] && [EE, SE, PSK][1..] == [SE, PSK] && [SE, PSK][1..] == [PSK];
    assert [PSK][1..] == [];
    var y0 := MixKey(MixHash(y, p.ePublic), p.ePublic);
    var y1 := MixKey(y0, Shared(dh, p, EE));
    var y2 := MixKey(y1, Shared(dh, p, SE));
    var b := [] + p.ePublic;
    assert b == p.ePublic;
    assert Write(dh, p, y0, [EE, SE, PSK], b) == Write(dh, p, y1, [SE, PSK], b);
    assert Write(dh, p, y1, [SE, PSK], b) == Write(dh, p, y2, [PSK], b);
  }

  /** The response is the second message, written from the chaining key and the hash of the
      first, with the pre-shared key of the peer. */
  lemma AnswerIsNoise(dh: Dh, d: Device, r: Remote, h: Handshake, ephemeral: Key, index: u32, y: Symmetric)
    requires Answer(dh, r, h, ephemeral, index).Some? && y.ck == h.chainingKey && y.h == h.hash
    ensures var (m, done) := Answer(dh, r, h, ephemeral, index).value;
            var (w, buffer) := WriteMessage(dh, Responder(dh, d, r, ephemeral, h.remoteEphemeral), y, SECOND, []);
            buffer == m.ephemeral + m.encEmpty && w.h == done.hash && w.ck == done.chainingKey
  {
    hide Kdf.Tau, Kdf.Digest, Aead.Seal, MixHash, MixKey, MixKeyAndHash, EncryptAndHash, Write;
    var p := Responder(dh, d, r, ephemeral, h.remoteEphemeral);
    SecondTokens(dh, p, y);
    var y1 := MixHash(y, p.ePublic);
    var y2 := MixKey(y1, p.ePublic);
    var y3 := MixKey(y2, Shared(dh, p, EE));
    var y4 := MixKey(y3, Shared(dh, p, SE));
    var y5 := MixKeyAndHash(y4, p.psk);
    MixHashIs(y, p.ePublic);
    MixKeyIs(y1, p.ePublic);
    MixKeyIs(y2, Shared(dh, p, EE));
    MixKeyIs(y3, Shared(dh, p, SE));
    MixKeyAndHashIs(y4, p.psk);
    EncryptIs(y5, []);
  }

  // Reading the first message

  function FirstRead(dh: Dh, p: Party, y: Symmetric, e: Key, encStatic: seq<byte>, rest: seq<byte>)
    : Option<(Symmetric, Party, seq<byte>)>
    requires |encStatic| == 48
  {
    hide MixHash, MixKey, DecryptAndHash, Shared;
    var q := p.(re := e);
    match DecryptAndHash(MixKey(MixKey(MixHash(y, e), e), Shared(dh, q, ES)), encStatic)
    case None => None
    case Some((z, rs)) =>
      if |rs| != 32 then None else Some((MixKey(z, Shared(dh, q.(rs := rs), SS)), q.(rs := rs), rest))
  }

  lemma FirstReadTokens(dh: Dh, p: Party, y: Symmetric, e: Key, encStatic: seq<byte>, rest: seq<byte>)
    requires |encStatic| == 48
    ensures Read(dh, p, y, FIRST, e + encStatic + rest) == FirstRead(dh, p, y, e, encStatic, rest)
  {
    hide MixHash, MixKey, MixKeyAndHash, DecryptAndHash, Shared;
    assert FIRST[1..] == [ES, S, SS] && [ES, S, SS][1..] == [S, SS] && [S, SS][1..] == [SS] && [SS][1..] == [];
    var message := e + encStatic + rest;
    assert message[..32] == e && message[32..] == encStatic + rest;
    assert (encStatic + rest)[..48] == encStatic && (encStatic + rest)[48..] == rest;
    var q := p.(re := e);
    var y1 := MixKey(MixHash(y, e), e);
    var y2 := MixKey(y1, Shared(dh, q, ES));
    assert Read(dh, p, y, FIRST, message) == Read(dh, q, y1, [ES, S, SS], encStatic + rest);
    assert Read(dh, q, y1, [ES, S, SS], encStatic + rest) == Read(dh, q, y2, [S, SS], encStatic + rest);
    match DecryptAndHash(y2, encStatic)
    case None =>
    case Some((z, rs)) =>
      if |rs| == 32 {
        assert Read(dh, q, y2, [S, SS], encStatic + rest) == Read(dh, q.(rs := rs), z, [SS], rest);
      }
  }

  /** What reading the first message gives a responder: the sender, the timestamp, and chaining
      key and hash. */
  predicate ReadAs(p: Option<(Timestamp, Handshake)>, h0: Handshake, m: Initiation, r: Remote,
                   x: Option<(Symmetric, Party, seq<byte>)>)
    requires |m.ephemeral| == 32
  {
    match p
    case None => x.None? || x.value.1.rs != r.publicKey
    case Some((timestamp, h)) =>
      && x.Some? && x.value.1.rs == r.publicKey && x.value.2 == timestamp
      && h == h0.(valid := true, initiator := false, remoteIndex := m.sender, remoteEphemeral := m.ephemeral,
                   hash := x.value.0.h, chainingKey := x.value.0.ck)
  }

  /** An initiation is processed as the first message is read: accepted exactly if the product is
      not zero, the message can be read and its static key is the peer's. */
  lemma ProcessIsNoise(dh: Dh, d: Device, r: Remote, h0: Handshake, m: Initiation, e: Key, rs: Key, re: Key)
    requires RemoteOk(dh, d, r) && m.Valid()
    ensures dh(d.privateKey, m.ephemeral) == Zeros(32) ==> Process(dh, d, r, h0, m) == None
    ensures var p := Responder(dh, d, r, e, re).(rs := rs);
            dh(d.privateKey, m.ephemeral) != Zeros(32) ==>
            ReadAs(Process(dh, d, r, h0, m), h0, m, r,
                   ReadMessage(dh, p, Initialize(d.publicKey), FIRST, m.ephemeral + m.encStatic + m.encTimestamp))
  {
    hide Kdf.Tau, Kdf.Digest, Aead.Open, IdentifierHash, ConstructionHash, Initialize, MixHash, MixKey, DecryptAndHash,
         Read, MacKey;
    var p, y := Responder(dh, d, r, e, re).(rs := rs), Initialize(d.publicKey);
    InitializeIs(d.publicKey);
    FirstReadTokens(dh, p, y, m.ephemeral, m.encStatic, m.encTimestamp);
    var q := p.(re := m.ephemeral);
    var y1 := MixHash(y, m.ephemeral);
    var y2 := MixKey(y1, m.ephemeral);
    var y3 := MixKey(y2, Shared(dh, q, ES));
    MixHashIs(y, m.ephemeral);
    MixKeyIs(y1, m.ephemeral);
    MixKeyIs(y2, Shared(dh, q, ES));
    DecryptIs(y3, m.encStatic);
    match DecryptAndHash(y3, m.encStatic)
    case None =>
    case Some((z, sender)) =>
      if sender == r.publicKey {
        var ss := Shared(dh, q.(rs := sender), SS);
        MixKeyIs(z, ss);
        DecryptIs(MixKey(z, ss), m.encTimestamp);
      }
  }

  // Reading the second message

  function SecondRead(dh: Dh, p: Party, y: Symmetric, e: Key): (Symmetric, Party) {
    hide MixHash, MixKey, MixKeyAndHash, Shared;
    var q := p.(re := e);
    var z := MixKey(MixKey(MixKey(MixHash(y, e), e), Shared(dh, q, EE)), Shared(dh, q, SE));
    (MixKeyAndHash(z, q.psk), q)
  }

  lemma SecondReadTokens(dh: Dh, p: Party, y: Symmetric, e: Key, rest: seq<byte>)
    ensures var (z, q) := SecondRead(dh, p, y, e); Read(dh, p, y, SECOND, e + rest) == Some((z, q, rest))
  {
    hide MixHash, MixKey, MixKeyAndHash, DecryptAndHash, Shared;
    assert SECOND[1..] == [EE, SE, PSK] && [EE, SE, PSK][1..] == [SE, PSK] && [SE, PSK][1..] == [PSK];
    assert [PSK][1..] == [];
    assert (e + rest)[..32] == e && (e + rest)[32..] == rest;
    var q := p.(re := e);
    var y1 := MixKey(MixHash(y, e), e);
    var y2 := MixKey(y1, Shared(dh, q, EE));
    var y3 := MixKey(y2, Shared(dh, q, SE));
    assert Read(dh, p, y, SECOND, e + rest) == Read(dh, q, y1, [EE, SE, PSK], rest);
    assert Read(dh, q, y1, [EE, SE, PSK], rest) == Read(dh, q, y2, [SE, PSK], rest);
    assert Read(dh, q, y2, [SE, PSK], rest) == Read(dh, q, y3, [PSK], rest);
  }

  predicate FinishedAs(f: Option<Handshake>, h: Handshake, m: Response, hash: Key,
                       x: Option<(Symmetric, Party, seq<byte>)>)
    requires |m.ephemeral| == 32
  {
    match f
    case None => x.None?
    case Some(done) =>
      && x.Some? && x.value.2 == []
      && done == h.(remoteEphemeral := m.ephemeral, remoteIndex := m.sender, hash := hash,
                    chainingKey := x.value.0.ck)
  }

  /** A response is processed as the second message is read, with the pre-shared key of the
      peer: it completes the pending handshake exactly if no product is zero and it can be read,
      with the chaining key after the message and the hash before its payload, which is not mixed
      in any more. */
  lemma FinishIsNoise(dh: Dh, d: Device, r: Remote, h: Handshake, m: Response, y: Symmetric, re: Key)
    requires m.Valid() && y.ck == h.chainingKey && y.h == h.hash
    ensures var p := Initiator(dh, d, r, h.ephemeralPrivate, re);
            var x := ReadMessage(dh, p, y, SECOND, m.ephemeral + m.encEmpty);
            if !h.valid || !h.initiator || dh(h.ephemeralPrivate, m.ephemeral) == Zeros(32)
               || dh(d.privateKey, m.ephemeral) == Zeros(32) then Finish(dh, d, r, h, m) == None
            else
            FinishedAs(Finish(dh, d, r, h, m), h, m, SecondRead(dh, p, y, m.ephemeral).0.h, x)
  {
    hide Kdf.Tau, Kdf.Digest, Aead.Open, MixHash, MixKey, MixKeyAndHash, DecryptAndHash, Read;
    var p := Initiator(dh, d, r, h.ephemeralPrivate, re);
    SecondReadTokens(dh, p, y, m.ephemeral, m.encEmpty);
    var q := p.(re := m.ephemeral);
    var y1 := MixHash(y, m.ephemeral);
    var y2 := MixKey(y1, m.ephemeral);
    var y3 := MixKey(y2, Shared(dh, q, EE));
    var y4 := MixKey(y3, Shared(dh, q, SE));
    MixHashIs(y, m.ephemeral);
    MixKeyIs(y1, m.ephemeral);
    MixKeyIs(y2, Shared(dh, q, EE));
    MixKeyIs(y3, Shared(dh, q, SE));
    MixKeyAndHashIs(y4, q.psk);
    DecryptIs(MixKeyAndHash(y4, q.psk), m.encEmpty);
  }

  // Keys and labels

  const MAC1: seq<byte> := [0x6d, 0x61, 0x63, 0x31, 0x2d, 0x2d, 0x2d, 0x2d]
  const COOKIE: seq<byte> := [0x63, 0x6f, 0x6f, 0x6b, 0x69, 0x65, 0x2d, 0x2d]

  lemma Labels()
    ensures LABEL_MAC1 == MAC1 && LABEL_COOKIE == COOKIE
  {
  }

  lemma LabelKeys(publicKey: Key)
    ensures MacKey(LABEL_MAC1, publicKey) == HASH(MAC1 + publicKey)
    ensures MacKey(LABEL_COOKIE, publicKey) == HASH(COOKIE + publicKey)
  {
    hide Blake2s.Hash;
    Labels();
  }

  /** What initialisation makes of a private key: three bits of the first byte are cleared, the
      highest bit of the last is cleared and the next one set, and the public key is the product
      with the base point 9. */
  lemma DeviceKeys(dh: Dh, x: Key)
    ensures InitDevice(dh, x).Some? <==> x != Zeros(32) && dh(x, [9] + Zeros(31)) != Zeros(32)
    ensures InitDevice(dh, x).Some? ==>
              var d := InitDevice(dh, x).value;
              && d.publicKey == dh(x, [9] + Zeros(31)) && d.privateKey[1..31] == x[1..31]
              && d.privateKey[0] == And(x[0], 248) && d.privateKey[31] == Or(And(x[31], 127), 64)
              && d.labelMac1Key == HASH(MAC1 + d.publicKey) && d.labelCookieKey == HASH(COOKIE + d.publicKey)
  {
    hide HASH, MacKey, And, Or;
    LabelKeys(dh(x, BASE_POINT));
    ClampedBits(x[0], x[31], 248, 127, 64);
  }

  lemma ClampedBits(first: byte, last: byte, low: nat, high: nat, bit: nat)
    requires low == 248 && high == 127 && bit == 64
    ensures And(first, low) == first - first % 8 && Or(And(last, high), bit) == last % 64 + 64
  {
    hide And, Or, Shr;
    Pow2Values();
    Pow2Add(1, 2);
    Pow2Add(1, 6);
    assert Pow2(1) == 2 && Pow2(3) == 8 && Pow2(5) == 32 && Pow2(7) == 128 by { Pow2Add(1, 4); }
    hide Pow2;
    var top, none := low / 8, low % 8;
    AndSplit(first, low, top, none, 3);
    DivPow2(first, 3);
    AndZero(first % 8);
    AndLowMask(first / 8, 5);
    AndLowMask(last, 7);
    OrTopBit(last % 128, 6);
  }

  /** Setting the highest bit. */
  lemma {:induction false} OrTopBit(x: nat, k: nat)
    requires x < 2 * Pow2(k)
    ensures Or(x, Pow2(k)) == x % Pow2(k) + Pow2(k)
    decreases k
  {
    if k > 0 && x > 0 {
      var h := Pow2(k - 1);
      OrTopBit(x / 2, k - 1);
      ModHalf(x, h);
    }
  }

  /** What initialisation records of a peer. */
  lemma PeerKeys(dh: Dh, d: Device, publicKey: Key, psk: Option<Key>)
    ensures InitPeer(dh, d, publicKey, psk).Some? <==> dh(d.privateKey, publicKey) != Zeros(32)
    ensures InitPeer(dh, d, publicKey, psk).Some? ==>
              var r := InitPeer(dh, d, publicKey, psk).value;
              && r.publicKey == publicKey && r.presharedKey == (if psk.Some? then psk.value else Zeros(32))
              && r.publicKeyDh == dh(d.privateKey, publicKey)
              && r.labelMac1Key == HASH(MAC1 + publicKey) && r.labelCookieKey == HASH(COOKIE + publicKey)
  {
    hide HASH, MacKey;
    LabelKeys(publicKey);
  }

  // Split

  /** The two transport keys: the initiator sends under the first, the responder under the
      second. */
  function Split(ck: Key): (Key, Key) {
    hide HKDF;
    (HKDF(ck, [], 1), HKDF(ck, [], 2))
  }

  predicate SplitsInto(ck: Key, first: Key, second: Key) {
    hide Kdf.Tau;
    first == Kdf.Tau(ck, [], 1) && second == Kdf.Tau(ck, [], 2)
  }

  lemma SplitIs(ck: Key)
    ensures SplitsInto(ck, Split(ck).0, Split(ck).1)
  {
    hide HKDF, Kdf.Tau;
    TauIsHkdf(ck, [], 1);
    TauIsHkdf(ck, [], 2);
  }
}
