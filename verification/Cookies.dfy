/** The MACs and cookies of sections 5.4.4 and 5.4.7 of the WireGuard paper: the responder's
    rolling secret, the cookie reply, and the second MAC it lets the initiator compute. */
module Cookies {
  import opened Bits
  import opened Bytes
  import opened Wrappers
  import opened Keypairs
  import opened Messages
  import opened Noise
  import Kdf
  import Aead
  import Blake2s
  import AeadReference
  import NoiseReference

  // The responder

  datatype Secret = Secret(bytes: Key, millis: u32)

  /** One computation of a cookie: the clock when the age of the secret is tested, and what a
      renewal would draw and read. */
  datatype Draw = Draw(now: u32, drawn: Key, renewed: u32)

  function Current(s: Secret, x: Draw): Secret {
    if Expired(x.now, s.millis, COOKIE_SECRET_MAX_AGE) then Secret(x.drawn, x.renewed) else s
  }

  function PeerCookie(s: Secret, address: seq<byte>): Cookie {
    Kdf.Mac(s.bytes, address)
  }

  function Reply(s: Secret, labelCookieKey: Key, mac1: Cookie, index: u32, nonce: seq<byte>, address: seq<byte>)
    : CookieReply
    requires |nonce| == 24
  {
    CookieReply(index, nonce, Aead.XSeal(labelCookieKey, nonce, mac1, PeerCookie(s, address)))
  }

  class Responder {
    var secret: Key
    var secretMillis: u32

    function View(): Secret
      reads this
    {
      Secret(secret, secretMillis)
    }

    constructor (drawn: Key, now: u32)
      ensures View() == Secret(drawn, now)
    {
      secret, secretMillis := drawn, now;
    }

    /** generate_peer_cookie */
    method GeneratePeerCookie(address: seq<byte>, x: Draw) returns (cookie: Cookie)
      modifies this
      ensures View() == Current(old(View()), x) && cookie == PeerCookie(View(), address)
    {
      hide Kdf.Mac;
      if Expired(x.now, secretMillis, COOKIE_SECRET_MAX_AGE) {
        secret, secretMillis := x.drawn, x.renewed;
      }
      cookie := Kdf.Mac(secret, address);
    }

    /** wireguard_create_cookie_reply */
    method CreateCookieReply(d: Device, mac1: Cookie, index: u32, nonce: seq<byte>, address: seq<byte>, x: Draw)
      returns (m: CookieReply)
      requires |nonce| == 24
      modifies this
      ensures View() == Current(old(View()), x) && m == Reply(View(), d.labelCookieKey, mac1, index, nonce, address)
    {
      hide Aead.XSeal, PeerCookie, Current;
      var cookie := GeneratePeerCookie(address, x);
      m := CookieReply(index, nonce, Aead.XSeal(d.labelCookieKey, nonce, mac1, cookie));
    }

    /** wireguard_check_mac2 */
    method CheckMac2(data: seq<byte>, address: seq<byte>, mac2: Cookie, x: Draw) returns (ok: bool)
      modifies this
      ensures View() == Current(old(View()), x) && ok == (mac2 == Kdf.Mac(PeerCookie(View(), address), data))
    {
      hide Kdf.Mac, PeerCookie, Current;
      var cookie := GeneratePeerCookie(address, x);
      ok := Aead.Equal(Kdf.Mac(cookie, data), mac2, 16);
    }

    /** wireguardif_check_initiation_message: under load an initiation needs a cookie, and one
        without gets a cookie in reply. */
    method CheckInitiation(d: Device, m: Initiation, address: seq<byte>, underLoad: bool, nonce: seq<byte>,
                           check: Draw, reply: Draw)
      returns (ok: bool, r: Option<CookieReply>)
      requires m.Valid() && |nonce| == 24
      modifies this
      ensures ok == Admits(d, Current(old(View()), check), m, address, underLoad)
      ensures r.Some? == (m.mac1 == Kdf.Mac(d.labelMac1Key, m.Wire()[..116]) && !ok)
      ensures r.Some? ==> r.value == Reply(View(), d.labelCookieKey, m.mac1, m.sender, nonce, address)
      ensures View() == if m.mac1 != Kdf.Mac(d.labelMac1Key, m.Wire()[..116]) || !underLoad then old(View())
                        else if ok then Current(old(View()), check)
                        else Current(Current(old(View()), check), reply)
    {
      hide Kdf.Mac, PeerCookie, Current, Reply, Initiation.Wire;
      WirePrefixes(m);
      ok, r := false, None;
      var mac1Ok := Aead.Equal(Kdf.Mac(d.labelMac1Key, m.Wire()[..116]), m.mac1, 16);
      if mac1Ok {
        ok := true;
        if underLoad {
          ok := CheckMac2(m.Wire()[..132], address, m.mac2, check);
          if !ok {
            var answer := CreateCookieReply(d, m.mac1, m.sender, nonce, address, reply);
            r := Some(answer);
          }
        }
      }
    }
  }

  /** The first MAC is right and, under load, so is the second. */
  predicate Admits(d: Device, s: Secret, m: Initiation, address: seq<byte>, underLoad: bool)
    requires m.Valid()
  {
    hide Kdf.Mac, PeerCookie, Initiation.Wire;
    WirePrefixes(m);
    && m.mac1 == Kdf.Mac(d.labelMac1Key, m.Wire()[..116])
    && (underLoad ==> m.mac2 == Kdf.Mac(PeerCookie(s, address), m.Wire()[..132]))
  }

  /** The two MACs cover the message up to themselves. */
  lemma WirePrefixes(m: Initiation)
    requires m.Valid()
    ensures |m.Wire()| == 148 && m.Wire()[..116] == m.Body() && m.Wire()[..132] == m.Body() + m.mac1
  {
    hide ToLE;
  }

  // The initiator

  datatype Jar = Jar(cookie: Cookie, millis: u32, mac1: Cookie, mac1Valid: bool)

  /** The cookie is usable: `Lm = E or Lm >= 120` does not hold. */
  function AtHand(j: Jar, now: u32): Option<Cookie> {
    if j.millis == 0 || Expired(now, j.millis, COOKIE_SECRET_MAX_AGE) then None else Some(j.cookie)
  }

  function Macced(j: Jar, r: Remote, m: Initiation, now: u32): Initiation {
    SignedInitiation(r.labelMac1Key, AtHand(j, now), m)
  }

  /** The first MAC of the initiation that was sent last is kept for a cookie reply. */
  function Recorded(j: Jar, m: Initiation): Jar
    requires m.Valid()
  {
    j.(mac1 := m.mac1, mac1Valid := true)
  }

  function Stored(j: Jar, r: Remote, m: CookieReply, now: u32): Jar
    requires m.Valid()
  {
    hide Aead.XOpen;
    if !j.mac1Valid then j
    else
      match Aead.XOpen(r.labelCookieKey, m.nonce, j.mac1, m.encCookie)
      case None => j
      case Some(c) => Jar(c, now, j.mac1, false)
  }

  class Initiator {
    var cookie: Cookie
    var cookieMillis: u32
    var handshakeMac1: Cookie
    var handshakeMac1Valid: bool

    function View(): Jar
      reads this
    {
      Jar(cookie, cookieMillis, handshakeMac1, handshakeMac1Valid)
    }

    constructor ()
      ensures View() == Jar(Zeros(16), 0, Zeros(16), false)
    {
      cookie, cookieMillis, handshakeMac1, handshakeMac1Valid := Zeros(16), 0, Zeros(16), false;
    }

    /** The MACs at the end of wireguard_create_handshake_initiation. */
    method AddMacs(r: Remote, m: Initiation, now: u32) returns (out: Initiation)
      ensures out == Macced(View(), r, m, now)
    {
      hide Kdf.Mac, Expired, Initiation.Body;
      var mac1 := Kdf.Mac(r.labelMac1Key, m.Body());
      var mac2 := Zeros(16);
      if cookieMillis == 0 || Expired(now, cookieMillis, COOKIE_SECRET_MAX_AGE) {
      } else {
        mac2 := Kdf.Mac(cookie, m.Body() + mac1);
      }
      out := m.(mac1 := mac1, mac2 := mac2);
    }

    /** The end of wireguard_start_handshake. */
    method RecordMac1(m: Initiation)
      requires m.Valid()
      modifies this
      ensures View() == Recorded(old(View()), m)
    {
      handshakeMac1, handshakeMac1Valid := m.mac1, true;
    }

    /** wireguard_process_cookie_message */
    method ProcessCookieMessage(r: Remote, m: CookieReply, now: u32) returns (ok: bool)
      requires m.Valid()
      modifies this
      ensures View() == Stored(old(View()), r, m, now)
      ensures ok == (old(handshakeMac1Valid) && !handshakeMac1Valid)
    {
      hide Aead.XOpen;
      ok := false;
      if handshakeMac1Valid {
        match Aead.XOpen(r.labelCookieKey, m.nonce, handshakeMac1, m.encCookie)
        case None =>
        case Some(c) =>
          cookie, cookieMillis, handshakeMac1Valid := c, now, false;
          ok := true;
      }
    }
  }

  // The round trip

  /** The secret over a run of cookie computations. */
  function Rolling(s: Secret, draws: seq<Draw>): Secret
    decreases |draws|
  {
    if draws == [] then s else Rolling(Current(s, draws[0]), draws[1..])
  }

  /** The secret does not roll over as long as no computation finds it expired. */
  lemma {:induction false} SecretKept(s: Secret, draws: seq<Draw>)
    requires forall i :: 0 <= i < |draws| ==> !Expired(draws[i].now, s.millis, COOKIE_SECRET_MAX_AGE)
    ensures Rolling(s, draws) == s
    decreases |draws|
  {
    if draws != [] {
      assert Current(s, draws[0]) == s;
      SecretKept(s, draws[1..]);
    }
  }

  /** A cookie reply to an initiation decrypts at its sender to the responder's cookie for the
      address it came from. */
  lemma ReplyStored(dh: Dh, da: Device, ra: Remote, db: Device, rb: Remote, s: Secret, j: Jar, m: Initiation,
                    nonce: seq<byte>, address: seq<byte>, now: u32)
    requires Paired(dh, da, ra, db, rb) && m.Valid() && |nonce| == 24
    requires j.mac1Valid && j.mac1 == m.mac1
    ensures Stored(j, ra, Reply(s, db.labelCookieKey, m.mac1, m.sender, nonce, address), now)
         == Jar(PeerCookie(s, address), now, m.mac1, false)
  {
    hide Aead.XSeal, Aead.XOpen, PeerCookie, Kdf.Digest;
    Aead.XOpenSeal(ra.labelCookieKey, nonce, m.mac1, PeerCookie(s, address));
  }

  /** The exact verdict of a responder under load about the next initiation, for any cookies
      in the jar: a jar at hand must hold the responder's current cookie for the address, up
      to collisions of the MAC, and without one the MAC would have to be zero. */
  lemma Verdict(dh: Dh, da: Device, ra: Remote, db: Device, rb: Remote, s: Secret, j: Jar, m: Initiation,
                address: seq<byte>, now: u32)
    requires Paired(dh, da, ra, db, rb) && m.Valid()
    ensures var n := Macced(j, ra, m, now); var data := m.Body() + n.mac1;
            && n.Valid() && n.Body() == m.Body()
            && (Admits(db, s, n, address, true) <==>
                Kdf.Mac(PeerCookie(s, address), data) ==
                (if AtHand(j, now).Some? then Kdf.Mac(j.cookie, data) else Zeros(16)))
  {
    hide Kdf.Mac, PeerCookie, Kdf.Digest, Initiation.Body, Initiation.Wire;
    var n := Macced(j, ra, m, now);
    MacsKeepBody(m, n.mac1, n.mac2);
    WirePrefixes(n);
    Mac1Accepted(dh, da, ra, db, rb, AtHand(j, now), m.Body());
  }

  lemma MacsKeepBody(m: Initiation, mac1: Cookie, mac2: Cookie)
    ensures m.(mac1 := mac1, mac2 := mac2).Body() == m.Body()
  {
  }

  /** Cookie round trip: the initiation m1 is sent and answered by a cookie reply; the sender stores
      the cookie; its next initiation m2 passes both MAC checks of the responder under load,
      provided the cookie was stored at a non-zero tick and is under 120 s old when it is
      used, and no cookie computation in between finds the secret 120 s old. */
  lemma CookieRoundTrip(dh: Dh, da: Device, ra: Remote, db: Device, rb: Remote, s: Secret, j: Jar,
                        m1: Initiation, m2: Initiation, nonce: seq<byte>, address: seq<byte>,
                        stored: u32, used: u32, draws: seq<Draw>)
    requires Paired(dh, da, ra, db, rb) && m1.Valid() && m2.Valid() && |nonce| == 24
    requires stored != 0 && !Expired(used, stored, COOKIE_SECRET_MAX_AGE)
    requires forall i :: 0 <= i < |draws| ==> !Expired(draws[i].now, s.millis, COOKIE_SECRET_MAX_AGE)
    ensures var k := Stored(Recorded(j, m1), ra, Reply(s, db.labelCookieKey, m1.mac1, m1.sender, nonce, address),
                            stored);
            var n := Macced(k, ra, m2, used);
            n.Valid() && Admits(db, Rolling(s, draws), n, address, true)
  {
    hide Paired, Expired, Stored, Reply, Macced, Admits, PeerCookie, Kdf.Mac, Initiation.Body;
    ReplyStored(dh, da, ra, db, rb, s, Recorded(j, m1), m1, nonce, address, stored);
    SecretKept(s, draws);
    Verdict(dh, da, ra, db, rb, s, Jar(PeerCookie(s, address), stored, m1.mac1, false), m2, address, used);
  }

  /** The other half: a cookie stored at tick zero, or 120 s old, is not used. The initiation
      carries a zero second MAC and passes only if the MAC itself is zero. */
  lemma CookieUnused(dh: Dh, da: Device, ra: Remote, db: Device, rb: Remote, s: Secret, j: Jar,
                     m1: Initiation, m2: Initiation, nonce: seq<byte>, address: seq<byte>, stored: u32, used: u32)
    requires Paired(dh, da, ra, db, rb) && m1.Valid() && m2.Valid() && |nonce| == 24
    requires stored == 0 || Expired(used, stored, COOKIE_SECRET_MAX_AGE)
    ensures var k := Stored(Recorded(j, m1), ra, Reply(s, db.labelCookieKey, m1.mac1, m1.sender, nonce, address),
                            stored);
            var n := Macced(k, ra, m2, used);
            && n.Valid() && n.mac2 == Zeros(16)
            && (Admits(db, s, n, address, true) <==> Kdf.Mac(PeerCookie(s, address), m2.Body() + n.mac1) == Zeros(16))
  {
    hide Paired, Expired, Stored, Reply, Admits, PeerCookie, Kdf.Mac, Initiation.Body;
    ReplyStored(dh, da, ra, db, rb, s, Recorded(j, m1), m1, nonce, address, stored);
    Verdict(dh, da, ra, db, rb, s, Jar(PeerCookie(s, address), stored, m1.mac1, false), m2, address, used);
  }

  // The formulas of sections 5.4.4 and 5.4.7, written out

  /** A secret lasts 120 s, and so does a cookie, unless it was stored at tick zero. */
  lemma AgesExactly(s: Secret, x: Draw, j: Jar, now: u32)
    ensures Current(s, x) == if (x.now - s.millis) % TWO32 >= 120_000 then Secret(x.drawn, x.renewed) else s
    ensures AtHand(j, now) == if j.millis != 0 && (now - j.millis) % TWO32 < 120_000 then Some(j.cookie) else None
  {
  }

  /** The cookie is the keyed 16-byte hash of the address under the secret; the reply seals it for
      the first MAC, under the key of the label and the responder's public key. */
  lemma ReplyBytes(d: Device, s: Secret, mac1: Cookie, index: u32, nonce: seq<byte>, address: seq<byte>)
    requires |nonce| == 24 && d.labelCookieKey == NoiseReference.HASH(NoiseReference.COOKIE + d.publicKey)
    ensures PeerCookie(s, address) == Blake2s.Hash(16, s.bytes, address)
    ensures var m := Reply(s, d.labelCookieKey, mac1, index, nonce, address);
            && m.receiver == index && m.nonce == nonce
            && m.encCookie == AeadReference.XAeadEncrypt(mac1, NoiseReference.HASH(NoiseReference.COOKIE + d.publicKey),
                                                         nonce, Blake2s.Hash(16, s.bytes, address))
  {
    hide Aead.XSeal, Blake2s.Hash, NoiseReference.HASH, AeadReference.XAeadEncrypt;
    AeadReference.XSealIsStandard(d.labelCookieKey, nonce, mac1, PeerCookie(s, address));
  }

  /** The MACs of an initiation: the first over the 116 bytes before it, under the key of the label
      and the receiver's public key; the second over the 132 bytes before it, under the cookie. */
  lemma MacBytes(j: Jar, r: Remote, m: Initiation, now: u32)
    requires m.Valid() && r.labelMac1Key == NoiseReference.HASH(NoiseReference.MAC1 + r.publicKey)
    ensures var n := Macced(j, r, m, now); var w := n.Wire();
            && n.Valid()
            && n.mac1 == Blake2s.Hash(16, NoiseReference.HASH(NoiseReference.MAC1 + r.publicKey), w[..116])
            && n.mac2 == match AtHand(j, now) case None => Zeros(16) case Some(c) => Blake2s.Hash(16, c, w[..132])
  {
    hide AtHand, Blake2s.Hash, NoiseReference.HASH, Initiation.Body, Initiation.Wire;
    var n := Macced(j, r, m, now);
    MacsKeepBody(m, n.mac1, n.mac2);
    WirePrefixes(n);
  }

  /** The same for a response, over 60 and 76 bytes. */
  lemma ResponseMacBytes(r: Remote, cookie: Option<Cookie>, m: Response)
    requires m.Valid() && r.labelMac1Key == NoiseReference.HASH(NoiseReference.MAC1 + r.publicKey)
    ensures var n := SignedResponse(r.labelMac1Key, cookie, m); var w := n.Wire();
            && n.Valid()
            && n.mac1 == Blake2s.Hash(16, NoiseReference.HASH(NoiseReference.MAC1 + r.publicKey), w[..60])
            && n.mac2 == match cookie case None => Zeros(16) case Some(c) => Blake2s.Hash(16, c, w[..76])
  {
    hide Blake2s.Hash, NoiseReference.HASH, Response.Body, Response.Wire;
    var n := SignedResponse(r.labelMac1Key, cookie, m);
    ResponsePrefixes(m, n.mac1, n.mac2);
  }

  lemma ResponsePrefixes(m: Response, mac1: Cookie, mac2: Cookie)
    requires m.Valid()
    ensures var n := m.(mac1 := mac1, mac2 := mac2);
            n.Body() == m.Body() && n.Wire()[..60] == m.Body() && n.Wire()[..76] == m.Body() + mac1
  {
    hide ToLE;
  }

  /** What a responder demands. */
  lemma AdmitsExactly(d: Device, s: Secret, m: Initiation, address: seq<byte>, underLoad: bool)
    requires m.Valid() && d.labelMac1Key == NoiseReference.HASH(NoiseReference.MAC1 + d.publicKey)
    ensures var w := m.Wire();
            && |w| == 148
            && (Admits(d, s, m, address, underLoad) <==>
                && m.mac1 == Blake2s.Hash(16, NoiseReference.HASH(NoiseReference.MAC1 + d.publicKey), w[..116])
                && (underLoad ==> m.mac2 == Blake2s.Hash(16, Blake2s.Hash(16, s.bytes, address), w[..132])))
  {
    hide Blake2s.Hash, NoiseReference.HASH, Initiation.Wire;
    WirePrefixes(m);
  }
}
