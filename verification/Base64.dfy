/** The base64 codec of wireguard.c (section 4 of RFC 4648): the encoding loop over groups of
    three bytes and the decoding loop over single characters. */
module Base64 {
  import opened Bits
  import opened Bytes
  import opened Wrappers

  // The alphabet

  /** base64_lookup[v] */
  function Char(v: nat): char
    requires v < 64
  {
    if v < 26 then ('A' as int + v) as char
    else if v < 52 then ('a' as int + v - 26) as char
    else if v < 62 then ('0' as int + v - 52) as char
    else if v == 62 then '+' else '/'
  }

  /** The position that strchr finds in base64_lookup. */
  function Sextet(c: char): (v: Option<nat>)
    ensures v.Some? ==> v.value < 64
  {
    if 'A' <= c <= 'Z' then Some(c as int - 'A' as int)
    else if 'a' <= c <= 'z' then Some(c as int - 'a' as int + 26)
    else if '0' <= c <= '9' then Some(c as int - '0' as int + 52)
    else if c == '+' then Some(62) else if c == '/' then Some(63) else None
  }

  lemma PadHasNone()
    ensures Sextet('=') == None
  {
  }

  lemma SextetChar(v: nat)
    requires v < 64
    ensures Sextet(Char(v)) == Some(v) && Char(v) != '='
  {
  }

  // The definitions

  /** One to three bytes as four characters. */
  function EncodedGroup(s: seq<byte>): (t: string)
    requires 1 <= |s| <= 3
    ensures |t| == 4
  {
    if |s| == 1 then [Char(s[0] / 4), Char(s[0] % 4 * 16), '=', '=']
    else if |s| == 2 then [Char(s[0] / 4), Char(s[0] % 4 * 16 + s[1] / 16), Char(s[1] % 16 * 4), '=']
    else [Char(s[0] / 4), Char(s[0] % 4 * 16 + s[1] / 16), Char(s[1] % 16 * 4 + s[2] / 64), Char(s[2] % 64)]
  }

  function Encoded(s: seq<byte>): (t: string)
    ensures |t| == 4 * ((|s| + 2) / 3)
  {
    hide EncodedGroup;
    if s == [] then [] else if |s| <= 3 then EncodedGroup(s) else EncodedGroup(s[..3]) + Encoded(s[3..])
  }

  /** The three bytes of four sextets. */
  function Three(a: nat, b: nat, c: nat, d: nat): (s: seq<byte>)
    requires a < 64 && b < 64 && c < 64 && d < 64
    ensures |s| == 3
  {
    [a * 4 + b / 16, b % 16 * 16 + c / 4, c % 4 * 64 + d]
  }

  /** The bytes of four characters. Padding by three characters and non-zero spare bits pass. */
  function DecodedGroup(t: string): (s: Option<seq<byte>>)
    requires |t| == 4
    ensures s.Some? ==> 1 <= |s.value| <= 3
  {
    hide Char;
    var a, b, c, d := Sextet(t[0]), Sextet(t[1]), Sextet(t[2]), Sextet(t[3]);
    if a.None? then None
    else if b.None? then if t[1] == t[2] == t[3] == '=' then Some(Three(a.value, 0, 0, 0)[..1]) else None
    else if c.None? then if t[2] == t[3] == '=' then Some(Three(a.value, b.value, 0, 0)[..1]) else None
    else if d.None? then if t[3] == '=' then Some(Three(a.value, b.value, c.value, 0)[..2]) else None
    else Some(Three(a.value, b.value, c.value, d.value))
  }

  /** The strings that the decoder accepts, given room, and what they stand for. Only the last
      group may be padded. */
  function Decoded(t: string): Option<seq<byte>> {
    hide DecodedGroup;
    if t == [] then Some([])
    else if |t| < 4 then None
    else
      match DecodedGroup(t[..4])
      case None => None
      case Some(x) =>
        if |x| < 3 then if |t| == 4 then Some(x) else None
        else match Decoded(t[4..]) case None => None case Some(rest) => Some(x + rest)
  }

  /** The room that the decoder demands: it counts no byte for a group with three padding
      characters, although it writes one. */
  function Room(t: string): nat
  {
    hide DecodedGroup;
    match Decoded(t)
    case None => 0
    case Some(s) => if |t| >= 4 && t[|t| - 3] == '=' then |s| - 1 else |s|
  }

  // Decoding undoes encoding

  lemma Join(x: byte, y: byte, z: byte)
    ensures Three(x / 4, x % 4 * 16 + y / 16, y % 16 * 4 + z / 64, z % 64) == [x, y, z]
  {
  }

  lemma FullGroup(a: nat, b: nat, c: nat, d: nat)
    requires a < 64 && b < 64 && c < 64 && d < 64
    ensures DecodedGroup([Char(a), Char(b), Char(c), Char(d)]) == Some(Three(a, b, c, d))
    ensures DecodedGroup([Char(a), Char(b), Char(c), '=']) == Some(Three(a, b, c, 0)[..2])
    ensures DecodedGroup([Char(a), Char(b), '=', '=']) == Some(Three(a, b, 0, 0)[..1])
  {
    hide Char, Sextet, Three;
    SextetChar(a);
    SextetChar(b);
    SextetChar(c);
    SextetChar(d);
    PadHasNone();
  }

  lemma GroupRoundTrip(s: seq<byte>)
    requires 1 <= |s| <= 3
    ensures DecodedGroup(EncodedGroup(s)) == Some(s) && EncodedGroup(s)[1] != '='
  {
    hide *;
    if |s| == 1 {
      OneByte(s[0]);
      assert s == [s[0]];
    } else if |s| == 2 {
      TwoBytes(s[0], s[1]);
      assert s == [s[0], s[1]];
    } else {
      ThreeBytes(s[0], s[1], s[2]);
      assert s == [s[0], s[1], s[2]];
    }
  }

  lemma OneByte(x: byte)
    ensures DecodedGroup(EncodedGroup([x])) == Some([x]) && EncodedGroup([x])[1] != '='
  {
    hide DecodedGroup, Char, Three, Sextet;
    SextetChar(x % 4 * 16);
    Join(x, 0, 0);
    FullGroup(x / 4, x % 4 * 16, 0, 0);
    assert [x, 0, 0][..1] == [x];
  }

  lemma TwoBytes(x: byte, y: byte)
    ensures DecodedGroup(EncodedGroup([x, y])) == Some([x, y]) && EncodedGroup([x, y])[1] != '='
  {
    hide DecodedGroup, Char, Three, Sextet;
    SextetChar(x % 4 * 16 + y / 16);
    Join(x, y, 0);
    FullGroup(x / 4, x % 4 * 16 + y / 16, y % 16 * 4, 0);
    assert [x, y, 0][..2] == [x, y];
  }

  lemma ThreeBytes(x: byte, y: byte, z: byte)
    ensures DecodedGroup(EncodedGroup([x, y, z])) == Some([x, y, z]) && EncodedGroup([x, y, z])[1] != '='
  {
    hide DecodedGroup, Char, Three, Sextet;
    SextetChar(x % 4 * 16 + y / 16);
    Join(x, y, z);
    FullGroup(x / 4, x % 4 * 16 + y / 16, y % 16 * 4 + z / 64, z % 64);
  }

  /** Decoding undoes encoding for every byte string, and needs no more room than its length. */
  lemma {:induction false} DecodeEncode(s: seq<byte>)
    ensures Decoded(Encoded(s)) == Some(s) && Room(Encoded(s)) == |s|
  {
    hide EncodedGroup, DecodedGroup;
    if 1 <= |s| <= 3 {
      GroupRoundTrip(s);
      assert EncodedGroup(s)[..4] == EncodedGroup(s) && EncodedGroup(s)[4..] == [];
      assert s + [] == s;
    } else if |s| > 3 {
      GroupRoundTrip(s[..3]);
      DecodeEncode(s[3..]);
      var g, t := EncodedGroup(s[..3]), Encoded(s[3..]);
      assert (g + t)[..4] == g && (g + t)[4..] == t;
      assert s == s[..3] + s[3..];
    }
  }

  // Encoding undoes decoding, for canonical strings

  lemma CharSextet(c: char)
    requires Sextet(c).Some?
    ensures Char(Sextet(c).value) == c
  {
  }

  lemma Split(a: nat, b: nat, c: nat, d: nat)
    requires a < 64 && b < 64 && c < 64 && d < 64
    ensures var s := Three(a, b, c, d);
            && s[0] / 4 == a && s[0] % 4 * 16 + s[1] / 16 == b && s[1] % 16 * 4 + s[2] / 64 == c && s[2] % 64 == d
  {
    var x, y, z := a * 4 + b / 16, b % 16 * 16 + c / 4, c % 4 * 64 + d;
    assert x / 4 == a && x % 4 == b / 16;
    assert y / 16 == b % 16 && y % 16 == c / 4;
    assert z / 64 == c % 4 && z % 64 == d;
  }

  lemma FullGroupBack(t: string)
    requires |t| == 4 && forall i :: 0 <= i < 4 ==> Sextet(t[i]).Some?
    ensures DecodedGroup(t).Some? && |DecodedGroup(t).value| == 3 && EncodedGroup(DecodedGroup(t).value) == t
  {
    var a, b, c, d := Sextet(t[0]).value, Sextet(t[1]).value, Sextet(t[2]).value, Sextet(t[3]).value;
    CharSextet(t[0]);
    CharSextet(t[1]);
    CharSextet(t[2]);
    CharSextet(t[3]);
    Split(a, b, c, d);
    hide Char, Sextet, Three;
  }

  /** Every string of whole groups over the alphabet is accepted and is the encoding of what it
      stands for. */
  lemma {:induction false} WholeGroups(t: string)
    requires |t| % 4 == 0 && forall i :: 0 <= i < |t| ==> Sextet(t[i]).Some?
    ensures Decoded(t).Some? && |Decoded(t).value| == |t| / 4 * 3 && Encoded(Decoded(t).value) == t
    decreases |t|
  {
    hide DecodedGroup, EncodedGroup, Sextet;
    if t != [] {
      FullGroupBack(t[..4]);
      WholeGroups(t[4..]);
      var g, rest := DecodedGroup(t[..4]).value, Decoded(t[4..]).value;
      assert (g + rest)[..3] == g && (g + rest)[3..] == rest;
      assert t == t[..4] + t[4..];
      if |t| == 4 { assert g + rest == g; }
    }
  }

  function Value(c: char): nat {
    if Sextet(c).Some? then Sextet(c).value else 0
  }

  /** The last group has at most two padding characters, and the bits of its last sextet that
      no byte takes are zero. */
  predicate CanonicalGroup(t: string)
    requires |t| == 4
  {
    && t[1] != '='
    && (t[2] == '=' ==> Value(t[1]) % 16 == 0)
    && (t[2] != '=' && t[3] == '=' ==> Value(t[2]) % 4 == 0)
  }

  predicate Canonical(t: string) {
    |t| >= 4 ==> CanonicalGroup(t[|t| - 4..])
  }

  lemma CharInjective(u: nat, v: nat)
    requires u < 64 && v < 64
    ensures Char(u) == Char(v) <==> u == v
  {
    SextetChar(u);
    SextetChar(v);
  }

  lemma GroupBack(t: string)
    requires |t| == 4 && DecodedGroup(t).Some?
    ensures EncodedGroup(DecodedGroup(t).value) == t <==> CanonicalGroup(t)
  {
    PadHasNone();
    CharSextet(t[0]);
    if t[1] == '=' {
      SextetChar(0);
      hide Char, Sextet;
    } else if t[2] == '=' {
      OneByteBack(t);
    } else if t[3] == '=' {
      TwoBytesBack(t);
    } else {
      FullGroupBack(t);
    }
  }

  lemma OneByteBack(t: string)
    requires |t| == 4 && DecodedGroup(t).Some? && t[1] != '=' && t[2] == '='
    ensures EncodedGroup(DecodedGroup(t).value) == t <==> Value(t[1]) % 16 == 0
  {
    hide Char, Sextet, Three;
    PadHasNone();
    var a, b := Sextet(t[0]).value, Sextet(t[1]).value;
    CharSextet(t[0]);
    CharSextet(t[1]);
    Split(a, b, 0, 0);
    var x := Three(a, b, 0, 0)[0];
    assert x / 4 == a && x % 4 * 16 == b / 16 * 16;
    CharInjective(b / 16 * 16, b);
    assert DecodedGroup(t).value == [x];
  }

  lemma TwoBytesBack(t: string)
    requires |t| == 4 && DecodedGroup(t).Some? && t[1] != '=' && t[2] != '=' && t[3] == '='
    ensures EncodedGroup(DecodedGroup(t).value) == t <==> Value(t[2]) % 4 == 0
  {
    PadHasNone();
    var a, b, c := Sextet(t[0]).value, Sextet(t[1]).value, Sextet(t[2]).value;
    CharSextet(t[0]);
    CharSextet(t[1]);
    CharSextet(t[2]);
    Split(a, b, c, 0);
    var x, y := Three(a, b, c, 0)[0], Three(a, b, c, 0)[1];
    assert y % 16 * 4 == c / 4 * 4;
    CharInjective(c / 4 * 4, c);
    hide Char, Sextet, Three;
    assert DecodedGroup(t).value == [x, y];
  }

  /** The exact condition for the other direction: an accepted string is the encoding of what
      it stands for if and only if it is canonical. */
  lemma {:induction false} EncodeDecode(t: string)
    requires Decoded(t).Some?
    ensures Encoded(Decoded(t).value) == t <==> Canonical(t)
    decreases |t|
  {
    hide DecodedGroup, EncodedGroup, CanonicalGroup;
    if t != [] {
      if |t| == 4 {
        SingleGroup(t);
        GroupBack(t);
        SomeBytes(t);
      } else {
        MoreBack(t);
        EncodeDecode(t[4..]);
      }
    }
  }

  lemma SomeBytes(t: string)
    requires |t| == 4 && DecodedGroup(t).Some?
    ensures 1 <= |DecodedGroup(t).value| <= 3
  {
  }

  lemma MoreBack(t: string)
    requires |t| > 4 && Decoded(t).Some?
    ensures Decoded(t[4..]).Some? && (Canonical(t) <==> Canonical(t[4..]))
    ensures Encoded(Decoded(t).value) == t <==> Encoded(Decoded(t[4..]).value) == t[4..]
  {
    hide DecodedGroup, EncodedGroup, CanonicalGroup;
    var g, rest := DecodedGroup(t[..4]).value, Decoded(t[4..]).value;
    GroupBack(t[..4]);
    FullIsCanonical(t[..4]);
    assert |rest| > 0 && (g + rest)[..3] == g && (g + rest)[3..] == rest;
    assert t == t[..4] + t[4..] && t[4..][|t[4..]| - 4..] == t[|t| - 4..];
  }

  lemma FullIsCanonical(t: string)
    requires |t| == 4 && DecodedGroup(t).Some? && |DecodedGroup(t).value| == 3
    ensures CanonicalGroup(t)
  {
    PadHasNone();
  }

  /** Both ways of failing exist: "AB==" and "A===" stand for the zero byte, as "AA==" does. */
  lemma NotCanonical()
    ensures Decoded("AA==") == Decoded("AB==") == Decoded("A===") == Some([0])
    ensures Canonical("AA==") && !Canonical("AB==") && !Canonical("A===")
  {
    assert "AA==" == [Char(0), Char(0), '=', '='] && "AB==" == [Char(0), Char(1), '=', '=']
           && "A===" == [Char(0), '=', '=', '='];
    hide *;
    TwoCharacters(0);
    TwoCharacters(1);
    OneCharacter(0);
    SingleGroup("AA==");
    SingleGroup("AB==");
    SingleGroup("A===");
  }

  lemma SingleGroup(t: string)
    requires |t| == 4
    ensures Decoded(t) == DecodedGroup(t) && (Canonical(t) <==> CanonicalGroup(t))
  {
    hide DecodedGroup, CanonicalGroup;
    assert t[..4] == t && t[4..] == [] && t[0..] == t;
    if DecodedGroup(t).Some? { assert DecodedGroup(t).value + [] == DecodedGroup(t).value; }
  }

  lemma TwoCharacters(v: nat)
    requires v < 16
    ensures DecodedGroup([Char(0), Char(v), '=', '=']) == Some([0])
    ensures CanonicalGroup([Char(0), Char(v), '=', '=']) <==> v == 0
  {
    SextetChar(v);
    assert Three(0, v, 0, 0)[..1] == [0];
    FullGroup(0, v, 0, 0);
    hide Char, Sextet, DecodedGroup, Three;
  }

  lemma OneCharacter(a: nat)
    requires a < 64
    ensures DecodedGroup([Char(a), '=', '=', '=']) == Some([a * 4]) && !CanonicalGroup([Char(a), '=', '=', '='])
  {
    SextetChar(a);
    PadHasNone();
    assert Three(a, 0, 0, 0)[..1] == [a * 4];
    hide Char, Sextet, Three;
  }

  // The room

  predicate TriplePadded(t: string) {
    |t| >= 4 && t[|t| - 3] == '=' && Decoded(t).Some?
  }

  /** Some accepted prefix ends in a triple-padded group whose byte does not fit into the room
      that was checked. */
  ghost predicate PrefixOverruns(t: string, outlen: nat) {
    exists k :: 0 <= k <= |t| && TriplePadded(t[..k]) && Room(t[..k]) == outlen
  }

  /** One fixed place decides: the room is a whole number of groups, that many groups and one
      character more come from the alphabet, and then there are three padding characters. */
  predicate Overruns(t: string, outlen: nat) {
    var n := outlen / 3 * 4;
    && outlen % 3 == 0 && |t| >= n + 4
    && TripleShape(t[..n + 4])
  }

  predicate TripleShape(t: string)
  {
    && |t| >= 4 && |t| % 4 == 0
    && (forall i :: 0 <= i < |t| - 3 ==> Sextet(t[i]).Some?)
    && t[|t| - 3] == t[|t| - 2] == t[|t| - 1] == '='
  }

  /** Triple-padded strings have this shape, and it determines their room. */
  lemma {:induction false} TripleHasShape(t: string)
    requires TriplePadded(t)
    ensures TripleShape(t) && Room(t) == 3 * (|t| / 4 - 1)
    decreases |t|
  {
    if |t| == 4 {
      OneTripleGroup(t);
    } else {
      TripleRest(t);
      hide TriplePadded, TripleShape, Room;
      TripleHasShape(t[4..]);
      ShapeAfter(t);
    }
  }

  lemma TripleRest(t: string)
    requires TriplePadded(t) && |t| != 4
    ensures |t| >= 8 && TriplePadded(t[4..]) && Room(t) == 3 + Room(t[4..])
    ensures forall i :: 0 <= i < 4 ==> Sextet(t[..4][i]).Some?
  {
    hide Sextet;
    FullGroupShape(t[..4]);
    RoomAfter(t);
    hide DecodedGroup, Room;
  }

  lemma ShapeAfter(t: string)
    requires |t| >= 8 && TripleShape(t[4..]) && forall i :: 0 <= i < 4 ==> Sextet(t[..4][i]).Some?
    ensures TripleShape(t) && |t| / 4 == 1 + |t[4..]| / 4
  {
    hide Sextet;
    forall i | 0 <= i < |t| - 3 ensures Sextet(t[i]).Some? {
      assert t[i] == if i < 4 then t[..4][i] else t[4..][i - 4];
    }
  }

  lemma OneTripleGroup(t: string)
    requires TriplePadded(t) && |t| == 4
    ensures TripleShape(t) && Room(t) == 0
  {
    SingleGroup(t);
    PaddedGroupShape(t);
    GroupLength(t);
    hide DecodedGroup, Sextet;
  }

  lemma PaddedGroupShape(t: string)
    requires |t| == 4 && DecodedGroup(t).Some? && t[1] == '='
    ensures Sextet(t[0]).Some? && t[2] == t[3] == '='
  {
    PadHasNone();
  }

  lemma FullGroupShape(t: string)
    requires |t| == 4 && DecodedGroup(t).Some? && |DecodedGroup(t).value| == 3
    ensures forall i :: 0 <= i < 4 ==> Sextet(t[i]).Some?
  {
    hide Sextet;
  }

  lemma {:induction false} ShapeIsTriple(t: string)
    requires TripleShape(t)
    ensures TriplePadded(t)
    decreases |t|
  {
    hide Sextet;
    if |t| == 4 {
      SingleGroup(t);
      ShapedGroup(t);
    } else {
      ShapeRest(t);
      hide TripleShape;
      FullGroupBack(t[..4]);
      hide DecodedGroup;
      ShapeIsTriple(t[4..]);
      TripleAfter(t);
    }
  }

  lemma ShapeRest(t: string)
    requires TripleShape(t) && |t| > 4
    ensures TripleShape(t[4..]) && forall i :: 0 <= i < 4 ==> Sextet(t[..4][i]).Some?
  {
    hide Sextet;
    forall i | 0 <= i < |t| - 4 ensures t[4..][i] == t[i + 4] {
    }
  }

  lemma TripleAfter(t: string)
    requires |t| >= 8 && TriplePadded(t[4..]) && DecodedGroup(t[..4]).Some? && |DecodedGroup(t[..4]).value| == 3
    ensures TriplePadded(t)
  {
    hide DecodedGroup;
  }

  lemma ShapedGroup(t: string)
    requires |t| == 4 && Sextet(t[0]).Some? && t[1] == t[2] == t[3] == '='
    ensures DecodedGroup(t).Some?
  {
    PadHasNone();
  }

  /** The two ways of saying it agree. */
  lemma OverrunsPrefix(t: string, outlen: nat)
    ensures PrefixOverruns(t, outlen) <==> Overruns(t, outlen)
  {
    hide Room, TripleShape, TriplePadded;
    if PrefixOverruns(t, outlen) {
      var k :| 0 <= k <= |t| && TriplePadded(t[..k]) && Room(t[..k]) == outlen;
      TripleHasShape(t[..k]);
      ShapeLength(t[..k]);
      assert outlen / 3 * 4 + 4 == k;
    }
    if Overruns(t, outlen) {
      var k := outlen / 3 * 4 + 4;
      ShapeIsTriple(t[..k]);
      TripleHasShape(t[..k]);
      assert Room(t[..k]) == outlen;
    }
  }

  lemma ShapeLength(t: string)
    requires TripleShape(t)
    ensures |t| >= 4 && |t| % 4 == 0
  {
  }

  /** The room that both callers give, 32 bytes, is never overrun, nor is any other that is not
      a multiple of three. */
  lemma RoomSuffices(t: string, outlen: nat)
    requires outlen % 3 != 0
    ensures |Run(Clean([]), t, outlen).out| <= outlen && !Overruns(t, outlen)
  {
    OverrunExactly(t, outlen);
  }

  /** An accepted string yields at most as many bytes as there is room, unless it ends in a
      triple-padded group and the room is used up. */
  lemma AcceptedFits(t: string, outlen: nat)
    requires Decoded(t).Some? && Room(t) <= outlen
    ensures |Decoded(t).value| <= outlen <==> !(TriplePadded(t) && Room(t) == outlen)
  {
    hide DecodedGroup;
  }

  /** "A===" is accepted without any room and yields one byte. */
  lemma OneByteTooMany()
    ensures Decoded("A===") == Some([0]) && Room("A===") == 0 && Overruns("A===", 0)
  {
    hide *;
    NotCanonical();
    UsesNoRoom("A===");
  }

  lemma UsesNoRoom(t: string)
    requires |t| == 4 && t[1] == '=' && Decoded(t) == Some([0])
    ensures Room(t) == 0 && Overruns(t, 0)
  {
    hide Decoded;
    assert t[..4] == t;
    assert TriplePadded(t[..4]);
    OverrunsPrefix(t, 0);
  }

  // The decoder, one character at a time

  /** The variables of the decoding loop; `ok` falls when the loop is left with a failure. */
  datatype Machine = Machine(accum: nat, count: nat, bytes: int, out: seq<byte>, ok: bool)

  function Written(accum: nat, bytes: int): seq<byte> {
    [accum / 0x1_0000 % 0x100] + (if bytes > 1 then [accum / 0x100 % 0x100] else [])
    + (if bytes > 2 then [accum % 0x100] else [])
  }

  function Next(m: Machine, c: char, outlen: nat): Machine {
    hide Sextet;
    if !m.ok then m
    else if c == '=' then
      if m.bytes - 1 < 0 then m.(bytes := m.bytes - 1, ok := false) else Push(m.(bytes := m.bytes - 1), 0, outlen)
    else if m.bytes != 3 || Sextet(c).None? then m.(ok := false)
    else Push(m, Sextet(c).value, outlen)
  }

  function Push(m: Machine, bits: nat, outlen: nat): Machine {
    var accum := m.accum * 64 + bits;
    if m.count + 1 != 4 then m.(accum := accum, count := m.count + 1)
    else if |m.out| + m.bytes > outlen then m.(accum := accum, count := 4, ok := false)
    else m.(accum := 0, count := 0, out := m.out + Written(accum, m.bytes))
  }

  function Run(m: Machine, t: string, outlen: nat): Machine
    decreases |t|
  {
    hide Next;
    if t == [] then m else Run(Next(m, t[0], outlen), t[1..], outlen)
  }

  function Clean(out: seq<byte>): Machine {
    Machine(0, 0, 3, out, true)
  }

  lemma {:induction false} FailureStays(m: Machine, t: string, outlen: nat)
    requires !m.ok
    ensures Run(m, t, outlen) == m
    decreases |t|
  {
    if t != [] { FailureStays(m, t[1..], outlen); }
  }

  lemma Quotient(n: int, m: int, q: int, r: int)
    requires m > 0 && n == m * q + r && 0 <= r < m
    ensures n / m == q && n % m == r
  {
    ModUnique(n, m, q, r);
  }

  lemma Values24(a: nat, b: nat, c: nat, d: nat)
    requires a < 64 && b < 64 && c < 64 && d < 64
    ensures Written(((a * 64 + b) * 64 + c) * 64 + d, 3) == Three(a, b, c, d)
    ensures Written(((a * 64 + b) * 64 + c) * 64 + d, 2) == Three(a, b, c, d)[..2]
    ensures Written(((a * 64 + b) * 64 + c) * 64 + d, 1) == Three(a, b, c, d)[..1]
    ensures Written(((a * 64 + b) * 64 + c) * 64 + d, 0) == Three(a, b, c, d)[..1]
  {
    HighByte(a, b, c, d);
    MiddleByte(a, b, c, d);
    LowByte(a, b, c, d);
  }

  lemma HighByte(a: nat, b: nat, c: nat, d: nat)
    requires a < 64 && b < 64 && c < 64 && d < 64
    ensures (((a * 64 + b) * 64 + c) * 64 + d) / 0x1_0000 % 0x100 == a * 4 + b / 16
  {
    Quotient(((a * 64 + b) * 64 + c) * 64 + d, 0x1_0000, a * 4 + b / 16, b % 16 * 0x1000 + c * 64 + d);
    Quotient(a * 4 + b / 16, 0x100, 0, a * 4 + b / 16);
  }

  lemma MiddleByte(a: nat, b: nat, c: nat, d: nat)
    requires a < 64 && b < 64 && c < 64 && d < 64
    ensures (((a * 64 + b) * 64 + c) * 64 + d) / 0x100 % 0x100 == b % 16 * 16 + c / 4
  {
    var n := (a * 64 + b) * 16 + c / 4;
    Quotient(((a * 64 + b) * 64 + c) * 64 + d, 0x100, n, c % 4 * 64 + d);
    Quotient(n, 0x100, a * 4 + b / 16, b % 16 * 16 + c / 4);
  }

  lemma LowByte(a: nat, b: nat, c: nat, d: nat)
    requires a < 64 && b < 64 && c < 64 && d < 64
    ensures (((a * 64 + b) * 64 + c) * 64 + d) % 0x100 == c % 4 * 64 + d
  {
    Quotient(((a * 64 + b) * 64 + c) * 64 + d, 0x100, (a * 64 + b) * 16 + c / 4, c % 4 * 64 + d);
  }

  /** How many bytes a group is counted for. */
  function Counted(t: string): nat
    requires |t| == 4
  {
    if t[3] != '=' then 3 else if t[2] != '=' then 2 else if t[1] != '=' then 1 else 0
  }

  function Four(m: Machine, t: string, outlen: nat): Machine
    requires |t| == 4
  {
    Next(Next(Next(Next(m, t[0], outlen), t[1], outlen), t[2], outlen), t[3], outlen)
  }

  /** What a clean machine makes of one group. */
  predicate GroupRuns(out: seq<byte>, t: string, outlen: nat)
    requires |t| == 4
  {
    var r := Four(Clean(out), t, outlen);
    var g := DecodedGroup(t);
    if g.Some? && |out| + Counted(t) <= outlen then r == Machine(0, 0, Counted(t), out + g.value, true)
    else !r.ok
  }

  lemma GroupRun(out: seq<byte>, t: string, outlen: nat)
    requires |t| == 4
    ensures GroupRuns(out, t, outlen)
  {
    if t[3] == '=' { PaddedRun(out, t, outlen); } else { PlainRun(out, t, outlen); }
    hide GroupRuns;
  }

  lemma PaddedRun(out: seq<byte>, t: string, outlen: nat)
    requires |t| == 4 && t[3] == '='
    ensures GroupRuns(out, t, outlen)
  {
    PadHasNone();
    hide Sextet, Three, Written;
    var a, b, c := Sextet(t[0]), Sextet(t[1]), Sextet(t[2]);
    Values24(if a.Some? then a.value else 0, if b.Some? then b.value else 0, if c.Some? then c.value else 0, 0);
  }

  lemma PlainRun(out: seq<byte>, t: string, outlen: nat)
    requires |t| == 4 && t[3] != '='
    ensures GroupRuns(out, t, outlen)
  {
    if Sextet(t[0]).Some? && Sextet(t[1]).Some? && Sextet(t[2]).Some? && Sextet(t[3]).Some? {
      SextetsRun(out, t, outlen);
    } else {
      hide Sextet, Three, Written;
    }
  }

  lemma SextetsRun(out: seq<byte>, t: string, outlen: nat)
    requires |t| == 4
    requires Sextet(t[0]).Some? && Sextet(t[1]).Some? && Sextet(t[2]).Some? && Sextet(t[3]).Some?
    ensures GroupRuns(out, t, outlen)
  {
    PadHasNone();
    hide Sextet, Three, Written, Next;
    var a, b, c, d := Sextet(t[0]).value, Sextet(t[1]).value, Sextet(t[2]).value, Sextet(t[3]).value;
    Values24(a, b, c, d);
    assert t[1] != '=' && t[2] != '=' && t[3] != '=';
    var m1 := Machine(a, 1, 3, out, true);
    var m2 := Machine(a * 64 + b, 2, 3, out, true);
    var m3 := Machine((a * 64 + b) * 64 + c, 3, 3, out, true);
    SextetNext(Clean(out), t[0], outlen);
    SextetNext(m1, t[1], outlen);
    SextetNext(m2, t[2], outlen);
    SextetNext(m3, t[3], outlen);
    assert DecodedGroup(t) == Some(Three(a, b, c, d)) && Counted(t) == 3;
    assert Four(Clean(out), t, outlen) == Push(m3, d, outlen);
  }

  lemma SextetNext(m: Machine, c: char, outlen: nat)
    requires m.ok && m.bytes == 3 && Sextet(c).Some?
    ensures Next(m, c, outlen) == Push(m, Sextet(c).value, outlen)
  {
    hide Sextet, Push;
    PadHasNone();
  }

  lemma FourFirst(m: Machine, t: string, outlen: nat)
    requires |t| >= 4
    ensures Run(m, t, outlen) == Run(Four(m, t[..4], outlen), t[4..], outlen)
  {
    hide Next;
    assert t[1..][1..] == t[2..] && t[2..][1..] == t[3..] && t[3..][1..] == t[4..];
    var m1 := Next(m, t[0], outlen);
    var m2 := Next(m1, t[1], outlen);
    var m3 := Next(m2, t[2], outlen);
    assert Run(m1, t[1..], outlen) == Run(m2, t[2..], outlen);
    assert Run(m2, t[2..], outlen) == Run(m3, t[3..], outlen);
  }

  /** Nothing may follow a padded group. */
  lemma PaddingEnds(m: Machine, t: string, outlen: nat)
    requires m.ok && m.count == 0 && 0 <= m.bytes < 3 && t != []
    ensures var r := Run(m, t, outlen); !(r.ok && r.count == 0)
  {
    var m1 := Next(m, t[0], outlen);
    assert !m1.ok || (m1.count == 1 && m1.bytes < 2);
    if |t| > 1 {
      var m2 := Next(m1, t[1], outlen);
      assert !m2.ok || (m2.count == 2 && m2.bytes < 1);
      assert t[1..][1..] == t[2..];
      assert Run(m1, t[1..], outlen) == Run(m2, t[2..], outlen);
      if |t| > 2 {
        var m3 := Next(m2, t[2], outlen);
        assert !m3.ok;
        FailureStays(m3, t[2..][1..], outlen);
      }
    }
  }

  /** An incomplete group is not accepted. */
  lemma ShortFails(out: seq<byte>, t: string, outlen: nat)
    requires 0 < |t| < 4
    ensures var r := Run(Clean(out), t, outlen); !(r.ok && r.count == 0)
  {
    var m1 := Next(Clean(out), t[0], outlen);
    assert !m1.ok || m1.count == 1;
    if |t| > 1 {
      var m2 := Next(m1, t[1], outlen);
      assert !m2.ok || m2.count == 2;
      assert t[1..][1..] == t[2..];
      assert Run(m1, t[1..], outlen) == Run(m2, t[2..], outlen);
      if |t| > 2 {
        var m3 := Next(m2, t[2], outlen);
        assert !m3.ok || m3.count == 3;
        assert t[2..][1..] == [];
        assert Run(m2, t[2..], outlen) == m3;
      }
    }
  }

  /** The verdict and the output of the character loop, for every string and every room. */
  lemma {:induction false} RunDecodes(out: seq<byte>, t: string, outlen: nat)
    requires |out| <= outlen
    ensures var r := Run(Clean(out), t, outlen);
            && (r.ok && r.count == 0 <==> Decoded(t).Some? && |out| + Room(t) <= outlen)
            && (r.ok && r.count == 0 ==> r.out == out + Decoded(t).value)
    decreases |t|
  {
    hide DecodedGroup, Counted, Four, Next;
    if t == [] {
      assert out + [] == out;
    } else if |t| < 4 {
      ShortFails(out, t, outlen);
    } else {
      var g := DecodedGroup(t[..4]);
      GroupRun(out, t[..4], outlen);
      FourFirst(Clean(out), t, outlen);
      if g.Some? { GroupLength(t[..4]); }
      var r := Four(Clean(out), t[..4], outlen);
      if !r.ok {
        FailureStays(r, t[4..], outlen);
      } else if |g.value| == 3 {
        RunDecodes(out + g.value, t[4..], outlen);
        RoomAfter(t);
        if Decoded(t).Some? { AppendAssoc(out, g.value, Decoded(t[4..]).value); }
      } else if |t| > 4 {
        PaddingEnds(r, t[4..], outlen);
      } else {
      }
    }
  }

  lemma RoomAfter(t: string)
    requires |t| >= 4 && DecodedGroup(t[..4]).Some? && |DecodedGroup(t[..4]).value| == 3
    ensures Decoded(t).Some? == Decoded(t[4..]).Some?
    ensures Decoded(t).Some? ==> Room(t) == 3 + Room(t[4..])
  {
    GroupLength(t[..4]);
    hide DecodedGroup, Counted;
  }

  lemma GroupLength(t: string)
    requires |t| == 4 && DecodedGroup(t).Some?
    ensures |DecodedGroup(t).value| == if Counted(t) == 0 then 1 else Counted(t)
    ensures Counted(t) == 0 <==> t[1] == '='
  {
  }

  // The loops

  /** `accum = (accum << 6) | bits` */
  method Shifted(accum: u32, bits: nat) returns (r: u32)
    requires bits < 64 && accum < 0x4_0000
    ensures r == accum * 64 + bits < 0x100_0000
  {
    Pow2Values();
    OrDisjoint(bits, accum, 6);
    r := Or(bits, accum * 64);
  }

  /** The accumulator holds as many sextets as characters were counted. */
  predicate Fits(accum: nat, count: nat) {
    || (count == 0 && accum == 0) || (count == 1 && accum < 0x40)
    || (count == 2 && accum < 0x1000) || (count == 3 && accum < 0x4_0000)
  }

  lemma FitsNothing()
    ensures Fits(0, 0)
  {
  }

  lemma FitsOneMore(accum: nat, count: nat, bits: nat)
    requires Fits(accum, count) && bits < 64
    ensures accum < 0x4_0000 && count < 4 && (count < 3 ==> Fits(accum * 64 + bits, count + 1))
  {
  }

  lemma {:induction false} RunAppend(m: Machine, a: string, b: string, outlen: nat)
    ensures Run(m, a + b, outlen) == Run(Run(m, a, outlen), b, outlen)
    decreases |a|
  {
    hide Next;
    if a == [] {
      assert a + b == b;
    } else {
      assert (a + b)[1..] == a[1..] + b;
      RunAppend(Next(m, a[0], outlen), a[1..], b, outlen);
    }
  }

  /** The machine after one more character; once it has failed, that is the end. */
  lemma RunStep(t: string, x: nat, outlen: nat)
    requires x < |t|
    ensures Run(Clean([]), t[..x + 1], outlen) == Next(Run(Clean([]), t[..x], outlen), t[x], outlen)
    ensures var m := Run(Clean([]), t[..x + 1], outlen); !m.ok ==> Run(Clean([]), t, outlen) == m
  {
    hide Next;
    var m := Run(Clean([]), t[..x], outlen);
    assert t[..x + 1] == t[..x] + [t[x]] && t == t[..x + 1] + t[x + 1..];
    RunAppend(Clean([]), t[..x], [t[x]], outlen);
    assert Run(m, [t[x]], outlen) == Next(m, t[x], outlen) by { assert [t[x]][1..] == []; }
    RunAppend(Clean([]), t[..x + 1], t[x + 1..], outlen);
    if !Next(m, t[x], outlen).ok { FailureStays(Next(m, t[x], outlen), t[x + 1..], outlen); }
  }

  lemma {:induction false} OutGrows(m: Machine, t: string, outlen: nat)
    ensures |Run(m, t, outlen).out| >= |m.out|
    decreases |t|
  {
    if t != [] { OutGrows(Next(m, t[0], outlen), t[1..], outlen); }
  }

  /** A completed group that took the output beyond the room is triple-padded and found the
      room used up. */
  lemma OverrunHere(t: string, outlen: nat)
    requires var r := Run(Clean([]), t, outlen); r.ok && r.count == 0 && |r.out| > outlen
    ensures TriplePadded(t) && Room(t) == outlen && PrefixOverruns(t, outlen)
  {
    hide DecodedGroup, Run;
    RunDecodes([], t, outlen);
    AcceptedFits(t, outlen);
    assert t[..|t|] == t;
  }

  lemma OverrunPrefix(t: string, n: nat, outlen: nat)
    requires n <= |t| && PrefixOverruns(t[..n], outlen)
    ensures PrefixOverruns(t, outlen)
  {
    hide Room, TriplePadded;
    var k :| 0 <= k <= n && TriplePadded(t[..n][..k]) && Room(t[..n][..k]) == outlen;
    assert t[..n][..k] == t[..k];
  }

  lemma WrittenLength(accum: nat, bytes: int)
    ensures |Written(accum, bytes)| >= 1
  {
  }

  lemma RoomUsedUp(t: string, x: nat, outlen: nat)
    requires x < |t|
    requires var r := Run(Clean([]), t[..x + 1], outlen); r.ok && r.count == 0 && |r.out| > outlen
    ensures Overruns(t, outlen)
  {
    hide Run, PrefixOverruns, Overruns;
    OverrunHere(t[..x + 1], outlen);
    OverrunPrefix(t, x + 1, outlen);
    OverrunsPrefix(t, outlen);
  }

  lemma {:induction false} OverrunFound(t: string, outlen: nat)
    requires |Run(Clean([]), t, outlen).out| > outlen
    ensures PrefixOverruns(t, outlen)
    decreases |t|
  {
    hide PrefixOverruns, Written, Sextet;
    var n := |t| - 1;
    RunStep(t, n, outlen);
    assert t[..n + 1] == t;
    if |Run(Clean([]), t[..n], outlen).out| > outlen {
      OverrunFound(t[..n], outlen);
      OverrunPrefix(t, n, outlen);
    } else {
      OverrunHere(t, outlen);
    }
  }

  /** The exact condition for the loop to write beyond the room that it was given. */
  lemma OverrunExactly(t: string, outlen: nat)
    ensures |Run(Clean([]), t, outlen).out| > outlen <==> Overruns(t, outlen)
  {
    hide Run, Room, TriplePadded, Overruns;
    OverrunsPrefix(t, outlen);
    if |Run(Clean([]), t, outlen).out| > outlen {
      OverrunFound(t, outlen);
    } else if PrefixOverruns(t, outlen) {
      var k :| 0 <= k <= |t| && TriplePadded(t[..k]) && Room(t[..k]) == outlen;
      OverrunStays(t, k, outlen);
    }
  }

  lemma OverrunStays(t: string, k: nat, outlen: nat)
    requires k <= |t| && TriplePadded(t[..k]) && Room(t[..k]) == outlen
    ensures |Run(Clean([]), t, outlen).out| > outlen
  {
    hide DecodedGroup, Run;
    RunDecodes([], t[..k], outlen);
    AcceptedFits(t[..k], outlen);
    assert t == t[..k] + t[k..];
    RunAppend(Clean([]), t[..k], t[k..], outlen);
    OutGrows(Run(Clean([]), t[..k], outlen), t[k..], outlen);
  }

  lemma Verdict(t: string, outlen: nat)
    ensures var m := Run(Clean([]), t, outlen);
            && (m.ok && m.count == 0 <==> Decoded(t).Some? && Room(t) <= outlen)
            && (m.ok && m.count == 0 ==> Decoded(t) == Some(m.out))
            && (|m.out| > outlen <==> Overruns(t, outlen))
  {
    hide Decoded, Room, Run, Overruns;
    RunDecodes([], t, outlen);
    OverrunExactly(t, outlen);
    if Decoded(t).Some? { assert [] + Decoded(t).value == Decoded(t).value; }
  }

  /** wireguard_base64_decode into a buffer for which the caller gives outlen as its room. The
      buffer must have one byte more if the string overruns. */
  method Decode(str: string, out: array<byte>, outlen: nat) returns (ok: bool, len: nat)
    requires outlen <= out.Length && (Overruns(str, outlen) ==> outlen < out.Length)
    modifies out
    ensures ok <==> Decoded(str).Some? && Room(str) <= outlen
    ensures len <= out.Length && out[len..] == old(out[len..])
    ensures ok ==> Decoded(str) == Some(out[..len])
    ensures len > outlen <==> Overruns(str, outlen)
  {
    hide Decoded, Room, Run, Written, Sextet, Overruns, Fits;
    FitsNothing();
    var accum: u32, charCount, byteCount := 0, 0, 3;
    ok, len := true, 0;
    var x := 0;
    RunNothing(Clean([]), outlen);
    while x < |str|
      invariant 0 <= x <= |str| && ok && len <= out.Length && out[len..] == old(out[len..])
      invariant Fits(accum, charCount)
      invariant Run(Clean([]), str[..x], outlen) == Machine(accum, charCount, byteCount, out[..len], true)
    {
      var c := str[x];
      RunStep(str, x, outlen);
      var bits := 0;
      if c == '=' {
        byteCount := byteCount - 1;
        if byteCount < 0 {
          ok := false;
          break;
        }
      } else {
        if byteCount != 3 {
          ok := false;
          break;
        }
        var position := Sextet(c);
        if position.None? {
          ok := false;
          break;
        }
        bits := position.value;
      }
      FitsOneMore(accum, charCount, bits);
      accum := Shifted(accum, bits);
      charCount := charCount + 1;
      if charCount == 4 {
        if len + byteCount > outlen {
          ok := false;
          break;
        }
        if len == outlen {
          WrittenLength(accum, byteCount);
          RoomUsedUp(str, x, outlen);
        }
        ghost var was, start := out[..], len;
        len := WriteGroup(out, len, accum, byteCount);
        assert was[len..] == was[start..][len - start..];
        charCount, accum := 0, 0;
      }
      x := x + 1;
    }
    if ok { assert str[..x] == str; }
    Verdict(str, outlen);
    if charCount != 0 {
      ok := false;
    }
  }

  lemma RunNothing(m: Machine, outlen: nat)
    ensures Run(m, [], outlen) == m
  {
  }

  /** The writes for one group: always one byte, then as many as the padding leaves. */
  method WriteGroup(out: array<byte>, at: nat, accum: u32, byteCount: int) returns (len: nat)
    requires accum < 0x100_0000 && byteCount <= 3
    requires at < out.Length && at + byteCount <= out.Length
    modifies out
    ensures len == at + |Written(accum, byteCount)| <= out.Length
    ensures out[..len] == old(out[..at]) + Written(accum, byteCount) && out[len..] == old(out[len..])
  {
    out[at] := accum / 0x1_0000 % 0x100;
    len := at + 1;
    if byteCount > 1 {
      out[len] := accum / 0x100 % 0x100;
      len := len + 1;
    }
    if byteCount > 2 {
      out[len] := accum % 0x100;
      len := len + 1;
    }
  }

  /** Three input bytes, zero past the end, as a 24-bit number. */
  method Packed(byte1: byte, byte2: byte, byte3: byte) returns (tmp: u32)
    ensures tmp == byte1 as int * 0x1_0000 + byte2 as int * 0x100 + byte3 as int
  {
    Pow2Values();
    OrDisjoint(byte3, byte2, 8);
    OrDisjoint(byte2 as int * 0x100 + byte3 as int, byte1, 16);
    tmp := Or(Or(byte3, byte2 as int * 0x100), byte1 as int * 0x1_0000);
  }

  lemma HighSextets(x: byte, y: byte, z: byte)
    ensures var tmp := x as int * 0x1_0000 + y as int * 0x100 + z as int;
            tmp / 0x4_0000 % 64 == x / 4 && tmp / 0x1000 % 64 == x % 4 * 16 + y / 16
  {
    var tmp := x as int * 0x1_0000 + y as int * 0x100 + z as int;
    Quotient(tmp, 0x4_0000, x / 4, x % 4 * 0x1_0000 + y as int * 0x100 + z as int);
    Quotient(tmp, 0x1000, x as int * 16 + y / 16, y % 16 * 0x100 + z as int);
    Quotient(x as int * 16 + y / 16, 64, x / 4, x % 4 * 16 + y / 16);
  }

  lemma LastSextet(x: byte, y: byte, z: byte)
    ensures (x as int * 0x1_0000 + y as int * 0x100 + z as int) % 64 == z % 64
  {
    Quotient(x as int * 0x1_0000 + y as int * 0x100 + z as int, 64, x as int * 0x400 + y as int * 4 + z / 64, z % 64);
  }

  lemma ThirdSextet(x: byte, y: byte, z: byte)
    ensures (x as int * 0x1_0000 + y as int * 0x100 + z as int) / 0x40 % 64 == y % 16 * 4 + z / 64
  {
    var n := x as int * 0x400 + y as int * 4 + z / 64;
    Quotient(x as int * 0x1_0000 + y as int * 0x100 + z as int, 64, n, z % 64);
    Quotient(n, 64, x as int * 16 + y / 16, y % 16 * 4 + z / 64);
  }

  /** The padding test of the encoding loop distinguishes the last group. */
  lemma GroupChars(s: seq<byte>, x: byte, y: byte, z: byte)
    requires 1 <= |s| <= 3 && x == s[0]
    requires y == (if |s| > 1 then s[1] else 0) && z == (if |s| > 2 then s[2] else 0)
    ensures EncodedGroup(s) == [Char(x / 4), Char(x % 4 * 16 + y / 16),
                                if |s| > 1 then Char(y % 16 * 4 + z / 64) else '=',
                                if |s| > 2 then Char(z % 64) else '=']
  {
    hide Char;
  }

  /** Where the loop stands after r bytes: n input bytes give len characters, padding of them
      at the end. */
  predicate Standing(n: nat, r: nat, at: nat, len: nat, padding: nat) {
    && r <= n && 3 * len == 4 * (n + padding) && padding < 3
    && if r < n then r % 3 == 0 && 3 * at == 4 * r && at + 4 <= len else at == len
  }

  lemma Starting(n: nat)
    ensures Standing(n, 0, 0, 4 * ((n + 2) / 3), if n % 3 == 0 then 0 else 3 - n % 3)
  {
    var q := n / 3;
    if n % 3 == 0 {
      Quotient(n + 2, 3, q, 2);
    } else {
      Quotient(n + 2, 3, q + 1, n % 3 - 1);
    }
  }

  lemma Advancing(n: nat, r: nat, at: nat, len: nat, padding: nat)
    requires Standing(n, r, at, len, padding) && r < n
    ensures Standing(n, if r + 3 <= n then r + 3 else n, at + 4, len, padding)
  {
  }

  lemma PaddingTest(n: nat, r: nat, at: nat, len: nat, padding: nat)
    requires Standing(n, r, at, len, padding) && r < n
    ensures (at + 2 < len - padding <==> r + 1 < n) && (at + 3 < len - padding <==> r + 2 < n)
  {
  }

  /** The four stores of one pass of the encoding loop. */
  method StoreGroup(out: array<char>, at: nat, limit: int, byte1: byte, byte2: byte, byte3: byte)
    requires at + 4 <= out.Length
    modifies out
    ensures out[..at] == old(out[..at]) && out[at + 4..] == old(out[at + 4..])
    ensures out[at..at + 4] == [Char(byte1 / 4), Char(byte1 % 4 * 16 + byte2 / 16),
                                if at + 2 < limit then Char(byte2 % 16 * 4 + byte3 / 64) else '=',
                                if at + 3 < limit then Char(byte3 % 64) else '=']
  {
    hide Char;
    var tmp := Packed(byte1, byte2, byte3);
    HighSextets(byte1, byte2, byte3);
    ThirdSextet(byte1, byte2, byte3);
    LastSextet(byte1, byte2, byte3);
    out[at] := Char(tmp / 0x4_0000 % 64);
    out[at + 1] := Char(tmp / 0x1000 % 64);
    out[at + 2] := if at + 2 < limit then Char(tmp / 0x40 % 64) else '=';
    out[at + 3] := if at + 3 < limit then Char(tmp % 64) else '=';
  }

  /** The groups that are still to be written. */
  lemma EncodedFrom(s: seq<byte>, r: nat)
    requires r < |s|
    ensures var n := if r + 3 <= |s| then r + 3 else |s|;
            Encoded(s[r..]) == EncodedGroup(s[r..n]) + Encoded(s[n..])
  {
    hide EncodedGroup;
    var t := s[r..];
    if |t| > 3 {
      assert t[..3] == s[r..r + 3] && t[3..] == s[r + 3..];
    } else {
      assert s[|s|..] == [] && t == s[r..|s|];
      assert EncodedGroup(t) + [] == EncodedGroup(t);
    }
  }

  /** One pass of the encoding loop. */
  method EncodePass(input: seq<byte>, start: nat, out: array<char>, writeOffset: nat, len: nat, padding: nat)
    returns (readOffset: nat)
    requires start < |input| && Standing(|input|, start, writeOffset, len, padding) && len <= out.Length
    modifies out
    ensures readOffset == if start + 3 <= |input| then start + 3 else |input|
    ensures out[..writeOffset + 4] == old(out[..writeOffset]) + EncodedGroup(input[start..readOffset])
    ensures out[writeOffset + 4..] == old(out[writeOffset + 4..])
  {
    hide Char;
    readOffset := start;
    PaddingTest(|input|, start, writeOffset, len, padding);
    hide EncodedGroup;
    var byte1, byte2, byte3 := input[readOffset], 0, 0;
    readOffset := readOffset + 1;
    if readOffset < |input| {
      byte2 := input[readOffset];
      readOffset := readOffset + 1;
    }
    if readOffset < |input| {
      byte3 := input[readOffset];
      readOffset := readOffset + 1;
    }
    GroupChars(input[start..readOffset], byte1, byte2, byte3);
    StoreGroup(out, writeOffset, len - padding, byte1, byte2, byte3);
    assert out[..writeOffset + 4] == out[..writeOffset] + out[writeOffset..writeOffset + 4];
  }

  lemma EncodedNothing(s: seq<byte>, r: nat)
    requires r == |s|
    ensures Encoded(s[r..]) == []
  {
  }

  lemma ConcatAssoc(a: string, b: string, c: string)
    ensures (a + b) + c == a + (b + c)
  {
  }

  /** wireguard_base64_encode: the text and a terminating zero, if the buffer holds both. */
  method Encode(input: seq<byte>, out: array<char>, outlen: nat) returns (ok: bool, n: nat)
    requires outlen <= out.Length
    modifies out
    ensures ok == (outlen > |Encoded(input)|)
    ensures ok ==> n == |Encoded(input)| && out[..n] == Encoded(input) && out[n] == '\0'
    ensures ok ==> out[n + 1..] == old(out[n + 1..])
    ensures !ok ==> n == outlen && out[..] == old(out[..])
  {
    hide Encoded, EncodedGroup, Char;
    var len := 4 * ((|input| + 2) / 3);
    var padding := 3 - |input| % 3;
    if padding > 2 {
      padding := 0;
    }
    ok, n := false, outlen;
    Starting(|input|);
    if outlen > len {
      var readOffset, writeOffset := 0, 0;
      ghost var tail := out[len..];
      while readOffset < |input|
        invariant readOffset <= |input| && writeOffset <= len
        invariant Standing(|input|, readOffset, writeOffset, len, padding)
        invariant out[..writeOffset] + Encoded(input[readOffset..]) == Encoded(input)
        invariant out[len..] == tail
      {
        ghost var written := out[..writeOffset];
        ghost var start := readOffset;
        EncodedFrom(input, readOffset);
        Advancing(|input|, readOffset, writeOffset, len, padding);
        readOffset := EncodePass(input, readOffset, out, writeOffset, len, padding);
        ConcatAssoc(written, EncodedGroup(input[start..readOffset]), Encoded(input[readOffset..]));
        assert out[len..] == tail;
        writeOffset := writeOffset + 4;
      }
      EncodedNothing(input, readOffset);
      out[len] := '\0';
      ok, n := true, len;
    }
  }

  // The alphabet and the bits, as section 4 of RFC 4648 has them

  const UPPER: string := "ABCDEFGHIJKLMNOPQRSTUVWXYZ"
  const LOWER: string := "abcdefghijklmnopqrstuvwxyz"
  const DIGITS: string := "0123456789"

  /** The character at a position of the alphabet. */
  function Letter(v: nat): char
    requires v < 64
  {
    assert |UPPER| == |LOWER| == 26 && |DIGITS| == 10;
    if v < 26 then UPPER[v] else if v < 52 then LOWER[v - 26] else if v < 62 then DIGITS[v - 52]
    else if v == 62 then '+' else '/'
  }

  lemma UpperIs(v: nat)
    requires 0 <= v < 26
    ensures Char(v) == Letter(v)
  {
    assert v == 0 || v == 1 || v == 2 || v == 3 || v == 4 || v == 5 || v == 6 || v == 7 || v == 8
           || v == 9 || v == 10 || v == 11 || v == 12 || v == 13 || v == 14 || v == 15 || v == 16 || v == 17
           || v == 18 || v == 19 || v == 20 || v == 21 || v == 22 || v == 23 || v == 24 || v == 25;
  }

  lemma LowerIs(v: nat)
    requires 26 <= v < 52
    ensures Char(v) == Letter(v)
  {
    assert v == 26 || v == 27 || v == 28 || v == 29 || v == 30 || v == 31 || v == 32 || v == 33 || v == 34
           || v == 35 || v == 36 || v == 37 || v == 38 || v == 39 || v == 40 || v == 41 || v == 42 || v == 43
           || v == 44 || v == 45 || v == 46 || v == 47 || v == 48 || v == 49 || v == 50 || v == 51;
  }

  lemma DigitIs(v: nat)
    requires 52 <= v < 62
    ensures Char(v) == Letter(v)
  {
    assert v == 52 || v == 53 || v == 54 || v == 55 || v == 56 || v == 57 || v == 58 || v == 59 || v == 60
           || v == 61;
  }

  lemma CharIs(v: nat)
    requires v < 64
    ensures Char(v) == Letter(v)
  {
    if v < 26 {
      UpperIs(v);
    } else if v < 52 {
      LowerIs(v);
    } else if v < 62 {
      DigitIs(v);
    }
  }

  /** A character is accepted exactly if it is of the alphabet, and stands for its position. */
  lemma SextetIs(c: char)
    ensures Sextet(c).Some? <==> exists v :: 0 <= v < 64 && Letter(v) == c
    ensures Sextet(c).Some? ==> Letter(Sextet(c).value) == c
  {
    hide Letter;
    if Sextet(c).Some? {
      CharSextet(c);
      CharIs(Sextet(c).value);
    } else if v :| 0 <= v < 64 && Letter(v) == c {
      CharIs(v);
      SextetChar(v);
    }
  }

  /** Four characters are 24 bits, most significant first, and so are three bytes. */
  predicate SameBits(s: seq<byte>, a: nat, b: nat, c: nat, d: nat) {
    && |s| == 3
    && s[0] as int * 0x1_0000 + s[1] as int * 0x100 + s[2] as int == a * 0x4_0000 + b * 0x1000 + c * 0x40 + d
  }

  predicate GroupIs(s: seq<byte>, a: nat, b: nat, c: nat, d: nat)
    requires |s| == 3 && a < 64 && b < 64 && c < 64 && d < 64
  {
    hide EncodedGroup, Letter;
    && EncodedGroup(s) == [Letter(a), Letter(b), Letter(c), Letter(d)]
    && EncodedGroup(s[..2]) == [Letter(a), Letter(b), Letter(c - c % 4), '=']
    && EncodedGroup(s[..1]) == [Letter(a), Letter(b - b % 16), '=', '=']
  }

  lemma GroupBits(s: seq<byte>, a: nat, b: nat, c: nat, d: nat)
    requires |s| == 3 && a < 64 && b < 64 && c < 64 && d < 64
    requires SameBits(s, a, b, c, d)
    ensures GroupIs(s, a, b, c, d)
  {
    hide Char, Letter;
    Digits(s[0], s[1], s[2], a, b, c, d);
    CharIs(a);
    CharIs(b);
    CharIs(c);
    CharIs(d);
    CharIs(c - c % 4);
    CharIs(b - b % 16);
    hide SameBits;
  }

  lemma Digits(x: byte, y: byte, z: byte, a: nat, b: nat, c: nat, d: nat)
    requires a < 64 && b < 64 && c < 64 && d < 64
    requires x as int * 0x1_0000 + y as int * 0x100 + z as int == a * 0x4_0000 + b * 0x1000 + c * 0x40 + d
    ensures x / 4 == a && x % 4 * 16 + y / 16 == b && y % 16 * 4 + z / 64 == c && z % 64 == d
    ensures y % 16 * 4 == c - c % 4 && x % 4 * 16 == b - b % 16
  {
    Quotient(x as int * 0x1_0000 + y as int * 0x100 + z as int, 0x40, x * 0x400 + y * 4 + z / 64, z % 64);
    Quotient(a * 0x4_0000 + b * 0x1000 + c * 0x40 + d, 0x40, a * 0x1000 + b * 0x40 + c, d);
  }

  /** Groups are encoded one after the other. */
  lemma {:induction false} EncodedConcat(s: seq<byte>, t: seq<byte>)
    requires |s| % 3 == 0
    ensures Encoded(s + t) == Encoded(s) + Encoded(t)
    decreases |s|
  {
    hide EncodedGroup;
    if s == [] {
      assert s + t == t;
    } else if |s| == 3 && t == [] {
      assert s + t == s;
    } else {
      assert (s + t)[..3] == s[..3] && (s + t)[3..] == s[3..] + t;
      EncodedConcat(s[3..], t);
      assert |s| == 3 ==> s[..3] == s && s[3..] == [];
    }
  }
}
