/** Well-formed UTF-8, as a check on bytes and as the encodings of scalar values (RFC 3629). */
module Unicode {
  import opened Bytes

  // The check of `String::from_utf8` (section 4 of RFC 3629).
  predicate Utf8(s: seq<byte>) {
    if s == [] then true
    else if s[0] < 0x80 then Utf8(s[1..])
    else if 0xC2 <= s[0] <= 0xDF then |s| >= 2 && Tail(s[1], 0x80, 0xBF) && Utf8(s[2..])
    else if 0xE0 <= s[0] <= 0xEF then
      && |s| >= 3
      && Tail(s[1], if s[0] == 0xE0 then 0xA0 else 0x80, if s[0] == 0xED then 0x9F else 0xBF)
      && Tail(s[2], 0x80, 0xBF) && Utf8(s[3..])
    else
      && 0xF0 <= s[0] <= 0xF4 && |s| >= 4
      && Tail(s[1], if s[0] == 0xF0 then 0x90 else 0x80, if s[0] == 0xF4 then 0x8F else 0xBF)
      && Tail(s[2], 0x80, 0xBF) && Tail(s[3], 0x80, 0xBF) && Utf8(s[4..])
  }

  predicate Tail(b: byte, lo: byte, hi: byte) { lo <= b <= hi }

  // ----- scalar values and their octets (section 3 of RFC 3629)

  /** A Unicode scalar value: no surrogate, and within the seventeen planes. */
  predicate Scalar(c: nat) {
    c < 0xD800 || 0xE000 <= c < 0x110000
  }

  function Octets(c: nat): (o: seq<byte>)
    requires Scalar(c)
    ensures 0 < |o| <= 4
  {
    if c < 0x80 then [c]
    else if c < 0x800 then [0xC0 + c / 0x40, 0x80 + c % 0x40]
    else if c < 0x1_0000 then [0xE0 + c / 0x1000, 0x80 + c / 0x40 % 0x40, 0x80 + c % 0x40]
    else [0xF0 + c / 0x4_0000, 0x80 + c / 0x1000 % 0x40, 0x80 + c / 0x40 % 0x40, 0x80 + c % 0x40]
  }

  predicate Scalars(cs: seq<nat>) {
    forall c | c in cs :: Scalar(c)
  }

  function Encoded(cs: seq<nat>): seq<byte>
    requires Scalars(cs)
  {
    if cs == [] then [] else Octets(cs[0]) + Encoded(cs[1..])
  }

  /** A whole scalar value in front makes no difference to the check. */
  lemma OctetsPass(c: nat, rest: seq<byte>)
    requires Scalar(c)
    ensures Utf8(Octets(c) + rest) <==> Utf8(rest)
  {
    var s, n := Octets(c) + rest, |Octets(c)|;
    assert s[n..] == rest && s[0] == Octets(c)[0];
    assert n > 1 ==> s[1] == Octets(c)[1];
    assert n > 2 ==> s[2] == Octets(c)[2];
    assert n > 3 ==> s[3] == Octets(c)[3];
  }

  lemma TwoOctets(x: nat, y: nat)
    requires 2 <= x < 0x20 && y < 0x40
    ensures Octets(0x40 * x + y) == [0xC0 + x, 0x80 + y]
  {
    var c := 0x40 * x + y;
    assert c / 0x40 == x && c % 0x40 == y;
  }

  lemma ThreeOctets(x: nat, y: nat, z: nat)
    requires x < 0x10 && y < 0x40 && z < 0x40
    requires (x == 0 ==> y >= 0x20) && (x == 0xD ==> y < 0x20)
    ensures var c := 0x1000 * x + 0x40 * y + z; Scalar(c) && Octets(c) == [0xE0 + x, 0x80 + y, 0x80 + z]
  {
    var c := 0x1000 * x + 0x40 * y + z;
    var up := 0x40 * x + y;
    assert c == 0x40 * up + z;
    assert c / 0x40 == up && c % 0x40 == z;
    assert up % 0x40 == y && c / 0x1000 == x;
  }

  lemma FourOctets(x: nat, y: nat, z: nat, w: nat)
    requires x < 5 && y < 0x40 && z < 0x40 && w < 0x40
    requires (x == 0 ==> y >= 0x10) && (x == 4 ==> y < 0x10)
    ensures var c := 0x4_0000 * x + 0x1000 * y + 0x40 * z + w;
      Scalar(c) && Octets(c) == [0xF0 + x, 0x80 + y, 0x80 + z, 0x80 + w]
  {
    var c := 0x4_0000 * x + 0x1000 * y + 0x40 * z + w;
    var up, top := 0x1000 * x + 0x40 * y + z, 0x40 * x + y;
    assert c == 0x40 * up + w && c == 0x1000 * top + (0x40 * z + w);
    assert c / 0x40 == up && c % 0x40 == w;
    assert up == 0x40 * top + z;
    assert up % 0x40 == z;
    assert c / 0x1000 == top;
    assert top % 0x40 == y && c / 0x4_0000 == x;
  }

  /** What passes begins with the octets of a scalar value. */
  lemma PassBegins(s: seq<byte>) returns (c: nat)
    requires Utf8(s) && s != []
    ensures Scalar(c) && Octets(c) <= s
  {
    hide Octets;
    var a: int := s[0];
    if a < 0x80 {
      c := a;
      OneOctet(c);
      assert s[..1] == [c];
    } else {
      var b: int := s[1] as int - 0x80;
      if a < 0xE0 {
        c := 0x40 * (a - 0xC0) + b;
        TwoOctets(a - 0xC0, b);
        assert s[..2] == [s[0], s[1]];
      } else {
        var d: int := s[2] as int - 0x80;
        if a < 0xF0 {
          c := 0x1000 * (a - 0xE0) + 0x40 * b + d;
          ThreeOctets(a - 0xE0, b, d);
          assert s[..3] == [s[0], s[1], s[2]];
        } else {
          var e: int := s[3] as int - 0x80;
          c := 0x4_0000 * (a - 0xF0) + 0x1000 * b + 0x40 * d + e;
          FourOctets(a - 0xF0, b, d, e);
          assert s[..4] == [s[0], s[1], s[2], s[3]];
        }
      }
    }
  }

  lemma OneOctet(c: nat)
    requires c < 0x80
    ensures Octets(c) == [c]
  {
  }

  lemma {:induction false} EncodedPasses(cs: seq<nat>)
    requires Scalars(cs)
    ensures Utf8(Encoded(cs))
    decreases |cs|
  {
    hide Octets, Scalar;
    if cs == [] {
    } else {
      assert cs[0] in cs && forall c | c in cs[1..] :: c in cs;
      EncodedPasses(cs[1..]);
      OctetsPass(cs[0], Encoded(cs[1..]));
    }
  }

  lemma {:induction false} PassIsEncoded(s: seq<byte>) returns (cs: seq<nat>)
    requires Utf8(s)
    ensures Scalars(cs) && Encoded(cs) == s
    decreases |s|
  {
    cs := [];
    if s == [] {
    } else {
      var c := PassBegins(s);
      hide Octets, Scalar, Utf8;
      var n := |Octets(c)|;
      assert s == Octets(c) + s[n..];
      OctetsPass(c, s[n..]);
      var more := PassIsEncoded(s[n..]);
      cs := [c] + more;
      assert cs[1..] == more;
    }
  }

  /** Text is the encoding of scalar values. */
  ghost predicate Text(s: seq<byte>) {
    exists cs :: Scalars(cs) && Encoded(cs) == s
  }

  /** The check passes exactly text. */
  lemma Utf8Exactly(s: seq<byte>)
    ensures Utf8(s) <==> Text(s)
  {
    hide Utf8, Encoded, Scalars;
    if Utf8(s) {
      var cs := PassIsEncoded(s);
    } else {
      forall cs | Scalars(cs) ensures Encoded(cs) != s {
        EncodedPasses(cs);
      }
    }
  }

  predicate IsText(s: seq<byte>): (r: bool)
    ensures r <==> Text(s)
  {
    Utf8Exactly(s);
    Utf8(s)
  }

  predicate Ascii(s: seq<byte>) {
    forall b | b in s :: b < 0x80
  }

  /** ASCII is text. */
  lemma AsciiIsText(s: seq<byte>)
    requires Ascii(s)
    ensures Text(s)
  {
    AsciiPasses(s);
    Utf8Exactly(s);
  }

  lemma {:induction false} AsciiPasses(s: seq<byte>)
    requires Ascii(s)
    ensures Utf8(s)
    decreases |s|
  {
    if s == [] {
    } else {
      assert s[0] in s && forall b | b in s[1..] :: b in s;
      AsciiPasses(s[1..]);
    }
  }
}
