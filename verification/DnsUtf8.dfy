// UTF-8, as section 3 of RFC 3629 defines it: the text check accepts exactly the encodings of sequences of
// Unicode scalar values.
module DnsUtf8 {
  import opened DnsTypes
  import opened DnsRData

  // A code point that is not a surrogate.
  type Scalar = c: nat | c < 0xD800 || 0xE000 <= c < 0x11_0000

  function Encode(c: Scalar): (s: seq<byte>)
    ensures 1 <= |s| <= 4
  {
    if c < 0x80 then [c]
    else if c < 0x800 then [0xC0 + c / 0x40, 0x80 + c % 0x40]
    else if c < 0x1_0000 then [0xE0 + c / 0x1000, 0x80 + c / 0x40 % 0x40, 0x80 + c % 0x40]
    else [0xF0 + c / 0x4_0000, 0x80 + c / 0x1000 % 0x40, 0x80 + c / 0x40 % 0x40, 0x80 + c % 0x40]
  }

  function EncodeAll(cs: seq<Scalar>): seq<byte> {
    if cs == [] then [] else Encode(cs[0]) + EncodeAll(cs[1..])
  }

  // An encoded scalar value is a character, whatever follows it.
  lemma EncodedIsChar(c: Scalar, rest: seq<byte>)
    ensures CharLen(Encode(c) + rest) == |Encode(c)|
  {
    var e := Encode(c);
    var s := e + rest;
    assert forall i :: 0 <= i < |e| ==> s[i] == e[i];
    if 0x800 <= c < 0x1_0000 {
      ThreeBytes(c);
    } else if c >= 0x1_0000 {
      FourBytes(c);
    }
  }

  lemma ThreeBytes(c: nat)
    requires 0x800 <= c < 0x1_0000
    ensures c / 0x1000 < 16 && (c / 0x1000 == 0 ==> c / 0x40 % 0x40 >= 0x20)
    ensures c / 0x1000 == 13 ==> (c / 0x40 % 0x40 < 0x20 <==> c < 0xD800)
    ensures c == c / 0x1000 * 0x1000 + c / 0x40 % 0x40 * 0x40 + c % 0x40
  {
    assert c / 0x40 / 0x40 == c / 0x1000;
  }

  lemma FourBytes(c: nat)
    requires 0x1_0000 <= c < 0x11_0000
    ensures c / 0x4_0000 <= 4 && (c / 0x4_0000 == 0 ==> c / 0x1000 % 0x40 >= 0x10)
    ensures c / 0x4_0000 == 4 ==> c / 0x1000 % 0x40 < 0x10
  {
    assert c / 0x1000 / 0x40 == c / 0x4_0000;
  }

  // A character encodes a scalar value.
  lemma CharEncodes(s: seq<byte>) returns (c: Scalar)
    requires CharLen(s) > 0
    ensures Encode(c) == s[..CharLen(s)]
  {
    match CharLen(s) {
      case 1 => c := s[0];
      case 2 => c := Two(s[0], s[1]);
      case 3 => c := Three(s[0], s[1], s[2]);
      case 4 => c := Four(s[0], s[1], s[2], s[3]);
    }
  }

  lemma Two(a: byte, b: byte) returns (c: Scalar)
    requires 0xC2 <= a < 0xE0 && Continues(b)
    ensures Encode(c) == [a, b]
  {
    var v := (a as int - 0xC0) * 0x40 + (b as int - 0x80);
    assert v / 0x40 == a as int - 0xC0 && v % 0x40 == b as int - 0x80;
    c := v;
  }

  lemma Three(a: byte, b: byte, d: byte) returns (c: Scalar)
    requires 0xE0 <= a < 0xF0 && Continues(b) && Continues(d) && (a == 0xE0 ==> b >= 0xA0) && (a == 0xED ==> b < 0xA0)
    ensures Encode(c) == [a, b, d]
  {
    var v := ((a as int - 0xE0) * 0x40 + (b as int - 0x80)) * 0x40 + (d as int - 0x80);
    assert v / 0x40 == (a as int - 0xE0) * 0x40 + (b as int - 0x80) && v % 0x40 == d as int - 0x80;
    assert v / 0x40 / 0x40 == a as int - 0xE0 && v / 0x40 % 0x40 == b as int - 0x80;
    assert v / 0x1000 == v / 0x40 / 0x40;
    c := v;
  }

  lemma Four(a: byte, b: byte, d: byte, f: byte) returns (c: Scalar)
    requires 0xF0 <= a < 0xF5 && Continues(b) && Continues(d) && Continues(f)
    requires (a == 0xF0 ==> b >= 0x90) && (a == 0xF4 ==> b < 0x90)
    ensures Encode(c) == [a, b, d, f]
  {
    var hi := (a as int - 0xF0) * 0x40 + (b as int - 0x80);
    var mid := hi * 0x40 + (d as int - 0x80);
    var v := mid * 0x40 + (f as int - 0x80);
    assert v / 0x40 == mid && v % 0x40 == f as int - 0x80;
    assert mid / 0x40 == hi && mid % 0x40 == d as int - 0x80;
    assert hi / 0x40 == a as int - 0xF0 && hi % 0x40 == b as int - 0x80;
    assert v / 0x1000 == mid / 0x40 && v / 0x4_0000 == hi / 0x40;
    c := v;
  }

  lemma {:induction false} Utf8Decodes(s: seq<byte>) returns (cs: seq<Scalar>)
    requires IsUtf8(s)
    ensures EncodeAll(cs) == s
    decreases |s|
  {
    if s == [] {
      cs := [];
    } else {
      var n := CharLen(s);
      var c := CharEncodes(s);
      var rest := Utf8Decodes(s[n..]);
      cs := [c] + rest;
      assert cs[1..] == rest && s == s[..n] + s[n..];
    }
  }

  lemma {:induction false} EncodedIsUtf8(cs: seq<Scalar>)
    ensures IsUtf8(EncodeAll(cs))
  {
    if cs != [] {
      var e, rest := Encode(cs[0]), EncodeAll(cs[1..]);
      EncodedIsUtf8(cs[1..]);
      EncodedIsChar(cs[0], rest);
      assert (e + rest)[|e|..] == rest;
    }
  }

  // Main result on text: it is valid exactly when it encodes a sequence of scalar values.
  lemma Utf8Iff(s: seq<byte>)
    ensures IsUtf8(s) <==> exists cs :: EncodeAll(cs) == s
  {
    if IsUtf8(s) {
      var cs := Utf8Decodes(s);
    }
    forall cs | EncodeAll(cs) == s ensures IsUtf8(s) {
      EncodedIsUtf8(cs);
    }
  }
}
