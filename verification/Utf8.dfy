/** Well-formed UTF-8, as the Protocol Buffers runtime demands of string fields (table 3-7 of the Unicode Standard). */
module Utf8 {
  import opened Types

  predicate Tail(b: Byte) { 0x80 <= b <= 0xBF }

  predicate Second(lead: Byte, b: Byte) {
    if lead == 0xE0 then 0xA0 <= b <= 0xBF
    else if lead == 0xED then 0x80 <= b <= 0x9F
    else if lead == 0xF0 then 0x90 <= b <= 0xBF
    else if lead == 0xF4 then 0x80 <= b <= 0x8F
    else Tail(b)
  }

  predicate Valid(s: Bytes) {
    if |s| == 0 then true
    else if s[0] < 0x80 then Valid(s[1..])
    else if 0xC2 <= s[0] <= 0xDF then |s| >= 2 && Tail(s[1]) && Valid(s[2..])
    else if 0xE0 <= s[0] <= 0xEF then |s| >= 3 && Second(s[0], s[1]) && Tail(s[2]) && Valid(s[3..])
    else if 0xF0 <= s[0] <= 0xF4 then |s| >= 4 && Second(s[0], s[1]) && Tail(s[2]) && Tail(s[3]) && Valid(s[4..])
    else false
  }

  // ---- What it means ---------------------------------------------------------------------

  /** A Unicode scalar value: any code point but the surrogates. */
  predicate Scalar(c: nat) { c < 0xD800 || 0xE000 <= c < 0x11_0000 }

  function EncodeScalar(c: nat): (r: Bytes)
    requires Scalar(c)
    ensures |r| >= 1
  {
    if c < 0x80 then [c]
    else if c < 0x800 then [0xC0 + c / 0x40, 0x80 + c % 0x40]
    else if c < 0x1_0000 then [0xE0 + c / 0x1000, 0x80 + c / 0x40 % 0x40, 0x80 + c % 0x40]
    else [0xF0 + c / 0x4_0000, 0x80 + c / 0x1000 % 0x40, 0x80 + c / 0x40 % 0x40, 0x80 + c % 0x40]
  }

  ghost predicate Scalars(cs: seq<nat>) {
    forall i :: 0 <= i < |cs| ==> Scalar(cs[i])
  }

  function EncodeAll(cs: seq<nat>): Bytes
    requires Scalars(cs)
  {
    if cs == [] then [] else EncodeScalar(cs[0]) + EncodeAll(cs[1..])
  }

  lemma TwoBytes(lead: nat, b: nat)
    requires 0xC2 <= lead <= 0xDF && 0x80 <= b <= 0xBF
    ensures var c := (lead - 0xC0) * 0x40 + (b - 0x80); Scalar(c) && EncodeScalar(c) == [lead, b]
  {
  }

  lemma ThreeBytes(lead: nat, a: nat, b: nat)
    requires 0xE0 <= lead <= 0xEF && 0x80 <= a <= 0xBF && 0x80 <= b <= 0xBF && Second(lead, a)
    ensures var c := (lead - 0xE0) * 0x1000 + (a - 0x80) * 0x40 + (b - 0x80); Scalar(c) && EncodeScalar(c) == [lead, a, b]
  {
    var c := (lead - 0xE0) * 0x1000 + (a - 0x80) * 0x40 + (b - 0x80);
    assert c / 0x40 == (lead - 0xE0) * 0x40 + (a - 0x80);
  }

  lemma FourBytes(lead: nat, a: nat, b: nat, d: nat)
    requires 0xF0 <= lead <= 0xF4 && 0x80 <= a <= 0xBF && 0x80 <= b <= 0xBF && 0x80 <= d <= 0xBF && Second(lead, a)
    ensures var c := (lead - 0xF0) * 0x4_0000 + (a - 0x80) * 0x1000 + (b - 0x80) * 0x40 + (d - 0x80);
      Scalar(c) && EncodeScalar(c) == [lead, a, b, d]
  {
    var c := (lead - 0xF0) * 0x4_0000 + (a - 0x80) * 0x1000 + (b - 0x80) * 0x40 + (d - 0x80);
    assert c / 0x40 == (lead - 0xF0) * 0x1000 + (a - 0x80) * 0x40 + (b - 0x80);
    assert c / 0x1000 == (lead - 0xF0) * 0x40 + (a - 0x80);
  }

  /** The first scalar value of well-formed bytes, and what follows it. */
  lemma FirstScalar(s: Bytes) returns (c: nat, rest: Bytes)
    requires Valid(s) && s != []
    ensures Scalar(c) && s == EncodeScalar(c) + rest && Valid(rest)
  {
    hide EncodeScalar;
    var lead: int := s[0];
    if lead < 0x80 {
      OneByte(lead);
      c, rest := lead, s[1..];
    } else if lead <= 0xDF {
      var b: int := s[1];
      TwoBytes(lead, b);
      c, rest := (lead - 0xC0) * 0x40 + (b - 0x80), s[2..];
    } else if lead <= 0xEF {
      var a: int, b: int := s[1], s[2];
      ThreeBytes(lead, a, b);
      c, rest := (lead - 0xE0) * 0x1000 + (a - 0x80) * 0x40 + (b - 0x80), s[3..];
    } else {
      var a: int, b: int, d: int := s[1], s[2], s[3];
      FourBytes(lead, a, b, d);
      c, rest := (lead - 0xF0) * 0x4_0000 + (a - 0x80) * 0x1000 + (b - 0x80) * 0x40 + (d - 0x80), s[4..];
    }
  }

  lemma OneByte(lead: nat)
    requires lead < 0x80
    ensures Scalar(lead) && EncodeScalar(lead) == [lead]
  {
  }

  lemma ScalarFirst(c: nat, rest: Bytes)
    requires Scalar(c)
    ensures Valid(EncodeScalar(c) + rest) <==> Valid(rest)
  {
    var s := EncodeScalar(c) + rest;
    assert s[|EncodeScalar(c)|..] == rest;
  }

  lemma {:induction false} Decoded(s: Bytes) returns (cs: seq<nat>)
    requires Valid(s)
    ensures Scalars(cs) && EncodeAll(cs) == s
    decreases |s|
  {
    cs := [];
    if s != [] {
      var c, rest := FirstScalar(s);
      var more := Decoded(rest);
      cs := [c] + more;
      assert cs[1..] == more;
    }
  }

  lemma {:induction false} EncodedValid(cs: seq<nat>)
    requires Scalars(cs)
    ensures Valid(EncodeAll(cs))
  {
    if cs != [] {
      EncodedValid(cs[1..]);
      ScalarFirst(cs[0], EncodeAll(cs[1..]));
    }
  }

  /** Bytes are well-formed if and only if they encode some sequence of Unicode scalar values. */
  lemma ValidExactly(s: Bytes)
    ensures Valid(s) <==> exists cs :: Scalars(cs) && EncodeAll(cs) == s
  {
    if Valid(s) {
      var cs := Decoded(s);
    }
    if cs :| Scalars(cs) && EncodeAll(cs) == s {
      EncodedValid(cs);
    }
  }
}
