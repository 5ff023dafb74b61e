/** Base 128 varints, as in the Protocol Buffers Encoding specification. */
module Varint {
  import opened Types

  datatype Read = Read(value: nat, next: nat) | Malformed

  const TWO31: nat := 0x8000_0000
  const TWO32: nat := 0x1_0000_0000
  const TWO64: nat := 0x1_0000_0000_0000_0000

  /** Seven bits a byte, low group first; the top bit says that another byte follows. */
  function Encode(v: nat): (r: Bytes)
    ensures |r| >= 1
  {
    if v < 0x80 then [v] else [v % 0x80 + 0x80] + Encode(v / 0x80)
  }

  /** The size that the message's size computation uses for a value below 2^64. */
  function Size(v: nat): nat {
    if v < 0x80 then 1
    else if v < 0x4000 then 2
    else if v < 0x20_0000 then 3
    else if v < 0x1000_0000 then 4
    else if v < 0x8_0000_0000 then 5
    else if v < 0x400_0000_0000 then 6
    else if v < 0x2_0000_0000_0000 then 7
    else if v < 0x100_0000_0000_0000 then 8
    else if v < 0x8000_0000_0000_0000 then 9
    else 10
  }

  /** Read at most `left` bytes from pos on. */
  function Decode(buf: Bytes, pos: nat, left: nat): (r: Read)
    ensures r.Read? ==> pos < r.next <= |buf|
    decreases left
  {
    if left == 0 || pos >= |buf| then Malformed
    else if buf[pos] < 0x80 then Read(buf[pos], pos + 1)
    else
      match Decode(buf, pos + 1, left - 1)
      case Read(v, next) => Read(buf[pos] - 0x80 + 0x80 * v, next)
      case Malformed => Malformed
  }

  /** The number whose groups of seven bits, low group first, these bytes hold. */
  function Meaning(s: Bytes): nat {
    if s == [] then 0 else s[0] % 0x80 + 0x80 * Meaning(s[1..])
  }

  /** The groups of the varint make up the number; the top bit is set on all bytes but the last, which is not a needless zero. */
  lemma {:induction false} EncodeMeans(v: nat)
    ensures var s := Encode(v);
      && Meaning(s) == v && s[|s| - 1] < 0x80 && (|s| > 1 ==> s[|s| - 1] > 0)
      && forall i :: 0 <= i < |s| - 1 ==> s[i] >= 0x80
  {
    if v >= 0x80 {
      EncodeMeans(v / 0x80);
      assert Encode(v)[1..] == Encode(v / 0x80);
    }
  }

  /** The bytes s stand at position pos of buf. */
  predicate At(buf: Bytes, pos: nat, s: Bytes) {
    pos + |s| <= |buf| && buf[pos..pos + |s|] == s
  }

  lemma AtSplit(buf: Bytes, pos: nat, a: Bytes, b: Bytes)
    requires At(buf, pos, a + b)
    ensures At(buf, pos, a) && At(buf, pos + |a|, b)
  {
    assert a == (a + b)[..|a|] == buf[pos..pos + |a|];
    assert b == (a + b)[|a|..] == buf[pos + |a|..pos + |a| + |b|];
  }

  lemma {:induction false} SizeExact(v: nat)
    requires v < TWO64
    ensures |Encode(v)| == Size(v)
  {
    if v >= 0x80 {
      SizeExact(v / 0x80);
    }
  }

  /** A written varint reads back, wherever it stands, if the reader may take as many bytes. */
  lemma {:induction false} RoundTrip(buf: Bytes, pos: nat, v: nat, left: nat)
    requires At(buf, pos, Encode(v)) && |Encode(v)| <= left
    ensures Decode(buf, pos, left) == Read(v, pos + |Encode(v)|)
    decreases left
  {
    assert buf[pos] == Encode(v)[0];
    if v >= 0x80 {
      AtSplit(buf, pos, [v % 0x80 + 0x80], Encode(v / 0x80));
      RoundTrip(buf, pos + 1, v / 0x80, left - 1);
    }
  }
}
