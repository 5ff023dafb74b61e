/** The raft.Entry message object: fields parsed in place, and serialized into a buffer. */
module EntryMessage {
  import opened Types
  import opened Varint
  import opened EntryCodec
  import Utf8

  class Message {
    var seqNo: Int64
    var term: Int32
    var key: Bytes
    var value: Bytes

    function View(): Entry
      reads this
    {
      Entry(seqNo, term, key, value)
    }

    constructor ()
      ensures View() == EMPTY
    {
      seqNo, term, key, value := 0, 0, [], [];
    }

    constructor Of(e: Entry)
      ensures View() == e
    {
      seqNo, term, key, value := e.seqNo, e.term, e.key, e.value;
    }

    method InternalParse(buf: Bytes) returns (ok: bool)
      modifies this
      ensures Parsed(View(), ok) == Parse(buf, 0, old(View()))
    {
      var pos := 0;
      while pos < |buf|
        invariant pos <= |buf|
        invariant Parse(buf, pos, View()) == Parse(buf, 0, old(View()))
        decreases |buf| - pos
      {
        var tagRead := Varint.Decode(buf, pos, 5);
        if tagRead.Malformed? { return false; }
        var tag := tagRead.value % TWO32;
        if tag == SEQ_TAG {
          var v := Varint.Decode(buf, tagRead.next, 10);
          if v.Malformed? { return false; }
          seqNo := ToInt64(v.value);
          pos := v.next;
        } else if tag == TERM_TAG {
          var v := Varint.Decode(buf, tagRead.next, 10);
          if v.Malformed? { return false; }
          term := ToInt32(v.value);
          pos := v.next;
        } else if tag == KEY_TAG {
          var s := ReadString(buf, tagRead.next);
          if s.BadString? { return false; }
          key := s.value;
          if !Utf8.Valid(key) { return false; }
          pos := s.next;
        } else if tag == VALUE_TAG {
          var s := ReadString(buf, tagRead.next);
          if s.BadString? { return false; }
          value := s.value;
          pos := s.next;
        } else {
          return false;
        }
      }
      ok := true;
    }

    method InternalSerialize(buf: array<Byte>, start: nat) returns (target: nat)
      requires start + |EntryCodec.Encode(View())| <= buf.Length
      modifies buf
      ensures target == start + |EntryCodec.Encode(View())|
      ensures Wrote(old(buf[..]), buf[..], start, EntryCodec.Encode(View()))
    {
      ghost var before := buf[..];
      ghost var a, b := NumberField(SEQ_TAG, seqNo), NumberField(TERM_TAG, term);
      ghost var k, v := StringField(KEY_TAG, key), StringField(VALUE_TAG, value);
      assert EntryCodec.Encode(View()) == a + b + k + v;
      hide NumberField, StringField, EntryCodec.Encode, Wrote;
      target := PutNumber(buf, start, SEQ_TAG, seqNo);
      ghost var one := buf[..];
      target := PutNumber(buf, target, TERM_TAG, term);
      ghost var two := buf[..];
      WroteTwice(before, one, two, start, a, b);
      target := PutString(buf, target, KEY_TAG, key);
      ghost var three := buf[..];
      WroteTwice(before, two, three, start, a + b, k);
      target := PutString(buf, target, VALUE_TAG, value);
      WroteTwice(before, three, buf[..], start, a + b + k, v);
    }
  }

  /** The bytes s were put at position start, and nothing else changed. */
  ghost predicate Wrote(before: Bytes, after: Bytes, start: nat, s: Bytes) {
    && |after| == |before| && start + |s| <= |before|
    && (forall i :: 0 <= i < |s| ==> after[start + i] == s[i])
    && (forall i :: 0 <= i < |before| && (i < start || start + |s| <= i) ==> after[i] == before[i])
  }

  lemma WroteTwice(before: Bytes, mid: Bytes, after: Bytes, start: nat, a: Bytes, b: Bytes)
    requires Wrote(before, mid, start, a) && Wrote(mid, after, start + |a|, b)
    ensures Wrote(before, after, start, a + b)
  {
  }

  lemma WroteNothing(before: Bytes, start: nat)
    requires start <= |before|
    ensures Wrote(before, before, start, [])
  {
  }

  lemma WroteByte(before: Bytes, pos: nat, b: Byte)
    requires pos < |before|
    ensures Wrote(before, before[pos := b], pos, [b])
  {
  }

  lemma EncodeMore(v: nat)
    requires v >= 0x80
    ensures Varint.Encode(v) == [v % 0x80 + 0x80] + Varint.Encode(v / 0x80)
  {
  }

  lemma EncodeSmall(v: Byte)
    requires v < 0x80
    ensures Varint.Encode(v) == [v]
  {
  }

  /** A field of the default value is not written. */
  method PutNumber(buf: array<Byte>, start: nat, tag: Byte, i: Int64) returns (target: nat)
    requires tag < 0x80 && start + |NumberField(tag, i)| <= buf.Length
    modifies buf
    ensures target == start + |NumberField(tag, i)|
    ensures Wrote(old(buf[..]), buf[..], start, NumberField(tag, i))
  {
    if i == 0 { return start; }
    assert NumberField(tag, i) == [tag] + Varint.Encode(Unsigned(i));
    hide NumberField, Varint.Encode, Wrote;
    assert |[tag]| == 1 && Varint.Encode(tag) == [tag] by { EncodeSmall(tag); }
    ghost var before := buf[..];
    target := PutVarint(buf, start, tag);
    ghost var mid := buf[..];
    target := PutVarint(buf, target, Unsigned(i));
    WroteTwice(before, mid, buf[..], start, [tag], Varint.Encode(Unsigned(i)));
  }

  method PutString(buf: array<Byte>, start: nat, tag: Byte, s: Bytes) returns (target: nat)
    requires tag < 0x80 && start + |StringField(tag, s)| <= buf.Length
    modifies buf
    ensures target == start + |StringField(tag, s)|
    ensures Wrote(old(buf[..]), buf[..], start, StringField(tag, s))
  {
    if s == [] { return start; }
    assert StringField(tag, s) == [tag] + Varint.Encode(|s|) + s;
    hide StringField, Varint.Encode, Wrote;
    assert |[tag]| == 1 && Varint.Encode(tag) == [tag] by { EncodeSmall(tag); }
    ghost var before := buf[..];
    target := PutVarint(buf, start, tag);
    ghost var one := buf[..];
    target := PutVarint(buf, target, |s|);
    ghost var two := buf[..];
    WroteTwice(before, one, two, start, [tag], Varint.Encode(|s|));
    target := PutBytes(buf, target, s);
    WroteTwice(before, two, buf[..], start, [tag] + Varint.Encode(|s|), s);
  }

  /** Writes v in groups of seven bits. */
  method PutVarint(buf: array<Byte>, start: nat, v: nat) returns (target: nat)
    requires start + |Varint.Encode(v)| <= buf.Length
    modifies buf
    ensures target == start + |Varint.Encode(v)|
    ensures Wrote(old(buf[..]), buf[..], start, Varint.Encode(v))
  {
    hide Varint.Encode, Wrote;
    target := start;
    var rest := v;
    ghost var before, done: Bytes := buf[..], [];
    WroteNothing(before, start);
    while rest >= 0x80
      invariant target == start + |done| && Varint.Encode(v) == done + Varint.Encode(rest)
      invariant Wrote(before, buf[..], start, done)
    {
      ghost var mid := buf[..];
      ghost var last := [rest % 0x80 + 0x80];
      EncodeMore(rest);
      WroteByte(mid, target, rest % 0x80 + 0x80);
      buf[target] := rest % 0x80 + 0x80;
      assert buf[..] == mid[target := rest % 0x80 + 0x80];
      WroteTwice(before, mid, buf[..], start, done, last);
      target, done, rest := target + 1, done + last, rest / 0x80;
    }
    ghost var mid := buf[..];
    EncodeSmall(rest);
    WroteByte(mid, target, rest);
    buf[target] := rest;
    assert buf[..] == mid[target := rest];
    WroteTwice(before, mid, buf[..], start, done, [rest]);
    target := target + 1;
  }

  method PutBytes(buf: array<Byte>, start: nat, s: Bytes) returns (target: nat)
    requires start + |s| <= buf.Length
    modifies buf
    ensures target == start + |s|
    ensures Wrote(old(buf[..]), buf[..], start, s)
  {
    for i := 0 to |s|
      invariant Wrote(old(buf[..]), buf[..], start, s[..i])
    {
      buf[start + i] := s[i];
    }
    target := start + |s|;
    assert s[..|s|] == s;
  }
}
