/** The wire form of raft.Entry: the generated serializer, size computation and parser. */
module EntryCodec {
  import opened Types
  import opened Varint
  import Utf8

  const SEQ_TAG: Byte := 8
  const TERM_TAG: Byte := 16
  const KEY_TAG: Byte := 26
  const VALUE_TAG: Byte := 34

  /** The runtime's parser refuses a longer string. */
  const MAX_LENGTH: nat := TWO31 - 17

  const EMPTY: Entry := Entry(0, 0, [], [])

  // ---- Numbers ---------------------------------------------------------------------------

  /** Both widths are written as a 64-bit two's complement value; a negative term is sign-extended. */
  function Unsigned(i: Int64): (r: nat)
    ensures r < TWO64 && (r == i || r == i + TWO64)
  {
    if i < 0 then i + TWO64 else i
  }

  function ToInt64(v: nat): Int64 {
    var u := v % TWO64;
    if u >= 0x8000_0000_0000_0000 then u - TWO64 else u
  }

  /** A 32-bit field keeps the low half. */
  function ToInt32(v: nat): Int32 {
    var u := v % TWO32;
    if u >= 0x8000_0000 then u - TWO32 else u
  }

  lemma SignsReturn(i: Int64, j: Int32)
    ensures ToInt64(Unsigned(i)) == i && ToInt32(Unsigned(j)) == j
  {
  }

  // ---- Serializer ------------------------------------------------------------------------

  function NumberField(tag: Byte, i: Int64): Bytes {
    if i != 0 then [tag] + Varint.Encode(Unsigned(i)) else []
  }

  function StringField(tag: Byte, s: Bytes): Bytes {
    if s != [] then [tag] + Varint.Encode(|s|) + s else []
  }

  function Encode(e: Entry): Bytes {
    NumberField(SEQ_TAG, e.seqNo) + NumberField(TERM_TAG, e.term) + StringField(KEY_TAG, e.key) + StringField(VALUE_TAG, e.value)
  }

  /** ByteSizeLong. */
  function ByteSize(e: Entry): nat {
    var key := if e.key != [] then 1 + Varint.Size(|e.key|) + |e.key| else 0;
    var value := if e.value != [] then 1 + Varint.Size(|e.value|) + |e.value| else 0;
    var seqNo := if e.seqNo != 0 then 1 + Varint.Size(Unsigned(e.seqNo)) else 0;
    var term := if e.term != 0 then 1 + Varint.Size(Unsigned(e.term)) else 0;
    key + value + seqNo + term
  }

  predicate Fits(e: Entry) {
    |e.key| <= MAX_LENGTH && |e.value| <= MAX_LENGTH
  }

  /** The size computed beforehand is the number of bytes written. */
  lemma ByteSizeExact(e: Entry)
    requires Fits(e)
    ensures |Encode(e)| == ByteSize(e)
  {
    SizeExact(|e.key|);
    SizeExact(|e.value|);
    SizeExact(Unsigned(e.seqNo));
    SizeExact(Unsigned(e.term));
  }

  // ---- Parser ----------------------------------------------------------------------------

  datatype Parsed = Parsed(entry: Entry, ok: bool)

  datatype StringRead = StringRead(value: Bytes, next: nat) | BadString

  function ReadString(buf: Bytes, pos: nat): (r: StringRead)
    ensures r.StringRead? ==> pos < r.next <= |buf|
  {
    match Varint.Decode(buf, pos, 5)
    case Malformed => BadString
    case Read(n, next) =>
      if n > MAX_LENGTH || next + n > |buf| then BadString else StringRead(buf[next..next + n], next + n)
  }

  /** One round of the parser's loop: a field is read and stored, or parsing ends. */
  datatype Round = More(entry: Entry, next: nat) | Stop(entry: Entry)

  function ParseField(buf: Bytes, pos: nat, e: Entry): (r: Round)
    requires pos < |buf|
    ensures r.More? ==> pos < r.next <= |buf|
  {
    match Varint.Decode(buf, pos, 5)
    case Malformed => Stop(e)
    case Read(t, p) =>
      var tag := t % TWO32;
      if tag == SEQ_TAG then
        match Varint.Decode(buf, p, 10)
        case Read(v, next) => More(e.(seqNo := ToInt64(v)), next)
        case Malformed => Stop(e)
      else if tag == TERM_TAG then
        match Varint.Decode(buf, p, 10)
        case Read(v, next) => More(e.(term := ToInt32(v)), next)
        case Malformed => Stop(e)
      else if tag == KEY_TAG then
        match ReadString(buf, p)
        case StringRead(s, next) => if Utf8.Valid(s) then More(e.(key := s), next) else Stop(e.(key := s))
        case BadString => Stop(e)
      else if tag == VALUE_TAG then
        match ReadString(buf, p)
        case StringRead(s, next) => More(e.(value := s), next)
        case BadString => Stop(e)
      else Stop(e)
  }

  function Parse(buf: Bytes, pos: nat, e: Entry): Parsed
    requires pos <= |buf|
    decreases |buf| - pos
  {
    if pos == |buf| then Parsed(e, true)
    else
      match ParseField(buf, pos, e)
      case More(e', next) => Parse(buf, next, e')
      case Stop(e') => Parsed(e', false)
  }

  // ---- Round trip ------------------------------------------------------------------------

  lemma NumberReads(buf: Bytes, pos: nat, tag: Byte, i: Int64)
    requires i != 0 && tag < 0x80 && At(buf, pos, NumberField(tag, i))
    ensures pos < |buf| && Varint.Decode(buf, pos, 5) == Read(tag, pos + 1)
    ensures Varint.Decode(buf, pos + 1, 10) == Read(Unsigned(i), pos + |NumberField(tag, i)|)
  {
    AtSplit(buf, pos, [tag], Varint.Encode(Unsigned(i)));
    assert Varint.Encode(tag) == [tag];
    Varint.RoundTrip(buf, pos, tag, 5);
    SizeExact(Unsigned(i));
    Varint.RoundTrip(buf, pos + 1, Unsigned(i), 10);
  }

  lemma StringReads(buf: Bytes, pos: nat, tag: Byte, s: Bytes)
    requires s != [] && |s| <= MAX_LENGTH && tag < 0x80 && At(buf, pos, StringField(tag, s))
    ensures pos < |buf| && Varint.Decode(buf, pos, 5) == Read(tag, pos + 1)
    ensures ReadString(buf, pos + 1) == StringRead(s, pos + |StringField(tag, s)|)
  {
    assert StringField(tag, s) == [tag] + (Varint.Encode(|s|) + s);
    AtSplit(buf, pos, [tag], Varint.Encode(|s|) + s);
    AtSplit(buf, pos + 1, Varint.Encode(|s|), s);
    assert Varint.Encode(tag) == [tag];
    Varint.RoundTrip(buf, pos, tag, 5);
    SizeExact(|s|);
    Varint.RoundTrip(buf, pos + 1, |s|, 5);
  }

  /** What is left of an entry that is written and parsed: all of it, unless an ill-formed key ends the parse early. */
  function Stored(e: Entry): Entry {
    if Utf8.Valid(e.key) then e else e.(value := [])
  }

  lemma FieldParsed(buf: Bytes, pos: nat, e: Entry)
    requires pos < |buf|
    ensures match ParseField(buf, pos, e)
      case More(e', next) => Parse(buf, pos, e) == Parse(buf, next, e')
      case Stop(e') => Parse(buf, pos, e) == Parsed(e', false)
  {
  }

  lemma SeqParsed(buf: Bytes, pos: nat, e: Entry, i: Int64)
    requires At(buf, pos, NumberField(SEQ_TAG, i)) && e.seqNo == 0
    ensures Parse(buf, pos, e) == Parse(buf, pos + |NumberField(SEQ_TAG, i)|, e.(seqNo := i))
  {
    hide Varint.Decode, Varint.Encode, Parse, At, Unsigned, ToInt64, ToInt32;
    if i != 0 {
      NumberReads(buf, pos, SEQ_TAG, i);
      FieldParsed(buf, pos, e);
      SignsReturn(i, 0);
    }
  }

  lemma TermParsed(buf: Bytes, pos: nat, e: Entry, i: Int32)
    requires At(buf, pos, NumberField(TERM_TAG, i)) && e.term == 0
    ensures Parse(buf, pos, e) == Parse(buf, pos + |NumberField(TERM_TAG, i)|, e.(term := i))
  {
    hide Varint.Decode, Varint.Encode, Parse, At, Unsigned, ToInt64, ToInt32;
    if i != 0 {
      NumberReads(buf, pos, TERM_TAG, i);
      FieldParsed(buf, pos, e);
      SignsReturn(0, i);
    }
  }

  lemma KeyParsed(buf: Bytes, pos: nat, e: Entry, s: Bytes)
    requires At(buf, pos, StringField(KEY_TAG, s)) && |s| <= MAX_LENGTH && e.key == []
    ensures Parse(buf, pos, e) == if Utf8.Valid(s) then Parse(buf, pos + |StringField(KEY_TAG, s)|, e.(key := s))
                                  else Parsed(e.(key := s), false)
  {
    hide Varint.Decode, Varint.Encode, Parse, ReadString, At;
    if s != [] {
      StringReads(buf, pos, KEY_TAG, s);
      FieldParsed(buf, pos, e);
    }
  }

  lemma ValueParsed(buf: Bytes, pos: nat, e: Entry, s: Bytes)
    requires At(buf, pos, StringField(VALUE_TAG, s)) && |s| <= MAX_LENGTH && e.value == []
    ensures Parse(buf, pos, e) == Parse(buf, pos + |StringField(VALUE_TAG, s)|, e.(value := s))
  {
    hide Varint.Decode, Varint.Encode, Parse, ReadString, At, Utf8.Valid;
    if s != [] {
      StringReads(buf, pos, VALUE_TAG, s);
      FieldParsed(buf, pos, e);
    }
  }

  lemma FourParts(a: Bytes, b: Bytes, k: Bytes, v: Bytes)
    ensures var buf := a + b + k + v;
      && |buf| == |a| + |b| + |k| + |v|
      && At(buf, 0, a) && At(buf, |a|, b) && At(buf, |a| + |b|, k) && At(buf, |a| + |b| + |k|, v)
  {
  }

  lemma NumbersParsed(buf: Bytes, e: Entry)
    requires var a, b := NumberField(SEQ_TAG, e.seqNo), NumberField(TERM_TAG, e.term); At(buf, 0, a) && At(buf, |a|, b)
    ensures Parse(buf, 0, EMPTY)
      == Parse(buf, |NumberField(SEQ_TAG, e.seqNo)| + |NumberField(TERM_TAG, e.term)|, Entry(e.seqNo, e.term, [], []))
  {
    hide NumberField, Parse, At;
    SeqParsed(buf, 0, EMPTY, e.seqNo);
    TermParsed(buf, |NumberField(SEQ_TAG, e.seqNo)|, EMPTY.(seqNo := e.seqNo), e.term);
  }

  lemma StringsParsed(buf: Bytes, pos: nat, e: Entry)
    requires Fits(e) && var k, v := StringField(KEY_TAG, e.key), StringField(VALUE_TAG, e.value);
      At(buf, pos, k) && At(buf, pos + |k|, v) && |buf| == pos + |k| + |v|
    ensures Parse(buf, pos, Entry(e.seqNo, e.term, [], [])) == Parsed(Stored(e), Utf8.Valid(e.key))
  {
    hide StringField, Parse, At, Utf8.Valid;
    KeyParsed(buf, pos, Entry(e.seqNo, e.term, [], []), e.key);
    if Utf8.Valid(e.key) {
      ValueParsed(buf, pos + |StringField(KEY_TAG, e.key)|, Entry(e.seqNo, e.term, e.key, []), e.value);
      ParseEnd(buf, e);
    }
  }

  lemma RoundTripParsed(e: Entry)
    requires Fits(e)
    ensures Parse(Encode(e), 0, EMPTY) == Parsed(Stored(e), Utf8.Valid(e.key))
  {
    var a, b := NumberField(SEQ_TAG, e.seqNo), NumberField(TERM_TAG, e.term);
    hide NumberField, StringField, Parse, Utf8.Valid, At;
    FourParts(a, b, StringField(KEY_TAG, e.key), StringField(VALUE_TAG, e.value));
    NumbersParsed(Encode(e), e);
    StringsParsed(Encode(e), |a| + |b|, e);
  }

  lemma ParseEnd(buf: Bytes, e: Entry)
    ensures Parse(buf, |buf|, e) == Parsed(e, true)
  {
  }

  /** decode_entry: the parser's verdict is ignored. */
  function Decode(buf: Bytes): Entry {
    Parse(buf, 0, EMPTY).entry
  }

  /** A written entry decodes to itself exactly if its key is well-formed UTF-8 or there is no value to lose. */
  lemma RoundTrip(e: Entry)
    requires Fits(e)
    ensures Decode(Encode(e)) == Stored(e)
    ensures Decode(Encode(e)) == e <==> Utf8.Valid(e.key) || e.value == []
  {
    RoundTripParsed(e);
  }

  /** Different entries with well-formed keys have different wire forms. */
  lemma Injective(d: Entry, e: Entry)
    requires Fits(d) && Fits(e) && Utf8.Valid(d.key) && Utf8.Valid(e.key) && Encode(d) == Encode(e)
    ensures d == e
  {
    RoundTrip(d);
    RoundTrip(e);
  }

  /** The lossy case is real: a key of one byte 0xFF costs the entry its value. */
  lemma IllFormedKeyLosesValue()
    ensures var e := Entry(1, 1, [0xFF], [7]); Decode(Encode(e)) != e
  {
    RoundTrip(Entry(1, 1, [0xFF], [7]));
  }
}
