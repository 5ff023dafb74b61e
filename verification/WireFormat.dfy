/**
  Messages as the Protocol Buffers Encoding specification has them: a message is a sequence of records,
  each a tag, which holds a field number and a wire type, and a payload. Here is a reader for any message
  of varint and length-delimited records, which knows nothing of raft.Entry.
*/
module WireFormat {
  import opened Types
  import opened Varint
  import opened EntryCodec
  import Utf8

  datatype Field = Number(no: nat, v: nat) | Block(no: nat, bytes: Bytes)

  datatype Fields = Fields(list: seq<Field>) | NotAMessage

  function Prepend(f: Field, rest: Fields): Fields {
    if rest.Fields? then Fields([f] + rest.list) else NotAMessage
  }

  function ReadFields(buf: Bytes, pos: nat): Fields
    requires pos <= |buf|
    decreases |buf| - pos
  {
    if pos == |buf| then Fields([])
    else
      match Varint.Decode(buf, pos, 5)
      case Malformed => NotAMessage
      case Read(t, p) =>
        var tag := t % TWO32;
        var no, wireType := tag / 8, tag % 8;
        if wireType == 0 then
          match Varint.Decode(buf, p, 10)
          case Read(v, next) => Prepend(Number(no, v), ReadFields(buf, next))
          case Malformed => NotAMessage
        else if wireType == 2 then
          match ReadString(buf, p)
          case StringRead(s, next) => Prepend(Block(no, s), ReadFields(buf, next))
          case BadString => NotAMessage
        else NotAMessage
  }

  function Numbers(no: nat, i: Int64): seq<Field> {
    if i != 0 then [Number(no, Unsigned(i))] else []
  }

  function Blocks(no: nat, s: Bytes): seq<Field> {
    if s != [] then [Block(no, s)] else []
  }

  /** The records of an entry, with the field numbers of proto/raft.proto; a field of the default value has none. */
  function FieldsOf(e: Entry): seq<Field> {
    Numbers(1, e.seqNo) + Numbers(2, e.term) + Blocks(3, e.key) + Blocks(4, e.value)
  }

  function Concat(fs: seq<Field>, rest: Fields): Fields {
    if rest.Fields? then Fields(fs + rest.list) else NotAMessage
  }

  lemma NumberRead(buf: Bytes, pos: nat, tag: Byte, i: Int64)
    requires tag < 0x80 && tag % 8 == 0 && At(buf, pos, NumberField(tag, i))
    ensures ReadFields(buf, pos) == Concat(Numbers(tag / 8, i), ReadFields(buf, pos + |NumberField(tag, i)|))
  {
    hide Varint.Decode, Varint.Encode, At, Unsigned;
    if i != 0 {
      NumberReads(buf, pos, tag, i);
    }
  }

  lemma BlockRead(buf: Bytes, pos: nat, tag: Byte, s: Bytes)
    requires tag < 0x80 && tag % 8 == 2 && |s| <= MAX_LENGTH && At(buf, pos, StringField(tag, s))
    ensures ReadFields(buf, pos) == Concat(Blocks(tag / 8, s), ReadFields(buf, pos + |StringField(tag, s)|))
  {
    hide Varint.Decode, Varint.Encode, At, ReadString;
    if s != [] {
      StringReads(buf, pos, tag, s);
    }
  }

  lemma NothingLeft(buf: Bytes)
    ensures ReadFields(buf, |buf|) == Fields([])
  {
  }

  lemma FourLists(a: seq<Field>, b: seq<Field>, k: seq<Field>, v: seq<Field>)
    ensures Concat(a, Concat(b, Concat(k, Concat(v, Fields([]))))) == Fields(a + b + k + v)
  {
    assert a + (b + (k + (v + []))) == a + b + k + v;
  }

  /** What the serializer writes is a message of exactly these records, in the order of the field numbers. */
  lemma WritesFields(e: Entry)
    requires Fits(e)
    ensures ReadFields(EntryCodec.Encode(e), 0) == Fields(FieldsOf(e))
  {
    hide EntryCodec.Encode, NumberField, StringField, ReadFields, At, Numbers, Blocks, Concat, FieldsOf;
    var a, b := |NumberField(SEQ_TAG, e.seqNo)|, |NumberField(TERM_TAG, e.term)|;
    var k, buf := |StringField(KEY_TAG, e.key)|, EntryCodec.Encode(e);
    EncodeParts(e);
    NumberRead(buf, 0, SEQ_TAG, e.seqNo);
    NumberRead(buf, a, TERM_TAG, e.term);
    BlockRead(buf, a + b, KEY_TAG, e.key);
    BlockRead(buf, a + b + k, VALUE_TAG, e.value);
    NothingLeft(buf);
    FourLists(Numbers(1, e.seqNo), Numbers(2, e.term), Blocks(3, e.key), Blocks(4, e.value));
    FieldsFour(e);
  }

  lemma FieldsFour(e: Entry)
    ensures FieldsOf(e) == Numbers(1, e.seqNo) + Numbers(2, e.term) + Blocks(3, e.key) + Blocks(4, e.value)
  {
  }

  lemma EncodeParts(e: Entry)
    requires Fits(e)
    ensures var a, b := NumberField(SEQ_TAG, e.seqNo), NumberField(TERM_TAG, e.term);
      var k, v := StringField(KEY_TAG, e.key), StringField(VALUE_TAG, e.value);
      var buf := EntryCodec.Encode(e);
      && |buf| == |a| + |b| + |k| + |v| && |e.key| <= MAX_LENGTH && |e.value| <= MAX_LENGTH
      && At(buf, 0, a) && At(buf, |a|, b) && At(buf, |a| + |b|, k) && At(buf, |a| + |b| + |k|, v)
  {
    hide NumberField, StringField, At;
    FourParts(NumberField(SEQ_TAG, e.seqNo), NumberField(TERM_TAG, e.term), StringField(KEY_TAG, e.key), StringField(VALUE_TAG, e.value));
  }

  // ---- The parser ------------------------------------------------------------------------

  /** A field that an entry has, of the right wire type, and well-formed. */
  predicate Known(f: Field) {
    match f
    case Number(no, v) => no == 1 || no == 2
    case Block(no, bytes) => (no == 3 && Utf8.Valid(bytes)) || no == 4
  }

  /** Fields may come in any order and more than once; the last one counts. */
  function Assign(e: Entry, f: Field): Entry {
    match f
    case Number(no, v) => if no == 1 then e.(seqNo := ToInt64(v)) else e.(term := ToInt32(v))
    case Block(no, bytes) => if no == 3 then e.(key := bytes) else e.(value := bytes)
  }

  function AssignAll(e: Entry, fs: seq<Field>): Entry
    decreases |fs|
  {
    if fs == [] then e else AssignAll(Assign(e, fs[0]), fs[1..])
  }

  ghost predicate AllKnown(fields: Fields) {
    fields.Fields? && forall i :: 0 <= i < |fields.list| ==> Known(fields.list[i])
  }

  /** The parser's round reads the next record: it goes on exactly if that is a known field, and assigns it. */
  lemma FieldRead(buf: Bytes, pos: nat, e: Entry)
    requires pos < |buf|
    ensures match ParseField(buf, pos, e)
      case More(e', next) => exists f :: Known(f) && e' == Assign(e, f) && ReadFields(buf, pos) == Prepend(f, ReadFields(buf, next))
      case Stop(_) => !AllKnown(ReadFields(buf, pos))
  {
    hide Varint.Decode, ReadString, Utf8.Valid, ToInt64, ToInt32;
    match Varint.Decode(buf, pos, 5)
    case Malformed =>
    case Read(t, p) =>
      var tag := t % TWO32;
      if tag % 8 == 0 {
        match Varint.Decode(buf, p, 10)
        case Malformed =>
        case Read(v, next) => FirstKnown(Number(tag / 8, v), ReadFields(buf, next));
      } else if tag % 8 == 2 {
        match ReadString(buf, p)
        case BadString =>
        case StringRead(s, next) => FirstKnown(Block(tag / 8, s), ReadFields(buf, next));
      }
  }

  lemma FirstKnown(f: Field, rest: Fields)
    ensures AllKnown(Prepend(f, rest)) ==> Known(f)
  {
    hide Known;
    if AllKnown(Prepend(f, rest)) {
      assert Known(Prepend(f, rest).list[0]);
    }
  }

  /**
    On every sequence of bytes: the parser accepts if and only if they are a message of known fields, and
    then each field has the value of its last record, or that it had before.
  */
  lemma {:induction false} ParseExactly(buf: Bytes, pos: nat, e: Entry)
    requires pos <= |buf|
    ensures Parse(buf, pos, e).ok <==> AllKnown(ReadFields(buf, pos))
    ensures Parse(buf, pos, e).ok ==> Parse(buf, pos, e).entry == AssignAll(e, ReadFields(buf, pos).list)
    decreases |buf| - pos
  {
    if pos < |buf| {
      FieldRead(buf, pos, e);
      FieldParsed(buf, pos, e);
      hide ParseField, ReadFields, Known, Assign, Parse;
      match ParseField(buf, pos, e)
      case Stop(_) =>
      case More(e', next) =>
        ParseExactly(buf, next, e');
        var f :| Known(f) && e' == Assign(e, f) && ReadFields(buf, pos) == Prepend(f, ReadFields(buf, next));
        KnownFirst(f, ReadFields(buf, next));
    }
  }

  lemma KnownFirst(f: Field, rest: Fields)
    requires Known(f)
    ensures AllKnown(Prepend(f, rest)) <==> AllKnown(rest)
    ensures rest.Fields? ==> Prepend(f, rest).list[1..] == rest.list && Prepend(f, rest).list[0] == f
  {
    hide Known;
    if rest.Fields? {
      var list := Prepend(f, rest).list;
      assert forall i :: 0 <= i < |rest.list| ==> list[i + 1] == rest.list[i];
    }
  }
}
