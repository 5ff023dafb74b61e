/**
  LogVec: a vector of entries in two files, the concatenated wire forms of the entries and the
  8-byte offset at which each starts. The file object of the storage engine is not part of this
  model; a file is the sequence of its bytes, with append, truncate, read and size.
*/
module LogVecModule {
  import opened Types
  import opened EntryCodec
  import opened EntryMessage
  import Utf8

  /** Files stay below 2^63 bytes. */
  const MAX_FILE: nat := 0x8000_0000_0000_0000

  // ---- Offsets ---------------------------------------------------------------------------

  function LittleEndian(v: nat, n: nat): (r: Bytes)
    ensures |r| == n
  {
    if n == 0 then [] else [v % 0x100] + LittleEndian(v / 0x100, n - 1)
  }

  function FromLittleEndian(s: Bytes): nat {
    if s == [] then 0 else s[0] + 0x100 * FromLittleEndian(s[1..])
  }

  function Pow256(n: nat): (r: nat)
    ensures r >= 1
  {
    if n == 0 then 1 else 0x100 * Pow256(n - 1)
  }

  lemma {:induction false} OffsetReturns(v: nat, n: nat)
    requires v < Pow256(n)
    ensures FromLittleEndian(LittleEndian(v, n)) == v
  {
    if n > 0 {
      assert v / 0x100 < Pow256(n - 1);
      OffsetReturns(v / 0x100, n - 1);
      assert LittleEndian(v, n)[1..] == LittleEndian(v / 0x100, n - 1);
    }
  }

  /** An offset as it stands in the file. */
  function OffsetBytes(offset: nat): (r: Bytes)
    ensures |r| == 8
  {
    LittleEndian(offset, 8)
  }

  function ReadOffset(s: Bytes): nat {
    FromLittleEndian(s)
  }

  lemma OffsetReads(offset: nat)
    requires offset < MAX_FILE
    ensures ReadOffset(OffsetBytes(offset)) == offset
  {
    hide LittleEndian, FromLittleEndian;
    PowEight();
    hide Pow256;
    OffsetReturns(offset, 8);
  }

  lemma PowEight()
    ensures Pow256(8) == 0x1_0000_0000_0000_0000
  {
  }

  // ---- The files of a sequence of entries ------------------------------------------------

  function Data(entries: seq<Entry>): Bytes {
    if entries == [] then [] else Data(entries[..|entries| - 1]) + Encode(entries[|entries| - 1])
  }

  function Meta(entries: seq<Entry>): (r: Bytes)
    ensures |r| == 8 * |entries|
  {
    if entries == [] then []
    else Meta(entries[..|entries| - 1]) + OffsetBytes(|Data(entries[..|entries| - 1])|)
  }

  lemma DataPush(entries: seq<Entry>, e: Entry)
    ensures Data(entries + [e]) == Data(entries) + Encode(e)
    ensures Meta(entries + [e]) == Meta(entries) + OffsetBytes(|Data(entries)|)
  {
  }

  /** The files of a prefix are prefixes of the files. */
  lemma {:induction false} FilesOfPrefix(entries: seq<Entry>, i: nat)
    requires i <= |entries|
    ensures Data(entries[..i]) <= Data(entries) && Meta(entries[..i]) <= Meta(entries)
    decreases |entries|
  {
    if i == |entries| {
      assert entries[..i] == entries;
    } else {
      var init := entries[..|entries| - 1];
      FilesOfPrefix(init, i);
      assert init[..i] == entries[..i];
    }
  }

  /** Offsets are where the entries before end; they do not decrease, but an empty wire form repeats one. */
  lemma Offsets(entries: seq<Entry>, i: nat)
    requires i < |entries| && |Data(entries)| < MAX_FILE
    ensures |Data(entries[..i])| <= |Data(entries[..i + 1])| <= |Data(entries)|
    ensures |Data(entries[..i])| == |Data(entries[..i + 1])| <==> Encode(entries[i]) == []
    ensures Data(entries)[|Data(entries[..i])|..|Data(entries[..i + 1])|] == Encode(entries[i])
    ensures ReadOffset(Meta(entries)[8 * i..8 * i + 8]) == |Data(entries[..i])|
  {
    hide *;
    OffsetParts(entries, i);
    var d, m := Data(entries[..i]), Meta(entries[..i]);
    var offset := OffsetBytes(|d|);
    OffsetReads(|d|);
    SliceOfPrefix(Data(entries), d, Encode(entries[i]));
    SliceOfPrefix(Meta(entries), m, offset);
  }

  lemma OffsetParts(entries: seq<Entry>, i: nat)
    requires i < |entries|
    ensures Data(entries[..i + 1]) == Data(entries[..i]) + Encode(entries[i]) <= Data(entries)
    ensures Meta(entries[..i]) + OffsetBytes(|Data(entries[..i])|) <= Meta(entries)
    ensures |Meta(entries[..i])| == 8 * i
  {
    assert entries[..i + 1] == entries[..i] + [entries[i]];
    DataPush(entries[..i], entries[i]);
    FilesOfPrefix(entries, i + 1);
  }

  lemma SliceOfPrefix(whole: Bytes, a: Bytes, b: Bytes)
    requires a + b <= whole
    ensures whole[|a|..|a| + |b|] == b
  {
  }

  /** The default entry, the first of every Raft log, has an empty wire form, so it shares its offset with its successor. */
  lemma DefaultEntryIsEmpty()
    ensures Encode(DUMMY) == [] && Stored(DUMMY) == DUMMY && Fits(DUMMY)
  {
  }

  /** The two files say which entries they hold, if their keys are well-formed. */
  lemma FilesDetermine(a: seq<Entry>, b: seq<Entry>)
    requires forall e :: e in a + b ==> Fits(e) && Utf8.Valid(e.key)
    requires Data(a) == Data(b) && Meta(a) == Meta(b) && |Data(a)| < MAX_FILE
    ensures a == b
  {
    forall i | 0 <= i < |a| ensures a[i] == b[i] {
      SameSlices(a, b, i);
      assert a[i] in a + b && b[i] in a + b;
      Injective(a[i], b[i]);
    }
  }

  lemma SameSlices(a: seq<Entry>, b: seq<Entry>, i: nat)
    requires Data(a) == Data(b) && Meta(a) == Meta(b) && |Data(a)| < MAX_FILE && i < |a| == |b|
    ensures Encode(a[i]) == Encode(b[i])
  {
    hide Data, Meta, ReadOffset, OffsetBytes, Encode;
    Offsets(a, i);
    Offsets(b, i);
    if i + 1 < |a| {
      Offsets(a, i + 1);
      Offsets(b, i + 1);
    } else {
      assert a[..i + 1] == a && b[..i + 1] == b;
    }
  }

  class LogVec {
    var data: Bytes
    var meta: Bytes
    var entryCount: nat
    ghost var entries: seq<Entry>

    ghost predicate Valid()
      reads this
    {
      && (forall e :: e in entries ==> Fits(e))
      && data == Data(entries) && meta == Meta(entries) && entryCount == |entries| && |data| < MAX_FILE
    }

    /** Opening the two files; new files are empty. */
    constructor (data: Bytes, meta: Bytes, ghost entries: seq<Entry>)
      requires (forall e :: e in entries ==> Fits(e)) && |data| < MAX_FILE
      requires data == Data(entries) && meta == Meta(entries)
      ensures Valid() && this.entries == entries
    {
      this.data, this.meta, this.entries := data, meta, entries;
      entryCount := |meta| / 8;
    }

    method PushBack(value: Entry)
      requires Valid() && Fits(value) && |data| + |Encode(value)| < MAX_FILE
      modifies this
      ensures Valid() && entries == old(entries) + [value] && |data| == old(|data|) + |Encode(value)|
    {
      DataPush(entries, value);
      var buf := EncodeEntry(value);
      var offset := |data|;
      data := data + buf;
      meta := meta + OffsetBytes(offset);
      entryCount := entryCount + 1;
      entries := entries + [value];
    }

    /** operator[]: the entry as it reads back. */
    method At(idx: nat) returns (e: Entry)
      requires Valid() && idx < entryCount
      ensures e == Stored(entries[idx])
    {
      Offsets(entries, idx);
      var offset := GetOffset(idx);
      var nextOffset := |data|;
      if idx + 1 < entryCount {
        Offsets(entries, idx + 1);
        nextOffset := GetOffset(idx + 1);
      } else {
        assert entries[..idx + 1] == entries;
      }
      e := DecodeEntry(data[offset..nextOffset]);
      assert entries[idx] in entries;
      RoundTrip(entries[idx]);
    }

    method GetOffset(idx: nat) returns (offset: nat)
      requires Valid() && idx < entryCount
      ensures offset == |Data(entries[..idx])|
    {
      Offsets(entries, idx);
      offset := ReadOffset(meta[8 * idx..8 * idx + 8]);
    }

    method Size() returns (n: nat)
      requires Valid()
      ensures n == |entries|
    {
      n := entryCount;
    }

    method TruncateFrom(idx: nat)
      requires Valid()
      modifies this
      ensures Valid() && entries == (if idx < old(|entries|) then old(entries)[..idx] else old(entries))
      ensures |data| <= old(|data|)
    {
      if idx >= entryCount { return; }
      var newDataSize := 0;
      if idx > 0 {
        newDataSize := GetOffset(idx);
      }
      FilesOfPrefix(entries, idx);
      data := data[..newDataSize];
      meta := meta[..8 * idx];
      entryCount := idx;
      entries := entries[..idx];
    }

    method EncodeEntry(e: Entry) returns (buf: Bytes)
      requires Fits(e)
      ensures buf == Encode(e)
    {
      var m := new Message.Of(e);
      ByteSizeExact(e);
      var out := new Byte[ByteSize(e)];
      var end := m.InternalSerialize(out, 0);
      buf := out[..];
    }

    method DecodeEntry(buf: Bytes) returns (e: Entry)
      ensures e == Decode(buf)
    {
      var m := new Message();
      var ok := m.InternalParse(buf);
      e := m.View();
    }
  }
}
