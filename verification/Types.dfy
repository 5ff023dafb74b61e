/** Values shared by the Raft node, its log store and the CURP tables. */
module Types {

  type Byte = b: int | 0 <= b < 0x100
  type Bytes = seq<Byte>

  type Int32 = i: int | -0x8000_0000 <= i < 0x8000_0000
  type Int64 = i: int | -0x8000_0000_0000_0000 <= i < 0x8000_0000_0000_0000

  /** One log entry, as declared in proto/raft.proto. */
  datatype Entry = Entry(seqNo: Int64, term: Int32, key: Bytes, value: Bytes)

  /** The default entry that every log starts with. */
  const DUMMY: Entry := Entry(0, 0, [], [])
}
