/** Monitoring records, as the Store keeps them and both wire formats carry them. */
module MonitorData {
  import opened Bytes

  datatype Key = Key(mid: u32, level: u32, fid: u32, eid: u32)

  /** `Valueless` is the state of a variant whose assignment threw. */
  datatype Value = Numeric(value: u32, state: u32) | Text(text: seq<byte>) | Valueless

  datatype Data = Data(key: Key, description: seq<byte>, value: Value)

  /** `changedAt` is a count of nanoseconds since the epoch. */
  datatype StoredRecord = StoredRecord(data: Data, changedAt: i64)

  datatype Option<+T> = None | Some(value: T)
}
