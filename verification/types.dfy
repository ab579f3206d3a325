/** Shared data model of the batch index: log entries, the log itself, and
    the error outcomes every operation can report. */
module Types {

  newtype byte = x: int | 0 <= x < 256

  /** One stored block payload. */
  type Block = seq<byte>

  datatype Option<+T> = None | Some(value: T)

  /** The failures the engine distinguishes.
      - OutOfBounds: a position outside a batch ("Out of bounds").
      - NotFound: a batch index that the lookup cannot reach ("Cannot find batch").
      - ReadError: the log has no entry at the requested sequence number.
      - Malformed: a lookup reached an entry without a pointer list, where
        `_gallop` dereferences a null list (`decompress(seq, null)`). */
  datatype Error = OutOfBounds | NotFound | ReadError | Malformed

  datatype Result<+T> = Ok(value: T) | Err(error: Error)

  /** One physical record of the append-only log.
      `byteLength` is cumulative over the whole log up to and including this
      entry; `index` is the delta-compressed skip-pointer list, present only on
      the last entry of a batch. */
  datatype Entry = Entry(
    batchIndex: nat,
    blockIndex: nat,
    byteLength: nat,
    block: Block,
    index: Option<seq<int>>
  )

  /** The append-only log: entry `s` is the record with sequence number `s`. */
  type Log = seq<Entry>
}
