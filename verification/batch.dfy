/** A batch as seen through its last ("head") entry, and the log reads that
    materialise one. */
module BatchView {
  import opened Types

  /** The view built from the head entry read at sequence number `sequence`. */
  datatype Batch = Batch(sequence: nat, head: Entry) {
    /** Number of blocks in the batch: the head's position plus one. */
    function Length(): nat { head.blockIndex + 1 }

    /** The batch's logical index, carried by its head entry. */
    function Index(): nat { head.batchIndex }
  }

  /** The batch view really sits on the log: its head is the entry at its
      sequence number. */
  ghost predicate InLog(log: Log, b: Batch) {
    b.sequence < |log| && log[b.sequence] == b.head
  }

  /** Reads entry `s` and views it as a batch head; a sequence number the log
      does not hold fails with a read error. */
  function GetBySeq(log: Log, s: int): (r: Result<Batch>)
    ensures r.Ok? <==> 0 <= s < |log|
    ensures r.Ok? ==> r.value.sequence == s && InLog(log, r.value)
    ensures r.Err? ==> r.error == ReadError
  {
    if 0 <= s < |log| then Ok(Batch(s, log[s])) else Err(ReadError)
  }

  /** The batch ending at the last entry of the log, or none for an empty log. */
  function Head(log: Log): (r: Option<Batch>)
    ensures r.None? <==> |log| == 0
    ensures r.Some? ==> r.value.sequence == |log| - 1 && InLog(log, r.value)
  {
    if |log| == 0 then None else Some(Batch(|log| - 1, log[|log| - 1]))
  }

  /** Sequence number of position `i` of the batch, for every position
      except the last one (which is the head itself). */
  function BlockSeq(b: Batch, i: int): (s: int)
    requires 0 <= i < b.Length() - 1
    ensures b.sequence - b.Length() + 1 <= s <= b.sequence - 1
    ensures s - (b.sequence - b.Length() + 1) == i
  {
    b.sequence - b.Length() + 1 + i
  }

  /** The block of one entry, or a read error outside the log. */
  function ReadBlock(log: Log, s: int): (r: Result<Block>)
    ensures r.Ok? <==> 0 <= s < |log|
    ensures r.Ok? ==> r.value == log[s].block
    ensures r.Err? ==> r.error == ReadError
  {
    if 0 <= s < |log| then Ok(log[s].block) else Err(ReadError)
  }

  /** Block `i` of the batch: out of bounds outside [0, Length()); the head's
      own block for the last position, without reading; otherwise the block
      read at the position's sequence number. */
  function BlockAt(log: Log, b: Batch, i: int): (r: Result<Block>)
    ensures (i < 0 || i >= b.Length()) <==> r == Err(OutOfBounds)
    ensures i == b.Length() - 1 ==> r == Ok(b.head.block)
    ensures 0 <= i < b.Length() - 1 ==>
      r == ReadBlock(log, b.sequence - b.Length() + 1 + i)
  {
    if i >= b.Length() || i < 0 then Err(OutOfBounds)
    else if i == b.Length() - 1 then Ok(b.head.block)
    else ReadBlock(log, BlockSeq(b, i))
  }
}
