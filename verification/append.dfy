/** Appending one batch: build its entries (cumulative byte lengths, block
    positions, and the skip pointers on its last entry) and extend the log. */
module Appending {
  import opened Types
  import opened Delta
  import opened BatchView
  import opened Lookup

  /** Number of bytes in the first `m` blocks. */
  function BytesBefore(blocks: seq<Block>, m: nat): nat
    requires m <= |blocks|
  {
    if m == 0 then 0 else BytesBefore(blocks, m - 1) + |blocks[m - 1]|
  }

  /** Number of bytes in all the blocks. */
  function TotalLength(blocks: seq<Block>): nat
  {
    BytesBefore(blocks, |blocks|)
  }

  /** Sequence numbers of the heads of batches n - f, n - 2f, n - 4f, ...
      down to batch 0, each found by a lookup in the current log. The first
      failing lookup aborts the whole list. */
  function Pointers(log: Log, n: int, i: nat, f: int): (r: Result<seq<int>>)
    requires f == Pow2(i)
    ensures r.Ok? ==> |r.value| == |SkipTargets(n, i, f)|
    ensures r.Ok? ==> forall j :: 0 <= j < |r.value| ==>
      0 <= r.value[j] < |log| && log[r.value[j]].batchIndex == SkipTargets(n, i, f)[j]
    decreases n + 1 - f
  {
    if n - f < 0 then Ok([])
    else
      match Get(log, n - f)
      case Err(e) => Err(e)
      case Ok(b) =>
        match Pointers(log, n, i + 1, f * 2)
        case Err(e) => Err(e)
        case Ok(rest) =>
          Ok([b.sequence] + rest)
  }

  /** Entries for blocks i.. of a batch: entry i sits at sequence number
      `at`, continues the running byte count `byteLength`, and only the last
      one carries the pointer list, compressed against its own sequence number. */
  function EntriesFrom(blocks: seq<Block>, i: nat, batchIndex: nat, byteLength: nat,
                       at: int, pointers: seq<int>): (es: seq<Entry>)
    requires i <= |blocks|
    ensures |es| == |blocks| - i
    ensures forall j :: 0 <= j < |es| ==>
      es[j].batchIndex == batchIndex &&
      es[j].blockIndex == i + j &&
      es[j].block == blocks[i + j] &&
      es[j].byteLength == byteLength + BytesBefore(blocks, i + j + 1) - BytesBefore(blocks, i) &&
      es[j].index == (if i + j == |blocks| - 1 then Some(Compress(at + j, pointers)) else None)
    decreases |blocks| - i
  {
    if i == |blocks| then []
    else
      var total := byteLength + |blocks[i]|;
      var index := if i == |blocks| - 1 then Some(pointers) else None;
      var rest := EntriesFrom(blocks, i + 1, batchIndex, total, at + 1, pointers);
      [Entry(batchIndex, i, total, blocks[i], CompressOpt(at, index))] + rest
  }

  /** The entries of the batch that `blocks` forms on top of `log`, given
      its pointer list: they continue the head batch's index and byte count
      and start at the sequence number after the head. */
  function NewEntries(log: Log, blocks: seq<Block>, pointers: seq<int>): (es: seq<Entry>)
    ensures |es| == |blocks|
    ensures forall j :: 0 <= j < |es| ==>
      es[j].batchIndex == Length(log) &&
      es[j].blockIndex == j &&
      es[j].block == blocks[j] &&
      es[j].byteLength == ByteLength(log) + BytesBefore(blocks, j + 1) &&
      es[j].index == (if j == |blocks| - 1 then Some(Compress(|log| + j, pointers)) else None)
  {
    var head := Head(log);
    var batchIndex := if head.Some? then head.value.Index() + 1 else 0;
    var byteLength := if head.Some? then head.value.head.byteLength else 0;
    var first := if head.Some? then head.value.sequence + 1 else 0;
    assert batchIndex == Length(log) && byteLength == ByteLength(log) && first == |log|;
    var es := EntriesFrom(blocks, 0, batchIndex, byteLength, first, pointers);
    assert forall j :: 0 <= j < |es| ==>
      es[j].byteLength == byteLength + BytesBefore(blocks, j + 1) - BytesBefore(blocks, 0);
    assert BytesBefore(blocks, 0) == 0;
    es
  }

  /** Appends `blocks` as one new batch and returns the extended log with the
      new batch's index (one past the head batch's, 0 on an empty log). The
      pointer list is computed only when there is a last block to carry it,
      and a failed lookup aborts the append with the log unchanged. An empty
      `blocks` appends nothing. */
  function Append(log: Log, blocks: seq<Block>): (r: Result<(Log, nat)>)
    ensures r.Err? ==> |blocks| > 0 && |log| > 0 && Pointers(log, Length(log), 0, 1).Err?
    ensures r.Ok? ==> r.value.1 == Length(log)
    ensures r.Ok? ==> |r.value.0| == |log| + |blocks| && r.value.0[..|log|] == log
    ensures r.Ok? && |blocks| == 0 ==> r.value.0 == log
    ensures r.Ok? && |blocks| > 0 ==>
      var p := Pointers(log, Length(log), 0, 1);
      p.Ok? && r.value.0 == log + NewEntries(log, blocks, p.value)
  {
    var batchIndex := Length(log);
    var pointers := if |blocks| == 0 then Ok([]) else Pointers(log, batchIndex, 0, 1);
    match pointers
    case Err(e) => Err(e)
    case Ok(p) =>
      var log' := log + NewEntries(log, blocks, p);
      assert log'[..|log|] == log;
      Ok((log', batchIndex))
  }
}
