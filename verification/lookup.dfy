/** Lookup of a batch by its logical index: start at the head batch and
    gallop backwards along the skip pointers stored in batch heads. */
module Lookup {
  import opened Types
  import opened Delta
  import opened BatchView

  function Pow2(j: nat): (r: nat)
    ensures r >= 1
  {
    if j == 0 then 1 else 2 * Pow2(j - 1)
  }

  /** Batch indices n - 2^i, n - 2^(i+1), ... that are still >= 0: the
      batches a head at index n points back to, starting from slot i. */
  function SkipTargets(n: int, i: nat, f: int): (r: seq<int>)
    requires f == Pow2(i)
    ensures forall j :: 0 <= j < |r| ==> r[j] == n - Pow2(i + j) && r[j] >= 0
    ensures Pow2(i + |r|) > n
    decreases n + 1 - f
  {
    if n - f < 0 then [] else [n - f] + SkipTargets(n, i + 1, f * 2)
  }

  /** Which pointer slot a gallop step follows.
      - Follow(slot): read the batch at pointer `slot`.
      - BeforeFirst: the very first offset already lies below the target, and
        the code reads the pointer before slot 0, which does not exist.
      - NoPointers: the pointer list is empty. */
  datatype Step = Follow(slot: nat) | BeforeFirst | NoPointers

  /** Scans slots i, i+1, ... of a batch with index `k`, slot j standing for
      the batch at distance 2^j behind it, and picks the farthest jump that
      does not pass `target` (or the last slot when every slot stays above
      `target`). */
  function Scan(k: int, target: int, n: nat, i: nat, f: int): (r: Step)
    requires f == Pow2(i)
    requires forall j :: 0 <= j < i && j < n ==> k - Pow2(j) > target
    ensures r.NoPointers? <==> n == 0
    ensures r.BeforeFirst? <==> n > 0 && i == 0 && k - 1 < target
    ensures r.Follow? ==> r.slot < n && k - Pow2(r.slot) >= target
    ensures r.Follow? && r.slot + 1 < n ==> k - Pow2(r.slot + 1) < target
    decreases n - i
  {
    if i >= n then
      if n == 0 then NoPointers else Follow(n - 1)
    else
      var t := k - f;
      if t == target then Follow(i)
      else if t < target then
        if i == 0 then BeforeFirst else Follow(i - 1)
      else Scan(k, target, n, i + 1, f * 2)
  }

  /** A gallop started by the lookup loop (batch index above the target)
      never asks for the pointer before slot 0. */
  lemma LookupScanNeverBeforeFirst(k: int, target: int, n: nat)
    requires k > target
    ensures Scan(k, target, n, 0, 1) != BeforeFirst
  {
  }

  /** Reads the batch at `s` only when it lies strictly before `prev`;
      otherwise yields no batch. */
  function GetBySeqSafe(log: Log, s: int, prev: int): (r: Result<Option<Batch>>)
    ensures !(s < prev) ==> r == Ok(None)
    ensures r.Ok? && r.value.Some? ==>
      r.value.value.sequence == s && s < prev && InLog(log, r.value.value)
    ensures s < prev ==> (r.Err? <==> !(0 <= s < |log|))
    ensures s < prev && 0 <= s < |log| ==> r == Ok(Some(Batch(s, log[s])))
  {
    if !(s < prev) then Ok(None)
    else
      match GetBySeq(log, s)
      case Err(e) => Err(e)
      case Ok(b) => Ok(Some(b))
  }

  /** One gallop step from batch `b` towards `target`: decode b's pointers,
      choose a slot, and read the batch there. A batch whose head carries no
      pointer list fails as malformed. Any batch returned is in the log and
      strictly before `b`, which is what makes the lookup loop terminate. */
  function Gallop(log: Log, b: Batch, target: int): (r: Result<Option<Batch>>)
    ensures b.head.index.None? ==> r == Err(Malformed)
    ensures b.head.index == Some([]) ==> r == Ok(None)
    ensures r.Ok? && r.value.Some? ==>
      r.value.value.sequence < b.sequence && InLog(log, r.value.value)
  {
    match b.head.index
    case None => Err(Malformed)
    case Some(deltas) =>
      var pointers := Decompress(b.sequence, deltas);
      match Scan(b.Index(), target, |pointers|, 0, 1)
      case NoPointers => Ok(None)
      case BeforeFirst => Ok(None)
      case Follow(slot) => GetBySeqSafe(log, pointers[slot], b.sequence)
  }

  /** The lookup loop from batch `b`: stop at the target, give up once below
      it, otherwise gallop and continue. */
  function Walk(log: Log, b: Batch, target: int): (r: Result<Batch>)
    requires InLog(log, b)
    ensures r.Ok? ==> r.value.Index() == target && InLog(log, r.value)
    ensures r.Ok? ==> r.value.sequence <= b.sequence
    ensures b.Index() < target ==> r == Err(NotFound)
    decreases b.sequence
  {
    if b.Index() == target then Ok(b)
    else if b.Index() < target then Err(NotFound)
    else
      match Gallop(log, b, target)
      case Err(e) => Err(e)
      case Ok(None) => Err(NotFound)
      case Ok(Some(next)) => Walk(log, next, target)
  }

  /** The batch with logical index `target`, found from the head of the log. */
  function Get(log: Log, target: int): (r: Result<Batch>)
    ensures r.Ok? ==> r.value.Index() == target && InLog(log, r.value)
    ensures |log| == 0 ==> r == Err(NotFound)
    ensures |log| > 0 && target > log[|log| - 1].batchIndex ==> r == Err(NotFound)
    ensures |log| > 0 && target == log[|log| - 1].batchIndex ==>
      r == Ok(Batch(|log| - 1, log[|log| - 1]))
  {
    match Head(log)
    case None => Err(NotFound)
    case Some(h) => Walk(log, h, target)
  }

  /** Number of batches: the head's index plus one, or 0 for an empty log. */
  function Length(log: Log): (n: nat)
    ensures |log| == 0 ==> n == 0
    ensures |log| > 0 ==> n == log[|log| - 1].batchIndex + 1
  {
    match Head(log)
    case None => 0
    case Some(h) => h.Index() + 1
  }

  /** Total bytes stored: the head entry's cumulative byte length, or 0. */
  function ByteLength(log: Log): (n: nat)
    ensures |log| == 0 ==> n == 0
    ensures |log| > 0 ==> n == log[|log| - 1].byteLength
  {
    match Head(log)
    case None => 0
    case Some(h) => h.head.byteLength
  }
}
