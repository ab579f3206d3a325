/** The shape of a log built by appends, and lookup correctness on it.
    `heads[k]` is the sequence number of the last entry of batch k. */
module Shape {
  import opened Types
  import opened Delta
  import opened BatchView
  import opened Lookup

  ghost predicate Increasing(heads: seq<nat>) {
    forall i, j :: 0 <= i < j < |heads| ==> heads[i] < heads[j]
  }

  /** Sequence number of the first entry of batch k. */
  function Start(heads: seq<nat>, k: nat): nat
    requires k < |heads|
  {
    if k == 0 then 0 else heads[k - 1] + 1
  }

  /** Entry `s` lies inside batch k. */
  ghost predicate InBatch(heads: seq<nat>, k: int, s: int)
  {
    0 <= k < |heads| && Start(heads, k) <= s <= heads[k]
  }

  /** The head sequence numbers of the given batch indices. */
  function HeadsOf(heads: seq<nat>, targets: seq<int>): (r: seq<int>)
    requires forall j :: 0 <= j < |targets| ==> 0 <= targets[j] < |heads|
    ensures |r| == |targets|
    ensures forall j :: 0 <= j < |r| ==> r[j] == heads[targets[j]]
  {
    seq(|targets|, j requires 0 <= j < |targets| => heads[targets[j]])
  }

  /** The absolute skip pointers the head of batch n carries: the heads of
      batches n - 1, n - 2, n - 4, ... down to batch 0. */
  function Fingers(heads: seq<nat>, n: nat): (r: seq<int>)
    requires n <= |heads|
    ensures |r| == |SkipTargets(n, 0, 1)|
    ensures forall j :: 0 <= j < |r| ==>
      0 <= SkipTargets(n, 0, 1)[j] < n && r[j] == heads[SkipTargets(n, 0, 1)[j]]
  {
    HeadsOf(heads, SkipTargets(n, 0, 1))
  }

  /** The invariant of a log built only by appends of non-empty batches:
      batches occupy consecutive ranges ending at their heads, every entry
      knows its batch and position, only heads carry pointer lists, and the
      head of batch k stores the delta-compressed Fingers(heads, k). */
  ghost predicate Shaped(log: Log, heads: seq<nat>) {
    && (|heads| == 0 <==> |log| == 0)
    && (|heads| > 0 ==> heads[|heads| - 1] == |log| - 1)
    && Increasing(heads)
    && (forall k :: 0 <= k < |heads| ==> heads[k] < |log|)
    && (forall k, s {:trigger InBatch(heads, k, s)} :: InBatch(heads, k, s) ==>
          && s < |log|
          && log[s].batchIndex == k
          && log[s].blockIndex == s - Start(heads, k)
          && (log[s].index.Some? <==> s == heads[k]))
    && (forall k :: 0 <= k < |heads| ==> HeadCarriesFingers(log, heads, k))
  }

  /** The head of batch k stores Fingers(heads, k) compressed against its own
      sequence number. */
  ghost predicate HeadCarriesFingers(log: Log, heads: seq<nat>, k: nat)
    requires k < |heads| && heads[k] < |log|
  {
    log[heads[k]].index == Some(Compress(heads[k], Fingers(heads, k)))
  }

  /** The empty log is shaped, with no batches. */
  lemma EmptyShaped()
    ensures Shaped([], [])
  {
  }

  /** The batch view of batch k. */
  function BatchAt(log: Log, heads: seq<nat>, k: nat): (b: Batch)
    requires Shaped(log, heads) && k < |heads|
    ensures InLog(log, b) && b.sequence == heads[k]
    ensures b.Index() == k && b.Length() == heads[k] - Start(heads, k) + 1
  {
    assert InBatch(heads, k, heads[k]);
    Batch(heads[k], log[heads[k]])
  }

  lemma ShapedHead(log: Log, heads: seq<nat>)
    requires Shaped(log, heads) && |heads| > 0
    ensures Head(log) == Some(BatchAt(log, heads, |heads| - 1))
  {
  }

  /** The number of batches reported is the number of batches in the log. */
  lemma LengthIsBatchCount(log: Log, heads: seq<nat>)
    requires Shaped(log, heads)
    ensures Length(log) == |heads|
  {
    if |heads| > 0 {
      assert InBatch(heads, |heads| - 1, heads[|heads| - 1]);
    }
  }

  /** The pointer list of batch k > 0 is never empty: slot 0 is batch k - 1. */
  lemma SkipTargetsNonEmpty(k: int)
    requires k >= 1
    ensures |SkipTargets(k, 0, 1)| > 0 && SkipTargets(k, 0, 1)[0] == k - 1
  {
  }

  /** One gallop step from batch k towards target < k lands on a batch j with
      target <= j < k: it never overshoots and always makes progress. */
  lemma {:induction false} GallopStep(log: Log, heads: seq<nat>, k: nat, target: int)
    returns (j: nat)
    requires Shaped(log, heads)
    requires 0 <= target < k < |heads|
    ensures target <= j < k
    ensures Gallop(log, BatchAt(log, heads, k), target) == Ok(Some(BatchAt(log, heads, j)))
  {
    var b := BatchAt(log, heads, k);
    var fingers := Fingers(heads, k);
    assert HeadCarriesFingers(log, heads, k);
    assert b.head.index == Some(Compress(heads[k], fingers));
    DecompressCompress(heads[k], fingers);
    var pointers := Decompress(b.sequence, Compress(heads[k], fingers));
    assert pointers == fingers;
    SkipTargetsNonEmpty(k);
    var step := Scan(k, target, |pointers|, 0, 1);
    assert step.Follow?;
    var slot := step.slot;
    j := SkipTargets(k, 0, 1)[slot];
    assert target <= j < k;
    assert pointers[slot] == heads[j];
    assert heads[j] < heads[k];
    assert GetBySeqSafe(log, pointers[slot], b.sequence) == Ok(Some(BatchAt(log, heads, j)));
  }

  /** From batch k the lookup loop reaches every target in [0, k]. */
  lemma {:induction false} WalkReaches(log: Log, heads: seq<nat>, k: nat, target: int)
    requires Shaped(log, heads)
    requires 0 <= target <= k < |heads|
    ensures Walk(log, BatchAt(log, heads, k), target) == Ok(BatchAt(log, heads, target))
    decreases k
  {
    if k > target {
      var j := GallopStep(log, heads, k, target);
      WalkReaches(log, heads, j, target);
    }
  }

  /** Lookup on a shaped log finds every batch index up to the head's. */
  lemma GetFinds(log: Log, heads: seq<nat>, target: int)
    requires Shaped(log, heads)
    requires 0 <= target < |heads|
    ensures Get(log, target) == Ok(BatchAt(log, heads, target))
  {
    ShapedHead(log, heads);
    WalkReaches(log, heads, |heads| - 1, target);
  }

  /** Lookup on a shaped log fails for every index past the head's. */
  lemma GetBeyondHead(log: Log, heads: seq<nat>, target: int)
    requires Shaped(log, heads)
    requires target >= |heads|
    ensures Get(log, target) == Err(NotFound)
  {
    LengthIsBatchCount(log, heads);
  }

  /** Position i of batch k is the entry Start(k) + i, which records batch k
      and position i. */
  lemma EntryOfPosition(log: Log, heads: seq<nat>, k: nat, i: int)
    requires Shaped(log, heads) && k < |heads|
    requires 0 <= i < BatchAt(log, heads, k).Length()
    ensures InBatch(heads, k, Start(heads, k) + i) && Start(heads, k) + i < |log|
    ensures log[Start(heads, k) + i].batchIndex == k
    ensures log[Start(heads, k) + i].blockIndex == i
  {
    assert InBatch(heads, k, Start(heads, k) + i);
  }

  /** Reading position i of batch k yields the block of that entry: a batch
      view never reads outside its own batch. */
  lemma BlockAtReadsOwnBatch(log: Log, heads: seq<nat>, k: nat, i: int)
    requires Shaped(log, heads) && k < |heads|
    requires 0 <= i < BatchAt(log, heads, k).Length()
    ensures Start(heads, k) + i < |log|
    ensures BlockAt(log, BatchAt(log, heads, k), i) == Ok(log[Start(heads, k) + i].block)
  {
    var b := BatchAt(log, heads, k);
    assert b.sequence - b.Length() + 1 == Start(heads, k);
  }
}
