/** Correctness of the append/lookup pair: appends keep a log shaped, so on
    any log built only by appends every batch index up to the head is found. */
module Correctness {
  import opened Types
  import opened Delta
  import opened BatchView
  import opened Lookup
  import opened Appending
  import opened Shape

  lemma {:induction false} Pow2Increasing(a: nat, b: nat)
    requires a < b
    ensures Pow2(a) < Pow2(b)
    decreases b
  {
    if a < b - 1 {
      Pow2Increasing(a, b - 1);
    }
  }

  /** The pointer list of batch n: slot j holds the head of batch n - 2^j,
      there is a slot for exactly the powers of two not above n, and the
      pointers descend strictly. */
  lemma FingersLayout(heads: seq<nat>, n: nat)
    requires Increasing(heads) && n <= |heads|
    ensures forall j :: 0 <= j < |Fingers(heads, n)| ==>
      0 <= n - Pow2(j) && Fingers(heads, n)[j] == heads[n - Pow2(j)]
    ensures forall j: nat :: j < |Fingers(heads, n)| <==> Pow2(j) <= n
    ensures forall a, b :: 0 <= a < b < |Fingers(heads, n)| ==>
      Fingers(heads, n)[b] < Fingers(heads, n)[a]
  {
    var f := Fingers(heads, n);
    var ts := SkipTargets(n, 0, 1);
    forall j: nat
      ensures j < |f| <==> Pow2(j) <= n
    {
      if j < |f| {
        assert ts[j] == n - Pow2(0 + j);
      } else if j > |f| {
        Pow2Increasing(|f|, j);
      }
    }
    forall a, b | 0 <= a < b < |f|
      ensures f[b] < f[a]
    {
      Pow2Increasing(a, b);
      assert ts[a] == n - Pow2(0 + a) && ts[b] == n - Pow2(0 + b);
    }
  }

  /** The first batch has no earlier batch to point to: its last entry
      carries an explicit empty list, while its other entries carry none. */
  lemma FirstBatchHead(blocks: seq<Block>)
    requires |blocks| > 0
    ensures Append([], blocks).Ok?
    ensures Append([], blocks).value.1 == 0
    ensures Append([], blocks).value.0[|blocks| - 1].index == Some([])
    ensures forall j :: 0 <= j < |blocks| - 1 ==> Append([], blocks).value.0[j].index.None?
  {
    assert Pointers([], 0, 0, 1) == Ok([]);
    var es := NewEntries([], blocks, []);
    assert Append([], blocks).value.0 == es;
    assert es[|blocks| - 1].index == Some(Compress(|blocks| - 1, []));
  }

  /** Lookup of every existing batch index yields that batch's head. */
  ghost predicate Findable(log: Log, heads: seq<nat>) {
    forall t :: 0 <= t < |heads| ==> FoundAt(log, heads, t)
  }

  /** A lookup of batch t yields the view of its head entry. */
  ghost predicate FoundAt(log: Log, heads: seq<nat>, t: int)
    requires 0 <= t < |heads|
  {
    heads[t] < |log| && Get(log, t) == Ok(Batch(heads[t], log[heads[t]]))
  }

  lemma ShapedFindable(log: Log, heads: seq<nat>)
    requires Shaped(log, heads)
    ensures Findable(log, heads)
  {
    forall t | 0 <= t < |heads|
      ensures FoundAt(log, heads, t)
    {
      GetFinds(log, heads, t);
    }
  }

  /** One step of the pointer loop: the head of batch n - f found by the
      lookup, followed by the pointers at the remaining distances. */
  lemma PointersStep(log: Log, heads: seq<nat>, i: nat, f: int, rest: seq<int>)
    requires f == Pow2(i) && 0 <= |heads| - f < |heads|
    requires FoundAt(log, heads, |heads| - f)
    requires Pointers(log, |heads|, i + 1, f * 2) == Ok(rest)
    ensures Pointers(log, |heads|, i, f) == Ok([heads[|heads| - f]] + rest)
  {
  }

  /** The heads at distances f, 2f, 4f, ... behind batch |heads|: the head
      at distance f, then those at 2f, 4f, .... */
  lemma HeadsOfStep(heads: seq<nat>, i: nat, f: int)
    requires f == Pow2(i) && 0 <= |heads| - f
    ensures HeadsOf(heads, SkipTargets(|heads|, i, f))
         == [heads[|heads| - f]] + HeadsOf(heads, SkipTargets(|heads|, i + 1, f * 2))
  {
    var rest := SkipTargets(|heads|, i + 1, f * 2);
    assert SkipTargets(|heads|, i, f) == [|heads| - f] + rest;
  }

  /** When every batch can be found, the append-time pointer loop finds the
      heads of the batches at every power-of-two distance behind the new one. */
  lemma {:induction false} PointersShaped(log: Log, heads: seq<nat>, i: nat, f: int)
    requires Findable(log, heads) && f == Pow2(i)
    ensures Pointers(log, |heads|, i, f) == Ok(HeadsOf(heads, SkipTargets(|heads|, i, f)))
    decreases |heads| + 1 - f
  {
    var n := |heads|;
    if n - f >= 0 {
      assert FoundAt(log, heads, n - f);
      PointersShaped(log, heads, i + 1, f * 2);
      PointersStep(log, heads, i, f, Pointers(log, n, i + 1, f * 2).value);
      HeadsOfStep(heads, i, f);
    } else {
      assert HeadsOf(heads, SkipTargets(n, i, f)) == [];
    }
  }

  /** On a shaped log the append-time pointer loop yields the fingers of
      the next batch. */
  lemma NextFingers(log: Log, heads: seq<nat>)
    requires Shaped(log, heads)
    ensures Length(log) == |heads|
    ensures Pointers(log, |heads|, 0, 1) == Ok(Fingers(heads, |heads|))
  {
    LengthIsBatchCount(log, heads);
    ShapedFindable(log, heads);
    PointersShaped(log, heads, 0, 1);
  }

  /** Pointer lists only look at earlier heads, so later batches do not
      change them. */
  lemma FingersPrefix(heads: seq<nat>, h: nat, n: nat)
    requires n <= |heads|
    ensures Fingers(heads + [h], n) == Fingers(heads, n)
  {
    var a := Fingers(heads + [h], n);
    var b := Fingers(heads, n);
    assert forall j :: 0 <= j < |a| ==> a[j] == b[j];
  }

  /** The entries of one well-formed batch: all of batch n, numbered from 0,
      only the last carrying a list, and that list the compressed Fingers of
      batch n against the last entry's own sequence number. */
  ghost predicate NextBatch(log: Log, heads: seq<nat>, es: seq<Entry>)
  {
    && |es| > 0
    && (forall j :: 0 <= j < |es| ==>
          es[j].batchIndex == |heads| && es[j].blockIndex == j &&
          (es[j].index.Some? <==> j == |es| - 1))
    && es[|es| - 1].index == Some(Compress(|log| + |es| - 1, Fingers(heads, |heads|)))
  }

  lemma ExtendStart(log: Log, heads: seq<nat>, h: nat)
    requires Shaped(log, heads)
    ensures Start(heads + [h], |heads|) == |log|
    ensures forall k :: 0 <= k < |heads| ==> Start(heads + [h], k) == Start(heads, k)
  {
    if |heads| > 0 {
      assert InBatch(heads, |heads| - 1, heads[|heads| - 1]);
    }
  }

  /** Entries of the old batches are untouched and the new batch's entries
      record their batch and position. */
  lemma ExtendEntries(log: Log, heads: seq<nat>, es: seq<Entry>)
    requires Shaped(log, heads) && NextBatch(log, heads, es)
    ensures var log', heads' := log + es, heads + [|log| + |es| - 1];
      forall k, s :: InBatch(heads', k, s) ==>
        && s < |log'|
        && log'[s].batchIndex == k
        && log'[s].blockIndex == s - Start(heads', k)
        && (log'[s].index.Some? <==> s == heads'[k])
  {
    var log', heads' := log + es, heads + [|log| + |es| - 1];
    ExtendStart(log, heads, |log| + |es| - 1);
    forall k, s | InBatch(heads', k, s)
      ensures s < |log'|
      ensures log'[s].batchIndex == k
      ensures log'[s].blockIndex == s - Start(heads', k)
      ensures log'[s].index.Some? <==> s == heads'[k]
    {
      if k < |heads| {
        assert InBatch(heads, k, s);
        assert log'[s] == log[s];
      } else {
        assert log'[s] == es[s - |log|];
      }
    }
  }

  /** Old heads keep their pointer lists and the new head carries its own. */
  lemma ExtendHeads(log: Log, heads: seq<nat>, es: seq<Entry>)
    requires Shaped(log, heads) && NextBatch(log, heads, es)
    ensures var log', heads' := log + es, heads + [|log| + |es| - 1];
      forall k :: 0 <= k < |heads'| ==> heads'[k] < |log'| && HeadCarriesFingers(log', heads', k)
  {
    var log', heads' := log + es, heads + [|log| + |es| - 1];
    forall k | 0 <= k < |heads'|
      ensures heads'[k] < |log'| && HeadCarriesFingers(log', heads', k)
    {
      FingersPrefix(heads, |log| + |es| - 1, k);
      if k < |heads| {
        assert HeadCarriesFingers(log, heads, k);
        assert log'[heads[k]] == log[heads[k]];
      } else {
        assert log'[heads'[k]] == es[|es| - 1];
      }
    }
  }

  /** Adding one well-formed batch to a shaped log keeps it shaped. */
  lemma ExtendShape(log: Log, heads: seq<nat>, es: seq<Entry>)
    requires Shaped(log, heads) && NextBatch(log, heads, es)
    ensures Shaped(log + es, heads + [|log| + |es| - 1])
  {
    var heads' := heads + [|log| + |es| - 1];
    assert Increasing(heads');
    ExtendEntries(log, heads, es);
    ExtendHeads(log, heads, es);
  }

  /** Once the pointer loop yields the fingers of the new batch, append
      succeeds and adds exactly one well-formed batch. */
  lemma AppendAddsNextBatch(log: Log, heads: seq<nat>, blocks: seq<Block>)
    requires |blocks| > 0 && Length(log) == |heads|
    requires Pointers(log, |heads|, 0, 1) == Ok(Fingers(heads, |heads|))
    ensures Append(log, blocks).Ok?
    ensures Append(log, blocks).value.0 == log + NewEntries(log, blocks, Fingers(heads, |heads|))
    ensures NextBatch(log, heads, NewEntries(log, blocks, Fingers(heads, |heads|)))
  {
    var es := NewEntries(log, blocks, Fingers(heads, |heads|));
    assert es[|es| - 1].index == Some(Compress(|log| + |es| - 1, Fingers(heads, |heads|)));
  }

  /** Appending a non-empty batch to a shaped log succeeds and yields a shaped
      log with one more batch, whose head is the new last entry. */
  lemma AppendPreservesShape(log: Log, heads: seq<nat>, blocks: seq<Block>)
    returns (log': Log)
    requires Shaped(log, heads) && |blocks| > 0
    ensures Append(log, blocks) == Ok((log', |heads|))
    ensures Shaped(log', heads + [|log'| - 1])
  {
    NextFingers(log, heads);
    AppendAddsNextBatch(log, heads, blocks);
    var es := NewEntries(log, blocks, Fingers(heads, |heads|));
    ExtendShape(log, heads, es);
    log' := log + es;
    assert heads + [|log'| - 1] == heads + [|log| + |es| - 1];
  }

  /** The log that a sequence of append calls builds from an empty log. */
  function Replay(batches: seq<seq<Block>>): Result<Log>
    decreases |batches|
  {
    if |batches| == 0 then Ok([])
    else
      match Replay(batches[..|batches| - 1])
      case Err(e) => Err(e)
      case Ok(log) =>
        match Append(log, batches[|batches| - 1])
        case Err(e) => Err(e)
        case Ok(appended) => Ok(appended.0)
  }

  /** Number of non-empty batches: only those add a batch to the log. */
  function NonEmpty(batches: seq<seq<Block>>): nat
    decreases |batches|
  {
    if |batches| == 0 then 0
    else NonEmpty(batches[..|batches| - 1]) + (if |batches[|batches| - 1]| > 0 then 1 else 0)
  }

  /** Bytes in all blocks of all batches. */
  function AllBytes(batches: seq<seq<Block>>): nat
    decreases |batches|
  {
    if |batches| == 0 then 0
    else AllBytes(batches[..|batches| - 1]) + TotalLength(batches[|batches| - 1])
  }

  /** Every sequence of appends succeeds and leaves a shaped log with one batch
      per non-empty append. */
  lemma {:induction false} ReplayShaped(batches: seq<seq<Block>>) returns (heads: seq<nat>)
    ensures Replay(batches).Ok?
    ensures Shaped(Replay(batches).value, heads)
    ensures |heads| == NonEmpty(batches)
    decreases |batches|
  {
    if |batches| == 0 {
      heads := [];
      EmptyShaped();
    } else {
      var prefix := ReplayShaped(batches[..|batches| - 1]);
      var log := Replay(batches[..|batches| - 1]).value;
      var blocks := batches[|batches| - 1];
      if |blocks| > 0 {
        var log' := AppendPreservesShape(log, prefix, blocks);
        heads := prefix + [|log'| - 1];
      } else {
        heads := prefix;
      }
      assert Replay(batches) == Ok(Append(log, blocks).value.0);
    }
  }

  /** The main theorem: on a log built only by appends, lookup returns the
      batch with index i for every i from 0 to the head index, and fails with
      NotFound above it. */
  lemma GetFindsEveryBatch(batches: seq<seq<Block>>)
    ensures Replay(batches).Ok?
    ensures var log := Replay(batches).value;
      forall target :: 0 <= target < Length(log) ==>
        Get(log, target).Ok? && Get(log, target).value.Index() == target
    ensures var log := Replay(batches).value;
      forall target :: target >= Length(log) ==> Get(log, target) == Err(NotFound)
  {
    var heads := ReplayShaped(batches);
    var log := Replay(batches).value;
    LengthIsBatchCount(log, heads);
    forall target | 0 <= target < Length(log)
      ensures Get(log, target).Ok? && Get(log, target).value.Index() == target
    {
      GetFinds(log, heads, target);
    }
    forall target | target >= Length(log)
      ensures Get(log, target) == Err(NotFound)
    {
      GetBeyondHead(log, heads, target);
    }
  }

  /** Batch indices are handed out as 0, 1, 2, ...: after the appends the log
      holds exactly one batch per non-empty append. */
  lemma ReplayLength(batches: seq<seq<Block>>)
    ensures Replay(batches).Ok?
    ensures Length(Replay(batches).value) == NonEmpty(batches)
  {
    var heads := ReplayShaped(batches);
    LengthIsBatchCount(Replay(batches).value, heads);
  }

  /** An append of no blocks leaves the log as it is, yet still reports the
      next batch index, which a lookup then does not find. */
  lemma EmptyAppendIndexIsMissing(log: Log, heads: seq<nat>)
    requires Shaped(log, heads)
    ensures Append(log, []) == Ok((log, |heads|))
    ensures Get(log, |heads|) == Err(NotFound)
  {
    LengthIsBatchCount(log, heads);
    GetBeyondHead(log, heads, |heads|);
  }

  /** Each position of a batch whose entries `es` end the log reads back
      the block that position was built from. */
  lemma ReadsBackNewEntries(log: Log, blocks: seq<Block>, es: seq<Entry>, b: Batch, i: int)
    requires |blocks| > 0 && |es| == |blocks|
    requires forall j :: 0 <= j < |es| ==> es[j].blockIndex == j && es[j].block == blocks[j]
    requires b == Batch(|log| + |es| - 1, es[|es| - 1])
    requires 0 <= i < |blocks|
    ensures BlockAt(log + es, b, i) == Ok(blocks[i])
  {
    if i < |blocks| - 1 {
      assert BlockAt(log + es, b, i) == ReadBlock(log + es, |log| + i);
      assert (log + es)[|log| + i] == es[i];
    }
  }

  /** An append returns the index of the batch it created, and a lookup of
      that index at once yields a batch of the appended length whose every
      position reads back the appended block. */
  lemma AppendThenRead(log: Log, blocks: seq<Block>)
    requires Append(log, blocks).Ok? && |blocks| > 0
    ensures Get(Append(log, blocks).value.0, Append(log, blocks).value.1).Ok?
    ensures var b := Get(Append(log, blocks).value.0, Append(log, blocks).value.1).value;
      && b.Length() == |blocks|
      && forall i :: 0 <= i < |blocks| ==>
           BlockAt(Append(log, blocks).value.0, b, i) == Ok(blocks[i])
  {
    var r := Append(log, blocks).value;
    var es := NewEntries(log, blocks, Pointers(log, Length(log), 0, 1).value);
    assert r.0 == log + es && r.1 == Length(log);
    assert r.0[|r.0| - 1] == es[|blocks| - 1];
    var b := Batch(|log| + |es| - 1, es[|es| - 1]);
    assert Get(r.0, r.1) == Ok(b);
    forall i | 0 <= i < |blocks|
      ensures BlockAt(r.0, b, i) == Ok(blocks[i])
    {
      ReadsBackNewEntries(log, blocks, es, b, i);
    }
  }

  /** The total byte length grows by exactly the bytes appended. */
  lemma AppendByteLength(log: Log, blocks: seq<Block>)
    requires Append(log, blocks).Ok?
    ensures ByteLength(Append(log, blocks).value.0) == ByteLength(log) + TotalLength(blocks)
  {
    var log' := Append(log, blocks).value.0;
    if |blocks| > 0 {
      var es := NewEntries(log, blocks, Pointers(log, Length(log), 0, 1).value);
      assert log'[|log'| - 1] == es[|blocks| - 1];
    }
  }

  /** After any sequence of appends the byte length is the number of bytes
      appended in total. */
  lemma {:induction false} ReplayByteLength(batches: seq<seq<Block>>)
    ensures Replay(batches).Ok?
    ensures ByteLength(Replay(batches).value) == AllBytes(batches)
    decreases |batches|
  {
    var _ := ReplayShaped(batches);
    if |batches| > 0 {
      ReplayByteLength(batches[..|batches| - 1]);
      var _ := ReplayShaped(batches[..|batches| - 1]);
      AppendByteLength(Replay(batches[..|batches| - 1]).value, batches[|batches| - 1]);
    }
  }

  /** First step of the two-append walk-through: ["a"] becomes batch 0 of a
      shaped log holding 1 batch and 1 byte. */
  lemma ScenarioFirstAppend(a: Block) returns (log1: Log)
    requires |a| == 1
    ensures Append([], [a]) == Ok((log1, 0))
    ensures Shaped(log1, [0]) && log1[0].block == a
    ensures Length(log1) == 1 && ByteLength(log1) == 1
  {
    EmptyShaped();
    log1 := AppendPreservesShape([], [], [a]);
    assert |log1| == 1;
    assert [] + [|log1| - 1] == [0];
    LengthIsBatchCount(log1, [0]);
    AppendByteLength([], [a]);
    assert log1 == [] + NewEntries([], [a], Pointers([], 0, 0, 1).value);
  }

  /** Second step: ["b", "c"] becomes batch 1; the log holds 2 batches and 3
      bytes, and every position of both batches reads back its block. */
  lemma ScenarioSecondAppend(log1: Log, a: Block, b: Block, c: Block) returns (log2: Log)
    requires Shaped(log1, [0]) && log1[0].block == a && ByteLength(log1) == 1
    requires |b| == 1 && |c| == 1
    ensures Append(log1, [b, c]) == Ok((log2, 1))
    ensures Length(log2) == 2 && ByteLength(log2) == 3
    ensures Get(log2, 0).Ok? && Get(log2, 0).value.Length() == 1
    ensures BlockAt(log2, Get(log2, 0).value, 0) == Ok(a)
    ensures Get(log2, 1).Ok? && Get(log2, 1).value.Length() == 2
    ensures BlockAt(log2, Get(log2, 1).value, 0) == Ok(b)
    ensures BlockAt(log2, Get(log2, 1).value, 1) == Ok(c)
  {
    log2 := AppendPreservesShape(log1, [0], [b, c]);
    var heads := [0, 2];
    assert heads == [0] + [|log2| - 1];
    LengthIsBatchCount(log2, heads);
    AppendByteLength(log1, [b, c]);
    AppendThenRead(log1, [b, c]);
    GetFinds(log2, heads, 0);
    BlockAtReadsOwnBatch(log2, heads, 0, 0);
    assert log2[0] == log1[0];
  }
}
