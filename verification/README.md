# hyperbatch in Dafny

A model of the batch index of `hyperbatch`. The index stores groups of blocks ("batches") on an append-only log. Later it can find any past batch by its logical index. It does this by galloping along power-of-two skip pointers, so it never scans the whole log.

The model is functional. The log is an immutable `seq<Entry>`, and entry `s` is the record with sequence number `s`. An `Entry` has a batch index, a block index, a cumulative byte length, a block of bytes, and an optional skip-pointer list. Every operation is a pure function of the log.

- `Types`: bytes, blocks, `Entry`, `Log`, `Option`, `Result` and the error outcomes. `OutOfBounds` is "Out of bounds" and `NotFound` is "Cannot find batch". `ReadError` is a read the log cannot serve. `Malformed` is a lookup that meets a null pointer list.
- `Delta`: `compress` / `decompress` of skip-pointer lists.
- `BatchView`: the `Batch` view over a head entry and its `get`, plus `getBySeq` and `head`.
- `Lookup`: the lookup engine. It covers `_getBySeqSafe`, `_gallop` (split into the slot choice `Scan` and the read), the `get` loop (`Walk`), `get`, and the arithmetic of `length` and `byteLength`.
- `Appending`: `append`. It covers the pointer loop (`Pointers`), the construction of the entries (`EntriesFrom`, `NewEntries`) and the extension of the log.
- `Shape`: `Shaped(log, heads)`, the invariant of logs built by appends. Here `heads[k]` is the sequence number of batch k's last entry. The module proves lookup correct on shaped logs.
- `Correctness`: appends preserve the shape, and `Replay` folds appends over an empty log. It holds the main theorem: on any log built only by appends, `get(i)` returns the batch with index `i` for every `i` from 0 to the head index.

## Model

| member | source | states |
|---|---|---|
| Delta.Compress | index.js:154-163 | Keeps the list's length, one delta per pointer. Each delta's value is stated by CompressDeltas and the inverse by DecompressCompress |
| Delta.Decompress | index.js:165-171 | Keeps the list's length, and the last value lies the sum of all deltas below the base |
| Delta.CompressTelescopes | index.js:154-163 | The deltas of a non-empty list sum to the distance from the base down to its last value |
| Delta.CompressOpt | index.js:154-163 | A missing list (null) stays missing; a present list keeps its length |
| Delta.CompressDeltas | index.js:154-163 | Compressed entry i is the distance of value i below value i-1, or below the base for i = 0 |
| Delta.DecompressRunning | index.js:165-171 | Decompressed entry i is entry i-1 (or the base) minus delta i |
| Delta.DecompressCompress | index.js:154-171 | decompress(b, compress(b, xs)) == xs for every base and every integer list |
| Delta.CompressDecompress | index.js:154-171 | compress(b, decompress(b, ds)) == ds, so the two are mutually inverse |
| Delta.CompressDescendingIsPositive | index.js:154-163 | A list descending strictly below its base is stored as positive deltas |
| BatchView.GetBySeq | index.js:98-105 | Succeeds exactly for sequence numbers in the log, with the view of that entry; otherwise a read error |
| BatchView.Head | index.js:119 | No head for an empty log; otherwise the view at sequence number length - 1 |
| BatchView.BlockSeq | index.js:17 | The position read for i < length - 1 lies in [seq - length + 1, seq - 1], at offset i from the batch's first entry |
| BatchView.ReadBlock | index.js:18-21 | The read succeeds exactly for a sequence number in the log, with that entry's block; otherwise a read error |
| BatchView.BlockAt | index.js:9-17 | Out of bounds exactly when i < 0 or i >= length; the head's block without a read for i = length - 1; otherwise the block at seq - length + 1 + i |
| Lookup.SkipTargets | index.js:48-55 | The targets n - 2^j, one for each power of two 2^j <= n, and none beyond |
| Lookup.Scan | index.js:141-150 | Picks the farthest slot that does not pass the target, or the last slot when all stay above it. The slot before slot 0 is chosen exactly when the first offset is already below the target. An empty list gives no slot |
| Lookup.LookupScanNeverBeforeFirst | index.js:146 | When the batch index is above the target, the scan never picks the missing slot before slot 0, so `index[-1]` is never read |
| Lookup.GetBySeqSafe | index.js:131-134 | No batch unless s < prev. For s < prev it returns the batch at s exactly when s is in the log, and a read error otherwise |
| Lookup.Gallop | index.js:136-151 | A head without a list is malformed and an empty list yields nothing. Any batch returned is in the log with a strictly smaller sequence number, which bounds the lookup loop |
| Lookup.Length | index.js:75-78 | 0 on an empty log, otherwise the last entry's batch index plus one (Shape.LengthIsBatchCount: the number of batches) |
| Lookup.ByteLength | index.js:80-83 | 0 on an empty log, otherwise the last entry's cumulative byte count (Correctness.ReplayByteLength: all bytes appended) |
| Lookup.Walk | index.js:88-95 | Returns only an in-log batch with the target index, and fails NotFound once below the target |
| Lookup.Get | index.js:85-96 | Returns only a batch with the target index. NotFound on an empty log or above the head index. The head itself when the target is the head index |
| Appending.Pointers | index.js:47-55 | One pointer per power of two 2^j <= n, each the sequence number of an entry of batch n - 2^j |
| Appending.EntriesFrom | index.js:43-66 | Entry j has the batch index, position i + j, its block, and the running byte count through that block. Only the last entry has a list, compressed against its own sequence number |
| Appending.NewEntries | index.js:36-66 | The new batch continues the head's index and byte count and starts right after the head |
| Appending.Append | index.js:32-73 | Returns the next batch index. Keeps the old log as a prefix and grows it by exactly the blocks given. An empty append is a no-op. Fails only when the pointer loop's lookup fails |
| Shape.LengthIsBatchCount | index.js:75-78 | On a shaped log, length() is the number of batches |
| Shape.ShapedHead | index.js:119 | On a shaped log the head view is the last batch |
| Shape.GallopStep | index.js:136-151 | From batch k above the target, one gallop lands on a batch j with target <= j < k |
| Shape.WalkReaches | index.js:88-93 | From batch k the loop reaches every target in [0, k] |
| Shape.GetFinds | index.js:85-96 | On a shaped log get(i) returns batch i for every i below the batch count |
| Shape.GetBeyondHead | index.js:88-95 | On a shaped log get fails NotFound above the head index |
| Shape.EntryOfPosition | index.js:9-17 | Position i of batch k is an entry recording batch k and block index i |
| Shape.BlockAtReadsOwnBatch | index.js:13-21 | Reading position i of a batch returns that position's own block, never one from another batch |
| Correctness.FingersLayout | index.js:48-55 | Slot j of batch n's list is the head of batch n - 2^j. There is a slot exactly for each 2^j <= n, and the pointers descend strictly |
| Correctness.FirstBatchHead | index.js:45-56 | Batch 0's last entry carries an explicit empty list; its other entries carry none |
| Correctness.PointersShaped | index.js:47-55 | On a log where every batch is found, the pointer loop yields the heads at each power-of-two distance |
| Correctness.NextFingers | index.js:36-55 | On a shaped log the pointer loop yields exactly the fingers of the next batch |
| Correctness.AppendAddsNextBatch | index.js:37-68 | With those fingers, append succeeds and adds one well-formed batch |
| Correctness.ExtendShape | index.js:58-68 | Adding one well-formed batch keeps the log shaped |
| Correctness.AppendPreservesShape | index.js:32-73 | Appending non-empty blocks to a shaped log succeeds, returns the batch count, and keeps the log shaped |
| Correctness.ReplayShaped | index.js:32-73 | Every sequence of appends succeeds and yields a shaped log with one batch per non-empty append |
| Correctness.GetFindsEveryBatch | index.js:85-96 | On any log built by appends, get(i) returns batch i for every i in [0, head index], and NotFound above |
| Correctness.ReplayLength | index.js:37 | Appends number their batches 0, 1, 2, ... and length() counts the non-empty appends |
| Correctness.EmptyAppendIndexIsMissing | index.js:37-69 | An append of no blocks leaves the log unchanged but still returns the next index, which get does not find |
| Correctness.ReadsBackNewEntries | index.js:13-21 | Every position of a batch that ends the log reads back the block it was built from |
| Correctness.AppendThenRead | index.js:13-23 | Right after an append, get(new index) is a batch of the appended length, and each position reads back the appended block |
| Correctness.ScenarioFirstAppend | index.js:32-83 | Appending ["a"] to an empty log yields batch 0, with length 1 and byte length 1 |
| Correctness.ScenarioSecondAppend | index.js:13-96 | Appending ["b", "c"] then yields batch 1, with length 2 and byte length 3. get(0).get(0) is "a", get(1).get(0) is "b" and get(1).get(1) is "c" |
| Correctness.AppendByteLength | index.js:80-83 | byteLength() grows by exactly the bytes appended |
| Correctness.ReplayByteLength | index.js:39 | After any sequence of appends, byteLength() is the total number of bytes appended |

## Left out

- The `mutexify` lock (index.js:1, 29, 33, 70-72). It only serialises concurrent appends, so an append is modelled as one atomic step on the log.
- The Promise and callback plumbing (index.js:14, 18-22, 99-104, 122-129). It carries results and the log's read errors; a read error is modelled as `ReadError`.
- The `feed.update` / `feed.ready` synchronisation in `head()` (index.js:108-117). It is replication I/O. What remains is "length 0 gives no head, otherwise the entry at length - 1".
- `Entry.encode` / `Entry.decode`. The `messages` codec is not part of this model. Entries are an abstract record that the codec is assumed to round-trip exactly.
- Write failures of the log's append. The append is assumed to succeed atomically. Read failures appear only as `ReadError` for a sequence number the log does not hold.
- JavaScript number semantics. Integers are unbounded, so precision loss above 2^53 is not modelled.
- Appending.Append: an empty block list is not rejected. The code appends nothing and returns the next index, which a lookup then does not find (see `Correctness.EmptyAppendIndexIsMissing`).
- Lookup.Gallop: a corrupted pointer list is not mapped to NotFound. A pointer that does not move backwards yields no batch, so the lookup ends with NotFound. A pointer outside the log is a `ReadError`. A head with a null list is `Malformed`, which stands for the code's failure on `null.length`.
- Correctness.ReplayByteLength: blocks are taken to be byte buffers, and the byte count adds each block's length (index.js:62). The code also accepts string blocks. For those it adds the UTF-16 length, which differs from the encoded byte count for non-ASCII text. That case is not modelled.
- The number of log reads made by a lookup (logarithmic in the distance) is not modelled; only the result and termination are.
