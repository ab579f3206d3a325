/** Delta coding of skip-pointer lists: each absolute sequence number is
    stored as its distance below the previous one, the first one as its
    distance below a base sequence number. */
module Delta {
  import opened Types

  /** Sum of a list of integers. */
  function Sum(xs: seq<int>): int
    decreases |xs|
  {
    if |xs| == 0 then 0 else xs[0] + Sum(xs[1..])
  }

  /** Replaces every value by (previous reference - value), the reference
      starting at `base` and then following the consumed values. */
  function Compress(base: int, xs: seq<int>): (r: seq<int>)
    ensures |r| == |xs|
    decreases |xs|
  {
    if |xs| == 0 then []
    else [base - xs[0]] + Compress(xs[0], xs[1..])
  }

  /** The deltas telescope: together they span from `base` down to the last
      value, the distance `Decompress` walks back. */
  lemma {:induction false} CompressTelescopes(base: int, xs: seq<int>)
    requires |xs| > 0
    ensures Sum(Compress(base, xs)) == base - xs[|xs| - 1]
    decreases |xs|
  {
    var rest := Compress(xs[0], xs[1..]);
    assert Compress(base, xs)[1..] == rest;
    if |xs| > 1 {
      CompressTelescopes(xs[0], xs[1..]);
    }
  }

  /** The null-preserving form used for every entry: only a batch's last entry
      has a list, the others keep "no list". */
  function CompressOpt(base: int, xs: Option<seq<int>>): (r: Option<seq<int>>)
    ensures r.None? <==> xs.None?
    ensures xs.Some? ==> |r.value| == |xs.value|
  {
    match xs
    case None => None
    case Some(l) => Some(Compress(base, l))
  }

  /** Rebuilds absolute values by subtracting each delta from a running
      reference that starts at `base`; the last value lies the sum of all
      deltas below `base`. */
  function Decompress(base: int, ds: seq<int>): (r: seq<int>)
    ensures |r| == |ds|
    ensures |ds| > 0 ==> r[|r| - 1] == base - Sum(ds)
    decreases |ds|
  {
    if |ds| == 0 then []
    else [base - ds[0]] + Decompress(base - ds[0], ds[1..])
  }

  /** Entry i of the compressed list is the distance of value i below its
      predecessor (below `base` for the first value). */
  lemma {:induction false} CompressDeltas(base: int, xs: seq<int>)
    ensures forall i {:trigger Compress(base, xs)[i]} :: 0 <= i < |xs| ==>
      Compress(base, xs)[i] == (if i == 0 then base else xs[i - 1]) - xs[i]
    decreases |xs|
  {
    if |xs| > 0 {
      CompressDeltas(xs[0], xs[1..]);
      var r := Compress(base, xs);
      forall i | 0 < i < |xs|
        ensures r[i] == xs[i - 1] - xs[i]
      {
        assert r[i] == Compress(xs[0], xs[1..])[i - 1];
      }
    }
  }

  /** Entry i of the decompressed list is entry i - 1 (or `base`) minus delta i. */
  lemma {:induction false} DecompressRunning(base: int, ds: seq<int>)
    ensures forall i {:trigger Decompress(base, ds)[i]} :: 0 <= i < |ds| ==>
      Decompress(base, ds)[i] ==
        (if i == 0 then base else Decompress(base, ds)[i - 1]) - ds[i]
    decreases |ds|
  {
    if |ds| > 0 {
      DecompressRunning(base - ds[0], ds[1..]);
      var r := Decompress(base, ds);
      forall i | 0 < i < |ds|
        ensures r[i] == r[i - 1] - ds[i]
      {
        assert r[i] == Decompress(base - ds[0], ds[1..])[i - 1];
        if i > 1 {
          assert r[i - 1] == Decompress(base - ds[0], ds[1..])[i - 2];
        }
      }
    }
  }

  lemma {:induction false} DecompressCompress(base: int, xs: seq<int>)
    ensures Decompress(base, Compress(base, xs)) == xs
    decreases |xs|
  {
    if |xs| > 0 {
      DecompressCompress(xs[0], xs[1..]);
      assert [xs[0]] + xs[1..] == xs;
    }
  }

  lemma {:induction false} CompressDecompress(base: int, ds: seq<int>)
    ensures Compress(base, Decompress(base, ds)) == ds
    decreases |ds|
  {
    if |ds| > 0 {
      CompressDecompress(base - ds[0], ds[1..]);
      assert [ds[0]] + ds[1..] == ds;
    }
  }

  /** A list that descends strictly below its base is stored as positive deltas. */
  lemma CompressDescendingIsPositive(base: int, xs: seq<int>)
    requires forall i :: 0 <= i < |xs| ==> xs[i] < base
    requires forall i, j :: 0 <= i < j < |xs| ==> xs[j] < xs[i]
    ensures forall i :: 0 <= i < |xs| ==> Compress(base, xs)[i] > 0
  {
    CompressDeltas(base, xs);
    forall i | 0 < i < |xs|
      ensures Compress(base, xs)[i] > 0
    {
      assert xs[i] < xs[i - 1];
    }
  }
}
