/** Sequence packing (`data/packing.py`): tokenized samples laid end to end into fixed-length
    blocks, opening a new block whenever the next sample does not fit. */
module Packing {

  const IGNORE_INDEX := -100

  datatype Block = Block(inputIds: seq<int>, attentionMask: seq<int>, labels: seq<int>)

  function Repeat<T>(x: T, n: int): (r: seq<T>)
    ensures |r| == if n < 0 then 0 else n
    ensures forall i :: 0 <= i < |r| ==> r[i] == x
  {
    if n <= 0 then [] else [x] + Repeat(x, n - 1)
  }

  /** Python's `ids[:limit]`: a negative limit counts from the end. */
  function Truncate(ids: seq<int>, limit: int): seq<int> {
    if limit >= |ids| then ids
    else if limit >= 0 then ids[..limit]
    else if |ids| + limit >= 0 then ids[..|ids| + limit]
    else []
  }

  /** It keeps the front: *limit* tokens of a longer sample, or all but the last *-limit*. */
  lemma TruncateKeepsFront(ids: seq<int>, limit: int)
    ensures Truncate(ids, limit) <= ids
    ensures |Truncate(ids, limit)| == if limit >= |ids| then |ids| else if limit >= 0 then limit else if |ids| >= -limit then |ids| + limit else 0
  {
  }

  function TruncateAll(sequences: seq<seq<int>>, limit: int): (r: seq<seq<int>>)
    ensures |r| == |sequences|
  {
    seq(|sequences|, i requires 0 <= i < |sequences| => Truncate(sequences[i], limit))
  }

  /** End-to-end concatenation. */
  function Flat<T>(xss: seq<seq<T>>): seq<T> {
    if xss == [] then [] else Flat(xss[..|xss| - 1]) + xss[|xss| - 1]
  }

  lemma {:induction false} FlatAppend<T>(a: seq<seq<T>>, b: seq<seq<T>>)
    ensures Flat(a + b) == Flat(a) + Flat(b)
  {
    if b == [] {
      assert a + b == a;
    } else {
      var n := |b| - 1;
      FlatAppend(a, b[..n]);
      assert (a + b)[..|a + b| - 1] == a + b[..n];
    }
  }

  function PadAndFinalize(ids: seq<int>, labels: seq<int>, maxSeqLength: int, padTokenId: int): Block {
    var padLen := maxSeqLength - |ids|;
    Block(ids + Repeat(padTokenId, padLen), Repeat(1, |ids|) + Repeat(0, padLen), labels + Repeat(IGNORE_INDEX, padLen))
  }

  /** The tokens come first, and what follows them is padding and masked. */
  predicate Padded(b: Block, padTokenId: int) {
    && |b.inputIds| == |b.attentionMask|
    && (forall i :: 0 <= i < |b.inputIds| && b.attentionMask[i] != 1 ==> b.inputIds[i] == padTokenId)
    && forall i, j :: 0 <= i < j < |b.inputIds| && b.attentionMask[j] == 1 ==> b.attentionMask[i] == 1
  }

  predicate AllPadded(packed: seq<Block>, padTokenId: int) {
    forall k :: 0 <= k < |packed| ==> Padded(packed[k], padTokenId)
  }

  lemma FinalizePads(ids: seq<int>, maxSeqLength: int, padTokenId: int)
    ensures Padded(PadAndFinalize(ids, ids, maxSeqLength, padTokenId), padTokenId)
  {
  }

  /** The tokens of a block that its mask says are real. */
  function Real(b: Block): seq<int>
    requires |b.inputIds| == |b.attentionMask|
  {
    Kept(b.inputIds, b.attentionMask)
  }

  function Kept(ids: seq<int>, mask: seq<int>): seq<int>
    requires |ids| == |mask|
  {
    if ids == [] then []
    else Kept(ids[..|ids| - 1], mask[..|mask| - 1]) + if mask[|mask| - 1] == 1 then [ids[|ids| - 1]] else []
  }

  lemma {:induction false} KeptAll(ids: seq<int>)
    ensures Kept(ids, Repeat(1, |ids|)) == ids
  {
    if ids != [] {
      KeptAll(ids[..|ids| - 1]);
      assert Repeat(1, |ids|)[..|ids| - 1] == Repeat(1, |ids| - 1);
      assert ids == ids[..|ids| - 1] + [ids[|ids| - 1]];
    }
  }

  lemma {:induction false} KeptPrefix(ids: seq<int>, mask: seq<int>, pad: seq<int>)
    requires |ids| == |mask|
    ensures Kept(ids + pad, mask + Repeat(0, |pad|)) == Kept(ids, mask)
  {
    if pad == [] {
      assert ids + pad == ids && mask + Repeat(0, 0) == mask;
    } else {
      var n := |pad| - 1;
      KeptPrefix(ids, mask, pad[..n]);
      assert (ids + pad)[..|ids| + n] == ids + pad[..n];
      assert (mask + Repeat(0, |pad|))[..|mask| + n] == mask + Repeat(0, n);
    }
  }

  /** What a finished block promises: its mask marks exactly its tokens, and its labels are its
      tokens where the mask is 1 and ignored elsewhere. */
  predicate Finished(b: Block, ids: seq<int>, maxSeqLength: int) {
    && |b.inputIds| == |b.attentionMask| == |b.labels|
    && |b.inputIds| == (if |ids| > maxSeqLength then |ids| else maxSeqLength)
    && Real(b) == ids
    && forall i :: 0 <= i < |b.labels| ==>
                     && b.attentionMask[i] in {0, 1}
                     && b.labels[i] == if b.attentionMask[i] == 1 then b.inputIds[i] else -100
  }

  lemma FinalizeFinishes(ids: seq<int>, maxSeqLength: int, padTokenId: int)
    ensures Finished(PadAndFinalize(ids, ids, maxSeqLength, padTokenId), ids, maxSeqLength)
  {
    var pad := Repeat(padTokenId, maxSeqLength - |ids|);
    KeptAll(ids);
    KeptPrefix(ids, Repeat(1, |ids|), pad);
    if |ids| >= maxSeqLength {
      assert Repeat(0, maxSeqLength - |ids|) == Repeat(0, |pad|);
    }
  }

  // ---- the packing ---------------------------------------------------------------------------

  /** Where blocks begin and end in the list of samples: block *k* holds samples
      `cuts[k]..cuts[k + 1]`. */
  predicate Cuts(cuts: seq<nat>, n: nat) {
    && |cuts| > 0 && cuts[0] == 0
    && (forall k :: 0 <= k < |cuts| - 1 ==> cuts[k] < cuts[k + 1])
    && (forall k :: 0 <= k < |cuts| ==> cuts[k] <= n)
  }

  /** The samples of block *k*. */
  function Held(cuts: seq<nat>, samples: seq<seq<int>>, k: nat): (r: seq<seq<int>>)
    requires Cuts(cuts, |samples|) && k < |cuts| - 1
    ensures r != []
  {
    samples[cuts[k]..cuts[k + 1]]
  }

  /** Block *k* is exactly the whole samples between its cuts, in order, and not empty. */
  predicate BlockFits(packed: seq<Block>, cuts: seq<nat>, samples: seq<seq<int>>, maxSeqLength: int, k: nat)
    requires Cuts(cuts, |samples|) && |cuts| == |packed| + 1 && k < |packed|
  {
    var tokens := Flat(Held(cuts, samples, k));
    && tokens != []
    && (maxSeqLength >= 0 ==> |tokens| <= maxSeqLength)
    && Finished(packed[k], tokens, maxSeqLength)
  }

  /** The first sample after block *k* did not fit into it. */
  predicate Overflows(cuts: seq<nat>, samples: seq<seq<int>>, maxSeqLength: int, k: nat)
    requires Cuts(cuts, |samples|) && k + 1 < |cuts| && cuts[k + 1] < |samples|
  {
    |Flat(Held(cuts, samples, k))| + |samples[cuts[k + 1]]| > maxSeqLength
  }

  /** Every block holds the samples between its cuts, and each was opened only because its first sample
      did not fit into the one before. */
  predicate NextFit(packed: seq<Block>, cuts: seq<nat>, samples: seq<seq<int>>, maxSeqLength: int) {
    && Cuts(cuts, |samples|) && |cuts| == |packed| + 1
    && (forall k :: 0 <= k < |packed| ==> |packed[k].inputIds| == |packed[k].attentionMask|)
    && (forall k :: 0 <= k < |packed| ==> BlockFits(packed, cuts, samples, maxSeqLength, k))
    && (forall k :: 0 <= k < |packed| - 1 ==> cuts[k + 1] < |samples| && Overflows(cuts, samples, maxSeqLength, k))
  }

  /** A next-fit packing, leaving over no more than empty samples after the last cut. */
  predicate Packs(packed: seq<Block>, cuts: seq<nat>, samples: seq<seq<int>>, maxSeqLength: int) {
    NextFit(packed, cuts, samples, maxSeqLength) && Flat(samples[cuts[|packed|]..]) == []
  }

  /** The loop's state after *i* samples: finished blocks, and the tokens of the open one. */
  predicate Open(
    packed: seq<Block>, cuts: seq<nat>, samples: seq<seq<int>>, maxSeqLength: int, current: seq<int>, i: nat)
  {
    && NextFit(packed, cuts, samples, maxSeqLength)
    && cuts[|packed|] <= i <= |samples|
    && current == Flat(samples[cuts[|packed|]..i])
    && (maxSeqLength >= 0 ==> |current| <= maxSeqLength)
    && (|packed| > 0 ==> cuts[|packed|] < i && Overflows(cuts, samples, maxSeqLength, |packed| - 1))
  }

  /** The sample does not fit: the open block is finished, if it holds anything, and the sample opens the next. */
  lemma NewBlock(
    packed: seq<Block>, cuts: seq<nat>, samples: seq<seq<int>>, maxSeqLength: int, current: seq<int>, i: nat, padTokenId: int)
    requires Open(packed, cuts, samples, maxSeqLength, current, i)
    requires i < |samples| && (maxSeqLength >= 0 ==> |samples[i]| <= maxSeqLength)
    requires |current| + |samples[i]| > maxSeqLength && current != []
    ensures Open(packed + [PadAndFinalize(current, current, maxSeqLength, padTokenId)], cuts + [i], samples, maxSeqLength, samples[i], i + 1)
  {
    CloseBlock(packed, cuts, samples, maxSeqLength, current, i, padTokenId);
    CutKeepsHeld(cuts, samples, i);
    FlatNext(samples, i, i);
    assert Flat(samples[i..i]) + samples[i] == samples[i];
  }

  /** The sample joins the open block: it fits, or the block holds nothing yet. */
  lemma SameBlock(
    packed: seq<Block>, cuts: seq<nat>, samples: seq<seq<int>>, maxSeqLength: int, current: seq<int>, i: nat, current': seq<int>)
    requires Open(packed, cuts, samples, maxSeqLength, current, i)
    requires i < |samples| && (maxSeqLength >= 0 ==> |samples[i]| <= maxSeqLength)
    requires |current| + |samples[i]| <= maxSeqLength || current == []
    requires current' == current + samples[i]
    ensures Open(packed, cuts, samples, maxSeqLength, current', i + 1)
  {
    FlatNext(samples, cuts[|packed|], i);
  }

  lemma {:induction false} CutsRise(cuts: seq<nat>, n: nat, j: nat, k: nat)
    requires Cuts(cuts, n) && j <= k < |cuts|
    ensures cuts[j] <= cuts[k]
  {
    if j < k { CutsRise(cuts, n, j, k - 1); }
  }

  /** A further block leaves the earlier ones as they were. */
  lemma EarlierKept(
    packed: seq<Block>, cuts: seq<nat>, samples: seq<seq<int>>, maxSeqLength: int, block: Block, cut: nat, k: nat)
    requires NextFit(packed, cuts, samples, maxSeqLength) && cuts[|packed|] < cut <= |samples| && k < |packed|
    requires k == |packed| - 1 ==> Overflows(cuts, samples, maxSeqLength, k)
    ensures Cuts(cuts + [cut], |samples|) && BlockFits(packed + [block], cuts + [cut], samples, maxSeqLength, k)
    ensures (cuts + [cut])[k + 1] < |samples| && Overflows(cuts + [cut], samples, maxSeqLength, k)
  {
    CutKeepsHeld(cuts, samples, cut);
    CutsRise(cuts, |samples|, k + 1, |packed|);
    assert BlockFits(packed, cuts, samples, maxSeqLength, k);
    assert Overflows(cuts, samples, maxSeqLength, k);
  }

  lemma LastFits(
    packed: seq<Block>, cuts: seq<nat>, samples: seq<seq<int>>, maxSeqLength: int, current: seq<int>, i: nat, padTokenId: int)
    requires Open(packed, cuts, samples, maxSeqLength, current, i) && current != []
    ensures cuts[|packed|] < i && Cuts(cuts + [i], |samples|)
    ensures BlockFits(packed + [PadAndFinalize(current, current, maxSeqLength, padTokenId)], cuts + [i], samples, maxSeqLength, |packed|)
  {
    FinalizeFinishes(current, maxSeqLength, padTokenId);
    CutKeepsHeld(cuts, samples, i);
  }

  lemma CloseBlock(
    packed: seq<Block>, cuts: seq<nat>, samples: seq<seq<int>>, maxSeqLength: int, current: seq<int>, i: nat, padTokenId: int)
    requires Open(packed, cuts, samples, maxSeqLength, current, i) && current != []
    ensures NextFit(packed + [PadAndFinalize(current, current, maxSeqLength, padTokenId)], cuts + [i], samples, maxSeqLength)
  {
    var block := PadAndFinalize(current, current, maxSeqLength, padTokenId);
    var packed', cuts' := packed + [block], cuts + [i];
    LastFits(packed, cuts, samples, maxSeqLength, current, i, padTokenId);
    forall k | 0 <= k < |packed|
      ensures BlockFits(packed', cuts', samples, maxSeqLength, k)
      ensures cuts'[k + 1] < |samples| && Overflows(cuts', samples, maxSeqLength, k)
    {
      EarlierKept(packed, cuts, samples, maxSeqLength, block, i, k);
    }
    FinalizeFinishes(current, maxSeqLength, padTokenId);
    forall k | 0 <= k < |packed'|
      ensures |packed'[k].inputIds| == |packed'[k].attentionMask| && BlockFits(packed', cuts', samples, maxSeqLength, k)
    {
      if k < |packed| { assert packed'[k] == packed[k]; } else { assert packed'[k] == block; }
    }
  }

  /** After the last sample, the open block is finished if it holds anything. */
  lemma CloseLast(
    packed: seq<Block>, cuts: seq<nat>, samples: seq<seq<int>>, maxSeqLength: int, current: seq<int>, padTokenId: int)
    requires Open(packed, cuts, samples, maxSeqLength, current, |samples|)
    ensures current == [] ==> Packs(packed, cuts, samples, maxSeqLength)
    ensures current != [] ==>
              Packs(packed + [PadAndFinalize(current, current, maxSeqLength, padTokenId)], cuts + [|samples|], samples, maxSeqLength)
  {
    if current == [] {
      assert samples[cuts[|packed|]..|samples|] == samples[cuts[|packed|]..];
    } else {
      CloseBlock(packed, cuts, samples, maxSeqLength, current, |samples|, padTokenId);
    }
  }

  /** One turn of the loop. The labels of the open block are its ids, and are kept beside them. */
  method AddSample(
    packed: seq<Block>, ghost cuts: seq<nat>, ghost samples: seq<seq<int>>, maxSeqLength: int,
    currentIds: seq<int>, currentLabels: seq<int>, ghost i: nat, ids: seq<int>, padTokenId: int)
    returns (packed': seq<Block>, ghost cuts': seq<nat>, currentIds': seq<int>, currentLabels': seq<int>)
    requires Open(packed, cuts, samples, maxSeqLength, currentIds, i) && currentLabels == currentIds
    requires i < |samples| && ids == samples[i] && (maxSeqLength >= 0 ==> |ids| <= maxSeqLength) && AllPadded(packed, padTokenId)
    ensures Open(packed', cuts', samples, maxSeqLength, currentIds', i + 1) && currentLabels' == currentIds'
    ensures AllPadded(packed', padTokenId)
  {
    packed', cuts', currentIds', currentLabels' := packed, cuts, ids, ids;
    if |currentIds| + |ids| > maxSeqLength {
      if currentIds == [] {
        SameBlock(packed, cuts, samples, maxSeqLength, currentIds, i, ids);
      } else {
        NewBlock(packed, cuts, samples, maxSeqLength, currentIds, i, padTokenId);
        FinalizePads(currentIds, maxSeqLength, padTokenId);
        packed' := packed + [PadAndFinalize(currentIds, currentLabels, maxSeqLength, padTokenId)];
        cuts' := cuts + [i];
      }
    } else {
      SameBlock(packed, cuts, samples, maxSeqLength, currentIds, i, currentIds + ids);
      currentIds', currentLabels' := currentIds + ids, currentLabels + ids;
    }
  }

  method FinishLast(
    packed: seq<Block>, ghost cuts: seq<nat>, ghost samples: seq<seq<int>>, maxSeqLength: int,
    currentIds: seq<int>, currentLabels: seq<int>, padTokenId: int)
    returns (packed': seq<Block>, ghost cuts': seq<nat>)
    requires Open(packed, cuts, samples, maxSeqLength, currentIds, |samples|) && currentLabels == currentIds
    requires AllPadded(packed, padTokenId)
    ensures Packs(packed', cuts', samples, maxSeqLength) && AllPadded(packed', padTokenId)
  {
    CloseLast(packed, cuts, samples, maxSeqLength, currentIds, padTokenId);
    packed', cuts' := packed, cuts;
    if currentIds != [] {
      FinalizePads(currentIds, maxSeqLength, padTokenId);
      packed' := packed + [PadAndFinalize(currentIds, currentLabels, maxSeqLength, padTokenId)];
      cuts' := cuts + [|samples|];
    }
  }

  lemma OpenAtFirst(samples: seq<seq<int>>, maxSeqLength: int)
    ensures Open([], [0], samples, maxSeqLength, [], 0)
  {
    assert samples[0..0] == [];
  }

  /** `pack_sequences`. */
  method PackSequences(sequences: seq<seq<int>>, maxSeqLength: int, padTokenId: int) returns (packed: seq<Block>)
    ensures exists cuts :: Packs(packed, cuts, TruncateAll(sequences, maxSeqLength), maxSeqLength)
    ensures AllPadded(packed, padTokenId)
  {
    ghost var samples := TruncateAll(sequences, maxSeqLength);
    packed := [];
    ghost var cuts: seq<nat> := [0];
    var currentIds: seq<int>, currentLabels: seq<int> := [], [];
    OpenAtFirst(samples, maxSeqLength);
    for i := 0 to |sequences|
      invariant Open(packed, cuts, samples, maxSeqLength, currentIds, i) && currentLabels == currentIds
      invariant AllPadded(packed, padTokenId)
    {
      var ids := Truncate(sequences[i], maxSeqLength);
      packed, cuts, currentIds, currentLabels :=
        AddSample(packed, cuts, samples, maxSeqLength, currentIds, currentLabels, i, ids, padTokenId);
    }
    packed, cuts := FinishLast(packed, cuts, samples, maxSeqLength, currentIds, currentLabels, padTokenId);
  }

  lemma FlatNext<T>(xss: seq<seq<T>>, start: nat, i: nat)
    requires start <= i < |xss|
    ensures Flat(xss[start..i + 1]) == Flat(xss[start..i]) + xss[i]
  {
    assert xss[start..i + 1][..i - start] == xss[start..i];
  }

  lemma FlatOne<T>(xs: seq<T>)
    ensures Flat([xs]) == xs
  {
    assert [xs][..0] == [];
  }

  lemma CutKeepsHeld(cuts: seq<nat>, samples: seq<seq<int>>, cut: nat)
    requires Cuts(cuts, |samples|) && cuts[|cuts| - 1] < cut <= |samples|
    ensures Cuts(cuts + [cut], |samples|)
    ensures forall k :: 0 <= k < |cuts| - 1 ==> Held(cuts + [cut], samples, k) == Held(cuts, samples, k)
    ensures Held(cuts + [cut], samples, |cuts| - 1) == samples[cuts[|cuts| - 1]..cut]
  {
  }

  // ---- conservation -------------------------------------------------------------------------------

  /** The real tokens of the blocks, block after block. */
  function RealTokens(packed: seq<Block>): seq<int>
    requires forall k :: 0 <= k < |packed| ==> |packed[k].inputIds| == |packed[k].attentionMask|
  {
    if packed == [] then [] else RealTokens(packed[..|packed| - 1]) + Real(packed[|packed| - 1])
  }

  lemma {:induction false} RealTokensUpTo(
    packed: seq<Block>, cuts: seq<nat>, samples: seq<seq<int>>, maxSeqLength: int, k: nat)
    requires NextFit(packed, cuts, samples, maxSeqLength) && k <= |packed|
    ensures RealTokens(packed[..k]) == Flat(samples[..cuts[k]])
  {
    if k > 0 {
      RealTokensUpTo(packed, cuts, samples, maxSeqLength, k - 1);
      assert BlockFits(packed, cuts, samples, maxSeqLength, k - 1);
      assert packed[..k][..k - 1] == packed[..k - 1];
      assert samples[..cuts[k]] == samples[..cuts[k - 1]] + Held(cuts, samples, k - 1);
      FlatAppend(samples[..cuts[k - 1]], Held(cuts, samples, k - 1));
    }
  }

  /** Packing neither loses, adds nor reorders a token: the masked tokens of the blocks are the
      truncated samples, end to end. */
  lemma PackingConservesTokens(packed: seq<Block>, cuts: seq<nat>, samples: seq<seq<int>>, maxSeqLength: int)
    requires Packs(packed, cuts, samples, maxSeqLength)
    ensures RealTokens(packed) == Flat(samples)
  {
    var last := cuts[|packed|];
    RealTokensUpTo(packed, cuts, samples, maxSeqLength, |packed|);
    assert packed[..|packed|] == packed;
    assert samples == samples[..last] + samples[last..];
    FlatAppend(samples[..last], samples[last..]);
  }

  // ---- the approximation bound --------------------------------------------------------------------

  /** How much the arrangement puts into one bin. */
  function Load(samples: seq<seq<int>>, bins: seq<nat>, bin: nat): nat
    requires |samples| == |bins|
  {
    if samples == [] then 0
    else Load(samples[1..], bins[1..], bin) + if bins[0] == bin then |samples[0]| else 0
  }

  /** The load of the first *m* bins together. */
  function TotalLoad(samples: seq<seq<int>>, bins: seq<nat>, m: nat): nat
    requires |samples| == |bins|
  {
    if m == 0 then 0 else TotalLoad(samples, bins, m - 1) + Load(samples, bins, m - 1)
  }

  lemma {:induction false} TotalLoadSplit(samples: seq<seq<int>>, bins: seq<nat>, m: nat)
    requires |samples| == |bins| && samples != []
    ensures TotalLoad(samples, bins, m) == TotalLoad(samples[1..], bins[1..], m) + if bins[0] < m then |samples[0]| else 0
  {
    if m > 0 { TotalLoadSplit(samples, bins, m - 1); }
  }

  lemma {:induction false} TotalLoadIsAll(samples: seq<seq<int>>, bins: seq<nat>, m: nat)
    requires |samples| == |bins| && forall i :: 0 <= i < |bins| ==> bins[i] < m
    ensures TotalLoad(samples, bins, m) == |Flat(samples)|
  {
    if samples == [] {
      EmptyLoad(bins, m);
    } else {
      TotalLoadSplit(samples, bins, m);
      TotalLoadIsAll(samples[1..], bins[1..], m);
      assert samples == [samples[0]] + samples[1..];
      FlatAppend([samples[0]], samples[1..]);
      FlatOne(samples[0]);
    }
  }

  lemma {:induction false} EmptyLoad(bins: seq<nat>, m: nat)
    requires bins == []
    ensures TotalLoad([], bins, m) == 0
  {
    if m > 0 { EmptyLoad(bins, m - 1); }
  }

  lemma {:induction false} TotalLoadBounded(samples: seq<seq<int>>, bins: seq<nat>, m: nat, capacity: nat)
    requires |samples| == |bins| && forall b: nat :: b < m ==> Load(samples, bins, b) <= capacity
    ensures TotalLoad(samples, bins, m) <= m * capacity
  {
    if m > 0 { TotalLoadBounded(samples, bins, m - 1, capacity); }
  }

  /** The tokens of the first *k* blocks. */
  function Packed(cuts: seq<nat>, samples: seq<seq<int>>, k: nat): nat
    requires Cuts(cuts, |samples|) && k < |cuts|
  {
    |Flat(samples[..cuts[k]])|
  }

  lemma PackedNext(cuts: seq<nat>, samples: seq<seq<int>>, k: nat)
    requires Cuts(cuts, |samples|) && k < |cuts| - 1
    ensures Packed(cuts, samples, k + 1) == Packed(cuts, samples, k) + |Flat(Held(cuts, samples, k))|
  {
    assert samples[..cuts[k + 1]] == samples[..cuts[k]] + Held(cuts, samples, k);
    FlatAppend(samples[..cuts[k]], Held(cuts, samples, k));
  }

  /** Two neighbouring blocks hold more than one block's length. */
  lemma NeighboursOverflow(packed: seq<Block>, cuts: seq<nat>, samples: seq<seq<int>>, maxSeqLength: nat, k: nat)
    requires NextFit(packed, cuts, samples, maxSeqLength) && k + 1 < |packed|
    ensures Packed(cuts, samples, k + 2) >= Packed(cuts, samples, k) + maxSeqLength + 1
  {
    PackedNext(cuts, samples, k);
    PackedNext(cuts, samples, k + 1);
    assert Overflows(cuts, samples, maxSeqLength, k);
    FirstFits(Held(cuts, samples, k + 1));
  }

  /** So *j* pairs of blocks hold more than *j* blocks' length. */
  lemma {:induction false} PairsOverflow(
    packed: seq<Block>, cuts: seq<nat>, samples: seq<seq<int>>, maxSeqLength: nat, j: nat)
    requires NextFit(packed, cuts, samples, maxSeqLength) && 2 * j <= |packed|
    ensures Packed(cuts, samples, 2 * j) >= j * (maxSeqLength + 1)
  {
    if j > 0 {
      PairsOverflow(packed, cuts, samples, maxSeqLength, j - 1);
      NeighboursOverflow(packed, cuts, samples, maxSeqLength, 2 * j - 2);
      assert (j - 1) * (maxSeqLength + 1) + (maxSeqLength + 1) == j * (maxSeqLength + 1);
    }
  }

  lemma {:induction false} PackedGrows(cuts: seq<nat>, samples: seq<seq<int>>, k: nat, l: nat)
    requires Cuts(cuts, |samples|) && k <= l < |cuts|
    ensures Packed(cuts, samples, k) <= Packed(cuts, samples, l) <= |Flat(samples)|
    decreases |cuts| - k, |cuts| - l
  {
    if k < l {
      PackedNext(cuts, samples, k);
      PackedGrows(cuts, samples, k + 1, l);
    } else {
      assert samples == samples[..cuts[l]] + samples[cuts[l]..];
      FlatAppend(samples[..cuts[l]], samples[cuts[l]..]);
    }
  }

  lemma FirstFits(group: seq<seq<int>>)
    requires group != []
    ensures |group[0]| <= |Flat(group)|
  {
    assert group == [group[0]] + group[1..];
    FlatAppend([group[0]], group[1..]);
    FlatOne(group[0]);
  }

  lemma NoneAboveCapacity(m: nat, capacity: nat, total: nat)
    requires m * (capacity + 1) <= total <= m * capacity
    ensures m == 0
  {
  }

  lemma SomethingPacked(packed: seq<Block>, cuts: seq<nat>, samples: seq<seq<int>>, maxSeqLength: nat)
    requires NextFit(packed, cuts, samples, maxSeqLength) && packed != []
    ensures |Flat(samples)| > 0
  {
    assert BlockFits(packed, cuts, samples, maxSeqLength, 0);
    PackedNext(cuts, samples, 0);
    PackedGrows(cuts, samples, 1, |packed|);
  }

  /** Twice as many blocks as bins would hold more than the bins do. */
  lemma FewPairs(packed: seq<Block>, cuts: seq<nat>, samples: seq<seq<int>>, maxSeqLength: nat, m: nat)
    requires NextFit(packed, cuts, samples, maxSeqLength) && 0 < |Flat(samples)| <= m * maxSeqLength
    ensures |packed| < 2 * m
  {
    if |packed| >= 2 * m {
      PairsOverflow(packed, cuts, samples, maxSeqLength, m);
      PackedGrows(cuts, samples, 2 * m, |packed|);
      NoneAboveCapacity(m, maxSeqLength, |Flat(samples)|);
      assert false;
    }
  }

  /** Main result: whatever the arrangement of the same samples into *m* bins of the block length,
      next-fit opens fewer than twice as many blocks. */
  lemma NextFitBound(
    packed: seq<Block>, cuts: seq<nat>, samples: seq<seq<int>>, maxSeqLength: nat, bins: seq<nat>, m: nat)
    requires Packs(packed, cuts, samples, maxSeqLength)
    requires |bins| == |samples| && forall i :: 0 <= i < |bins| ==> bins[i] < m
    requires forall b: nat :: b < m ==> Load(samples, bins, b) <= maxSeqLength
    ensures packed != [] ==> |packed| <= 2 * m - 1
  {
    TotalLoadIsAll(samples, bins, m);
    TotalLoadBounded(samples, bins, m, maxSeqLength);
    if packed != [] {
      SomethingPacked(packed, cuts, samples, maxSeqLength);
      FewPairs(packed, cuts, samples, maxSeqLength, m);
    }
  }
}
