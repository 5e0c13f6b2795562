/**
 * The ranking step of `semantic_search`: given one similarity score per
 * stored chunk and the ascending order `argsort` puts them in, keep the
 * last `top_n` positions (`[-top_n:]`), reverse them (`[::-1]`) and build
 * one `{doc, chunk, score}` record per kept index.
 */
module Retrieval {
  import opened Chunking

  /** One search result: `{"doc": ..., "chunk": ..., "score": ...}`. */
  datatype Hit = Hit(doc: string, chunk: string, score: real)

  /** `order` is what `argsort` may return for `sims`: every index exactly
      once, in ascending order of score.  Equal scores may come in any order. */
  predicate IsArgsort(order: seq<nat>, sims: seq<real>)
  {
    && |order| == |sims|
    && (forall k :: 0 <= k < |order| ==> order[k] < |sims|)
    && (forall i, j :: 0 <= i < j < |order| ==> order[i] != order[j])
    && (forall x :: 0 <= x < |sims| ==> x in order)
    && (forall i, j :: 0 <= i < j < |order| ==> sims[order[i]] <= sims[order[j]])
  }

  /** Where Python's slice `xs[-topN:]` starts on a list of length `n`:
      `-0` is `0`, so `topN == 0` keeps everything; a negative `topN`
      makes the start index positive. */
  function SliceStart(topN: int, n: nat): (s: nat)
    ensures s <= n
    ensures topN == 0 ==> s == 0
  {
    var m := -topN;
    if m >= 0 then (if m <= n then m else n)
    else if n + m >= 0 then n + m else 0
  }

  /** The number of results `semantic_search` returns, case by case. */
  function SelectedCount(topN: int, n: nat): nat
  {
    if topN == 0 then n
    else if topN > 0 then (if topN <= n then topN else n)
    else if n + topN >= 0 then n + topN else 0
  }

  /** `xs[::-1]`. */
  function Reverse(xs: seq<nat>): (r: seq<nat>)
    ensures |r| == |xs|
    ensures forall k :: 0 <= k < |xs| ==> r[k] == xs[|xs| - 1 - k]
  {
    seq(|xs|, k requires 0 <= k < |xs| => xs[|xs| - 1 - k])
  }

  /** `similarities.argsort()[-top_n:][::-1]`. */
  function TopIndices(order: seq<nat>, topN: int): seq<nat>
  {
    Reverse(order[SliceStart(topN, |order|)..])
  }

  /** The kept indices are the last positions of `order`, read backwards. */
  lemma {:induction false} TopIndicesAt(order: seq<nat>, topN: int)
    ensures |TopIndices(order, topN)| == |order| - SliceStart(topN, |order|)
    ensures forall k :: 0 <= k < |TopIndices(order, topN)| ==>
              TopIndices(order, topN)[k] == order[|order| - 1 - k]
  {
  }

  /** As many indices are kept as `SelectedCount` says: `min(top_n, n)` for a
      positive `top_n`, all `n` for `top_n == 0`. */
  lemma {:induction false} TopIndicesCount(order: seq<nat>, topN: int)
    ensures |TopIndices(order, topN)| == SelectedCount(topN, |order|)
  {
    TopIndicesAt(order, topN);
  }

  /** The kept indices: each a valid index, none twice, in non-increasing
      order of score, and every index left out scores no higher than every
      index kept. */
  lemma {:induction false} TopIndicesRanked(sims: seq<real>, order: seq<nat>, topN: int)
    requires IsArgsort(order, sims)
    ensures var ti := TopIndices(order, topN);
      && (forall k :: 0 <= k < |ti| ==> ti[k] < |sims|)
      && (forall i, j :: 0 <= i < j < |ti| ==> ti[i] != ti[j])
      && (forall i, j :: 0 <= i < j < |ti| ==> sims[ti[i]] >= sims[ti[j]])
      && (forall x, k :: 0 <= x < |sims| && x !in ti && 0 <= k < |ti| ==> sims[x] <= sims[ti[k]])
  {
    var n := |order|;
    var s := SliceStart(topN, n);
    var ti := TopIndices(order, topN);
    TopIndicesAt(order, topN);
    forall i, j | 0 <= i < j < |ti|
      ensures ti[i] != ti[j] && sims[ti[i]] >= sims[ti[j]]
    {
      assert ti[i] == order[n - 1 - i] && ti[j] == order[n - 1 - j];
    }
    forall x, k | 0 <= x < |sims| && x !in ti && 0 <= k < |ti|
      ensures sims[x] <= sims[ti[k]]
    {
      LeftOutScoresLower(sims, order, topN, x, k);
    }
  }

  lemma {:induction false} LeftOutScoresLower(sims: seq<real>, order: seq<nat>, topN: int, x: nat, k: nat)
    requires IsArgsort(order, sims)
    requires x < |sims| && x !in TopIndices(order, topN) && k < |TopIndices(order, topN)|
    ensures sims[x] <= sims[TopIndices(order, topN)[k]]
  {
    var n := |order|;
    var ti := TopIndices(order, topN);
    TopIndicesAt(order, topN);
    assert x in order;
    var p :| 0 <= p < n && order[p] == x;
    forall q | SliceStart(topN, n) <= q < n
      ensures order[q] in ti
    {
      assert ti[n - 1 - q] == order[q];
    }
    assert p < SliceStart(topN, n);
    assert ti[k] == order[n - 1 - k];
  }

  /** With `top_n == 0` every chunk is returned, best first. */
  lemma {:induction false} ZeroTopNSelectsAll(sims: seq<real>, order: seq<nat>)
    requires IsArgsort(order, sims)
    ensures |TopIndices(order, 0)| == |sims|
    ensures forall x :: 0 <= x < |sims| ==> x in TopIndices(order, 0)
  {
    var ti := TopIndices(order, 0);
    forall x | 0 <= x < |sims|
      ensures x in ti
    {
      assert x in order;
      var p :| 0 <= p < |order| && order[p] == x;
      assert ti[|order| - 1 - p] == x;
    }
  }

  /** The record `semantic_search` builds for stored chunk `x`. */
  function HitOf(sims: seq<real>, chunks: seq<ChunkRecord>, x: nat): Hit
    requires x < |sims| <= |chunks|
  {
    Hit(chunks[x].doc, chunks[x].content, sims[x])
  }

  /** The results `semantic_search` builds from the kept indices. */
  function TopHits(sims: seq<real>, order: seq<nat>, chunks: seq<ChunkRecord>, topN: int): (hs: seq<Hit>)
    requires IsArgsort(order, sims)
    requires |chunks| >= |sims|
    ensures |hs| == |TopIndices(order, topN)|
  {
    var ti := TopIndices(order, topN);
    TopIndicesRanked(sims, order, topN);
    seq(|ti|, k requires 0 <= k < |ti| => HitOf(sims, chunks, ti[k]))
  }

  /** The results: `SelectedCount` of them; result `k` takes its `doc`,
      `chunk` and `score` from the same stored chunk, the `k`-th kept index
      (distinct by `TopIndicesRanked`); scores never increase; and every
      chunk left out scores no higher than every result. */
  lemma {:induction false} TopHitsRanked(sims: seq<real>, order: seq<nat>, chunks: seq<ChunkRecord>, topN: int)
    requires IsArgsort(order, sims)
    requires |chunks| >= |sims|
    ensures |TopHits(sims, order, chunks, topN)| == SelectedCount(topN, |sims|)
    ensures var hs, ti := TopHits(sims, order, chunks, topN), TopIndices(order, topN);
      forall k :: 0 <= k < |hs| ==> ti[k] < |sims| && hs[k] == HitOf(sims, chunks, ti[k])
    ensures var hs := TopHits(sims, order, chunks, topN);
      forall i, j :: 0 <= i < j < |hs| ==> hs[i].score >= hs[j].score
    ensures var hs := TopHits(sims, order, chunks, topN);
      forall x, k :: 0 <= x < |sims| && x !in TopIndices(order, topN) && 0 <= k < |hs| ==> sims[x] <= hs[k].score
  {
    var ti := TopIndices(order, topN);
    var hs := TopHits(sims, order, chunks, topN);
    TopIndicesCount(order, topN);
    TopIndicesRanked(sims, order, topN);
  }

  /** The result loop of `semantic_search`, given the similarities and the
      order `argsort` returned for them. */
  method SemanticSearch(sims: seq<real>, order: seq<nat>, chunks: seq<ChunkRecord>, topN: int)
    returns (results: seq<Hit>)
    requires IsArgsort(order, sims)
    requires |chunks| >= |sims|
    ensures results == TopHits(sims, order, chunks, topN)
  {
    var topIndices := TopIndices(order, topN);
    TopIndicesRanked(sims, order, topN);
    results := [];
    for i := 0 to |topIndices|
      invariant results == TopHits(sims, order, chunks, topN)[..i]
    {
      var idx := topIndices[i];
      results := results + [Hit(chunks[idx].doc, chunks[idx].content, sims[idx])];
    }
  }
}
