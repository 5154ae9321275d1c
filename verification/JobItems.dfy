/**
 Paging over a job's results: the items of its completed shards in global order, cut to an index
 window. Pages are windows of one sequence, so consecutive pages concatenate.
 */
module JobItems {
  import opened Prelude
  import opened Jobs
  import opened ShardProtocol
  import opened ShardInvariant

  function SaturatingAdd(a: nat, b: nat): nat {
    Min(a + b, USIZE_MAX)
  }

  /** `load_shard_results`: no results until the shard completes. */
  function ResultsOf(s: Store, id: ShardId): seq<BatchItem> {
    if id in s.results then s.results[id] else []
  }

  /** The items of shards `k0`, ..., `k1 - 1` of a job. */
  function ItemsOfShards(s: Store, job: string, k0: nat, k1: nat): seq<BatchItem>
    requires k0 <= k1
    decreases k1
  {
    if k0 == k1 then [] else ItemsOfShards(s, job, k0, k1 - 1) + ResultsOf(s, (job, k1 - 1))
  }

  /** The items with an index in `lo`, ..., `hi - 1`. */
  function Window(items: seq<BatchItem>, lo: nat, hi: nat): seq<BatchItem> {
    if items == [] then []
    else
      var last := items[|items| - 1];
      Window(items[..|items| - 1], lo, hi) + if lo <= last.index < hi then [last] else []
  }

  predicate Ascending(items: seq<BatchItem>) {
    forall i, j :: 0 <= i < j < |items| ==> items[i].index < items[j].index
  }

  predicate Within(items: seq<BatchItem>, lo: nat, hi: nat) {
    forall i :: 0 <= i < |items| ==> lo <= items[i].index < hi
  }

  lemma {:induction false} WindowAppend(a: seq<BatchItem>, b: seq<BatchItem>, lo: nat, hi: nat)
    ensures Window(a + b, lo, hi) == Window(a, lo, hi) + Window(b, lo, hi)
  {
    if b == [] {
      assert a + b == a;
    } else {
      var n := |b| - 1;
      WindowAppend(a, b[..n], lo, hi);
      assert (a + b)[..|a + b| - 1] == a + b[..n];
    }
  }

  lemma {:induction false} WindowNone(items: seq<BatchItem>, lo: nat, hi: nat)
    requires forall i :: 0 <= i < |items| ==> items[i].index < lo || hi <= items[i].index
    ensures Window(items, lo, hi) == []
  {
    if items != [] {
      WindowNone(items[..|items| - 1], lo, hi);
    }
  }

  lemma {:induction false} WindowMembers(items: seq<BatchItem>, lo: nat, hi: nat)
    ensures forall it :: it in Window(items, lo, hi) <==> it in items && lo <= it.index < hi
    ensures Ascending(items) ==> Ascending(Window(items, lo, hi))
  {
    if items != [] {
      var n := |items| - 1;
      WindowMembers(items[..n], lo, hi);
      assert items == items[..n] + [items[n]];
    }
  }

  /** Two windows side by side are one window. */
  lemma {:induction false} WindowsConcatenate(items: seq<BatchItem>, lo: nat, mid: nat, hi: nat)
    requires Ascending(items) && lo <= mid <= hi
    ensures Window(items, lo, mid) + Window(items, mid, hi) == Window(items, lo, hi)
  {
    hide Ascending;
    if items != [] {
      var n := |items| - 1;
      RestBelow(items);
      WindowsConcatenate(items[..n], lo, mid, hi);
      if lo <= items[n].index < mid {
        WindowNone(items[..n], mid, hi);
      }
    }
  }

  lemma RestBelow(items: seq<BatchItem>)
    requires Ascending(items) && items != []
    ensures Ascending(items[..|items| - 1])
    ensures forall i :: 0 <= i < |items| - 1 ==> items[i].index < items[|items| - 1].index
  {
  }

  // ----- the results of a submission -----

  /** Stored results of `job` are what the protocol stores: each shard's exact index range, in order. */
  predicate ResultsRanged(s: Store, job: string, sub: Submission)
    requires ValidSubmission(sub)
  {
    forall k: nat :: k < NumShards(sub) && (job, k) in s.results ==> ResultRanged(s.results[(job, k)], sub, k)
  }

  predicate ResultRanged(items: seq<BatchItem>, sub: Submission, k: nat)
    requires ValidSubmission(sub) && k < NumShards(sub)
  {
    |items| == |Slice(sub, k)| && forall j :: 0 <= j < |items| ==> items[j].index == ShardStart(sub, k) + j
  }

  /** The protocol's invariant gives exactly this. */
  lemma InvariantGivesRanges(s: Store, subs: Subs, ever: Ever, job: string)
    requires StoreOk(s, subs, ever) && job in subs && ValidSubmission(subs[job])
    ensures ResultsRanged(s, job, subs[job])
  {
    forall k: nat | k < NumShards(subs[job]) && (job, k) in s.results
      ensures ResultRanged(s.results[(job, k)], subs[job], k)
    {
      var items := s.results[(job, k)];
      assert ResultOk(subs, ever, (job, k), items);
      var m :| VersionOk(subs, ever, (job, k), items, m);
      forall j | 0 <= j < |items|
        ensures items[j].index == ShardStart(subs[job], k) + j
      {
        assert ItemOk(items[j], ShardStart(subs[job], k), Slice(subs[job], k), subs[job].opts, m, ever, j);
      }
    }
  }

  /** Shards `k0`, ..., `k1 - 1` hold ascending items inside their index range. */
  lemma {:induction false} ShardsAscend(s: Store, job: string, sub: Submission, k0: nat, k1: nat)
    requires ValidSubmission(sub) && k0 <= k1 <= NumShards(sub) && ResultsRanged(s, job, sub)
    ensures Ascending(ItemsOfShards(s, job, k0, k1))
    ensures Within(ItemsOfShards(s, job, k0, k1), CoveredBefore(sub, k0), CoveredBefore(sub, k1))
    decreases k1
  {
    hide Ascending, Within, ResultsRanged, CoveredBefore, ResultsOf;
    EmptyAscends(CoveredBefore(sub, k0), CoveredBefore(sub, k1));
    if k0 < k1 {
      ShardsAscend(s, job, sub, k0, k1 - 1);
      CoveredStep(sub, k1 - 1);
      CoveredMono(sub, k0, k1 - 1);
      ShardItems(s, job, sub, k1 - 1);
      AppendAscends(ItemsOfShards(s, job, k0, k1 - 1), ResultsOf(s, (job, k1 - 1)),
                    CoveredBefore(sub, k0), CoveredBefore(sub, k1 - 1), CoveredBefore(sub, k1));
    }
  }

  lemma EmptyAscends(lo: nat, hi: nat)
    ensures Ascending([]) && Within([], lo, hi)
  {
  }

  lemma AppendAscends(a: seq<BatchItem>, b: seq<BatchItem>, lo: nat, mid: nat, hi: nat)
    requires Ascending(a) && Within(a, lo, mid) && Ascending(b) && Within(b, mid, hi) && lo <= mid <= hi
    ensures Ascending(a + b) && Within(a + b, lo, hi)
  {
  }

  lemma ShardItems(s: Store, job: string, sub: Submission, k: nat)
    requires ValidSubmission(sub) && k < NumShards(sub) && ResultsRanged(s, job, sub)
    ensures Ascending(ResultsOf(s, (job, k)))
    ensures Within(ResultsOf(s, (job, k)), CoveredBefore(sub, k), CoveredBefore(sub, k + 1))
  {
    CoveredStep(sub, k);
    if (job, k) in s.results {
      assert ResultRanged(s.results[(job, k)], sub, k);
    }
  }

  lemma {:induction false} CoveredMono(sub: Submission, a: nat, b: nat)
    requires ValidSubmission(sub) && a <= b <= NumShards(sub)
    ensures CoveredBefore(sub, a) <= CoveredBefore(sub, b)
    decreases b
  {
    if a < b {
      CoveredMono(sub, a, b - 1);
      CoveredStep(sub, b - 1);
    }
  }

  /** What a page shows: the completed items with an index in the window. */
  function Page(s: Store, job: string, sub: Submission, offset: nat, end: nat): seq<BatchItem>
    requires ValidSubmission(sub)
  {
    Window(ItemsOfShards(s, job, 0, NumShards(sub)), offset, end)
  }

  lemma {:induction false} ItemsSplit(s: Store, job: string, a: nat, b: nat, c: nat)
    requires a <= b <= c
    ensures ItemsOfShards(s, job, a, c) == ItemsOfShards(s, job, a, b) + ItemsOfShards(s, job, b, c)
    decreases c
  {
    if b < c {
      ItemsSplit(s, job, a, b, c - 1);
    }
  }

  /** Only the shards that overlap the window contribute to it. */
  lemma PageNeedsOnlyOverlap(s: Store, job: string, sub: Submission, offset: nat, end: nat, k0: nat, k1: nat)
    requires ValidSubmission(sub) && ResultsRanged(s, job, sub) && k0 <= k1 <= NumShards(sub)
    requires CoveredBefore(sub, k0) <= offset && end <= CoveredBefore(sub, k1)
    ensures Window(ItemsOfShards(s, job, k0, k1), offset, end) == Page(s, job, sub, offset, end)
  {
    var n := NumShards(sub);
    ItemsSplit(s, job, 0, k0, n);
    ItemsSplit(s, job, k0, k1, n);
    ShardsAscend(s, job, sub, 0, k0);
    ShardsAscend(s, job, sub, k1, n);
    var a, b, c := ItemsOfShards(s, job, 0, k0), ItemsOfShards(s, job, k0, k1), ItemsOfShards(s, job, k1, n);
    WindowAppend(a, b + c, offset, end);
    WindowAppend(b, c, offset, end);
    WindowNone(a, offset, end);
    WindowNone(c, offset, end);
  }

  /** The end of a page's window. */
  function PageEnd(total: nat, offset: nat, limit: nat): nat {
    Min(SaturatingAdd(offset, limit), total)
  }

  /** One page, as the server returns it. */
  function PageAt(s: Store, job: string, sub: Submission, offset: nat, limit: nat): seq<BatchItem>
    requires ValidSubmission(sub)
  {
    Page(s, job, sub, offset, PageEnd(|sub.inputs|, offset, limit))
  }

  /** This is one of the results stored for a shard of the job. */
  predicate IsResult(s: Store, job: string, k: nat, it: BatchItem) {
    (job, k) in s.results && it in s.results[(job, k)]
  }

  /** The items of some shards are the results stored for them. */
  lemma {:induction false} ItemsAreResults(s: Store, job: string, k0: nat, k1: nat, it: BatchItem)
    requires k0 <= k1
    ensures it in ItemsOfShards(s, job, k0, k1) <==> exists k: nat :: k0 <= k < k1 && IsResult(s, job, k, it)
    decreases k1
  {
    if k0 < k1 {
      ItemsAreResults(s, job, k0, k1 - 1, it);
      assert it in ResultsOf(s, (job, k1 - 1)) <==> IsResult(s, job, k1 - 1, it);
    }
  }

  /**
   A page holds exactly the stored results of the job's shards whose index is in
   [offset, min(offset + limit, total)), in ascending order, saturation or not.
   */
  lemma PageIsExact(s: Store, job: string, sub: Submission, offset: nat, limit: nat)
    requires ValidSubmission(sub) && ResultsRanged(s, job, sub) && |sub.inputs| <= USIZE_MAX
    ensures Ascending(PageAt(s, job, sub, offset, limit))
    ensures forall it :: it in PageAt(s, job, sub, offset, limit) <==>
      (exists k: nat :: k < NumShards(sub) && IsResult(s, job, k, it))
      && offset <= it.index < offset + limit && it.index < |sub.inputs|
  {
    ShardsAscend(s, job, sub, 0, NumShards(sub));
    forall it: BatchItem
      ensures it in ItemsOfShards(s, job, 0, NumShards(sub)) <==>
        exists k: nat :: k < NumShards(sub) && IsResult(s, job, k, it)
    {
      ItemsAreResults(s, job, 0, NumShards(sub), it);
    }
    WindowMembers(ItemsOfShards(s, job, 0, NumShards(sub)), offset, PageEnd(|sub.inputs|, offset, limit));
  }

  /** Consecutive pages concatenate to one large page, also when the limits saturate. */
  lemma PagesConcatenate(s: Store, job: string, sub: Submission, offset: nat, limit: nat, limit': nat)
    requires ValidSubmission(sub) && ResultsRanged(s, job, sub) && |sub.inputs| <= USIZE_MAX
    ensures
      PageAt(s, job, sub, offset, limit) + PageAt(s, job, sub, offset + limit, limit')
      == PageAt(s, job, sub, offset, limit + limit')
  {
    var items := ItemsOfShards(s, job, 0, NumShards(sub));
    var total := |sub.inputs|;
    ShardsAscend(s, job, sub, 0, NumShards(sub));
    var mid := Min(offset + limit, total);
    var hi := Min(offset + limit + limit', total);
    if offset <= mid {
      WindowsConcatenate(items, offset, mid, hi);
      if total < offset + limit {
        WindowNone(items, offset + limit, hi);
        WindowNone(items, mid, hi);
      }
    } else {
      WindowNone(items, offset, mid);
      WindowNone(items, offset + limit, hi);
      WindowNone(items, offset, hi);
    }
  }
}
