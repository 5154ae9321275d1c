/**
 The documents of a sharded batch job and the read-time view that is folded from
 them (crates/papermake-registry/src/batch.rs), together with the arithmetic that
 cuts a submission into shards.
 */
module Jobs {
  import opened Prelude

  /** One input: its canonical data bytes and the caller's key, echoed on the result. */
  datatype BatchInput = BatchInput(data: string, key: Option<string>)

  datatype JobStatus = Queued | Running | Completed | CompletedWithFailures | Failed

  datatype ShardStatus = Pending | Running | Done | Failed

  datatype ItemStatus = Pending | Success | Failed

  /** A render id is an injective function of what it is computed from. */
  datatype RenderId = RenderId(manifest: string, data: string, opts: string)

  datatype BatchItem = BatchItem(index: nat, key: Option<string>, renderId: Option<RenderId>, status: ItemStatus)

  datatype BatchJob = BatchJob(
    jobId: string, reference: string, total: nat, retainDays: Option<nat>,
    opts: string, shardSize: nat, numShards: nat, createdAt: int)

  datatype Shard = Shard(
    jobId: string, index: nat, start: nat, len: nat, status: ShardStatus,
    owner: Option<string>, lease: Option<int>, done: nat, failed: nat,
    attempts: nat, updatedAt: int)

  datatype JobView = JobView(
    jobId: string, reference: string, status: JobStatus, total: nat, done: nat,
    failed: nat, numShards: nat, shardsTerminal: nat, retainDays: Option<nat>, createdAt: int)

  predicate Terminal(s: Shard) {
    s.status == ShardStatus.Done || s.status == ShardStatus.Failed
  }

  function SumDone(shards: seq<Shard>): nat {
    if shards == [] then 0 else shards[0].done + SumDone(shards[1..])
  }

  function SumFailed(shards: seq<Shard>): nat {
    if shards == [] then 0 else shards[0].failed + SumFailed(shards[1..])
  }

  function CountTerminal(shards: seq<Shard>): nat {
    if shards == [] then 0 else (if Terminal(shards[0]) then 1 else 0) + CountTerminal(shards[1..])
  }

  /** `JobView::aggregate`: status and counts derived from the shard descriptors. */
  function Aggregate(meta: BatchJob, shards: seq<Shard>): JobView {
    var done := SumDone(shards);
    var failed := SumFailed(shards);
    var status :=
      if meta.numShards == 0 then JobStatus.Completed
      else if |shards| == meta.numShards && forall s :: s in shards ==> Terminal(s) then
        if forall s :: s in shards ==> s.status == ShardStatus.Failed then JobStatus.Failed
        else if failed > 0 || done < meta.total then JobStatus.CompletedWithFailures
        else JobStatus.Completed
      else if exists s :: s in shards && (s.status == ShardStatus.Running || s.status == ShardStatus.Done) then
        JobStatus.Running
      else JobStatus.Queued;
    JobView(meta.jobId, meta.reference, status, meta.total, done, failed, meta.numShards,
            CountTerminal(shards), meta.retainDays, meta.createdAt)
  }

  // ----- cutting a submission into shards -----

  /** What a client submits; `size` is the registry's shard size, at least one. */
  datatype Submission = Submission(
    reference: string, inputs: seq<BatchInput>, retainDays: Option<nat>, opts: string, size: nat, at: int)

  predicate ValidSubmission(sub: Submission) {
    sub.size >= 1
  }

  function NumShards(sub: Submission): nat
    requires ValidSubmission(sub)
  {
    (|sub.inputs| + sub.size - 1) / sub.size
  }

  function ShardStart(sub: Submission, k: nat): nat {
    k * sub.size
  }

  function ShardLen(sub: Submission, k: nat): nat
    requires ShardStart(sub, k) <= |sub.inputs|
  {
    Min(|sub.inputs| - ShardStart(sub, k), sub.size)
  }

  lemma ShardRange(sub: Submission, k: nat)
    requires ValidSubmission(sub) && k < NumShards(sub)
    ensures ShardStart(sub, k) < |sub.inputs|
    ensures k + 1 < NumShards(sub) ==> ShardLen(sub, k) == sub.size
    ensures
      ShardStart(sub, k) + ShardLen(sub, k)
      == if k + 1 < NumShards(sub) then ShardStart(sub, k + 1) else |sub.inputs|
  {
    var n, total, size := NumShards(sub), |sub.inputs|, sub.size;
    DivBounds(total + size - 1, size);
    assert n * size <= total + size - 1 < n * size + size;
    MulMono(k, n - 1, size);
    assert (n - 1) * size == n * size - size;
    assert (k + 1) * size == k * size + size;
    if k + 1 < n {
      MulMono(k + 1, n - 1, size);
    } else {
      assert k == n - 1;
    }
  }

  lemma DivBounds(a: nat, b: nat)
    requires b >= 1
    ensures (a / b) * b <= a < (a / b) * b + b
  {
  }

  lemma MulMono(a: nat, b: nat, c: nat)
    requires a <= b
    ensures a * c <= b * c
  {
  }

  /** The inputs document of shard `k`. */
  function Slice(sub: Submission, k: nat): (s: seq<BatchInput>)
    requires ValidSubmission(sub) && k < NumShards(sub)
  {
    ShardRange(sub, k);
    sub.inputs[ShardStart(sub, k)..ShardStart(sub, k) + ShardLen(sub, k)]
  }

  function SlicesUpTo(sub: Submission, n: nat): seq<BatchInput>
    requires ValidSubmission(sub) && n <= NumShards(sub)
  {
    if n == 0 then [] else SlicesUpTo(sub, n - 1) + Slice(sub, n - 1)
  }

  /** First index that the first `n` shards do not cover. */
  function CoveredBefore(sub: Submission, n: nat): (c: nat)
    requires ValidSubmission(sub) && n <= NumShards(sub)
    ensures c <= |sub.inputs|
  {
    if n < NumShards(sub) then ShardRange(sub, n); ShardStart(sub, n) else |sub.inputs|
  }

  lemma CoveredStep(sub: Submission, n: nat)
    requires ValidSubmission(sub) && n < NumShards(sub)
    ensures CoveredBefore(sub, 0) == 0
    ensures ShardStart(sub, n) == CoveredBefore(sub, n)
    ensures CoveredBefore(sub, n) + ShardLen(sub, n) == CoveredBefore(sub, n + 1)
  {
    ShardRange(sub, n);
  }

  lemma NoShardsNoInputs(sub: Submission)
    requires ValidSubmission(sub)
    ensures NumShards(sub) == 0 <==> |sub.inputs| == 0
  {
    DivBounds(|sub.inputs| + sub.size - 1, sub.size);
    if |sub.inputs| > 0 && NumShards(sub) == 0 {
      assert false;
    }
    if |sub.inputs| == 0 && NumShards(sub) > 0 {
      ShardRange(sub, 0);
    }
  }

  /** Every prefix of the shards holds exactly a prefix of the submitted inputs, in order. */
  lemma {:induction false} SlicesArePrefix(sub: Submission, n: nat)
    requires ValidSubmission(sub) && n <= NumShards(sub)
    ensures SlicesUpTo(sub, n) == sub.inputs[..CoveredBefore(sub, n)]
  {
    hide NumShards, ShardStart, ShardLen;
    if n == 0 {
      NoShardsNoInputs(sub);
      if NumShards(sub) > 0 {
        CoveredStep(sub, 0);
      }
    } else {
      SlicesArePrefix(sub, n - 1);
      CoveredStep(sub, n - 1);
      var lo, hi := CoveredBefore(sub, n - 1), CoveredBefore(sub, n);
      assert Slice(sub, n - 1) == sub.inputs[lo..hi];
      assert sub.inputs[..lo] + sub.inputs[lo..hi] == sub.inputs[..hi];
    }
  }

  /** The shards' inputs, in shard order, concatenate to the submission. */
  lemma SlicesConcatenate(sub: Submission)
    requires ValidSubmission(sub)
    ensures SlicesUpTo(sub, NumShards(sub)) == sub.inputs
  {
    SlicesArePrefix(sub, NumShards(sub));
    assert sub.inputs[..|sub.inputs|] == sub.inputs;
  }

  predicate InShard(sub: Submission, k: nat, i: nat)
    requires ValidSubmission(sub) && k < NumShards(sub)
  {
    ShardRange(sub, k);
    ShardStart(sub, k) <= i < ShardStart(sub, k) + ShardLen(sub, k)
  }

  /** Item `i` lies in shard `i / size`. */
  lemma ShardOfIndex(sub: Submission, i: nat)
    requires ValidSubmission(sub) && i < |sub.inputs|
    ensures i / sub.size < NumShards(sub)
    ensures InShard(sub, i / sub.size, i)
  {
    var n, total, size, k := NumShards(sub), |sub.inputs|, sub.size, i / sub.size;
    DivBounds(i, size);
    DivBounds(total + size - 1, size);
    if n <= k {
      MulMono(n, k, size);
      assert false;
    }
    ShardRange(sub, k);
  }

  /** Shards do not overlap: the shard of an item is determined by the item. */
  lemma ShardOfIndexUnique(sub: Submission, k: nat, i: nat)
    requires ValidSubmission(sub) && k < NumShards(sub) && InShard(sub, k, i)
    ensures i < |sub.inputs| && k == i / sub.size
  {
    ShardRange(sub, k);
    QuotientUnique(i, sub.size, k);
  }

  lemma QuotientUnique(i: nat, size: nat, k: nat)
    requires size >= 1 && k * size <= i < k * size + size
    ensures i / size == k
  {
    var q := i / size;
    DivBounds(i, size);
    assert (q + 1) * size == q * size + size;
    assert (k + 1) * size == k * size + size;
    if q < k {
      MulMono(q + 1, k, size);
    } else if k < q {
      MulMono(k + 1, q, size);
    }
  }

  // ----- the derived status -----

  /** `shards` are descriptors of all the shards of `sub`, in order, with the given ranges and sane counts. */
  predicate Covers(sub: Submission, shards: seq<Shard>)
    requires ValidSubmission(sub)
  {
    |shards| == NumShards(sub) &&
    forall k :: 0 <= k < |shards| ==> CoversAt(sub, shards[k], k)
  }

  predicate CoversAt(sub: Submission, s: Shard, k: nat)
    requires ValidSubmission(sub) && k < NumShards(sub)
  {
    ShardRange(sub, k);
    s.len == ShardLen(sub, k) && s.done + s.failed <= s.len
  }

  function JobOf(id: string, sub: Submission): BatchJob
    requires ValidSubmission(sub)
  {
    BatchJob(id, sub.reference, |sub.inputs|, sub.retainDays, sub.opts, sub.size, NumShards(sub), sub.at)
  }

  lemma {:induction false} SumAppend(a: seq<Shard>, s: Shard)
    ensures SumDone(a + [s]) == SumDone(a) + s.done
    ensures SumFailed(a + [s]) == SumFailed(a) + s.failed
  {
    if a == [] {
      assert a + [s] == [s];
    } else {
      SumAppend(a[1..], s);
      assert (a + [s])[1..] == a[1..] + [s];
    }
  }

  /** The counts of the first `n` shards never exceed their items, and reach them only shard by shard. */
  lemma {:induction false} SumsBounded(sub: Submission, shards: seq<Shard>, n: nat)
    requires ValidSubmission(sub) && Covers(sub, shards) && n <= |shards|
    ensures SumDone(shards[..n]) + SumFailed(shards[..n]) <= |SlicesUpTo(sub, n)|
    ensures SumDone(shards[..n]) == |SlicesUpTo(sub, n)| <==> forall k :: 0 <= k < n ==> shards[k].done == shards[k].len
  {
    if n > 0 {
      SumsBounded(sub, shards, n - 1);
      SumAppend(shards[..n - 1], shards[n - 1]);
      assert shards[..n] == shards[..n - 1] + [shards[n - 1]];
      assert CoversAt(sub, shards[n - 1], n - 1);
    }
  }

  /**
   A job reads as `Completed` exactly when it has no shard, or every shard is terminal with
   all its items counted as done and at least one shard was not abandoned.
   */
  lemma CompletedIff(id: string, sub: Submission, shards: seq<Shard>)
    requires ValidSubmission(sub) && Covers(sub, shards)
    ensures Aggregate(JobOf(id, sub), shards).status == JobStatus.Completed <==>
      (forall k :: 0 <= k < |shards| ==> Terminal(shards[k]) && shards[k].done == shards[k].len) &&
      (|shards| == 0 || exists k :: 0 <= k < |shards| && shards[k].status == ShardStatus.Done)
  {
    SumsBounded(sub, shards, |shards|);
    SlicesConcatenate(sub);
    assert shards[..|shards|] == shards;
    if |shards| > 0 && (forall s :: s in shards ==> Terminal(s)) {
      if exists k :: 0 <= k < |shards| && shards[k].status == ShardStatus.Done {
        var k :| 0 <= k < |shards| && shards[k].status == ShardStatus.Done;
        assert shards[k] in shards;
      }
    }
  }

  /** Every shard has a descriptor and none of them is still pending or running. */
  predicate AllEnded(meta: BatchJob, shards: seq<Shard>) {
    |shards| == meta.numShards
    && forall k :: 0 <= k < |shards| ==> shards[k].status in {ShardStatus.Done, ShardStatus.Failed}
  }

  lemma AllEndedIff(meta: BatchJob, shards: seq<Shard>)
    ensures AllEnded(meta, shards) <==> |shards| == meta.numShards && forall s :: s in shards ==> Terminal(s)
  {
    if forall s :: s in shards ==> Terminal(s) {
      forall k | 0 <= k < |shards|
        ensures shards[k].status in {ShardStatus.Done, ShardStatus.Failed}
      {
        assert shards[k] in shards;
      }
    }
  }

  /** Some descriptor has one of these statuses. */
  lemma SomeStatus(shards: seq<Shard>, a: ShardStatus, b: ShardStatus)
    ensures (exists s :: s in shards && (s.status == a || s.status == b))
            <==> exists k :: 0 <= k < |shards| && (shards[k].status == a || shards[k].status == b)
  {
    if k :| 0 <= k < |shards| && (shards[k].status == a || shards[k].status == b) {
      assert shards[k] in shards;
    }
  }

  /** A job reads as `Failed` exactly when it has shards and every one of them was abandoned. */
  lemma FailedIff(meta: BatchJob, shards: seq<Shard>)
    ensures Aggregate(meta, shards).status == JobStatus.Failed <==>
      meta.numShards > 0 && |shards| == meta.numShards
      && forall k :: 0 <= k < |shards| ==> shards[k].status == ShardStatus.Failed
  {
    forall k | 0 <= k < |shards|
      ensures shards[k] in shards
    {
    }
  }

  /** A job reads as `Running` exactly when some shard is running or done while not all have ended. */
  lemma RunningIff(meta: BatchJob, shards: seq<Shard>)
    ensures Aggregate(meta, shards).status == JobStatus.Running <==>
      meta.numShards > 0 && !AllEnded(meta, shards)
      && exists k :: 0 <= k < |shards| && shards[k].status in {ShardStatus.Running, ShardStatus.Done}
  {
    AllEndedIff(meta, shards);
    SomeStatus(shards, ShardStatus.Running, ShardStatus.Done);
    hide AllEnded, Terminal;
  }

  /** A job reads as `Queued` exactly when none of its shards is running or done and not all have ended. */
  lemma QueuedIff(meta: BatchJob, shards: seq<Shard>)
    ensures Aggregate(meta, shards).status == JobStatus.Queued <==>
      meta.numShards > 0 && !AllEnded(meta, shards)
      && forall k :: 0 <= k < |shards| ==> shards[k].status in {ShardStatus.Pending, ShardStatus.Failed}
  {
    AllEndedIff(meta, shards);
    SomeStatus(shards, ShardStatus.Running, ShardStatus.Done);
    hide AllEnded, Terminal;
  }

  /**
   A job reads as `CompletedWithFailures` exactly when all its shards have ended, not all were
   abandoned, and some shard has items that were not done.
   */
  lemma CompletedWithFailuresIff(id: string, sub: Submission, shards: seq<Shard>)
    requires ValidSubmission(sub) && Covers(sub, shards)
    ensures Aggregate(JobOf(id, sub), shards).status == JobStatus.CompletedWithFailures <==>
      AllEnded(JobOf(id, sub), shards)
      && (exists k :: 0 <= k < |shards| && shards[k].status == ShardStatus.Done)
      && exists k :: 0 <= k < |shards| && shards[k].done < shards[k].len
  {
    var meta := JobOf(id, sub);
    CompletedIff(id, sub, shards);
    FailedIff(meta, shards);
    RunningIff(meta, shards);
    QueuedIff(meta, shards);
    forall k | 0 <= k < |shards|
      ensures shards[k].done <= shards[k].len
    {
      assert CoversAt(sub, shards[k], k);
    }
    hide Aggregate, Covers;
  }

  // ----- the derived counts -----

  /** The items that the descriptors count as done, one by one. */
  function DoneItems(shards: seq<Shard>): set<(nat, nat)> {
    set k: nat, i: nat | k < |shards| && i < shards[k].done :: (k, i)
  }

  function FailedItems(shards: seq<Shard>): set<(nat, nat)> {
    set k: nat, i: nat | k < |shards| && i < shards[k].failed :: (k, i)
  }

  function EndedShards(shards: seq<Shard>): set<nat> {
    set k: nat | k < |shards| && shards[k].status in {ShardStatus.Done, ShardStatus.Failed}
  }

  lemma {:induction false} RowCounted(k: nat, n: nat)
    ensures |set i: nat | i < n :: (k, i)| == n
  {
    if n == 0 {
      assert (set i: nat | i < n :: (k, i)) == {};
    } else {
      RowCounted(k, n - 1);
      assert (set i: nat | i < n :: (k, i)) == (set i: nat | i < n - 1 :: (k, i)) + {(k, n - 1)};
    }
  }

  lemma SumsSplit(shards: seq<Shard>)
    requires shards != []
    ensures
      var n := |shards| - 1;
      SumDone(shards) == SumDone(shards[..n]) + shards[n].done
      && SumFailed(shards) == SumFailed(shards[..n]) + shards[n].failed
  {
    SumAppend(shards[..|shards| - 1], shards[|shards| - 1]);
    assert shards == shards[..|shards| - 1] + [shards[|shards| - 1]];
  }

  lemma {:induction false} DoneCounted(shards: seq<Shard>)
    ensures SumDone(shards) == |DoneItems(shards)|
  {
    if shards != [] {
      var n := |shards| - 1;
      DoneCounted(shards[..n]);
      SumsSplit(shards);
      RowCounted(n, shards[n].done);
      var row := set i: nat | i < shards[n].done :: (n, i);
      assert DoneItems(shards) == DoneItems(shards[..n]) + row;
      assert DoneItems(shards[..n]) !! row;
    }
  }

  lemma {:induction false} FailedCounted(shards: seq<Shard>)
    ensures SumFailed(shards) == |FailedItems(shards)|
  {
    if shards != [] {
      var n := |shards| - 1;
      FailedCounted(shards[..n]);
      SumsSplit(shards);
      RowCounted(n, shards[n].failed);
      var row := set i: nat | i < shards[n].failed :: (n, i);
      assert FailedItems(shards) == FailedItems(shards[..n]) + row;
      assert FailedItems(shards[..n]) !! row;
    }
  }

  lemma {:induction false} TerminalAppend(a: seq<Shard>, s: Shard)
    ensures CountTerminal(a + [s]) == CountTerminal(a) + if Terminal(s) then 1 else 0
  {
    if a == [] {
      assert a + [s] == [s];
    } else {
      TerminalAppend(a[1..], s);
      assert (a + [s])[1..] == a[1..] + [s];
    }
  }

  lemma {:induction false} TerminalCounted(shards: seq<Shard>)
    ensures CountTerminal(shards) == |EndedShards(shards)|
  {
    if shards != [] {
      var n := |shards| - 1;
      TerminalCounted(shards[..n]);
      TerminalAppend(shards[..n], shards[n]);
      assert shards == shards[..n] + [shards[n]];
      assert EndedShards(shards) == EndedShards(shards[..n]) + if Terminal(shards[n]) then {n} else {};
      assert n !in EndedShards(shards[..n]);
    }
  }

  /** The view counts every item and every ended shard of the descriptors once, and repeats the job's own fields. */
  lemma ViewCounts(meta: BatchJob, shards: seq<Shard>)
    ensures
      var v := Aggregate(meta, shards);
      v.done == |DoneItems(shards)| && v.failed == |FailedItems(shards)| && v.shardsTerminal == |EndedShards(shards)|
      && v.jobId == meta.jobId && v.reference == meta.reference && v.total == meta.total
      && v.numShards == meta.numShards && v.retainDays == meta.retainDays && v.createdAt == meta.createdAt
  {
    hide DoneItems, FailedItems, EndedShards;
    DoneCounted(shards);
    FailedCounted(shards);
    TerminalCounted(shards);
  }

  /** What a status says about the descriptors of a job. */
  predicate StatusMeans(meta: BatchJob, shards: seq<Shard>, status: JobStatus) {
    match status
    case Queued =>
      meta.numShards > 0 && !AllEnded(meta, shards)
      && forall k :: 0 <= k < |shards| ==> shards[k].status in {ShardStatus.Pending, ShardStatus.Failed}
    case Running =>
      meta.numShards > 0 && !AllEnded(meta, shards)
      && exists k :: 0 <= k < |shards| && shards[k].status in {ShardStatus.Running, ShardStatus.Done}
    case Failed =>
      meta.numShards > 0 && |shards| == meta.numShards
      && forall k :: 0 <= k < |shards| ==> shards[k].status == ShardStatus.Failed
    case CompletedWithFailures =>
      AllEnded(meta, shards) && (exists k :: 0 <= k < |shards| && shards[k].status == ShardStatus.Done)
      && (FailedItems(shards) != {} || |DoneItems(shards)| < meta.total)
    case Completed =>
      meta.numShards == 0
      || (AllEnded(meta, shards) && (exists k :: 0 <= k < |shards| && shards[k].status == ShardStatus.Done)
          && FailedItems(shards) == {} && |DoneItems(shards)| >= meta.total)
  }

  /** The view of a job that its descriptors determine. */
  predicate ViewMeans(meta: BatchJob, shards: seq<Shard>, v: JobView) {
    StatusMeans(meta, shards, v.status)
    && v.done == |DoneItems(shards)| && v.failed == |FailedItems(shards)| && v.shardsTerminal == |EndedShards(shards)|
    && v.jobId == meta.jobId && v.reference == meta.reference && v.total == meta.total
    && v.numShards == meta.numShards && v.retainDays == meta.retainDays && v.createdAt == meta.createdAt
  }

  /** The aggregate is that view. */
  lemma AggregateMeans(meta: BatchJob, shards: seq<Shard>)
    ensures ViewMeans(meta, shards, Aggregate(meta, shards))
  {
    ViewCounts(meta, shards);
    AggregateStatus(meta, shards);
    hide StatusMeans, Aggregate, DoneItems, FailedItems, EndedShards;
  }

  lemma AggregateStatus(meta: BatchJob, shards: seq<Shard>)
    ensures StatusMeans(meta, shards, Aggregate(meta, shards).status)
  {
    hide DoneItems, FailedItems, SumDone, SumFailed, Terminal, AllEnded;
    DoneCounted(shards);
    FailedCounted(shards);
    FailedIff(meta, shards);
    RunningIff(meta, shards);
    QueuedIff(meta, shards);
    AllEndedIff(meta, shards);
    if AllEnded(meta, shards) {
      NotAllFailed(meta, shards);
    }
  }

  lemma NotAllFailed(meta: BatchJob, shards: seq<Shard>)
    requires AllEnded(meta, shards)
    ensures (exists k :: 0 <= k < |shards| && shards[k].status == ShardStatus.Done)
            <==> !(forall s :: s in shards ==> s.status == ShardStatus.Failed)
  {
    if k :| 0 <= k < |shards| && shards[k].status == ShardStatus.Done {
      assert shards[k] in shards;
    }
  }

  /** Descriptors have one view. */
  lemma ViewUnique(meta: BatchJob, shards: seq<Shard>, v: JobView, w: JobView)
    requires ViewMeans(meta, shards, v) && ViewMeans(meta, shards, w)
    requires meta.numShards == 0 ==> shards == [] && meta.total == 0
    ensures v == w
  {
    hide DoneItems, EndedShards;
  }
}
