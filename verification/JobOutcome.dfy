/**
 What a job's derived status and stored results mean, in every run of the protocol: for any
 schedule of submissions, workers, failures, crashes, double claims and pruning.
 */
module JobOutcome {
  import opened Prelude
  import opened Jobs
  import opened ShardProtocol
  import opened ShardInvariant

  // ----- history only grows -----

  lemma NextGrows(g: Global, a: Action)
    ensures Grows(g.submitted, Next(g, a).submitted)
    ensures Extends(g.ever, Next(g, a).ever) && g.everPdf <= Next(g, a).everPdf
  {
  }

  lemma {:induction false} ExecGrows(g: Global, acts: seq<Action>, i: nat)
    requires i <= |acts|
    ensures Grows(Exec(g, acts[..i]).submitted, Exec(g, acts).submitted)
    ensures Extends(Exec(g, acts[..i]).ever, Exec(g, acts).ever)
    ensures Exec(g, acts[..i]).everPdf <= Exec(g, acts).everPdf
  {
    if i == |acts| {
      assert acts[..i] == acts;
    } else {
      var n := |acts| - 1;
      ExecGrows(g, acts[..n], i);
      assert acts[..n][..i] == acts[..i];
      NextGrows(Exec(g, acts[..n]), acts[n]);
    }
  }

  lemma InitialOk(max: nat)
    ensures Inv(Initial(max))
  {
  }

  /**
   In every reachable state every stored shard descriptor belongs to a submission, covers that
   submission's range, never counts more items than it has, has an owner and a lease exactly
   while running, counts every item once done, and counts as successes no more items than
   were persisted as successes at some time, by a version that the job's reference resolved to.
   */
  lemma StoredShardsAreSane(max: nat, acts: seq<Action>, id: ShardId)
    requires id in Exec(Initial(max), acts).store.shards
    ensures
      var g := Exec(Initial(max), acts);
      var s := g.store.shards[id];
      KnownShard(g.submitted, id) && IdOf(s) == id
      && s.start == ShardStart(g.submitted[id.0], id.1) && s.len == |InputsOf(g.submitted, id)|
      && s.done + s.failed <= s.len
      && (s.status == ShardStatus.Running <==> s.owner.Some? && s.lease.Some?)
      && (s.status != ShardStatus.Running <==> s.owner == None && s.lease == None)
      && (s.status == ShardStatus.Done ==> s.done + s.failed == s.len)
      && s.done <= CountPersisted(id.0, InputsOf(g.submitted, id), g.submitted[id.0].opts, g.ever)
  {
    InitialOk(max);
    ExecOk(Initial(max), acts);
  }

  /**
   In every reachable state every stored results document lists exactly the items of its shard,
   in order, with the caller's keys and the ids of one template version, one that the job's
   reference resolved to, none of them pending; an item listed as a success was persisted, PDF first.
   */
  lemma StoredResultsAreComplete(max: nat, acts: seq<Action>, id: ShardId)
    requires id in Exec(Initial(max), acts).store.results
    ensures
      var g := Exec(Initial(max), acts);
      KnownShard(g.submitted, id) &&
      var sub, inputs, items := g.submitted[id.0], InputsOf(g.submitted, id), g.store.results[id];
      |items| == |inputs|
      && (exists m :: VersionOk(g.submitted, g.ever, id, items, m))
      && forall j :: 0 <= j < |items| ==>
           items[j].index == ShardStart(sub, id.1) + j && items[j].key == inputs[j].key
           && items[j].status != ItemStatus.Pending
           && (items[j].status == ItemStatus.Success ==>
                 items[j].renderId.Some? && items[j].renderId.value in g.everPdf)
  {
    InitialOk(max);
    ExecOk(Initial(max), acts);
    var g := Exec(Initial(max), acts);
    var sub, inputs, items := g.submitted[id.0], InputsOf(g.submitted, id), g.store.results[id];
    var m :| VersionOk(g.submitted, g.ever, id, items, m);
    forall j | 0 <= j < |items|
      ensures items[j].index == ShardStart(sub, id.1) + j && items[j].key == inputs[j].key
      ensures items[j].status != ItemStatus.Pending
      ensures items[j].status == ItemStatus.Success ==> items[j].renderId.Some? && items[j].renderId.value in g.everPdf
    {
      assert ItemOk(items[j], ShardStart(sub, id.1), inputs, sub.opts, m, g.ever, j);
    }
  }

  // ----- the derived status -----

  /**
   `shards` were read one by one while the system kept running: the `k`th was stored after
   the first `at[k]` actions of the schedule. They are sorted by index, one per key.
   */
  predicate Observed(g: Global, acts: seq<Action>, job: string, shards: seq<Shard>, at: seq<nat>) {
    |at| == |shards|
    && (forall k :: 0 <= k < |shards| ==> at[k] <= |acts| && StoredAt(Exec(g, acts[..at[k]]), job, shards[k]))
    && Ascending(shards)
  }

  predicate Ascending(shards: seq<Shard>) {
    forall i, j :: 0 <= i < j < |shards| ==> shards[i].index < shards[j].index
  }

  predicate StoredAt(g: Global, job: string, s: Shard) {
    (job, s.index) in g.store.shards && g.store.shards[(job, s.index)] == s
  }

  lemma ObservedOk(max: nat, acts: seq<Action>, job: string, shards: seq<Shard>, at: seq<nat>, k: nat)
    requires Observed(Initial(max), acts, job, shards, at) && k < |shards|
    ensures
      var g := Exec(Initial(max), acts);
      shards[k].jobId == job && ShardOk(g.submitted, g.ever, shards[k])
      && KnownShard(g.submitted, (job, shards[k].index))
  {
    var g0 := Initial(max);
    var past := Exec(g0, acts[..at[k]]);
    assert StoredAt(past, job, shards[k]);
    InitialOk(max);
    ExecOk(g0, acts[..at[k]]);
    ExecGrows(g0, acts, at[k]);
    ShardOkMono(past.submitted, Exec(g0, acts).submitted, past.ever, Exec(g0, acts).ever, shards[k]);
  }

  /** Strictly increasing indices that are all below their number are 0, 1, 2, ... */
  lemma {:induction false} IndicesAreDense(shards: seq<Shard>, n: nat, k: nat)
    requires k < |shards| <= n
    requires Ascending(shards)
    ensures k <= shards[k].index
    ensures |shards| == n && shards[n - 1].index < n ==> shards[k].index == k
    decreases |shards| - k
  {
    IndexAtLeast(shards, k);
    if k + 1 < |shards| {
      IndicesAreDense(shards, n, k + 1);
    }
  }

  lemma {:induction false} IndexAtLeast(shards: seq<Shard>, k: nat)
    requires k < |shards|
    requires Ascending(shards)
    ensures k <= shards[k].index
  {
    if k > 0 {
      IndexAtLeast(shards, k - 1);
    }
  }

  /** `shards` are sane descriptors of all the shards of a submission, in order. */
  ghost predicate AllShards(subs: Subs, ever: Ever, job: string, shards: seq<Shard>) {
    job in subs && ValidSubmission(subs[job]) && |shards| == NumShards(subs[job])
    && forall k :: 0 <= k < |shards| ==>
      shards[k].jobId == job && shards[k].index == k && ShardOk(subs, ever, shards[k])
  }

  lemma AscendingAll(subs: Subs, ever: Ever, job: string, shards: seq<Shard>)
    requires job in subs && ValidSubmission(subs[job]) && |shards| == NumShards(subs[job]) && Ascending(shards)
    requires forall k :: 0 <= k < |shards| ==> shards[k].jobId == job && ShardOk(subs, ever, shards[k])
    ensures AllShards(subs, ever, job, shards)
  {
    forall k | 0 <= k < |shards|
      ensures shards[k].index == k
    {
      assert KnownShard(subs, IdOf(shards[|shards| - 1]));
      IndicesAreDense(shards, |shards|, k);
    }
  }

  lemma ObservedAll(max: nat, acts: seq<Action>, job: string, shards: seq<Shard>, at: seq<nat>, subs: Subs, ever: Ever)
    requires Observed(Initial(max), acts, job, shards, at)
    requires Exec(Initial(max), acts).submitted == subs && Exec(Initial(max), acts).ever == ever
    requires job in subs && ValidSubmission(subs[job]) && |shards| == NumShards(subs[job])
    ensures AllShards(subs, ever, job, shards)
  {
    forall k | 0 <= k < |shards|
      ensures shards[k].jobId == job && ShardOk(subs, ever, shards[k])
    {
      ObservedOk(max, acts, job, shards, at, k);
    }
    AscendingAll(subs, ever, job, shards);
  }

  lemma CompletedShards(subs: Subs, ever: Ever, job: string, shards: seq<Shard>, i: nat)
    requires AllShards(subs, ever, job, shards) && i < |subs[job].inputs|
    requires Aggregate(JobOf(job, subs[job]), shards).status == JobStatus.Completed
    ensures Persisted(ever, job, subs[job].inputs[i], subs[job].opts)
  {
    hide CountPersisted, Persisted, Aggregate;
    var sub := subs[job];
    forall k | 0 <= k < |shards|
      ensures CoversAt(sub, shards[k], k)
    {
    }
    CompletedIff(job, sub, shards);
    ShardOfIndex(sub, i);
    FullShardPersisted(subs, ever, job, shards[i / sub.size], i);
  }

  /**
   A job that reads as `Completed` has had a success, and before it a PDF, persisted for every
   one of its inputs, rendered by a version that the job's reference resolved to, whatever happened
   on the way and however long the status took to read.
   */
  lemma CompletedMeansEveryItemPersisted(
    max: nat, acts: seq<Action>, job: string, shards: seq<Shard>, at: seq<nat>, i: nat)
    requires
      var g := Exec(Initial(max), acts);
      Observed(Initial(max), acts, job, shards, at)
      && job in g.submitted && ValidSubmission(g.submitted[job])
      && Aggregate(JobOf(job, g.submitted[job]), shards).status == JobStatus.Completed
      && i < |g.submitted[job].inputs|
    ensures
      var g := Exec(Initial(max), acts);
      var sub := g.submitted[job];
      exists r :: r in g.ever.ok && r in g.everPdf && RendersInput(g.ever, job, sub.inputs[i], sub.opts, r)
  {
    var g := Exec(Initial(max), acts);
    NoShardsNoInputs(g.submitted[job]);
    InitialOk(max);
    ExecOk(Initial(max), acts);
    assert g.ever.ok <= g.everPdf;
    hide Exec, Inv;
    assert |shards| == NumShards(g.submitted[job]);
    ObservedAll(max, acts, job, shards, at, g.submitted, g.ever);
    CompletedShards(g.submitted, g.ever, job, shards, i);
  }

  lemma FullShardPersisted(subs: Subs, ever: Ever, job: string, s: Shard, i: nat)
    requires job in subs && ValidSubmission(subs[job]) && s.jobId == job
    requires ShardOk(subs, ever, s) && s.done == s.len
    requires InShard(subs[job], s.index, i)
    ensures i < |subs[job].inputs| && Persisted(ever, job, subs[job].inputs[i], subs[job].opts)
  {
    var sub := subs[job];
    ShardRange(sub, s.index);
    var inputs := Slice(sub, s.index);
    CountPersistedBound(job, inputs, sub.opts, ever);
    assert inputs[i - ShardStart(sub, s.index)] == sub.inputs[i];
  }
}
