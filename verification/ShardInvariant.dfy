/**
 What every reachable state of the shard protocol satisfies, whatever the interleaving, the
 failures, the crashes, the double claims and the pruning: shard descriptors and results stay
 consistent with the submission, and counts never exceed what was really rendered. Mutual
 exclusion is not assumed anywhere here: stale owners write freely.
 */
module ShardInvariant {
  import opened Prelude
  import opened Jobs
  import opened ShardProtocol

  type Subs = map<string, Submission>

  predicate KnownShard(subs: Subs, id: ShardId) {
    id.0 in subs && ValidSubmission(subs[id.0]) && id.1 < NumShards(subs[id.0])
  }

  function InputsOf(subs: Subs, id: ShardId): seq<BatchInput>
    requires KnownShard(subs, id)
  {
    Slice(subs[id.0], id.1)
  }

  /** `r` is this input rendered under these options, by a version that the job's reference resolved to. */
  predicate RendersInput(ever: Ever, job: string, input: BatchInput, opts: string, r: RenderId) {
    r.data == input.data && r.opts == opts && (job, r.manifest) in ever.resolved
  }

  /** Such a render was stored as a success at some time. */
  ghost predicate Persisted(ever: Ever, job: string, input: BatchInput, opts: string) {
    exists r :: r in ever.ok && RendersInput(ever, job, input, opts, r)
  }

  ghost function CountPersisted(job: string, inputs: seq<BatchInput>, opts: string, ever: Ever): nat {
    if inputs == [] then 0
    else
      var n := |inputs| - 1;
      CountPersisted(job, inputs[..n], opts, ever) + if Persisted(ever, job, inputs[n], opts) then 1 else 0
  }

  /** History only grows. */
  predicate Extends(e0: Ever, e1: Ever) {
    e0.ok <= e1.ok && e0.resolved <= e1.resolved
  }

  function CountSuccess(items: seq<BatchItem>): nat {
    if items == [] then 0
    else CountSuccess(items[..|items| - 1]) + if items[|items| - 1].status == ItemStatus.Success then 1 else 0
  }

  /** The `j`th result of a shard: index and key of its input, the id rendered, and no pending status. */
  predicate ItemOk(
    item: BatchItem, start: nat, inputs: seq<BatchInput>, opts: string, manifest: string, ever: Ever, j: nat)
    requires j < |inputs|
  {
    var id := RenderId(manifest, inputs[j].data, opts);
    item.index == start + j && item.key == inputs[j].key && item.renderId == Some(id)
    && item.status != ItemStatus.Pending
    && (item.status == ItemStatus.Success ==> id in ever.ok)
  }

  predicate ItemsOk(
    items: seq<BatchItem>, start: nat, inputs: seq<BatchInput>, opts: string, manifest: string, ever: Ever)
  {
    |items| <= |inputs| && forall j :: 0 <= j < |items| ==> ItemOk(items[j], start, inputs, opts, manifest, ever, j)
  }

  ghost predicate ShardOk(subs: Subs, ever: Ever, s: Shard) {
    KnownShard(subs, IdOf(s)) && ShardRanged(subs[s.jobId], s)
    && s.done + s.failed <= s.len
    && (s.status == ShardStatus.Running <==> s.owner.Some?)
    && (s.status == ShardStatus.Running <==> s.lease.Some?)
    && (s.status == ShardStatus.Done ==> s.done + s.failed == s.len)
    && s.done <= CountPersisted(s.jobId, InputsOf(subs, IdOf(s)), subs[s.jobId].opts, ever)
  }

  predicate ShardRanged(sub: Submission, s: Shard)
    requires ValidSubmission(sub) && s.index < NumShards(sub)
  {
    ShardRange(sub, s.index);
    s.start == ShardStart(sub, s.index) && s.len == ShardLen(sub, s.index)
  }

  ghost predicate ResultOk(subs: Subs, ever: Ever, id: ShardId, items: seq<BatchItem>) {
    KnownShard(subs, id) && |items| == |InputsOf(subs, id)| &&
    exists m :: VersionOk(subs, ever, id, items, m)
  }

  /** The items were rendered by `m`, a version that the job's reference resolved to. */
  predicate VersionOk(subs: Subs, ever: Ever, id: ShardId, items: seq<BatchItem>, m: string)
    requires KnownShard(subs, id)
  {
    (id.0, m) in ever.resolved
    && ItemsOk(items, ShardStart(subs[id.0], id.1), InputsOf(subs, id), subs[id.0].opts, m, ever)
  }

  ghost predicate StoreOk(s: Store, subs: Subs, ever: Ever) {
    (forall id :: id in s.shards ==> IdOf(s.shards[id]) == id && ShardOk(subs, ever, s.shards[id]))
    && (forall j :: j in s.jobs ==> j in subs && ValidSubmission(subs[j]) && s.jobs[j] == JobOf(j, subs[j]))
    && (forall id :: id in s.inputs ==> KnownShard(subs, id) && s.inputs[id] == InputsOf(subs, id))
    && (forall id :: id in s.results ==> ResultOk(subs, ever, id, s.results[id]))
    && (forall r :: r in s.metas && s.metas[r] ==> r in ever.ok)
  }

  ghost predicate OwnShard(subs: Subs, ever: Ever, w: string, s: Shard) {
    ShardOk(subs, ever, s) && s.status == ShardStatus.Running && s.owner == Some(w)
  }

  ghost predicate Loaded(subs: Subs, shard: Shard, meta: BatchJob, inputs: seq<BatchInput>) {
    KnownShard(subs, IdOf(shard)) && meta == JobOf(shard.jobId, subs[shard.jobId])
    && inputs == InputsOf(subs, IdOf(shard))
  }

  ghost predicate RunOk(subs: Subs, ever: Ever, w: string, run: Run) {
    OwnShard(subs, ever, w, run.shard) && Loaded(subs, run.shard, run.meta, run.inputs)
    && (run.shard.jobId, run.manifest) in ever.resolved
    && ItemsOk(run.items, run.shard.start, run.inputs, run.meta.opts, run.manifest, ever)
    && run.done == CountSuccess(run.items) && run.done + run.failed == |run.items|
  }

  /** The descriptor that a heartbeat is about to store holds the run's counts. */
  predicate HasCounts(run: Run) {
    run.shard.done == run.done && run.shard.failed == run.failed
  }

  ghost predicate AtItem(subs: Subs, ever: Ever, w: string, run: Run) {
    RunOk(subs, ever, w, run) && |run.items| < |run.inputs|
  }

  ghost predicate LocalOk(subs: Subs, ever: Ever, pdfs: set<RenderId>, w: string, l: Local) {
    match l
    case Idle => true
    case Scan(_, _) => true
    case Drop(_, _, _) => true
    case Poison(read, _, _) => ShardOk(subs, ever, read) && !Terminal(read)
    case Claim(read, _, _) => ShardOk(subs, ever, read) && !Terminal(read)
    case Confirm(shard, _, _) => OwnShard(subs, ever, w, shard)
    case FetchJob(shard) => OwnShard(subs, ever, w, shard)
    case FetchInputs(shard, meta) =>
      OwnShard(subs, ever, w, shard) && meta == JobOf(shard.jobId, subs[shard.jobId])
    case Prepare(shard, meta, inputs) => OwnShard(subs, ever, w, shard) && Loaded(subs, shard, meta, inputs)
    case Release(shard) => ShardOk(subs, ever, shard) && shard.status == ShardStatus.Pending
    case Item(run) => AtItem(subs, ever, w, run)
    case PutData(run) => AtItem(subs, ever, w, run)
    case Compile(run) => AtItem(subs, ever, w, run)
    case PutPdf(run) => AtItem(subs, ever, w, run)
    case PutMeta(run, success) => AtItem(subs, ever, w, run) && (success ==> ItemId(run) in pdfs)
    case Stage(run, success) => AtItem(subs, ever, w, run) && (success ==> ItemId(run) in ever.ok)
    case ItemEnd(run) => RunOk(subs, ever, w, run)
    case BeatRead(run) => RunOk(subs, ever, w, run) && HasCounts(run)
    case BeatWrite(run) => RunOk(subs, ever, w, run) && HasCounts(run)
    case PutResults(run) => RunOk(subs, ever, w, run) && |run.items| == |run.inputs|
    case PutDone(run) => RunOk(subs, ever, w, run) && |run.items| == |run.inputs|
    case Clear(_) => true
  }

  ghost predicate Inv(g: Global) {
    StoreOk(g.store, g.submitted, g.ever)
    && g.ever.ok <= g.everPdf
    && (forall w :: w in g.workers ==> LocalOk(g.submitted, g.ever, g.everPdf, w, g.workers[w]))
  }

  // ----- counting -----

  lemma {:induction false} CountPersistedMono(job: string, inputs: seq<BatchInput>, opts: string, e0: Ever, e1: Ever)
    requires Extends(e0, e1)
    ensures CountPersisted(job, inputs, opts, e0) <= CountPersisted(job, inputs, opts, e1)
  {
    if inputs != [] {
      var n := |inputs| - 1;
      CountPersistedMono(job, inputs[..n], opts, e0, e1);
      if Persisted(e0, job, inputs[n], opts) {
        var r :| r in e0.ok && RendersInput(e0, job, inputs[n], opts, r);
        assert RendersInput(e1, job, inputs[n], opts, r);
      }
    }
  }

  lemma {:induction false} CountPersistedBound(job: string, inputs: seq<BatchInput>, opts: string, ever: Ever)
    ensures CountPersisted(job, inputs, opts, ever) <= |inputs|
    ensures CountPersisted(job, inputs, opts, ever) == |inputs| ==>
      forall j :: 0 <= j < |inputs| ==> Persisted(ever, job, inputs[j], opts)
  {
    if inputs != [] {
      CountPersistedBound(job, inputs[..|inputs| - 1], opts, ever);
    }
  }

  lemma {:induction false} CountPersistedPrefix(job: string, inputs: seq<BatchInput>, opts: string, ever: Ever, n: nat)
    requires n <= |inputs|
    ensures CountPersisted(job, inputs[..n], opts, ever) <= CountPersisted(job, inputs, opts, ever)
  {
    if n == |inputs| {
      assert inputs[..n] == inputs;
    } else {
      CountPersistedPrefix(job, inputs[..|inputs| - 1], opts, ever, n);
      assert inputs[..|inputs| - 1][..n] == inputs[..n];
    }
  }

  /** Items reported as successes were persisted, so there are no more of them than persisted inputs. */
  lemma {:induction false} SuccessesPersisted(
    job: string, items: seq<BatchItem>, start: nat, inputs: seq<BatchInput>, opts: string, m: string, ever: Ever)
    requires ItemsOk(items, start, inputs, opts, m, ever) && (job, m) in ever.resolved
    ensures CountSuccess(items) <= CountPersisted(job, inputs[..|items|], opts, ever)
    ensures CountSuccess(items) <= CountPersisted(job, inputs, opts, ever)
  {
    if items != [] {
      var n := |items| - 1;
      assert ItemOk(items[n], start, inputs, opts, m, ever, n);
      SuccessesPersisted(job, items[..n], start, inputs, opts, m, ever);
      assert inputs[..n + 1][..n] == inputs[..n];
      assert RendersInput(ever, job, inputs[n], opts, RenderId(m, inputs[n].data, opts));
      assert items[n].status == ItemStatus.Success ==> Persisted(ever, job, inputs[n], opts);
    }
    CountPersistedPrefix(job, inputs, opts, ever, |items|);
  }

  // ----- facts survive more submissions and more renders -----

  ghost predicate Grows(subs: Subs, subs': Subs) {
    forall j :: j in subs ==> j in subs' && subs'[j] == subs[j]
  }

  lemma ShardOkMono(subs: Subs, subs': Subs, e0: Ever, e1: Ever, s: Shard)
    requires Grows(subs, subs') && Extends(e0, e1) && ShardOk(subs, e0, s)
    ensures ShardOk(subs', e1, s)
  {
    CountPersistedMono(s.jobId, InputsOf(subs, IdOf(s)), subs[s.jobId].opts, e0, e1);
  }

  lemma RunOkMono(subs: Subs, subs': Subs, e0: Ever, e1: Ever, w: string, run: Run)
    requires Grows(subs, subs') && Extends(e0, e1) && RunOk(subs, e0, w, run)
    ensures RunOk(subs', e1, w, run)
  {
    ShardOkMono(subs, subs', e0, e1, run.shard);
    hide ShardOk;
  }

  lemma HeldRunMono(
    subs: Subs, subs': Subs, e0: Ever, e1: Ever, p0: set<RenderId>, p1: set<RenderId>, w: string, l: Local)
    requires Grows(subs, subs') && Extends(e0, e1) && p0 <= p1 && LocalOk(subs, e0, p0, w, l)
    requires !Claiming(l) && !l.Prepare? && !l.Release? && !l.Clear?
    ensures LocalOk(subs', e1, p1, w, l)
  {
    assert RunOk(subs, e0, w, l.run);
    RunOkMono(subs, subs', e0, e1, w, l.run);
    hide RunOk, Grows;
  }

  lemma LocalOkMono(
    subs: Subs, subs': Subs, e0: Ever, e1: Ever, p0: set<RenderId>, p1: set<RenderId>, w: string, l: Local)
    requires Grows(subs, subs') && Extends(e0, e1) && p0 <= p1 && LocalOk(subs, e0, p0, w, l)
    ensures LocalOk(subs', e1, p1, w, l)
  {
    hide RunOk, ShardOk;
    match l
    case Idle =>
    case Scan(_, _) =>
    case Drop(_, _, _) =>
    case Poison(read, _, _) => ShardOkMono(subs, subs', e0, e1, read);
    case Claim(read, _, _) => ShardOkMono(subs, subs', e0, e1, read);
    case Confirm(shard, _, _) => HeldShardMono(subs, subs', e0, e1, shard);
    case FetchJob(shard) => HeldShardMono(subs, subs', e0, e1, shard);
    case FetchInputs(shard, meta) => HeldShardMono(subs, subs', e0, e1, shard);
    case Prepare(shard, meta, inputs) => HeldShardMono(subs, subs', e0, e1, shard);
    case Release(shard) => ShardOkMono(subs, subs', e0, e1, shard);
    case Clear(_) =>
    case _ => HeldRunMono(subs, subs', e0, e1, p0, p1, w, l);
  }

  lemma HeldShardMono(subs: Subs, subs': Subs, e0: Ever, e1: Ever, s: Shard)
    requires Grows(subs, subs') && Extends(e0, e1) && ShardOk(subs, e0, s)
    ensures ShardOk(subs', e1, s) && KnownShard(subs, IdOf(s)) && KnownShard(subs', IdOf(s))
    ensures InputsOf(subs', IdOf(s)) == InputsOf(subs, IdOf(s)) && subs'[s.jobId] == subs[s.jobId]
  {
    ShardOkMono(subs, subs', e0, e1, s);
    hide CountPersisted;
  }

  lemma ResultOkMono(subs: Subs, subs': Subs, e0: Ever, e1: Ever, id: ShardId, items: seq<BatchItem>)
    requires Grows(subs, subs') && Extends(e0, e1) && ResultOk(subs, e0, id, items)
    ensures ResultOk(subs', e1, id, items)
  {
    var m :| VersionOk(subs, e0, id, items, m);
    assert VersionOk(subs', e1, id, items, m);
  }

  lemma StoreOkMono(s: Store, subs: Subs, subs': Subs, e0: Ever, e1: Ever)
    requires Grows(subs, subs') && Extends(e0, e1) && StoreOk(s, subs, e0)
    ensures StoreOk(s, subs', e1)
  {
    forall id | id in s.shards
      ensures ShardOk(subs', e1, s.shards[id])
    {
      ShardOkMono(subs, subs', e0, e1, s.shards[id]);
    }
    forall id | id in s.results
      ensures ResultOk(subs', e1, id, s.results[id])
    {
      ResultOkMono(subs, subs', e0, e1, id, s.results[id]);
    }
  }

  // ----- every step keeps the invariant -----

  /** The counters of a run are sane values for its descriptor. */
  lemma RunCounts(subs: Subs, ever: Ever, w: string, run: Run)
    requires RunOk(subs, ever, w, run)
    ensures
      run.done <= CountPersisted(run.shard.jobId, InputsOf(subs, IdOf(run.shard)), subs[run.shard.jobId].opts, ever)
    ensures run.done + run.failed <= run.shard.len && run.shard.len == |run.inputs|
  {
    SuccessesPersisted(run.shard.jobId, run.items, run.shard.start, run.inputs, run.meta.opts, run.manifest, ever);
  }

  lemma CountedOk(subs: Subs, ever: Ever, w: string, run: Run, success: bool, clean: bool)
    requires AtItem(subs, ever, w, run) && (success ==> ItemId(run) in ever.ok)
    ensures RunOk(subs, ever, w, Counted(run, success, clean))
  {
    var run' := Counted(run, success, clean);
    assert run'.items[..|run.items|] == run.items;
    forall j | 0 <= j < |run'.items|
      ensures ItemOk(run'.items[j], run.shard.start, run.inputs, run.meta.opts, run.manifest, ever, j)
    {
      if j < |run.items| {
        assert run'.items[j] == run.items[j];
      }
    }
  }

  lemma PutShardOk(s: Store, shard: Shard, io: Io, subs: Subs, ever: Ever)
    requires StoreOk(s, subs, ever) && ShardOk(subs, ever, shard)
    ensures StoreOk(Apply(io, s, PutShard(s, shard)), subs, ever)
  {
  }

  lemma PutResultsOk(s: Store, w: string, run: Run, io: Io, subs: Subs, ever: Ever)
    requires StoreOk(s, subs, ever) && RunOk(subs, ever, w, run) && |run.items| == |run.inputs|
    ensures StoreOk(Apply(io, s, s.(results := s.results[IdOf(run.shard) := run.items])), subs, ever)
  {
    assert VersionOk(subs, ever, IdOf(run.shard), run.items, run.manifest);
    assert ResultOk(subs, ever, IdOf(run.shard), run.items);
  }

  ghost predicate KeepsOk(o: Outcome, w: string, subs: Subs, ever: Ever, pdfs: set<RenderId>) {
    StoreOk(o.store, subs, ever) && LocalOk(subs, ever, pdfs, w, o.local) && o.okIds == {} && o.pdfIds == {}
    && o.resolved == {}
  }

  lemma ClaimStepOk(
    s: Store, w: string, l: Local, step: Step, max: nat, subs: Subs, ever: Ever, pdfs: set<RenderId>)
    requires StoreOk(s, subs, ever) && LocalOk(subs, ever, pdfs, w, l) && Claiming(l)
    ensures KeepsOk(ClaimStep(s, w, l, step, max), w, subs, ever, pdfs)
  {
    hide CountPersisted, ResultOk, ShardRanged, LookUp, ItemsOk;
    match l
    case Scan(todo, now) =>
      if step.GetShard? { LookUpOk(s, w, step.id, max, todo - {step.id}, now, step.ok, subs, ever, pdfs); }
    case Poison(read, todo, now) => PoisonStepOk(s, w, read, todo, now, step, max, subs, ever, pdfs);
    case Claim(read, todo, now) => WriteClaimOk(s, w, read, todo, now, step, max, subs, ever, pdfs);
    case Confirm(_, _, _) => FetchStepOk(s, w, l, step, max, subs, ever, pdfs);
    case FetchJob(_) => FetchStepOk(s, w, l, step, max, subs, ever, pdfs);
    case FetchInputs(_, _) => FetchStepOk(s, w, l, step, max, subs, ever, pdfs);
    case _ => hide StoreOk;
  }

  lemma FetchStepOk(
    s: Store, w: string, l: Local, step: Step, max: nat, subs: Subs, ever: Ever, pdfs: set<RenderId>)
    requires StoreOk(s, subs, ever) && LocalOk(subs, ever, pdfs, w, l)
    requires l.Confirm? || l.FetchJob? || l.FetchInputs?
    ensures KeepsOk(ClaimStep(s, w, l, step, max), w, subs, ever, pdfs)
  {
    hide ShardRanged, CountPersisted, ResultOk;
  }

  lemma LookUpOk(
    s: Store, w: string, id: ShardId, max: nat, todo: set<ShardId>, now: int, ok: bool,
    subs: Subs, ever: Ever, pdfs: set<RenderId>)
    requires StoreOk(s, subs, ever)
    ensures LocalOk(subs, ever, pdfs, w, LookUp(s, w, id, max, todo, now, ok))
  {
    hide ShardOk, ResultOk, KnownShard;
  }

  lemma PoisonStepOk(
    s: Store, w: string, read: Shard, todo: set<ShardId>, now: int, step: Step, max: nat,
    subs: Subs, ever: Ever, pdfs: set<RenderId>)
    requires StoreOk(s, subs, ever) && LocalOk(subs, ever, pdfs, w, Poison(read, todo, now))
    ensures KeepsOk(ClaimStep(s, w, Poison(read, todo, now), step, max), w, subs, ever, pdfs)
  {
    hide StoreOk, CountPersisted;
    if step.Write? {
      PutShardOk(s, Poisoned(read, now), step.io, subs, ever);
    }
  }

  lemma WriteClaimOk(
    s: Store, w: string, read: Shard, todo: set<ShardId>, now: int, step: Step, max: nat,
    subs: Subs, ever: Ever, pdfs: set<RenderId>)
    requires StoreOk(s, subs, ever) && LocalOk(subs, ever, pdfs, w, Claim(read, todo, now))
    ensures KeepsOk(ClaimStep(s, w, Claim(read, todo, now), step, max), w, subs, ever, pdfs)
  {
    hide StoreOk, CountPersisted;
    if step.Write? {
      assert ShardOk(subs, ever, Claimed(read, w, now, step.lease));
      PutShardOk(s, Claimed(read, w, now, step.lease), step.io, subs, ever);
    }
  }

  lemma WithCountsOk(subs: Subs, ever: Ever, w: string, run: Run)
    requires RunOk(subs, ever, w, run)
    ensures RunOk(subs, ever, w, WithCounts(run)) && HasCounts(WithCounts(run))
    ensures ShardOk(subs, ever, Released(WithCounts(run).shard))
  {
    RunCounts(subs, ever, w, run);
    hide ItemsOk, CountPersisted;
  }

  lemma WriteBeatOk(
    s: Store, w: string, run: Run, io: Io, at: int, lease: int, subs: Subs, ever: Ever, pdfs: set<RenderId>)
    requires StoreOk(s, subs, ever) && LocalOk(subs, ever, pdfs, w, BeatWrite(run))
    ensures KeepsOk(WriteBeat(s, run, io, at, lease), w, subs, ever, pdfs)
  {
    hide StoreOk, ItemsOk, CountPersisted;
    var shard := run.shard.(lease := Some(lease), updatedAt := at);
    assert ShardOk(subs, ever, shard);
    PutShardOk(s, shard, io, subs, ever);
    assert RunOk(subs, ever, w, run.(shard := shard));
    LoopHeadOk(subs, ever, pdfs, w, run.(shard := shard));
  }

  lemma LoopHeadOk(subs: Subs, ever: Ever, pdfs: set<RenderId>, w: string, run: Run)
    requires RunOk(subs, ever, w, run)
    ensures LocalOk(subs, ever, pdfs, w, LoopHead(run))
  {
  }

  lemma WriteResultsOk(s: Store, w: string, run: Run, io: Io, subs: Subs, ever: Ever, pdfs: set<RenderId>)
    requires StoreOk(s, subs, ever) && LocalOk(subs, ever, pdfs, w, PutResults(run))
    ensures KeepsOk(WriteResults(s, run, io), w, subs, ever, pdfs)
  {
    RunCounts(subs, ever, w, run);
    PutResultsOk(s, w, run, io, subs, ever);
  }

  lemma WriteDoneOk(s: Store, w: string, run: Run, io: Io, at: int, subs: Subs, ever: Ever, pdfs: set<RenderId>)
    requires StoreOk(s, subs, ever) && LocalOk(subs, ever, pdfs, w, PutDone(run))
    ensures KeepsOk(WriteDone(s, run, io, at), w, subs, ever, pdfs)
  {
    RunCounts(subs, ever, w, run);
    PutShardOk(s, Finished(run, at), io, subs, ever);
  }

  lemma ReleaseOk(s: Store, w: string, l: Local, step: Step, subs: Subs, ever: Ever, pdfs: set<RenderId>)
    requires StoreOk(s, subs, ever) && LocalOk(subs, ever, pdfs, w, l) && (l.Release? || l.Clear?)
    ensures KeepsOk(RunStep(s, l, step), w, subs, ever, pdfs)
  {
    if l.Release? && step.Write? {
      PutShardOk(s, l.shard.(updatedAt := step.at), step.io, subs, ever);
    }
  }

  lemma AfterItemOk(subs: Subs, ever: Ever, pdfs: set<RenderId>, w: string, run: Run, due: bool)
    requires RunOk(subs, ever, w, run)
    ensures LocalOk(subs, ever, pdfs, w, AfterItem(run, due))
  {
    WithCountsOk(subs, ever, w, run);
    LoopHeadOk(subs, ever, pdfs, w, run);
  }

  lemma BeatStepOk(s: Store, w: string, l: Local, step: Step, subs: Subs, ever: Ever, pdfs: set<RenderId>)
    requires StoreOk(s, subs, ever) && LocalOk(subs, ever, pdfs, w, l) && (l.ItemEnd? || l.BeatRead?)
    ensures KeepsOk(RunStep(s, l, step), w, subs, ever, pdfs)
  {
    hide StoreOk, RunOk;
    assert RunOk(subs, ever, w, l.run);
    LoopHeadOk(subs, ever, pdfs, w, l.run);
    if l.ItemEnd? && step.Tick? {
      AfterItemOk(subs, ever, pdfs, w, l.run, step.due);
    }
  }

  lemma OtherRunStepOk(s: Store, w: string, l: Local, step: Step, subs: Subs, ever: Ever, pdfs: set<RenderId>)
    requires StoreOk(s, subs, ever) && LocalOk(subs, ever, pdfs, w, l) && !Claiming(l) && !Rendering(l) && !l.Prepare?
    ensures KeepsOk(RunStep(s, l, step), w, subs, ever, pdfs)
  {
    hide StoreOk, RunOk, ShardOk, WriteBeat, WriteResults, WriteDone;
    if l.Release? || l.Clear? {
      ReleaseOk(s, w, l, step, subs, ever, pdfs);
    } else if l.ItemEnd? || l.BeatRead? {
      BeatStepOk(s, w, l, step, subs, ever, pdfs);
    } else if step.Write? {
      match l
      case BeatWrite(run) =>
        WriteBeatOk(s, w, run, step.io, step.at, step.lease, subs, ever, pdfs);
      case PutResults(run) => WriteResultsOk(s, w, run, step.io, subs, ever, pdfs);
      case PutDone(run) => WriteDoneOk(s, w, run, step.io, step.at, subs, ever, pdfs);
    }
  }

  /** The result of an item step, with `ever` and `pdfs` grown by what it stored. */
  ghost predicate StepOk(o: Outcome, w: string, subs: Subs, ever: Ever, pdfs: set<RenderId>) {
    StoreOk(o.store, subs, Grown(ever, o)) && LocalOk(subs, Grown(ever, o), pdfs + o.pdfIds, w, o.local)
    && Grown(ever, o).ok <= pdfs + o.pdfIds
  }

  lemma NothingGrown(ever: Ever, pdfs: set<RenderId>)
    ensures Ever(ever.ok + {}, ever.resolved + {}) == ever && pdfs + {} == pdfs
  {
    assert ever.ok + {} == ever.ok && ever.resolved + {} == ever.resolved;
  }

  lemma KeptOk(o: Outcome, w: string, subs: Subs, ever: Ever, pdfs: set<RenderId>)
    requires KeepsOk(o, w, subs, ever, pdfs) && ever.ok <= pdfs
    ensures StepOk(o, w, subs, ever, pdfs)
  {
    NothingGrown(ever, pdfs);
  }

  lemma PrepareOk(s: Store, w: string, l: Local, step: Step, subs: Subs, ever: Ever, pdfs: set<RenderId>)
    requires StoreOk(s, subs, ever) && LocalOk(subs, ever, pdfs, w, l) && l.Prepare? && ever.ok <= pdfs
    ensures StepOk(RunStep(s, l, step), w, subs, ever, pdfs)
  {
    hide StoreOk, CountPersisted;
    if step.Resolve? && step.manifest.Some? {
      StartedOk(s, w, l.shard, l.meta, l.inputs, step.manifest.value, subs, ever, pdfs);
    } else {
      KeptOk(RunStep(s, l, step), w, subs, ever, pdfs);
    }
  }

  /** A run starts under the manifest that goes down in history. */
  lemma StartedOk(
    s: Store, w: string, shard: Shard, meta: BatchJob, inputs: seq<BatchInput>, m: string,
    subs: Subs, ever: Ever, pdfs: set<RenderId>)
    requires StoreOk(s, subs, ever) && OwnShard(subs, ever, w, shard) && Loaded(subs, shard, meta, inputs)
    requires ever.ok <= pdfs
    ensures StepOk(Started(s, shard, meta, inputs, m), w, subs, ever, pdfs)
  {
    hide StoreOk, CountPersisted;
    NothingGrown(ever, pdfs);
    var ever' := Grown(ever, Started(s, shard, meta, inputs, m));
    StoreOkMono(s, subs, subs, ever, ever');
    ShardOkMono(subs, subs, ever, ever', shard);
    LoopHeadOk(subs, ever', pdfs, w, Run(shard, meta, inputs, m, [], 0, 0, true));
  }

  lemma RunStepOk(s: Store, w: string, l: Local, step: Step, subs: Subs, ever: Ever, pdfs: set<RenderId>)
    requires StoreOk(s, subs, ever) && LocalOk(subs, ever, pdfs, w, l) && !Claiming(l) && !Rendering(l)
      && ever.ok <= pdfs
    ensures StepOk(RunStep(s, l, step), w, subs, ever, pdfs)
  {
    hide StoreOk, LocalOk, StepOk, KeepsOk, Claiming, Rendering, RunStep;
    if l.Prepare? {
      PrepareOk(s, w, l, step, subs, ever, pdfs);
    } else {
      OtherRunStepOk(s, w, l, step, subs, ever, pdfs);
      KeptOk(RunStep(s, l, step), w, subs, ever, pdfs);
    }
  }

  lemma EndItemOk(
    s: Store, w: string, run: Run, success: bool, clean: bool, subs: Subs, ever: Ever, pdfs: set<RenderId>)
    requires StoreOk(s, subs, ever) && AtItem(subs, ever, w, run) && ever.ok <= pdfs
      && (success ==> ItemId(run) in ever.ok)
    ensures
      var o := EndItem(s, run, success, clean);
      o.store == s && LocalOk(subs, ever, pdfs, w, o.local) && o.okIds == {} && o.pdfIds == {} && o.resolved == {}
      && StepOk(o, w, subs, ever, pdfs)
  {
    NothingGrown(ever, pdfs);
    CountedOk(subs, ever, w, run, success, clean);
  }

  lemma NextItemOk(s: Store, w: string, run: Run, stop: bool, skip: bool, subs: Subs, ever: Ever, pdfs: set<RenderId>)
    requires StoreOk(s, subs, ever) && AtItem(subs, ever, w, run) && ever.ok <= pdfs
    ensures StepOk(NextItem(s, run, stop, skip), w, subs, ever, pdfs)
  {
    NothingGrown(ever, pdfs);
    WithCountsOk(subs, ever, w, run);
    hide ShardOk, ItemsOk, CountPersisted;
    if ItemId(run) in ever.ok {
      EndItemOk(s, w, run, true, run.clean, subs, ever, pdfs);
    }
  }

  lemma WriteDataOk(s: Store, w: string, run: Run, io: Io, subs: Subs, ever: Ever, pdfs: set<RenderId>)
    requires StoreOk(s, subs, ever) && AtItem(subs, ever, w, run) && ever.ok <= pdfs
    ensures StepOk(WriteData(s, run, io), w, subs, ever, pdfs)
  {
    NothingGrown(ever, pdfs);
    EndItemOk(Apply(io, s, s.(datas := s.datas + {ItemId(run)})), w, run, false, false, subs, ever, pdfs);
  }

  lemma WritePdfOk(s: Store, w: string, run: Run, io: Io, subs: Subs, ever: Ever, pdfs: set<RenderId>)
    requires StoreOk(s, subs, ever) && AtItem(subs, ever, w, run) && ever.ok <= pdfs
    ensures StepOk(WritePdf(s, run, io), w, subs, ever, pdfs)
  {
    var s' := Apply(io, s, s.(pdfs := s.pdfs + {ItemId(run)}));
    var pdfs' := pdfs + WritePdf(s, run, io).pdfIds;
    NothingGrown(ever, pdfs);
    assert StoreOk(s', subs, ever);
    if io == Good {
      assert LocalOk(subs, ever, pdfs', w, PutMeta(run, true));
    } else {
      EndItemOk(s', w, run, false, false, subs, ever, pdfs');
    }
  }

  lemma PutMetaStoreOk(s: Store, id: RenderId, success: bool, io: Io, subs: Subs, ever: Ever)
    requires StoreOk(s, subs, ever) && (success && io != Lost ==> id in ever.ok)
    ensures StoreOk(Apply(io, s, s.(metas := s.metas[id := success])), subs, ever)
  {
  }

  lemma WriteMetaOk(s: Store, w: string, run: Run, success: bool, io: Io, subs: Subs, ever: Ever, pdfs: set<RenderId>)
    requires StoreOk(s, subs, ever) && AtItem(subs, ever, w, run) && ever.ok <= pdfs
    requires success ==> ItemId(run) in pdfs
    ensures StepOk(WriteMeta(s, run, success, io), w, subs, ever, pdfs)
  {
    var ever' := Grown(ever, WriteMeta(s, run, success, io));
    NothingGrown(ever, pdfs);
    StoreOkMono(s, subs, subs, ever, ever');
    PutMetaStoreOk(s, ItemId(run), success, io, subs, ever');
    ShardOkMono(subs, subs, ever, ever', run.shard);
    EndItemOk(Apply(io, s, s.(metas := s.metas[ItemId(run) := success])), w, run, false, false, subs, ever', pdfs);
  }

  lemma ItemStepOk(s: Store, w: string, l: Local, step: Step, subs: Subs, ever: Ever, pdfs: set<RenderId>)
    requires StoreOk(s, subs, ever) && LocalOk(subs, ever, pdfs, w, l) && Rendering(l) && ever.ok <= pdfs
    ensures StepOk(ItemStep(s, l, step), w, subs, ever, pdfs)
  {
    UnchangedOk(s, w, l, subs, ever, pdfs);
    assert AtItem(subs, ever, w, l.run);
    hide StoreOk, StepOk, AtItem;
    match l
    case Item(run) => if step.Advance? { NextItemOk(s, w, run, step.stop, step.skip, subs, ever, pdfs); }
    case PutData(run) => if step.Write? { WriteDataOk(s, w, run, step.io, subs, ever, pdfs); }
    case Compile(run) => if step.Compiled? { CompiledOk(s, w, run, step.success, subs, ever, pdfs); }
    case PutPdf(run) => if step.Write? { WritePdfOk(s, w, run, step.io, subs, ever, pdfs); }
    case PutMeta(run, success) => if step.Write? { WriteMetaOk(s, w, run, success, step.io, subs, ever, pdfs); }
    case Stage(run, success) =>
      if step.Staged? { EndItemOk(s, w, run, success && step.ok, run.clean && step.ok, subs, ever, pdfs); }
  }

  lemma CompiledOk(s: Store, w: string, run: Run, success: bool, subs: Subs, ever: Ever, pdfs: set<RenderId>)
    requires StoreOk(s, subs, ever) && AtItem(subs, ever, w, run) && ever.ok <= pdfs
    ensures StepOk(Stay(s, if success then PutPdf(run) else PutMeta(run, false)), w, subs, ever, pdfs)
  {
    NothingGrown(ever, pdfs);
  }

  lemma UnchangedOk(s: Store, w: string, l: Local, subs: Subs, ever: Ever, pdfs: set<RenderId>)
    requires StoreOk(s, subs, ever) && LocalOk(subs, ever, pdfs, w, l) && ever.ok <= pdfs
    ensures StepOk(Stay(s, l), w, subs, ever, pdfs)
  {
    NothingGrown(ever, pdfs);
  }

  lemma IdleOk(s: Store, w: string, subs: Subs, ever: Ever, pdfs: set<RenderId>)
    requires StoreOk(s, subs, ever) && ever.ok <= pdfs
    ensures StepOk(Stay(s, Idle), w, subs, ever, pdfs)
  {
    NothingGrown(ever, pdfs);
  }

  lemma WorkerStepOk(s: Store, w: string, l: Local, step: Step, max: nat, subs: Subs, ever: Ever, pdfs: set<RenderId>)
    requires StoreOk(s, subs, ever) && LocalOk(subs, ever, pdfs, w, l) && ever.ok <= pdfs
    ensures StepOk(WorkerStep(s, w, l, step, max), w, subs, ever, pdfs)
  {
    hide ClaimStep, RunStep, ItemStep, StoreOk, LocalOk, StepOk, Claiming, Rendering;
    if step == Crash {
      IdleOk(s, w, subs, ever, pdfs);
    } else if Claiming(l) {
      ClaimStepOk(s, w, l, step, max, subs, ever, pdfs);
      KeptOk(ClaimStep(s, w, l, step, max), w, subs, ever, pdfs);
    } else if Rendering(l) {
      ItemStepOk(s, w, l, step, subs, ever, pdfs);
    } else {
      RunStepOk(s, w, l, step, subs, ever, pdfs);
    }
  }

  lemma WorkOk(g: Global, w: string, step: Step)
    requires Inv(g)
    ensures Inv(Next(g, Work(w, step)))
  {
    assert LocalOk(g.submitted, g.ever, g.everPdf, w, LocalOf(g, w));
    hide StoreOk, LocalOk, WorkerStep;
    WorkerStepOk(g.store, w, LocalOf(g, w), step, g.maxAttempts, g.submitted, g.ever, g.everPdf);
    OthersOk(g, Next(g, Work(w, step)), w);
  }

  /** The other workers' states stay consistent when the history grows. */
  lemma OthersOk(g: Global, g': Global, w: string)
    requires Inv(g) && Grows(g.submitted, g'.submitted) && Extends(g.ever, g'.ever) && g.everPdf <= g'.everPdf
    requires forall v :: v in g'.workers && v != w ==> v in g.workers && g'.workers[v] == g.workers[v]
    ensures forall v :: v in g'.workers && v != w ==> LocalOk(g'.submitted, g'.ever, g'.everPdf, v, g'.workers[v])
  {
    forall v | v in g'.workers && v != w
      ensures LocalOk(g'.submitted, g'.ever, g'.everPdf, v, g'.workers[v])
    {
      LocalOkMono(g.submitted, g'.submitted, g.ever, g'.ever, g.everPdf, g'.everPdf, v, g.workers[v]);
    }
  }

  /** The other workers' states, and the store, stay consistent when only the history grows. */
  lemma HistoryOk(g: Global, g': Global)
    requires Inv(g) && Grows(g.submitted, g'.submitted) && Extends(g.ever, g'.ever) && g.everPdf <= g'.everPdf
    requires g'.workers == g.workers
    ensures forall v :: v in g'.workers ==> LocalOk(g'.submitted, g'.ever, g'.everPdf, v, g'.workers[v])
    ensures StoreOk(g.store, g'.submitted, g'.ever)
  {
    forall v | v in g'.workers
      ensures LocalOk(g'.submitted, g'.ever, g'.everPdf, v, g'.workers[v])
    {
      LocalOkMono(g.submitted, g'.submitted, g.ever, g'.ever, g.everPdf, g'.everPdf, v, g.workers[v]);
    }
    StoreOkMono(g.store, g.submitted, g'.submitted, g.ever, g'.ever);
  }

  lemma FreshShardOk(job: string, sub: Submission, k: nat, subs: Subs, ever: Ever)
    requires job in subs && subs[job] == sub && ValidSubmission(sub) && k < NumShards(sub)
    ensures ShardOk(subs, ever, FreshShard(job, sub, k))
  {
    ShardRange(sub, k);
  }

  ghost predicate DocOk(subs: Subs, ever: Ever, d: Doc) {
    match d
    case InputsDoc(id, inputs) => KnownShard(subs, id) && inputs == InputsOf(subs, id)
    case ShardDoc(shard) => ShardOk(subs, ever, shard)
    case JobDoc(job) =>
      job.jobId in subs && ValidSubmission(subs[job.jobId]) && job == JobOf(job.jobId, subs[job.jobId])
    case MarkerDoc(id) => KnownShard(subs, id)
  }

  lemma DocAtOk(job: string, sub: Submission, i: nat, subs: Subs, ever: Ever)
    requires job in subs && subs[job] == sub && ValidSubmission(sub) && i < NumDocs(sub)
    ensures DocOk(subs, ever, DocAt(job, sub, i))
  {
    if i < 2 * NumShards(sub) {
      FreshShardOk(job, sub, i / 2, subs, ever);
    }
  }

  lemma PutDocOk(s: Store, d: Doc, io: Io, subs: Subs, ever: Ever)
    requires StoreOk(s, subs, ever) && DocOk(subs, ever, d)
    ensures StoreOk(Apply(io, s, PutDoc(s, d)), subs, ever)
  {
    hide ShardOk, ResultOk;
    match d
    case InputsDoc(id, inputs) => PutInputsOk(s, id, io, subs, ever);
    case ShardDoc(shard) => PutShardOk(s, shard, io, subs, ever);
    case JobDoc(job) =>
    case MarkerDoc(id) =>
  }

  lemma PutInputsOk(s: Store, id: ShardId, io: Io, subs: Subs, ever: Ever)
    requires StoreOk(s, subs, ever) && KnownShard(subs, id)
    ensures StoreOk(Apply(io, s, s.(inputs := s.inputs[id := InputsOf(subs, id)])), subs, ever)
  {
    hide ShardOk, ResultOk;
  }

  lemma EnqueuePutOk(g: Global, job: string, io: Io)
    requires Inv(g)
    ensures Inv(Next(g, EnqueuePut(job, io)))
  {
    if job in g.open && job in g.submitted && job in g.progress && ValidSubmission(g.submitted[job])
       && g.progress[job] < NumDocs(g.submitted[job]) {
      hide DocAt, DocOk, StoreOk;
      DocAtOk(job, g.submitted[job], g.progress[job], g.submitted, g.ever);
      PutDocOk(g.store, DocAt(job, g.submitted[job], g.progress[job]), io, g.submitted, g.ever);
    }
  }

  /** Every action of every process keeps the invariant. */
  lemma NextOk(g: Global, a: Action)
    requires Inv(g)
    ensures Inv(Next(g, a))
  {
    match a
    case Submit(job, sub) => HistoryOk(g, Next(g, a));
    case EnqueuePut(job, io) => EnqueuePutOk(g, job, io);
    case Work(w, step) => WorkOk(g, w, step);
    case ExternalRender(id, success) => HistoryOk(g, Next(g, a));
    case PruneRender(_, _, _, _) =>
    case PruneJobs(_, _, _, _, _) =>
  }

  lemma {:induction false} ExecOk(g: Global, acts: seq<Action>)
    requires Inv(g)
    ensures Inv(Exec(g, acts))
  {
    if acts != [] {
      ExecOk(g, acts[..|acts| - 1]);
      NextOk(Exec(g, acts[..|acts| - 1]), acts[|acts| - 1]);
    }
  }
}
