/**
 The sharded batch protocol of crates/papermake-registry/src/registry/batch.rs as a state
 machine. One transition is one storage operation of one process, so a schedule is any
 interleaving of any number of enqueuing clients and workers. Every put or delete may fail,
 with or without having been applied, and a worker may crash between any two operations.
 `Next` is total: an action that is not enabled changes nothing, so every sequence of
 actions is a run.
 */
module ShardProtocol {
  import opened Prelude
  import opened Jobs

  /** A job id and a shard index. */
  type ShardId = (string, nat)

  function IdOf(s: Shard): ShardId {
    (s.jobId, s.index)
  }

  /** The key-value store, one map for each family of keys. */
  datatype Store = Store(
    jobs: map<string, BatchJob>,
    shards: map<ShardId, Shard>,
    inputs: map<ShardId, seq<BatchInput>>,
    results: map<ShardId, seq<BatchItem>>,
    markers: set<ShardId>,
    datas: set<RenderId>,
    pdfs: set<RenderId>,
    metas: map<RenderId, bool>)  // the success flag of a render's meta.json

  function Apply(io: Io, before: Store, after: Store): Store {
    if io == Lost then before else after
  }

  // ----- enqueue -----

  datatype Doc =
    | InputsDoc(id: ShardId, inputs: seq<BatchInput>)
    | ShardDoc(shard: Shard)
    | JobDoc(job: BatchJob)
    | MarkerDoc(id: ShardId)

  function NumDocs(sub: Submission): nat
    requires ValidSubmission(sub)
  {
    3 * NumShards(sub) + 1
  }

  function FreshShard(job: string, sub: Submission, k: nat): Shard
    requires ValidSubmission(sub) && k < NumShards(sub)
  {
    ShardRange(sub, k);
    Shard(job, k, ShardStart(sub, k), ShardLen(sub, k), ShardStatus.Pending, None, None, 0, 0, 0, sub.at)
  }

  /** The `i`th document that `enqueue_batch_job` writes. */
  function DocAt(job: string, sub: Submission, i: nat): Doc
    requires ValidSubmission(sub) && i < NumDocs(sub)
  {
    var n := NumShards(sub);
    if i < 2 * n then
      if i % 2 == 0 then InputsDoc((job, i / 2), Slice(sub, i / 2)) else ShardDoc(FreshShard(job, sub, i / 2))
    else if i == 2 * n then JobDoc(JobOf(job, sub))
    else MarkerDoc((job, i - 2 * n - 1))
  }

  function PutDoc(s: Store, d: Doc): Store {
    match d
    case InputsDoc(id, inputs) => s.(inputs := s.inputs[id := inputs])
    case ShardDoc(shard) => s.(shards := s.shards[IdOf(shard) := shard])
    case JobDoc(job) => s.(jobs := s.jobs[job.jobId := job])
    case MarkerDoc(id) => s.(markers := s.markers + {id})
  }

  // ----- workers -----

  /**
   A claimed shard being run: `items` are the results so far and `done`/`failed` count them.
   `clean` records that no storage operation of this attempt has failed.
   */
  datatype Run = Run(
    shard: Shard, meta: BatchJob, inputs: seq<BatchInput>, manifest: string,
    items: seq<BatchItem>, done: nat, failed: nat, clean: bool)

  /** Where a worker stands, with the values its code holds at that point. */
  datatype Local =
    | Idle
    | Scan(todo: set<ShardId>, now: int)                  // at the head of the marker loop
    | Drop(id: ShardId, todo: set<ShardId>, now: int)     // about to delete a stale marker
    | Poison(read: Shard, todo: set<ShardId>, now: int)   // about to give a shard up
    | Claim(read: Shard, todo: set<ShardId>, now: int)    // about to write its claim
    | Confirm(shard: Shard, todo: set<ShardId>, now: int) // about to read its claim back
    | FetchJob(shard: Shard)
    | FetchInputs(shard: Shard, meta: BatchJob)
    | Prepare(shard: Shard, meta: BatchJob, inputs: seq<BatchInput>)
    | Release(shard: Shard)                               // about to write the shard back as pending
    | Item(run: Run)                                      // at the head of the item loop
    | PutData(run: Run)
    | Compile(run: Run)
    | PutPdf(run: Run)
    | PutMeta(run: Run, success: bool)
    | Stage(run: Run, success: bool)                      // about to stage the analytics record
    | ItemEnd(run: Run)                                   // an item is counted; a heartbeat may be due
    | BeatRead(run: Run)
    | BeatWrite(run: Run)
    | PutResults(run: Run)
    | PutDone(run: Run)
    | Clear(id: ShardId)                                  // about to delete the finished shard's marker

  datatype Step =
    | Crash
    | ListMarkers(now: int)
    | GetShard(id: ShardId, ok: bool)
    | SkipShard(id: ShardId)              // the descriptor could not be decoded
    | EndScan
    | Write(io: Io, at: int, lease: int)  // the put or delete the worker is about to do
    | Read(ok: bool)                      // the get the worker is about to do
    | Resolve(manifest: Option<string>)
    | Advance(stop: bool, skip: bool)     // next item: stop is polled, a resumable item may be skipped
    | Compiled(success: bool)
    | Staged(ok: bool)
    | Tick(due: bool)                     // heartbeat interval elapsed or not

  /** The next state, and what goes down in history: renders, PDFs, and what a job's reference resolved to. */
  datatype Outcome = Outcome(
    store: Store, local: Local, okIds: set<RenderId>, pdfIds: set<RenderId>, resolved: set<(string, string)>)

  function Stay(s: Store, l: Local): Outcome {
    Outcome(s, l, {}, {}, {})
  }

  predicate Claimable(s: Shard, now: int) {
    s.status == ShardStatus.Pending ||
    (s.status == ShardStatus.Running && (s.lease == None || s.lease.value < now))
  }

  function Claimed(read: Shard, w: string, now: int, lease: int): Shard {
    read.(status := ShardStatus.Running, owner := Some(w), lease := Some(lease), attempts := read.attempts + 1,
        updatedAt := now)
  }

  function Poisoned(read: Shard, now: int): Shard {
    read.(status := ShardStatus.Failed, owner := None, lease := None, updatedAt := now)
  }

  function Released(shard: Shard): Shard {
    shard.(status := ShardStatus.Pending, owner := None, lease := None)
  }

  function Finished(run: Run, at: int): Shard {
    run.shard.(done := run.done, failed := run.failed, status := ShardStatus.Done, owner := None, lease := None,
        updatedAt := at)
  }

  /** The content-addressed id of the item the run is at. */
  function ItemId(run: Run): RenderId
    requires |run.items| < |run.inputs|
  {
    RenderId(run.manifest, run.inputs[|run.items|].data, run.meta.opts)
  }

  /** Count one more item and append its result. */
  function Counted(run: Run, success: bool, clean: bool): Run
    requires |run.items| < |run.inputs|
  {
    var j := |run.items|;
    var item := BatchItem(run.shard.start + j, run.inputs[j].key, Some(ItemId(run)),
                          if success then ItemStatus.Success else ItemStatus.Failed);
    run.(items := run.items + [item],
         done := if success then run.done + 1 else run.done,
         failed := if success then run.failed else run.failed + 1,
         clean := clean)
  }

  function LoopHead(run: Run): Local {
    if |run.items| < |run.inputs| then Item(run) else PutResults(run)
  }

  function PutShard(s: Store, shard: Shard): Store {
    s.(shards := s.shards[IdOf(shard) := shard])
  }

  function LookUp(s: Store, w: string, id: ShardId, max: nat, todo: set<ShardId>, now: int, ok: bool): Local {
    if !ok || id !in s.shards then Drop(id, todo, now)
    else
      var shard := s.shards[id];
      if Terminal(shard) then Drop(id, todo, now)
      else if !Claimable(shard, now) then Scan(todo, now)
      else if shard.attempts >= max then Poison(shard, todo, now)
      else Claim(shard, todo, now)
  }

  /** `claim_next_shard`. */
  function ClaimStep(s: Store, w: string, l: Local, step: Step, max: nat): Outcome {
    match l
    case Idle => if step.ListMarkers? then Stay(s, Scan(s.markers, step.now)) else Stay(s, l)
    case Scan(todo, now) =>
      if step.GetShard? && step.id in todo then Stay(s, LookUp(s, w, step.id, max, todo - {step.id}, now, step.ok))
      else if step.SkipShard? then Stay(s, Scan(todo - {step.id}, now))
      else if step.EndScan? && todo == {} then Stay(s, Idle)
      else Stay(s, l)
    case Drop(id, todo, now) =>
      if step.Write? then Stay(DeleteMarker(s, id, step.io), Scan(todo, now)) else Stay(s, l)
    case Poison(read, todo, now) =>
      if step.Write? then Stay(Apply(step.io, s, PutShard(s, Poisoned(read, now))), Drop(IdOf(read), todo, now))
        else Stay(s, l)
    case Claim(read, todo, now) =>
      if step.Write? then WriteClaim(s, w, read, todo, now, step.io, step.lease) else Stay(s, l)
    case Confirm(shard, todo, now) =>
      if !step.Read? then Stay(s, l)
      else if step.ok && IdOf(shard) in s.shards && s.shards[IdOf(shard)].owner != Some(w) then Stay(s, Scan(todo, now))
      else Stay(s, FetchJob(shard))
    case FetchJob(shard) =>
      if !step.Read? then Stay(s, l)
      else if step.ok && shard.jobId in s.jobs then Stay(s, FetchInputs(shard, s.jobs[shard.jobId]))
      else Stay(s, Idle)
    case FetchInputs(shard, meta) =>
      if !step.Read? then Stay(s, l)
      else if step.ok && IdOf(shard) in s.inputs then Stay(s, Prepare(shard, meta, s.inputs[IdOf(shard)]))
      else Stay(s, Idle)
    case _ => Stay(s, l)
  }

  function DeleteMarker(s: Store, id: ShardId, io: Io): Store {
    Apply(io, s, s.(markers := s.markers - {id}))
  }

  function WriteClaim(s: Store, w: string, read: Shard, todo: set<ShardId>, now: int, io: Io, lease: int): Outcome {
    var shard := Claimed(read, w, now, lease);
    Stay(Apply(io, s, PutShard(s, shard)), if io == Good then Confirm(shard, todo, now) else Idle)
  }

  /** `run_claimed_shard` outside the rendering of an item. */
  function RunStep(s: Store, l: Local, step: Step): Outcome {
    match l
    case Prepare(shard, meta, inputs) =>
      if !step.Resolve? then Stay(s, l)
      else if step.manifest == None then Stay(s, Release(Released(shard)))
      else Started(s, shard, meta, inputs, step.manifest.value)
    case Release(shard) =>
      if step.Write? then Stay(Apply(step.io, s, PutShard(s, shard.(updatedAt := step.at))), Idle) else Stay(s, l)
    case ItemEnd(run) => if step.Tick? then Stay(s, AfterItem(run, step.due)) else Stay(s, l)
    case BeatRead(run) => if step.Read? then Stay(s, CheckOwner(s, run, step.ok)) else Stay(s, l)
    case BeatWrite(run) => if step.Write? then WriteBeat(s, run, step.io, step.at, step.lease) else Stay(s, l)
    case PutResults(run) => if step.Write? then WriteResults(s, run, step.io) else Stay(s, l)
    case PutDone(run) => if step.Write? then WriteDone(s, run, step.io, step.at) else Stay(s, l)
    case Clear(id) => if step.Write? then Stay(DeleteMarker(s, id, step.io), Idle) else Stay(s, l)
    case _ => Stay(s, l)
  }

  /** The reference resolved: the items come next. */
  function Started(s: Store, shard: Shard, meta: BatchJob, inputs: seq<BatchInput>, manifest: string): Outcome {
    Stay(s, LoopHead(Run(shard, meta, inputs, manifest, [], 0, 0, true)))
    .(resolved := {(shard.jobId, manifest)})
  }

  /** The descriptor takes the run's counts before a heartbeat. */
  function WithCounts(run: Run): Run {
    run.(shard := run.shard.(done := run.done, failed := run.failed))
  }

  function AfterItem(run: Run, due: bool): Local {
    if due then BeatRead(WithCounts(run)) else LoopHead(run)
  }

  /** `heartbeat_shard` reads the descriptor first: a read error keeps the run going, another owner ends it. */
  function CheckOwner(s: Store, run: Run, ok: bool): Local {
    if !ok || IdOf(run.shard) !in s.shards then LoopHead(run)
    else if s.shards[IdOf(run.shard)].owner != run.shard.owner then Idle
    else BeatWrite(run)
  }

  function WriteBeat(s: Store, run: Run, io: Io, at: int, lease: int): Outcome {
    var shard := run.shard.(lease := Some(lease), updatedAt := at);
    Stay(Apply(io, s, PutShard(s, shard)), LoopHead(run.(shard := shard)))
  }

  function WriteResults(s: Store, run: Run, io: Io): Outcome {
    Stay(Apply(io, s, s.(results := s.results[IdOf(run.shard) := run.items])),
        if io == Good then PutDone(run) else Idle)
  }

  function WriteDone(s: Store, run: Run, io: Io, at: int): Outcome {
    Stay(Apply(io, s, PutShard(s, Finished(run, at))), if io == Good then Clear(IdOf(run.shard)) else Idle)
  }

  /** One item of the loop: the resume probe and `render_one`. */
  function ItemStep(s: Store, l: Local, step: Step): Outcome {
    match l
    case Item(run) => if step.Advance? then NextItem(s, run, step.stop, step.skip) else Stay(s, l)
    case PutData(run) => if step.Write? then WriteData(s, run, step.io) else Stay(s, l)
    case Compile(run) =>
      if !step.Compiled? then Stay(s, l)
      else if step.success then Stay(s, PutPdf(run))
      else Stay(s, PutMeta(run, false))
    case PutPdf(run) => if step.Write? then WritePdf(s, run, step.io) else Stay(s, l)
    case PutMeta(run, success) => if step.Write? then WriteMeta(s, run, success, step.io) else Stay(s, l)
    case Stage(run, success) =>
      if step.Staged? then EndItem(s, run, success && step.ok, run.clean && step.ok) else Stay(s, l)
    case _ => Stay(s, l)
  }

  /** Poll for shutdown, then skip an item that a previous attempt rendered successfully, or start it. */
  function NextItem(s: Store, run: Run, stop: bool, skip: bool): Outcome {
    if |run.items| >= |run.inputs| then Stay(s, PutResults(run))
    else if stop then Stay(s, Release(Released(WithCounts(run).shard)))
    else if skip && run.shard.attempts > 1 && ItemId(run) in s.metas && s.metas[ItemId(run)] then
      EndItem(s, run, true, run.clean)
    else Stay(s, PutData(run))
  }

  function EndItem(s: Store, run: Run, success: bool, clean: bool): Outcome {
    if |run.items| >= |run.inputs| then Stay(s, PutResults(run)) else Stay(s, ItemEnd(Counted(run, success, clean)))
  }

  function WriteData(s: Store, run: Run, io: Io): Outcome {
    if |run.items| >= |run.inputs| then Stay(s, PutResults(run))
    else
      var s' := Apply(io, s, s.(datas := s.datas + {ItemId(run)}));
      if io == Good then Stay(s', Compile(run)) else EndItem(s', run, false, false)
  }

  function WritePdf(s: Store, run: Run, io: Io): Outcome {
    if |run.items| >= |run.inputs| then Stay(s, PutResults(run))
    else
      var s' := Apply(io, s, s.(pdfs := s.pdfs + {ItemId(run)}));
      var o := if io == Good then Stay(s', PutMeta(run, true)) else EndItem(s', run, false, false);
      o.(pdfIds := if io == Lost then {} else {ItemId(run)})
  }

  function WriteMeta(s: Store, run: Run, success: bool, io: Io): Outcome {
    if |run.items| >= |run.inputs| then Stay(s, PutResults(run))
    else
      var s' := Apply(io, s, s.(metas := s.metas[ItemId(run) := success]));
      var o := if io == Good then Stay(s', Stage(run, success)) else EndItem(s', run, false, false);
      o.(okIds := if io == Lost || !success then {} else {ItemId(run)})
  }

  predicate Claiming(l: Local) {
    l.Idle? || l.Scan? || l.Drop? || l.Poison? || l.Claim? || l.Confirm? || l.FetchJob? || l.FetchInputs?
  }

  predicate Rendering(l: Local) {
    l.Item? || l.PutData? || l.Compile? || l.PutPdf? || l.PutMeta? || l.Stage?
  }

  function WorkerStep(s: Store, w: string, l: Local, step: Step, max: nat): Outcome {
    if step == Crash then Stay(s, Idle)
    else if Claiming(l) then ClaimStep(s, w, l, step, max)
    else if Rendering(l) then ItemStep(s, l, step)
    else RunStep(s, l, step)
  }

  // ----- the whole system -----

  /**
   The renders for which a success record was stored at some time, and the manifests that a worker
   found the reference of a job to resolve to.
   */
  datatype Ever = Ever(ok: set<RenderId>, resolved: set<(string, string)>)

  function Grown(ever: Ever, o: Outcome): Ever {
    Ever(ever.ok + o.okIds, ever.resolved + o.resolved)
  }

  /**
   `submitted`, `ever` and `everPdf` are history: what was enqueued under each job id, and the
   renders for which a success record, or a PDF, was stored at some time. `progress` counts the
   documents of a job that enqueue has written and `open` holds the enqueues still running.
   */
  datatype Global = Global(
    store: Store,
    maxAttempts: nat,
    submitted: map<string, Submission>,
    progress: map<string, nat>,
    open: set<string>,
    workers: map<string, Local>,
    ever: Ever,
    everPdf: set<RenderId>)

  datatype Action =
    | Submit(job: string, sub: Submission)          // a fresh job id
    | EnqueuePut(job: string, io: Io)
    | Work(w: string, step: Step)
    | ExternalRender(id: RenderId, success: bool)   // a synchronous render of the same id
    | PruneRender(id: RenderId, meta: bool, pdf: bool, data: bool)
    | PruneJobs(jobs: set<string>, shards: set<ShardId>, inputs: set<ShardId>, results: set<ShardId>,
        markers: set<ShardId>)

  function LocalOf(g: Global, w: string): Local {
    if w in g.workers then g.workers[w] else Idle
  }

  function Next(g: Global, a: Action): Global {
    match a
    case Submit(job, sub) =>
      if job in g.submitted || !ValidSubmission(sub) then g
      else g.(submitted := g.submitted[job := sub], progress := g.progress[job := 0], open := g.open + {job})
    case EnqueuePut(job, io) =>
      if job !in g.open || job !in g.submitted || job !in g.progress || !ValidSubmission(g.submitted[job])
         || g.progress[job] >= NumDocs(g.submitted[job]) then g
      else
        g.(store := Apply(io, g.store, PutDoc(g.store, DocAt(job, g.submitted[job], g.progress[job]))),
           progress := if io == Lost then g.progress else g.progress[job := g.progress[job] + 1],
           open := if io == Good then g.open else g.open - {job})
    case Work(w, step) =>
      var o := WorkerStep(g.store, w, LocalOf(g, w), step, g.maxAttempts);
      g.(store := o.store, workers := g.workers[w := o.local],
         ever := Grown(g.ever, o), everPdf := g.everPdf + o.pdfIds)
    case ExternalRender(id, success) =>
      g.(store := g.store.(datas := g.store.datas + {id},
                           pdfs := if success then g.store.pdfs + {id} else g.store.pdfs,
                           metas := g.store.metas[id := success]),
         ever := if success then g.ever.(ok := g.ever.ok + {id}) else g.ever,
         everPdf := if success then g.everPdf + {id} else g.everPdf)
    case PruneRender(id, meta, pdf, data) =>
      g.(store := g.store.(metas := if meta then g.store.metas - {id} else g.store.metas,
                           pdfs := if pdf then g.store.pdfs - {id} else g.store.pdfs,
                           datas := if data then g.store.datas - {id} else g.store.datas))
    case PruneJobs(jobs, shards, inputs, results, markers) =>
      g.(store := g.store.(jobs := g.store.jobs - jobs, shards := g.store.shards - shards,
                           inputs := g.store.inputs - inputs, results := g.store.results - results,
                           markers := g.store.markers - markers))
  }

  /** Run a schedule from left to right. */
  function Exec(g: Global, acts: seq<Action>): Global {
    if acts == [] then g else Next(Exec(g, acts[..|acts| - 1]), acts[|acts| - 1])
  }

  lemma ExecSnoc(g: Global, acts: seq<Action>, a: Action)
    ensures Exec(g, acts + [a]) == Next(Exec(g, acts), a)
  {
    assert (acts + [a])[..|acts|] == acts;
  }

  const EMPTY_STORE := Store(map[], map[], map[], map[], {}, {}, {}, map[])

  /** Nothing submitted, nothing stored, every worker idle. */
  function Initial(max: nat): Global {
    Global(EMPTY_STORE, max, map[], map[], {}, map[], Ever({}, {}), {})
  }
}
