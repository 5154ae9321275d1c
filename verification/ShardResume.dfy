/**
 Crash-resume equivalence. If rendering is a function of the render id and a job's tag keeps
 resolving to the same manifest, an attempt in which no storage operation fails writes one and
 the same results document, however often the shard was interrupted, double-claimed or half
 rendered before.
 */
module ShardResume {
  import opened Prelude
  import opened Jobs
  import opened ShardProtocol
  import opened ShardInvariant
  import opened JobOutcome

  /** The renderer's verdict on a render id, and the manifest each job's reference resolves to. */
  datatype World = World(renders: RenderId -> bool, manifest: string -> string)

  /** Workers render as the world says, tags do not move, and nobody else stores a false success. */
  predicate FollowsWorld(g: Global, a: Action, world: World) {
    match a
    case Work(w, step) =>
      var l := LocalOf(g, w);
      (l.Compile? && step.Compiled? && |l.run.items| < |l.run.inputs| ==> step.success == world.renders(ItemId(l.run)))
      && (l.Prepare? && step.Resolve? && step.manifest.Some? ==> step.manifest.value == world.manifest(l.shard.jobId))
    case ExternalRender(id, success) => success ==> world.renders(id)
    case _ => true
  }

  ghost predicate Deterministic(g: Global, acts: seq<Action>, world: World) {
    forall i :: 0 <= i < |acts| ==> FollowsWorld(Exec(g, acts[..i]), acts[i], world)
  }

  /** What a shard's results document says when every item is rendered and stored. */
  function ExpectedItem(job: string, sub: Submission, k: nat, world: World, j: nat): BatchItem
    requires ValidSubmission(sub) && k < NumShards(sub) && j < |Slice(sub, k)|
  {
    var input := Slice(sub, k)[j];
    var id := RenderId(world.manifest(job), input.data, sub.opts);
    BatchItem(ShardStart(sub, k) + j, input.key, Some(id),
        if world.renders(id) then ItemStatus.Success else ItemStatus.Failed)
  }

  function Expected(job: string, sub: Submission, k: nat, world: World): (items: seq<BatchItem>)
    requires ValidSubmission(sub) && k < NumShards(sub)
  {
    seq(|Slice(sub, k)|, j requires 0 <= j < |Slice(sub, k)| => ExpectedItem(job, sub, k, world, j))
  }

  /** A run that has met no storage error holds exactly the expected results so far. */
  ghost predicate RunMatches(subs: Subs, world: World, run: Run) {
    KnownShard(subs, IdOf(run.shard))
    && run.manifest == world.manifest(run.shard.jobId)
    && run.meta == JobOf(run.shard.jobId, subs[run.shard.jobId])
    && run.inputs == InputsOf(subs, IdOf(run.shard))
    && run.shard.start == ShardStart(subs[run.shard.jobId], run.shard.index)
    && |run.items| <= |run.inputs|
    && (run.clean ==>
          run.items == Expected(run.shard.jobId, subs[run.shard.jobId], run.shard.index, world)[..|run.items|])
  }

  ghost predicate ItemMatches(subs: Subs, world: World, run: Run) {
    RunMatches(subs, world, run) && |run.items| < |run.inputs|
  }

  ghost predicate LocalMatches(subs: Subs, world: World, l: Local) {
    match l
    case Item(run) => ItemMatches(subs, world, run)
    case PutData(run) => ItemMatches(subs, world, run)
    case Compile(run) => ItemMatches(subs, world, run)
    case PutPdf(run) => ItemMatches(subs, world, run) && world.renders(ItemId(run))
    case PutMeta(run, success) => ItemMatches(subs, world, run) && success == world.renders(ItemId(run))
    case Stage(run, success) => ItemMatches(subs, world, run) && success == world.renders(ItemId(run))
    case ItemEnd(run) => RunMatches(subs, world, run)
    case BeatRead(run) => RunMatches(subs, world, run)
    case BeatWrite(run) => RunMatches(subs, world, run)
    case PutResults(run) => RunMatches(subs, world, run)
    case PutDone(run) => RunMatches(subs, world, run)
    case _ => true
  }

  ghost predicate Matches(g: Global, world: World) {
    (forall r :: r in g.store.metas && g.store.metas[r] ==> world.renders(r))
    && (forall w :: w in g.workers ==> LocalMatches(g.submitted, world, g.workers[w]))
  }

  lemma CountedMatches(subs: Subs, world: World, run: Run, success: bool, clean: bool)
    requires ItemMatches(subs, world, run)
    requires clean ==> run.clean && success == world.renders(ItemId(run))
    ensures RunMatches(subs, world, Counted(run, success, clean))
  {
    var run' := Counted(run, success, clean);
    if clean {
      var e := Expected(run.shard.jobId, subs[run.shard.jobId], run.shard.index, world);
      assert run'.items == e[..|run'.items|];
    }
  }

  lemma EndItemMatches(s: Store, subs: Subs, world: World, run: Run, success: bool, clean: bool)
    requires ItemMatches(subs, world, run)
    requires clean ==> run.clean && success == world.renders(ItemId(run))
    ensures LocalMatches(subs, world, EndItem(s, run, success, clean).local)
  {
    CountedMatches(subs, world, run, success, clean);
  }

  ghost predicate MetasMatch(s: Store, world: World) {
    forall r :: r in s.metas && s.metas[r] ==> world.renders(r)
  }

  lemma ItemStepMatches(s: Store, l: Local, step: Step, subs: Subs, world: World)
    requires MetasMatch(s, world) && Rendering(l) && LocalMatches(subs, world, l)
    requires l.Compile? && step.Compiled? && |l.run.items| < |l.run.inputs| ==>
      step.success == world.renders(ItemId(l.run))
    ensures
      var o := ItemStep(s, l, step);
      MetasMatch(o.store, world) && LocalMatches(subs, world, o.local)
  {
    hide RunMatches, Counted, ItemId;
    assert ItemMatches(subs, world, l.run);
    match l
    case Item(run) =>
      if ItemId(run) in s.metas && s.metas[ItemId(run)] {
        EndItemMatches(s, subs, world, run, true, run.clean);
      }
    case PutData(run) => EndItemMatches(s, subs, world, run, false, false);
    case Compile(run) =>
    case PutPdf(run) => EndItemMatches(s, subs, world, run, false, false);
    case PutMeta(run, success) => EndItemMatches(s, subs, world, run, false, false);
    case Stage(run, success) =>
      if step.Staged? { EndItemMatches(s, subs, world, run, success && step.ok, run.clean && step.ok); }
  }

  lemma PrepareMatches(
    shard: Shard, w: string, meta: BatchJob, inputs: seq<BatchInput>, m: string, subs: Subs, ever: Ever, world: World)
    requires OwnShard(subs, ever, w, shard) && Loaded(subs, shard, meta, inputs) && m == world.manifest(shard.jobId)
    ensures LocalMatches(subs, world, LoopHead(Run(shard, meta, inputs, m, [], 0, 0, true)))
  {
    var run := Run(shard, meta, inputs, m, [], 0, 0, true);
    assert run.items == Expected(shard.jobId, subs[shard.jobId], shard.index, world)[..0];
    assert RunMatches(subs, world, run);
  }

  lemma LoopHeadMatches(subs: Subs, world: World, run: Run)
    requires RunMatches(subs, world, run)
    ensures LocalMatches(subs, world, LoopHead(run))
  {
  }

  lemma RunStepMatches(
    s: Store, w: string, l: Local, step: Step, subs: Subs, ever: Ever, pdfs: set<RenderId>, world: World)
    requires MetasMatch(s, world) && !Rendering(l) && !Claiming(l) && LocalMatches(subs, world, l)
    requires l.Prepare? ==> OwnShard(subs, ever, w, l.shard) && Loaded(subs, l.shard, l.meta, l.inputs)
    requires l.Prepare? && step.Resolve? && step.manifest.Some? ==> step.manifest.value == world.manifest(l.shard.jobId)
    ensures
      var o := RunStep(s, l, step);
      MetasMatch(o.store, world) && LocalMatches(subs, world, o.local)
  {
    match l
    case Prepare(shard, meta, inputs) =>
      if step.Resolve? && step.manifest.Some? {
        PrepareMatches(shard, w, meta, inputs, step.manifest.value, subs, ever, world);
      }
    case ItemEnd(run) => LoopHeadMatches(subs, world, run);
    case BeatRead(run) => LoopHeadMatches(subs, world, run);
    case BeatWrite(run) =>
      if step.Write? {
        LoopHeadMatches(subs, world, run.(shard := run.shard.(lease := Some(step.lease), updatedAt := step.at)));
      }
    case _ =>
  }

  lemma OwnState(g: Global, w: string, world: World)
    requires Inv(g) && Matches(g, world)
    ensures LocalMatches(g.submitted, world, LocalOf(g, w)) && LocalOk(g.submitted, g.ever, g.everPdf, w, LocalOf(g, w))
  {
  }

  lemma NextMatches(g: Global, a: Action, world: World)
    requires Inv(g) && Matches(g, world) && FollowsWorld(g, a, world)
    ensures Matches(Next(g, a), world)
  {
    hide WorkerStep, StoreOk, DocAt, LocalMatches, LocalOk;
    match a
    case Work(w, step) =>
      var l := LocalOf(g, w);
      OwnState(g, w, world);
      WorkerStepMatches(g.store, w, l, step, g.maxAttempts, g.submitted, g.ever, g.everPdf, world);
    case Submit(job, sub) => SubmitMatches(g, job, sub, world);
    case _ =>
  }

  lemma WorkerStepMatches(
    s: Store, w: string, l: Local, step: Step, max: nat, subs: Subs, ever: Ever, pdfs: set<RenderId>, world: World)
    requires MetasMatch(s, world) && LocalMatches(subs, world, l) && LocalOk(subs, ever, pdfs, w, l)
    requires l.Compile? && step.Compiled? && |l.run.items| < |l.run.inputs| ==>
      step.success == world.renders(ItemId(l.run))
    requires l.Prepare? && step.Resolve? && step.manifest.Some? ==> step.manifest.value == world.manifest(l.shard.jobId)
    ensures
      var o := WorkerStep(s, w, l, step, max);
      MetasMatch(o.store, world) && LocalMatches(subs, world, o.local)
  {
    hide ItemStep, RunStep, ClaimStep, LocalOk, LocalMatches, MetasMatch, OwnShard, Loaded;
    PrepareFacts(subs, ever, pdfs, w, l);
    if step == Crash {
      IdleMatches(subs, world);
    } else if Rendering(l) {
      ItemStepMatches(s, l, step, subs, world);
    } else if Claiming(l) {
      ClaimStepMatches(s, w, l, step, max, subs, world);
    } else {
      RunStepMatches(s, w, l, step, subs, ever, pdfs, world);
    }
  }

  lemma PrepareFacts(subs: Subs, ever: Ever, pdfs: set<RenderId>, w: string, l: Local)
    requires LocalOk(subs, ever, pdfs, w, l)
    ensures l.Prepare? ==> OwnShard(subs, ever, w, l.shard) && Loaded(subs, l.shard, l.meta, l.inputs)
  {
  }

  lemma IdleMatches(subs: Subs, world: World)
    ensures LocalMatches(subs, world, Idle)
  {
  }

  lemma ClaimStepMatches(s: Store, w: string, l: Local, step: Step, max: nat, subs: Subs, world: World)
    requires MetasMatch(s, world) && Claiming(l)
    ensures
      var o := ClaimStep(s, w, l, step, max);
      MetasMatch(o.store, world) && LocalMatches(subs, world, o.local)
  {
  }

  lemma LocalMatchesMono(subs: Subs, subs': Subs, world: World, l: Local)
    requires Grows(subs, subs') && LocalMatches(subs, world, l)
    ensures LocalMatches(subs', world, l)
  {
  }

  lemma SubmitMatches(g: Global, job: string, sub: Submission, world: World)
    requires Matches(g, world)
    ensures Matches(Next(g, Submit(job, sub)), world)
  {
    var g' := Next(g, Submit(job, sub));
    forall w | w in g'.workers
      ensures LocalMatches(g'.submitted, world, g'.workers[w])
    {
      LocalMatchesMono(g.submitted, g'.submitted, world, g.workers[w]);
    }
  }

  lemma {:induction false} ExecMatches(g: Global, acts: seq<Action>, world: World)
    requires Inv(g) && Matches(g, world) && Deterministic(g, acts, world)
    ensures Matches(Exec(g, acts), world)
  {
    if acts != [] {
      var n := |acts| - 1;
      DeterministicPrefix(g, acts, world);
      ExecMatches(g, acts[..n], world);
      ExecOk(g, acts[..n]);
      NextMatches(Exec(g, acts[..n]), acts[n], world);
    }
  }

  /** In this state, worker `w` is about to store the results of a run that met no storage error. */
  predicate AboutToStore(g: Global, w: string, id: ShardId) {
    LocalOf(g, w).PutResults? && LocalOf(g, w).run.clean && IdOf(LocalOf(g, w).run.shard) == id
  }

  /**
   Whatever came before, an attempt without storage errors stores exactly the expected results:
   they depend on the submission, the manifest and the renderer only.
   */
  lemma CleanAttemptStoresExpected(
    max: nat, acts: seq<Action>, world: World, w: string, id: ShardId, at: int, lease: int)
    requires Deterministic(Initial(max), acts, world)
    requires AboutToStore(Exec(Initial(max), acts), w, id)
    ensures
      var g := Exec(Initial(max), acts);
      var g' := Next(g, Work(w, Write(Good, at, lease)));
      KnownShard(g.submitted, id) && id in g'.store.results
      && g'.store.results[id] == Expected(id.0, g.submitted[id.0], id.1, world)
  {
    var g := Exec(Initial(max), acts);
    InitialOk(max);
    ExecOk(Initial(max), acts);
    ExecMatches(Initial(max), acts, world);
    PutResultsStores(g, w, at, lease, world);
  }

  lemma PutResultsStores(g: Global, w: string, at: int, lease: int, world: World)
    requires Inv(g) && Matches(g, world) && LocalOf(g, w).PutResults? && LocalOf(g, w).run.clean
    ensures
      var id := IdOf(LocalOf(g, w).run.shard);
      var g' := Next(g, Work(w, Write(Good, at, lease)));
      KnownShard(g.submitted, id) && id in g'.store.results
      && g'.store.results[id] == Expected(id.0, g.submitted[id.0], id.1, world)
  {
    var run := LocalOf(g, w).run;
    assert LocalOk(g.submitted, g.ever, g.everPdf, w, PutResults(run));
    assert LocalMatches(g.submitted, world, PutResults(run));
    var e := Expected(run.shard.jobId, g.submitted[run.shard.jobId], run.shard.index, world);
    assert |e| == |run.inputs|;
    assert e[..|run.items|] == e;
    assert Next(g, Work(w, Write(Good, at, lease))).store == WriteResults(g.store, run, Good).store;
  }

  /**
   An interrupted shard and an undisturbed one end in the same results: take any two schedules
   in which the same submission was made, the tag resolves alike and rendering agrees.
   */
  lemma InterruptedEqualsUninterrupted(
    max: nat, acts: seq<Action>, w: string, max': nat, acts': seq<Action>, w': string,
    world: World, id: ShardId, at: int, lease: int)
    requires Deterministic(Initial(max), acts, world) && Deterministic(Initial(max'), acts', world)
    requires AboutToStore(Exec(Initial(max), acts), w, id) && AboutToStore(Exec(Initial(max'), acts'), w', id)
    requires
      var subs, subs' := Exec(Initial(max), acts).submitted, Exec(Initial(max'), acts').submitted;
      id.0 in subs && id.0 in subs' && subs[id.0] == subs'[id.0]
    ensures
      var g := Next(Exec(Initial(max), acts), Work(w, Write(Good, at, lease)));
      var g' := Next(Exec(Initial(max'), acts'), Work(w', Write(Good, at, lease)));
      id in g.store.results && id in g'.store.results && g.store.results[id] == g'.store.results[id]
  {
    CleanAttemptStoresExpected(max, acts, world, w, id, at, lease);
    CleanAttemptStoresExpected(max', acts', world, w', id, at, lease);
  }

  // ----- what a completed job has rendered -----

  lemma WorkerResolves(s: Store, w: string, l: Local, step: Step, max: nat)
    ensures
      WorkerStep(s, w, l, step, max).resolved
      == if l.Prepare? && step.Resolve? && step.manifest.Some? then {(l.shard.jobId, step.manifest.value)} else {}
  {
    hide LookUp, AfterItem, CheckOwner, ItemStep;
    if Rendering(l) {
      ItemResolvesNothing(s, l, step);
    }
  }

  lemma ItemResolvesNothing(s: Store, l: Local, step: Step)
    requires Rendering(l)
    ensures ItemStep(s, l, step).resolved == {}
  {
  }

  /** While tags do not move, every reference of a job resolves to the one manifest. */
  lemma {:induction false} ResolvedOnce(max: nat, acts: seq<Action>, world: World)
    requires Deterministic(Initial(max), acts, world)
    ensures forall j, m :: (j, m) in Exec(Initial(max), acts).ever.resolved ==> m == world.manifest(j)
  {
    hide Next, FollowsWorld;
    if acts != [] {
      var n := |acts| - 1;
      DeterministicPrefix(Initial(max), acts, world);
      ResolvedOnce(max, acts[..n], world);
      StepResolves(Exec(Initial(max), acts[..n]), acts[n], world);
    }
  }

  lemma StepResolves(g: Global, a: Action, world: World)
    requires FollowsWorld(g, a, world)
    ensures forall j, m :: (j, m) in Next(g, a).ever.resolved - g.ever.resolved ==> m == world.manifest(j)
  {
    hide WorkerStep, DocAt;
    if a.Work? {
      WorkerResolves(g.store, a.w, LocalOf(g, a.w), a.step, g.maxAttempts);
    }
  }

  lemma DeterministicPrefix(g: Global, acts: seq<Action>, world: World)
    requires Deterministic(g, acts, world) && acts != []
    ensures Deterministic(g, acts[..|acts| - 1], world)
    ensures FollowsWorld(Exec(g, acts[..|acts| - 1]), acts[|acts| - 1], world)
  {
    hide FollowsWorld, Exec;
    var n := |acts| - 1;
    forall i | 0 <= i < n
      ensures FollowsWorld(Exec(g, acts[..n][..i]), acts[..n][i], world)
    {
      assert acts[..n][..i] == acts[..i];
    }
  }

  /**
   While tags do not move, a job that reads as `Completed` has had the very render persisted that
   each of its inputs asks for: that data, those options, the one version the reference names.
   */
  lemma CompletedMeansTheVersionPersisted(
    max: nat, acts: seq<Action>, world: World, job: string, shards: seq<Shard>, at: seq<nat>, i: nat)
    requires Deterministic(Initial(max), acts, world) && Observed(Initial(max), acts, job, shards, at)
    requires
      var g := Exec(Initial(max), acts);
      job in g.submitted && ValidSubmission(g.submitted[job])
      && Aggregate(JobOf(job, g.submitted[job]), shards).status == JobStatus.Completed
      && i < |g.submitted[job].inputs|
    ensures
      var g := Exec(Initial(max), acts);
      var sub := g.submitted[job];
      var id := RenderId(world.manifest(job), sub.inputs[i].data, sub.opts);
      id in g.ever.ok && id in g.everPdf
  {
    hide Exec, Observed, Aggregate, Deterministic;
    CompletedMeansEveryItemPersisted(max, acts, job, shards, at, i);
    ResolvedOnce(max, acts, world);
  }
}
