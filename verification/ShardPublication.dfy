/**
 Publication order. Enqueue writes a job's markers last, so while jobs are not pruned a marker
 implies, under any interleaving, that every document of its shard exists, and a claim never
 fails on a missing document.
 */
module ShardPublication {
  import opened Prelude
  import opened Jobs
  import opened ShardProtocol
  import opened ShardInvariant
  import opened JobOutcome

  /** Enqueue has written every document of the shard's job, markers aside. */
  predicate Published(g: Global, id: ShardId) {
    KnownShard(g.submitted, id) && id.0 in g.progress && 2 * NumShards(g.submitted[id.0]) < g.progress[id.0]
  }

  predicate DocumentsStored(g: Global, id: ShardId) {
    id.0 in g.store.jobs && id in g.store.shards && id in g.store.inputs
  }

  /** The shard a worker's state is about, if any. */
  function Focus(l: Local): Option<ShardId> {
    match l
    case Idle => None
    case Scan(_, _) => None
    case Drop(id, _, _) => Some(id)
    case Poison(read, _, _) => Some(IdOf(read))
    case Claim(read, _, _) => Some(IdOf(read))
    case Confirm(shard, _, _) => Some(IdOf(shard))
    case FetchJob(shard) => Some(IdOf(shard))
    case FetchInputs(shard, _) => Some(IdOf(shard))
    case Prepare(shard, _, _) => Some(IdOf(shard))
    case Release(shard) => Some(IdOf(shard))
    case Clear(id) => Some(id)
    case _ => Some(IdOf(l.run.shard))
  }

  function Todo(l: Local): set<ShardId> {
    if l.Scan? || l.Drop? || l.Poison? || l.Claim? || l.Confirm? then l.todo else {}
  }

  predicate LocalPublished(g: Global, l: Local) {
    (forall id :: id in Todo(l) ==> Published(g, id))
    && (Focus(l).Some? ==> Published(g, Focus(l).value))
  }

  predicate EnqueueOk(g: Global, id: ShardId)
    requires KnownShard(g.submitted, id) && id.0 in g.progress
  {
    var n, p := NumShards(g.submitted[id.0]), g.progress[id.0];
    (2 * id.1 < p ==> id in g.store.inputs)
    && (2 * id.1 + 1 < p <==> id in g.store.shards)
    && (2 * n < p ==> id.0 in g.store.jobs)
    && (id in g.store.markers ==> 2 * n + 1 + id.1 < p)
  }

  ghost predicate EnqueuesOk(g: Global) {
    g.progress.Keys == g.submitted.Keys
    && (forall j :: j in g.submitted ==>
          ValidSubmission(g.submitted[j]) && j in g.progress && g.progress[j] <= NumDocs(g.submitted[j]))
    && (forall id :: KnownShard(g.submitted, id) && id.0 in g.progress ==> EnqueueOk(g, id))
    && (forall id :: id in g.store.shards || id in g.store.markers ==> KnownShard(g.submitted, id))
  }

  ghost predicate Publication(g: Global) {
    EnqueuesOk(g) && forall w :: w in g.workers ==> LocalPublished(g, g.workers[w])
  }

  lemma PublishedDocs(g: Global, id: ShardId)
    requires Publication(g) && Published(g, id)
    ensures DocumentsStored(g, id)
  {
    assert EnqueueOk(g, id);
  }

  predicate NoJobPruning(acts: seq<Action>) {
    forall i :: 0 <= i < |acts| ==> !acts[i].PruneJobs?
  }

  /** Every marker is of a published shard, and every descriptor is stored under its key. */
  lemma MarkersPublished(g: Global)
    requires Inv(g) && Publication(g)
    ensures forall id :: id in g.store.markers ==> Published(g, id)
    ensures forall id :: id in g.store.shards ==> IdOf(g.store.shards[id]) == id
  {
    forall id | id in g.store.markers
      ensures Published(g, id)
    {
      assert EnqueueOk(g, id);
    }
  }

  lemma WorkerStepPublished(g: Global, w: string, step: Step)
    requires Inv(g) && Publication(g)
    ensures
      var l := LocalOf(g, w);
      var o := WorkerStep(g.store, w, l, step, g.maxAttempts);
      LocalPublished(g, o.local)
      && o.store.jobs == g.store.jobs && o.store.inputs == g.store.inputs
      && o.store.shards.Keys == g.store.shards.Keys && o.store.markers <= g.store.markers
  {
    hide Inv, EnqueuesOk, Published, ClaimStep, RunStep, ItemStep;
    var l := LocalOf(g, w);
    assert LocalPublished(g, l);
    if Focus(l).Some? {
      PublishedDocs(g, Focus(l).value);
    }
    MarkersPublished(g);
    if step != Crash {
      if Claiming(l) {
        ClaimStepPublished(g, w, l, step);
      } else if Rendering(l) {
        ItemStepFrame(g.store, l, step);
      } else {
        RunStepFrame(g.store, l, step);
      }
    }
  }

  lemma ClaimStepPublished(g: Global, w: string, l: Local, step: Step)
    requires LocalPublished(g, l) && Claiming(l) && (Focus(l).Some? ==> Focus(l).value in g.store.shards)
    requires forall id :: id in g.store.markers ==> Published(g, id)
    requires forall id :: id in g.store.shards ==> IdOf(g.store.shards[id]) == id
    ensures
      var o := ClaimStep(g.store, w, l, step, g.maxAttempts);
      LocalPublished(g, o.local)
      && o.store.jobs == g.store.jobs && o.store.inputs == g.store.inputs
      && o.store.shards.Keys == g.store.shards.Keys && o.store.markers <= g.store.markers
  {
    hide Published, LookUp;
    if l.Scan? && step.GetShard? {
      LookUpFocus(g.store, w, step.id, g.maxAttempts, l.todo - {step.id}, l.now, step.ok);
    }
  }

  /** A look-up stays on its shard, or goes on with the scan. */
  lemma LookUpFocus(s: Store, w: string, id: ShardId, max: nat, todo: set<ShardId>, now: int, ok: bool)
    requires id in s.shards ==> IdOf(s.shards[id]) == id
    ensures
      var l := LookUp(s, w, id, max, todo, now, ok);
      Todo(l) == todo && (Focus(l) == Some(id) || Focus(l) == None)
  {
  }

  /** Rendering an item leaves the job documents alone and the worker on its shard. */
  predicate ItemFrame(s: Store, run: Run, o: Outcome) {
    Focus(o.local) == Some(IdOf(run.shard)) && Todo(o.local) == {}
    && o.store.jobs == s.jobs && o.store.inputs == s.inputs && o.store.shards == s.shards
    && o.store.markers == s.markers
  }

  lemma EndItemFrame(s: Store, run: Run, success: bool, clean: bool)
    ensures ItemFrame(s, run, EndItem(s, run, success, clean))
  {
  }

  lemma NextItemFrame(s: Store, run: Run, stop: bool, skip: bool)
    ensures ItemFrame(s, run, NextItem(s, run, stop, skip))
  {
  }

  lemma WriteDataFrame(s: Store, run: Run, io: Io)
    ensures ItemFrame(s, run, WriteData(s, run, io))
  {
    hide EndItem, ItemId;
    if |run.items| < |run.inputs| {
      EndItemFrame(Apply(io, s, s.(datas := s.datas + {ItemId(run)})), run, false, false);
    }
  }

  lemma WritePdfFrame(s: Store, run: Run, io: Io)
    ensures ItemFrame(s, run, WritePdf(s, run, io))
  {
    hide EndItem, ItemId;
    if |run.items| < |run.inputs| {
      EndItemFrame(Apply(io, s, s.(pdfs := s.pdfs + {ItemId(run)})), run, false, false);
    }
  }

  lemma WriteMetaFrame(s: Store, run: Run, success: bool, io: Io)
    ensures ItemFrame(s, run, WriteMeta(s, run, success, io))
  {
    hide EndItem, ItemId;
    if |run.items| < |run.inputs| {
      EndItemFrame(Apply(io, s, s.(metas := s.metas[ItemId(run) := success])), run, false, false);
    }
  }

  lemma ItemStepFrame(s: Store, l: Local, step: Step)
    requires Rendering(l)
    ensures ItemFrame(s, l.run, ItemStep(s, l, step))
  {
    hide EndItem, NextItem, WriteData, WritePdf, WriteMeta;
    match l
    case Item(run) => if step.Advance? { NextItemFrame(s, run, step.stop, step.skip); }
    case PutData(run) => if step.Write? { WriteDataFrame(s, run, step.io); }
    case Compile(run) =>
    case PutPdf(run) => if step.Write? { WritePdfFrame(s, run, step.io); }
    case PutMeta(run, success) => if step.Write? { WriteMetaFrame(s, run, success, step.io); }
    case Stage(run, success) => if step.Staged? { EndItemFrame(s, run, success && step.ok, run.clean && step.ok); }
  }

  lemma RunStepFrame(s: Store, l: Local, step: Step)
    requires !Rendering(l) && !Claiming(l) && Focus(l).Some? && Focus(l).value in s.shards
    ensures
      var o := RunStep(s, l, step);
      (Focus(o.local) == Focus(l) || Focus(o.local) == None) && Todo(o.local) == {}
      && o.store.jobs == s.jobs && o.store.inputs == s.inputs && o.store.markers <= s.markers
      && o.store.shards.Keys == s.shards.Keys
  {
  }

  lemma LocalPublishedMono(g: Global, g': Global, l: Local)
    requires LocalPublished(g, l) && Grows(g.submitted, g'.submitted)
    requires forall j :: j in g.progress ==> j in g'.progress && g.progress[j] <= g'.progress[j]
    ensures LocalPublished(g', l)
  {
  }

  lemma WorkPublication(g: Global, w: string, step: Step)
    requires Inv(g) && Publication(g)
    ensures Publication(Next(g, Work(w, step)))
  {
    hide WorkerStep, Inv;
    var g' := Next(g, Work(w, step));
    WorkerStepPublished(g, w, step);
    assert EnqueuesOk(g);
    forall id | KnownShard(g'.submitted, id) && id.0 in g'.progress
      ensures EnqueueOk(g', id)
    {
      assert EnqueueOk(g, id);
    }
    forall v | v in g'.workers
      ensures LocalPublished(g', g'.workers[v])
    {
      LocalPublishedMono(g, g', if v == w then g'.workers[w] else g.workers[v]);
    }
  }

  function WithDoc(g: Global, job: string, p: nat): Global
    requires job in g.submitted && ValidSubmission(g.submitted[job]) && p < NumDocs(g.submitted[job])
  {
    g.(store := PutDoc(g.store, DocAt(job, g.submitted[job], p)), progress := g.progress[job := p + 1])
  }

  /** The `p`th write of an enqueue adds the `p`th document of its job and nothing else. */
  lemma EnqueuePutAdds(g: Global, job: string, p: nat, id: ShardId)
    requires EnqueuesOk(g) && job in g.submitted && g.progress[job] == p && p < NumDocs(g.submitted[job])
    requires KnownShard(g.submitted, id) && id.0 in g.progress
    ensures EnqueueOk(WithDoc(g, job, p), id)
  {
    WithDocKeys(g, job, p);
    assert EnqueueOk(g, id);
    hide DocAt, PutDoc, NumShards;
  }

  /** Which keys the `p`th document of a job adds. */
  lemma WithDocKeys(g: Global, job: string, p: nat)
    requires job in g.submitted && ValidSubmission(g.submitted[job]) && p < NumDocs(g.submitted[job])
    ensures
      var n, s, s' := NumShards(g.submitted[job]), g.store, WithDoc(g, job, p).store;
      s'.inputs.Keys == s.inputs.Keys + (if p < 2 * n && p % 2 == 0 then {(job, p / 2)} else {})
      && s'.shards.Keys == s.shards.Keys + (if p < 2 * n && p % 2 == 1 then {(job, p / 2)} else {})
      && s'.jobs.Keys == s.jobs.Keys + (if p == 2 * n then {job} else {})
      && s'.markers == s.markers + if p > 2 * n then {(job, p - 2 * n - 1)} else {}
  {
    hide Slice, FreshShard, NumShards;
    if p < 2 * NumShards(g.submitted[job]) {
      FreshShardId(job, g.submitted[job], p / 2);
    }
  }

  lemma FreshShardId(job: string, sub: Submission, k: nat)
    requires ValidSubmission(sub) && k < NumShards(sub)
    ensures IdOf(FreshShard(job, sub, k)) == (job, k)
  {
  }

  lemma EnqueuePutOk(g: Global, job: string, p: nat)
    requires EnqueuesOk(g) && job in g.submitted && g.progress[job] == p && p < NumDocs(g.submitted[job])
    ensures EnqueuesOk(WithDoc(g, job, p))
  {
    var g' := WithDoc(g, job, p);
    forall id | KnownShard(g'.submitted, id) && id.0 in g'.progress
      ensures EnqueueOk(g', id)
    {
      EnqueuePutAdds(g, job, p, id);
    }
    hide EnqueueOk;
  }

  lemma LocalsPublished(g: Global, g': Global)
    requires Publication(g) && g'.workers == g.workers && Grows(g.submitted, g'.submitted)
    requires forall j :: j in g.progress ==> j in g'.progress && g.progress[j] <= g'.progress[j]
    requires EnqueuesOk(g')
    ensures Publication(g')
  {
    forall v | v in g'.workers
      ensures LocalPublished(g', g'.workers[v])
    {
      LocalPublishedMono(g, g', g.workers[v]);
    }
  }

  predicate Enqueuing(g: Global, job: string) {
    job in g.submitted && ValidSubmission(g.submitted[job]) && job in g.progress
    && g.progress[job] < NumDocs(g.submitted[job])
  }

  /** An enqueue's write adds its next document, or nothing at all. */
  lemma EnqueuePutEffect(g: Global, job: string, io: Io)
    ensures
      var g' := Next(g, EnqueuePut(job, io));
      g' == g.(open := g'.open) || (Enqueuing(g, job) && g' == WithDoc(g, job, g.progress[job]).(open := g'.open))
  {
  }

  lemma EnqueuePublication(g: Global, job: string, io: Io)
    requires Publication(g)
    ensures Publication(Next(g, EnqueuePut(job, io)))
  {
    hide Next, EnqueueOk, DocAt;
    var g' := Next(g, EnqueuePut(job, io));
    EnqueuePutEffect(g, job, io);
    if g' != g.(open := g'.open) {
      EnqueuePutOk(g, job, g.progress[job]);
      SameDocs(WithDoc(g, job, g.progress[job]), g');
    } else {
      SameDocs(g, g');
    }
    LocalsPublished(g, g');
  }

  lemma SameDocs(g: Global, g': Global)
    requires EnqueuesOk(g) && g'.submitted == g.submitted && g'.progress == g.progress
    requires g'.store.jobs == g.store.jobs && g'.store.shards == g.store.shards
    requires g'.store.inputs == g.store.inputs && g'.store.markers == g.store.markers
    ensures EnqueuesOk(g')
  {
    forall id | KnownShard(g'.submitted, id) && id.0 in g'.progress
      ensures EnqueueOk(g', id)
    {
      assert EnqueueOk(g, id);
    }
  }

  lemma SubmitPublication(g: Global, job: string, sub: Submission)
    requires Publication(g)
    ensures Publication(Next(g, Submit(job, sub)))
  {
    var g' := Next(g, Submit(job, sub));
    if g' != g {
      forall id | KnownShard(g'.submitted, id) && id.0 in g'.progress
        ensures EnqueueOk(g', id)
      {
        if id.0 == job {
          assert !KnownShard(g.submitted, id);
          assert id !in g.store.shards && id !in g.store.markers;
        } else {
          assert KnownShard(g.submitted, id);
          assert EnqueueOk(g, id);
        }
      }
      assert forall j :: j in g'.submitted ==>
        ValidSubmission(g'.submitted[j]) && j in g'.progress && g'.progress[j] <= NumDocs(g'.submitted[j]);
      forall id | id in g'.store.shards || id in g'.store.markers
        ensures KnownShard(g'.submitted, id)
      {
        assert KnownShard(g.submitted, id);
      }
      LocalsPublished(g, g');
    }
  }

  lemma NextPublication(g: Global, a: Action)
    requires Inv(g) && Publication(g) && !a.PruneJobs?
    ensures Publication(Next(g, a))
  {
    match a
    case Submit(job, sub) => SubmitPublication(g, job, sub);
    case EnqueuePut(job, io) => EnqueuePublication(g, job, io);
    case Work(w, step) => WorkPublication(g, w, step);
    case ExternalRender(id, success) =>
      SameDocs(g, Next(g, a));
      LocalsPublished(g, Next(g, a));
    case PruneRender(_, _, _, _) =>
      SameDocs(g, Next(g, a));
      LocalsPublished(g, Next(g, a));
  }

  lemma {:induction false} ExecPublication(g: Global, acts: seq<Action>)
    requires Inv(g) && Publication(g) && NoJobPruning(acts)
    ensures Publication(Exec(g, acts))
  {
    if acts != [] {
      var n := |acts| - 1;
      ExecPublication(g, acts[..n]);
      ExecOk(g, acts[..n]);
      NextPublication(Exec(g, acts[..n]), acts[n]);
    }
  }

  /**
   While jobs are not pruned, in every reachable state a pending marker implies that the job
   document, the shard's descriptor and its inputs are stored, however far the enqueue got.
   */
  lemma MarkerImpliesDocuments(max: nat, acts: seq<Action>, id: ShardId)
    requires NoJobPruning(acts) && id in Exec(Initial(max), acts).store.markers
    ensures DocumentsStored(Exec(Initial(max), acts), id)
  {
    var g := Exec(Initial(max), acts);
    InitialOk(max);
    ExecPublication(Initial(max), acts);
    assert EnqueueOk(g, id);
  }

  /** A claim that storage lets through never fails on a missing document. */
  lemma ClaimFindsDocuments(max: nat, acts: seq<Action>, w: string)
    requires NoJobPruning(acts)
    ensures
      var g := Exec(Initial(max), acts);
      var l, l' := LocalOf(g, w), LocalOf(Next(g, Work(w, Read(true))), w);
      (l.FetchJob? ==> l'.FetchInputs?) && (l.FetchInputs? ==> l'.Prepare?)
  {
    var g := Exec(Initial(max), acts);
    InitialOk(max);
    ExecPublication(Initial(max), acts);
    var l := LocalOf(g, w);
    if l.FetchJob? || l.FetchInputs? {
      assert LocalPublished(g, l);
      PublishedDocs(g, Focus(l).value);
      hide Exec, Inv, Publication, LocalPublished;
      FetchSucceeds(g, w);
    }
  }

  lemma FetchSucceeds(g: Global, w: string)
    requires
      var l := LocalOf(g, w);
      (l.FetchJob? || l.FetchInputs?) && DocumentsStored(g, Focus(l).value)
    ensures
      var l, l' := LocalOf(g, w), LocalOf(Next(g, Work(w, Read(true))), w);
      (l.FetchJob? ==> l'.FetchInputs?) && (l.FetchInputs? ==> l'.Prepare?)
  {
  }
}
