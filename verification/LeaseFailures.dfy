/**
 Why lease discipline and reliable reads have to be assumed: runs of the protocol without them,
 and for each failure the exact condition under which it happens. A stale owner releases a shard
 that another worker has finished; a poison write that is lost, or a read error taken for a
 missing descriptor, or a late write that meets a marker already dropped or about to be, leaves
 an unfinished shard that no later scan will find.
 */
module LeaseFailures {
  import opened Prelude
  import opened Jobs
  import opened ShardProtocol
  import opened ShardInvariant
  import opened JobOutcome
  import opened ShardPublication
  import opened ShardLease

  lemma {:induction false} ExecConcat(g: Global, a: seq<Action>, b: seq<Action>)
    ensures Exec(g, a + b) == Exec(Exec(g, a), b)
  {
    if b == [] {
      assert a + b == a;
    } else {
      var n := |b| - 1;
      ExecConcat(g, a, b[..n]);
      assert (a + b)[..|a + b| - 1] == a + b[..n];
    }
  }

  lemma ExecTwo(g: Global, a: Action, b: Action)
    ensures Exec(g, [a, b]) == Next(Next(g, a), b)
  {
    hide Next;
    assert [] + [a] == [a] && [a] + [b] == [a, b];
    ExecSnoc(g, [], a);
    ExecSnoc(g, [a], b);
  }

  lemma ExecThree(g: Global, a: Action, b: Action, c: Action)
    ensures Exec(g, [a, b, c]) == Next(Next(Next(g, a), b), c)
  {
    hide Next, Exec;
    ExecTwo(g, a, b);
    ExecSnoc(g, [a, b], c);
    assert [a, b, c] == [a, b] + [c];
  }

  const SUB := Submission("invoice", [BatchInput("{}", None)], None, "", 1, 0)
  const ID: ShardId := ("job", 0)

  /** Only worker `w` and the shard descriptors changed. */
  ghost predicate OnlyWorker(g: Global, g': Global, w: string) {
    g'.store.(shards := map[]) == g.store.(shards := map[])
    && g'.maxAttempts == g.maxAttempts
    && forall v :: v != w ==> LocalOf(g', v) == LocalOf(g, v)
  }

  /** The one job is enqueued, and its shard's descriptor is `s`. */
  predicate Ready(g: Global, s: Shard) {
    g.store.markers == {ID} && ID in g.store.shards && g.store.shards[ID] == s && IdOf(s) == ID
    && ID in g.store.inputs && g.store.inputs[ID] == SUB.inputs
    && "job" in g.store.jobs && g.store.jobs["job"] == JobOf("job", SUB)
  }

  function ClaimActs(w: string, now: int): seq<Action> {
    [Work(w, ListMarkers(now)), Work(w, GetShard(ID, true)), Work(w, Write(Good, 0, now + 1))]
    + [Work(w, Read(true)), Work(w, Read(true)), Work(w, Read(true))]
  }

  /** An idle worker claims the shard. */
  lemma ClaimShard(g: Global, s: Shard, w: string, now: int)
    requires Ready(g, s) && LocalOf(g, w) == Idle && Claimable(s, now) && s.attempts < g.maxAttempts
    ensures
      var g' := Exec(g, ClaimActs(w, now));
      var mine := Claimed(s, w, now, now + 1);
      Ready(g', mine) && OnlyWorker(g, g', w) && LocalOf(g', w) == Prepare(mine, JobOf("job", SUB), SUB.inputs)
  {
    var first := [Work(w, ListMarkers(now)), Work(w, GetShard(ID, true)), Work(w, Write(Good, 0, now + 1))];
    var second := [Work(w, Read(true)), Work(w, Read(true)), Work(w, Read(true))];
    ExecConcat(g, first, second);
    ExecThree(g, first[0], first[1], first[2]);
    ExecThree(Exec(g, first), second[0], second[1], second[2]);
    ClaimFirst(g, s, w, now);
    ClaimSecond(Exec(g, first), Claimed(s, w, now, now + 1), w, {}, now);
    hide Exec, Next;
  }

  lemma ClaimFirst(g: Global, s: Shard, w: string, now: int)
    requires Ready(g, s) && LocalOf(g, w) == Idle && Claimable(s, now) && s.attempts < g.maxAttempts
    ensures
      var g' := Next(Next(Next(g, Work(w, ListMarkers(now))), Work(w, GetShard(ID, true))),
          Work(w, Write(Good, 0, now + 1)));
      var mine := Claimed(s, w, now, now + 1);
      Ready(g', mine) && OnlyWorker(g, g', w) && LocalOf(g', w) == Confirm(mine, {}, now)
  {
    hide RunStep, ItemStep, JobOf;
    var g1 := Next(g, Work(w, ListMarkers(now)));
    assert LocalOf(g1, w) == Scan({ID}, now) && g1.store == g.store;
    var g2 := Next(g1, Work(w, GetShard(ID, true)));
    assert {ID} - {ID} == {};
    assert LocalOf(g2, w) == ShardProtocol.Local.Claim(s, {}, now) && g2.store == g.store;
  }

  lemma ClaimSecond(g: Global, mine: Shard, w: string, todo: set<ShardId>, now: int)
    requires Ready(g, mine) && mine.owner == Some(w) && LocalOf(g, w) == Confirm(mine, todo, now)
    ensures
      var g' := Next(Next(Next(g, Work(w, Read(true))), Work(w, Read(true))), Work(w, Read(true)));
      Ready(g', mine) && OnlyWorker(g, g', w) && LocalOf(g', w) == Prepare(mine, JobOf("job", SUB), SUB.inputs)
  {
    hide RunStep, ItemStep, JobOf;
    var g1 := Next(g, Work(w, Read(true)));
    assert LocalOf(g1, w) == FetchJob(mine) && g1.store == g.store;
    var g2 := Next(g1, Work(w, Read(true)));
    assert LocalOf(g2, w) == FetchInputs(mine, JobOf("job", SUB)) && g2.store == g.store;
  }

  function FailActs(w: string): seq<Action> {
    [Work(w, Resolve(Some("manifest"))), Work(w, Advance(false, false)), Work(w, Write(Lost, 0, 0))]
    + [Work(w, Tick(false)), Work(w, Write(Good, 0, 0)), Work(w, Write(Good, 2, 0))]
  }

  function FailedRun(mine: Shard): Run {
    Run(mine, JobOf("job", SUB), SUB.inputs, "manifest",
        [BatchItem(mine.start, None, Some(RenderId("manifest", "{}", "")), ItemStatus.Failed)], 0, 1, false)
  }

  /** Its only item fails on a storage error, and the shard is done. */
  lemma FinishShard(g: Global, mine: Shard, w: string)
    requires Ready(g, mine) && LocalOf(g, w) == Prepare(mine, JobOf("job", SUB), SUB.inputs)
    ensures
      var g' := Exec(g, FailActs(w));
      ID in g'.store.shards && g'.store.shards[ID] == Finished(FailedRun(mine), 2)
      && g'.store.markers == {ID} && LocalOf(g', w) == Clear(ID)
      && g'.maxAttempts == g.maxAttempts && forall v :: v != w ==> LocalOf(g', v) == LocalOf(g, v)
  {
    var first := [Work(w, Resolve(Some("manifest"))), Work(w, Advance(false, false)), Work(w, Write(Lost, 0, 0))];
    var second := [Work(w, Tick(false)), Work(w, Write(Good, 0, 0)), Work(w, Write(Good, 2, 0))];
    ExecConcat(g, first, second);
    ExecThree(g, first[0], first[1], first[2]);
    ExecThree(Exec(g, first), second[0], second[1], second[2]);
    FailFirst(g, mine, w);
    FailSecond(Exec(g, first), mine, w);
    hide Exec, Next;
  }

  lemma FailFirst(g: Global, mine: Shard, w: string)
    requires Ready(g, mine) && LocalOf(g, w) == Prepare(mine, JobOf("job", SUB), SUB.inputs)
    ensures
      var g' := Next(Next(Next(g, Work(w, Resolve(Some("manifest")))), Work(w, Advance(false, false))),
          Work(w, Write(Lost, 0, 0)));
      Ready(g', mine) && g'.maxAttempts == g.maxAttempts && LocalOf(g', w) == ItemEnd(FailedRun(mine))
      && forall v :: v != w ==> LocalOf(g', v) == LocalOf(g, v)
  {
    hide WorkerStep, Slice, NumShards, JobOf;
    var run := Fresh(mine);
    var g1 := Next(g, Work(w, Resolve(Some("manifest"))));
    FailSteps(g.store, w, mine, g.maxAttempts);
    var g2 := Next(g1, Work(w, Advance(false, false)));
    assert LocalOf(g2, w) == PutData(run) && g2.store == g.store;
  }

  function Fresh(mine: Shard): Run {
    Run(mine, JobOf("job", SUB), SUB.inputs, "manifest", [], 0, 0, true)
  }

  lemma FailSteps(s: Store, w: string, mine: Shard, max: nat)
    ensures
      var o := WorkerStep(s, w, Prepare(mine, JobOf("job", SUB), SUB.inputs), Resolve(Some("manifest")), max);
      o.store == s && o.local == Item(Fresh(mine))
    ensures WorkerStep(s, w, Item(Fresh(mine)), Advance(false, false), max) == Stay(s, PutData(Fresh(mine)))
    ensures WorkerStep(s, w, PutData(Fresh(mine)), Write(Lost, 0, 0), max) == Stay(s, ItemEnd(FailedRun(mine)))
  {
    hide Slice, NumShards, Counted, JobOf, ClaimStep;
    ItemFails(s, mine);
  }

  lemma ItemFails(s: Store, mine: Shard)
    ensures WriteData(s, Fresh(mine), Lost) == Stay(s, ItemEnd(FailedRun(mine)))
  {
    assert Counted(Fresh(mine), false, false).items == FailedRun(mine).items;
  }

  lemma FailSecond(g: Global, mine: Shard, w: string)
    requires Ready(g, mine) && LocalOf(g, w) == ItemEnd(FailedRun(mine))
    ensures
      var g' := Next(Next(Next(g, Work(w, Tick(false))), Work(w, Write(Good, 0, 0))), Work(w, Write(Good, 2, 0)));
      ID in g'.store.shards && g'.store.shards[ID] == Finished(FailedRun(mine), 2)
      && g'.store.markers == {ID} && LocalOf(g', w) == Clear(ID)
      && g'.maxAttempts == g.maxAttempts && forall v :: v != w ==> LocalOf(g', v) == LocalOf(g, v)
  {
    hide WorkerStep, Finished;
    var run := FailedRun(mine);
    EndSteps(g.store, w, run, g.maxAttempts);
    var g1 := Next(g, Work(w, Tick(false)));
    assert LocalOf(g1, w) == PutResults(run) && g1.store == g.store;
    var g2 := Next(g1, Work(w, Write(Good, 0, 0)));
    EndSteps(g2.store, w, run, g.maxAttempts);
  }

  /** The steps of a run that has counted its only item. */
  lemma EndSteps(s: Store, w: string, run: Run, max: nat)
    requires |run.items| == |run.inputs|
    ensures WorkerStep(s, w, ItemEnd(run), Tick(false), max) == Stay(s, PutResults(run))
    ensures
      var o := WorkerStep(s, w, PutResults(run), Write(Good, 0, 0), max);
      o.local == PutDone(run) && o.store.shards == s.shards && o.store.markers == s.markers
    ensures
      var o := WorkerStep(s, w, PutDone(run), Write(Good, 2, 0), max);
      IdOf(run.shard) in o.store.shards && o.store.shards[IdOf(run.shard)] == Finished(run, 2)
      && o.store.markers == s.markers && o.local == Clear(IdOf(run.shard))
  {
    hide ClaimStep, ItemStep;
  }

  const ENQUEUE: seq<Action> :=
    [Submit("job", SUB), EnqueuePut("job", Good)]
    + [EnqueuePut("job", Good), EnqueuePut("job", Good), EnqueuePut("job", Good)]

  lemma EnqueueOne(max: nat)
    ensures
      var g := Exec(Initial(max), ENQUEUE);
      Ready(g, FreshShard("job", SUB, 0)) && g.workers == map[] && g.maxAttempts == max
  {
    var first := [Submit("job", SUB), EnqueuePut("job", Good)];
    var second := [EnqueuePut("job", Good), EnqueuePut("job", Good), EnqueuePut("job", Good)];
    var put := EnqueuePut("job", Good);
    ExecConcat(Initial(max), first, second);
    ExecTwo(Initial(max), first[0], first[1]);
    ExecThree(Exec(Initial(max), first), put, put, put);
    OneShard();
    EnqueueSteps(max);
    hide Exec, Next;
  }

  lemma OneShard()
    ensures NumShards(SUB) == 1 && NumDocs(SUB) == 4 && Slice(SUB, 0) == SUB.inputs
    ensures DocAt("job", SUB, 0) == InputsDoc(ID, SUB.inputs)
    ensures DocAt("job", SUB, 1) == ShardDoc(FreshShard("job", SUB, 0))
    ensures DocAt("job", SUB, 2) == JobDoc(JobOf("job", SUB))
    ensures DocAt("job", SUB, 3) == MarkerDoc(ID)
  {
  }

  lemma EnqueueSteps(max: nat)
    ensures
      var put := EnqueuePut("job", Good);
      var g := Next(Next(Next(Next(Next(Initial(max), Submit("job", SUB)), put), put), put), put);
      Ready(g, FreshShard("job", SUB, 0)) && g.workers == map[] && g.maxAttempts == max
  {
    OneShard();
    hide DocAt, NumDocs, NumShards, FreshShard, Slice, WorkerStep;
    var put := EnqueuePut("job", Good);
    var g0 := Next(Initial(max), Submit("job", SUB));
    assert g0.progress == map["job" := 0] && g0.open == {"job"} && g0.submitted == map["job" := SUB]
      && g0.store == EMPTY_STORE;
    var g1 := Next(g0, put);
    assert g1.progress == map["job" := 1] && g1.open == {"job"} && g1.submitted == map["job" := SUB];
    var g2 := Next(g1, put);
    assert g2.progress == map["job" := 2] && g2.open == {"job"} && g2.submitted == map["job" := SUB];
    assert IdOf(FreshShard("job", SUB, 0)) == ID by { OneFresh(); }
    var g3 := Next(g2, put);
    assert g3.progress == map["job" := 3] && g3.open == {"job"} && g3.submitted == map["job" := SUB];
    var g4 := Next(g3, put);
    assert g4.store.markers == {ID};
  }

  lemma OneFresh()
    ensures NumShards(SUB) == 1
      && FreshShard("job", SUB, 0) == Shard("job", 0, 0, 1, ShardStatus.Pending, None, None, 0, 0, 0, 0)
  {
  }

  /** Worker "a" claims, its lease passes, and worker "b" claims and finishes. */
  function OvertakenActs(): seq<Action> {
    ENQUEUE + ClaimActs("a", 0) + ClaimActs("b", 5) + FailActs("b")
  }

  /** Then "a" fails to prepare and writes its copy back as pending. */
  function LateActs(): seq<Action> {
    [Work("a", Resolve(None)), Work("a", Write(Good, 9, 0))]
  }

  const HERS := Shard("job", 0, 0, 1, ShardStatus.Running, Some("a"), Some(1), 0, 0, 1, 0)

  /** The shard is done and "b" is about to clear its marker, while "a" still holds its claim. */
  predicate Overtaken(g: Global) {
    ID in g.store.shards && g.store.shards[ID].status == ShardStatus.Done
    && LocalOf(g, "a") == Prepare(HERS, JobOf("job", SUB), SUB.inputs)
  }

  lemma OvertakenRun(max: nat)
    requires max >= 2
    ensures
      var g := Exec(Initial(max), OvertakenActs());
      Overtaken(g) && g.store.markers == {ID} && LocalOf(g, "b") == Clear(ID) && LocalOf(g, "c") == Idle
  {
    hide Exec, Next, ClaimActs, FailActs, FreshShard, Slice, NumShards;
    var a, b, f := ClaimActs("a", 0), ClaimActs("b", 5), FailActs("b");
    var g0 := Exec(Initial(max), ENQUEUE);
    EnqueueOne(max);
    OneFresh();
    var unclaimed := FreshShard("job", SUB, 0);
    ExecConcat(Initial(max), ENQUEUE, a);
    ClaimShard(g0, unclaimed, "a", 0);
    var g1 := Exec(g0, a);
    assert Claimed(unclaimed, "a", 0, 1) == HERS;
    ExecConcat(Initial(max), ENQUEUE + a, b);
    ClaimShard(g1, HERS, "b", 5);
    var g2 := Exec(g1, b);
    ExecConcat(Initial(max), ENQUEUE + a + b, f);
    FinishShard(g2, Claimed(HERS, "b", 5, 6), "b");
  }

  /** A stale owner undoes a finished shard, which the lease discipline rules out. */
  lemma StaleOwnerReopensDoneShard(max: nat)
    requires max >= 2
    ensures
      var g, g' := Exec(Initial(max), OvertakenActs()), Exec(Initial(max), OvertakenActs() + LateActs());
      ID in g.store.shards && g.store.shards[ID].status == ShardStatus.Done
      && ID in g'.store.shards && g'.store.shards[ID].status == ShardStatus.Pending && g'.store.shards[ID].attempts == 1
      && !DisciplinedRun(Initial(max), OvertakenActs() + LateActs())
  {
    hide Exec, Next, OvertakenActs, DisciplinedRun;
    var early, late := OvertakenActs(), LateActs();
    OvertakenRun(max);
    ExecConcat(Initial(max), early, late);
    LateRelease(Exec(Initial(max), early));
    if DisciplinedRun(Initial(max), early + late) {
      assert (early + late)[..|early|] == early;
      TerminalForever(max, early + late, |early|, ID);
    }
  }

  lemma LateRelease(g: Global)
    requires LocalOf(g, "a") == Prepare(HERS, JobOf("job", SUB), SUB.inputs)
    ensures
      var g' := Exec(g, LateActs());
      ID in g'.store.shards && g'.store.shards[ID].status == ShardStatus.Pending && g'.store.shards[ID].attempts == 1
      && g'.store.markers == g.store.markers && forall v :: v != "a" ==> LocalOf(g', v) == LocalOf(g, v)
  {
    hide Exec;
    ExecTwo(g, LateActs()[0], LateActs()[1]);
    LateSteps(g);
    hide Next;
  }

  lemma LateSteps(g: Global)
    requires LocalOf(g, "a") == Prepare(HERS, JobOf("job", SUB), SUB.inputs)
    ensures
      var g' := Next(Next(g, LateActs()[0]), LateActs()[1]);
      ID in g'.store.shards && g'.store.shards[ID].status == ShardStatus.Pending && g'.store.shards[ID].attempts == 1
      && g'.store.markers == g.store.markers && forall v :: v != "a" ==> LocalOf(g', v) == LocalOf(g, v)
  {
    hide ClaimStep, ItemStep, JobOf;
    var g1 := Next(g, LateActs()[0]);
    assert LocalOf(g1, "a") == Release(Released(HERS));
  }

  // ----- when a terminal shard is reopened -----

  predicate TerminalAt(g: Global, id: ShardId) {
    id in g.store.shards && Terminal(g.store.shards[id])
  }

  /** A claim, a release or a heartbeat of this worker step reaches the descriptor of terminal shard `id`. */
  predicate LateWrite(g: Global, a: Action, id: ShardId) {
    a.Work? && TerminalAt(g, id) &&
    var l := LocalOf(g, a.w);
    (l.Claim? || l.Release? || l.BeatWrite?)
    && Written(a.w, l, a.step).Some? && IdOf(Written(a.w, l, a.step).value) == id
  }

  /** The descriptors that leave a terminal state open are those of claims, releases and heartbeats. */
  lemma WrittenTerminal(subs: Subs, ever: Ever, pdfs: set<RenderId>, w: string, l: Local, step: Step)
    requires LocalOk(subs, ever, pdfs, w, l) && Written(w, l, step).Some?
    ensures Terminal(Written(w, l, step).value) <==> !(l.Claim? || l.Release? || l.BeatWrite?)
  {
    hide ItemsOk, CountPersisted, CountSuccess, Loaded;
  }

  /** An action reopens a terminal shard exactly when it is a late claim, release or heartbeat write. */
  lemma ReopensIff(g: Global, a: Action, id: ShardId)
    requires Inv(g) && Publication(g) && !a.PruneJobs? && TerminalAt(g, id)
    ensures !TerminalAt(Next(g, a), id) <==> LateWrite(g, a, id)
  {
    hide Inv, Publication, Next, Written, Terminal, DocAt, LocalOk;
    StoredEffect(g, a);
    if a.Work? && Stored(g, a).Some? {
      OwnLocalOk(g, a.w);
      WrittenTerminal(g.submitted, g.ever, g.everPdf, a.w, LocalOf(g, a.w), a.step);
    } else if Stored(g, a).Some? {
      FreshDocument(g, a.job);
    }
  }

  lemma OwnLocalOk(g: Global, w: string)
    requires Inv(g)
    ensures LocalOk(g.submitted, g.ever, g.everPdf, w, LocalOf(g, w))
  {
  }

  /** Such a write breaks the lease discipline. */
  lemma LateWriteIsUndisciplined(g: Global, a: Action, id: ShardId)
    requires Leases(g) && LateWrite(g, a, id)
    ensures !Disciplined(g, a)
  {
    hide Inv, Publication, Next, Written, Disciplined, LocalHolds;
    if Disciplined(g, a) {
      TerminalStays(g, a, id);
      ReopensIff(g, a, id);
    }
  }

  /**
   While jobs are not pruned, in every run a shard stays done or abandoned from some point on
   exactly when no late claim, release or heartbeat reaches its descriptor after that point.
   */
  lemma TerminalStaysIff(max: nat, acts: seq<Action>, i: nat, id: ShardId)
    requires NoJobPruning(acts) && i <= |acts| && TerminalAt(Exec(Initial(max), acts[..i]), id)
    ensures
      (forall j :: i <= j <= |acts| ==> TerminalAt(Exec(Initial(max), acts[..j]), id))
      <==> (forall j :: i <= j < |acts| ==> !LateWrite(Exec(Initial(max), acts[..j]), acts[j], id))
  {
    hide Exec, TerminalAt, LateWrite, Next;
    if forall j :: i <= j <= |acts| ==> TerminalAt(Exec(Initial(max), acts[..j]), id) {
      forall j | i <= j < |acts|
        ensures !LateWrite(Exec(Initial(max), acts[..j]), acts[j], id)
      {
        StepReopensIff(max, acts, j, id);
        assert TerminalAt(Exec(Initial(max), acts[..j + 1]), id);
      }
    }
    if forall j :: i <= j < |acts| ==> !LateWrite(Exec(Initial(max), acts[..j]), acts[j], id) {
      var j := i;
      while j < |acts|
        invariant i <= j <= |acts|
        invariant forall k :: i <= k <= j ==> TerminalAt(Exec(Initial(max), acts[..k]), id)
      {
        StepReopensIff(max, acts, j, id);
        j := j + 1;
      }
    }
  }

  lemma StepReopensIff(max: nat, acts: seq<Action>, j: nat, id: ShardId)
    requires NoJobPruning(acts) && j < |acts| && TerminalAt(Exec(Initial(max), acts[..j]), id)
    ensures
      !TerminalAt(Exec(Initial(max), acts[..j + 1]), id) <==> LateWrite(Exec(Initial(max), acts[..j]), acts[j], id)
  {
    hide TerminalAt, LateWrite, Next, Inv, Publication;
    ReachableStep(max, acts, j);
    ReopensIff(Exec(Initial(max), acts[..j]), acts[j], id);
  }

  lemma InitialPublication(max: nat)
    ensures Publication(Initial(max))
  {
  }

  // ----- when an unfinished shard loses its marker -----

  /** An unfinished shard that no scan will find. */
  predicate Orphaned(g: Global, id: ShardId) {
    id in g.store.shards && !Terminal(g.store.shards[id]) && id !in g.store.markers
  }

  /** A worker deletes the marker of shard `id` while the stored descriptor is unfinished. */
  predicate DropsUnfinished(g: Global, a: Action, id: ShardId) {
    a.Work? && a.step.Write? && a.step.io != Lost && id in g.store.markers
    && id in g.store.shards && !Terminal(g.store.shards[id]) &&
    var l := LocalOf(g, a.w);
    (l.Drop? || l.Clear?) && l.id == id
  }

  /** What makes an orphan: the marker of an unfinished shard goes, or a shard without marker is reopened. */
  predicate Orphans(g: Global, a: Action, id: ShardId) {
    DropsUnfinished(g, a, id) || (LateWrite(g, a, id) && id !in g.store.markers)
  }

  /** Only a worker about to drop or clear a marker deletes one. */
  lemma MarkersAfterStep(s: Store, w: string, l: Local, step: Step, max: nat)
    ensures
      WorkerStep(s, w, l, step, max).store.markers
      == if step.Write? && step.io != Lost && (l.Drop? || l.Clear?) then s.markers - {l.id} else s.markers
  {
    hide ClaimStep, RunStep, ItemStep;
    if Claiming(l) {
      MarkersAfterClaim(s, w, l, step, max);
    } else if Rendering(l) {
      ItemStepFrame(s, l, step);
    } else {
      MarkersAfterRun(s, l, step);
    }
  }

  lemma MarkersAfterClaim(s: Store, w: string, l: Local, step: Step, max: nat)
    requires Claiming(l)
    ensures
      ClaimStep(s, w, l, step, max).store.markers
      == if step.Write? && step.io != Lost && l.Drop? then s.markers - {l.id} else s.markers
  {
    hide LookUp;
  }

  lemma MarkersAfterRun(s: Store, l: Local, step: Step)
    requires !Claiming(l) && !Rendering(l)
    ensures
      RunStep(s, l, step).store.markers
      == if step.Write? && step.io != Lost && l.Clear? then s.markers - {l.id} else s.markers
  {
    hide LoopHead, AfterItem, CheckOwner;
  }

  /** The markers after any action but job pruning: a worker's delete, or an enqueue's addition. */
  lemma MarkersAfter(g: Global, a: Action)
    requires !a.PruneJobs?
    ensures a.Work? ==>
      var l := LocalOf(g, a.w);
      Next(g, a).store.markers
      == if a.step.Write? && a.step.io != Lost && (l.Drop? || l.Clear?) then g.store.markers - {l.id}
         else g.store.markers
    ensures !a.Work? ==> g.store.markers <= Next(g, a).store.markers
  {
    hide WorkerStep, DocAt;
    if a.Work? {
      MarkersAfterStep(g.store, a.w, LocalOf(g, a.w), a.step, g.maxAttempts);
    }
  }

  /** Descriptors stay, and only the one that the action stores changes. */
  lemma ShardsAfter(g: Global, a: Action, id: ShardId)
    requires !a.PruneJobs? && id in g.store.shards
    ensures id in Next(g, a).store.shards
    ensures Next(g, a).store.shards[id] == if Stored(g, a).Some? && IdOf(Stored(g, a).value) == id
                                           then Stored(g, a).value else g.store.shards[id]
  {
    hide Next, Stored;
    StoredEffect(g, a);
  }

  lemma DeletersStoreNothing(g: Global, a: Action)
    requires a.Work? && (LocalOf(g, a.w).Drop? || LocalOf(g, a.w).Clear?)
    ensures Stored(g, a) == None
  {
  }

  /**
   While jobs are not pruned, in every reachable state an action orphans a shard exactly when it
   deletes the marker while the stored descriptor is unfinished, or reopens a finished shard whose
   marker is gone.
   */
  lemma OrphansIff(g: Global, a: Action, id: ShardId)
    requires Inv(g) && Publication(g) && !a.PruneJobs? && id in g.store.shards && !Orphaned(g, id)
    ensures id in Next(g, a).store.shards
    ensures Orphaned(Next(g, a), id) <==> Orphans(g, a, id)
  {
    hide Inv, Publication, Next, Terminal, Stored, Written;
    MarkersAfter(g, a);
    ShardsAfter(g, a, id);
    if Terminal(g.store.shards[id]) {
      ReopensIff(g, a, id);
    } else {
      KeepsUnfinished(g, a, id);
    }
  }

  /** A worker that deletes a marker changes no descriptor. */
  lemma KeepsUnfinished(g: Global, a: Action, id: ShardId)
    requires !a.PruneJobs? && id in g.store.shards
    ensures a.Work? && (LocalOf(g, a.w).Drop? || LocalOf(g, a.w).Clear?) ==>
      id in Next(g, a).store.shards && Next(g, a).store.shards[id] == g.store.shards[id]
  {
    hide Next, Stored;
    ShardsAfter(g, a, id);
    if a.Work? && (LocalOf(g, a.w).Drop? || LocalOf(g, a.w).Clear?) {
      DeletersStoreNothing(g, a);
    }
  }

  /**
   In every run without job pruning a shard that a scan can find is never orphaned from then on exactly
   when no action of these two kinds follows.
   */
  lemma NeverOrphanedIff(max: nat, acts: seq<Action>, i: nat, id: ShardId)
    requires NoJobPruning(acts) && i <= |acts|
    requires
      var past := Exec(Initial(max), acts[..i]);
      id in past.store.shards && !Orphaned(past, id)
    ensures
      (forall j :: i <= j <= |acts| ==> !Orphaned(Exec(Initial(max), acts[..j]), id))
      <==> (forall j :: i <= j < |acts| ==> !Orphans(Exec(Initial(max), acts[..j]), acts[j], id))
  {
    hide Exec, Orphaned, Orphans, Next;
    if forall j :: i <= j <= |acts| ==> !Orphaned(Exec(Initial(max), acts[..j]), id) {
      forall j | i <= j < |acts|
        ensures !Orphans(Exec(Initial(max), acts[..j]), acts[j], id)
      {
        StoredSince(max, acts, i, j, id);
        StepOrphansIff(max, acts, j, id);
        assert !Orphaned(Exec(Initial(max), acts[..j + 1]), id);
      }
    }
    if forall j :: i <= j < |acts| ==> !Orphans(Exec(Initial(max), acts[..j]), acts[j], id) {
      var j := i;
      while j < |acts|
        invariant i <= j <= |acts| && id in Exec(Initial(max), acts[..j]).store.shards
        invariant forall k :: i <= k <= j ==> !Orphaned(Exec(Initial(max), acts[..k]), id)
      {
        StepOrphansIff(max, acts, j, id);
        j := j + 1;
      }
    }
  }

  lemma StepOrphansIff(max: nat, acts: seq<Action>, j: nat, id: ShardId)
    requires NoJobPruning(acts) && j < |acts|
    requires
      var g := Exec(Initial(max), acts[..j]);
      id in g.store.shards && !Orphaned(g, id)
    ensures id in Exec(Initial(max), acts[..j + 1]).store.shards
    ensures
      Orphaned(Exec(Initial(max), acts[..j + 1]), id) <==> Orphans(Exec(Initial(max), acts[..j]), acts[j], id)
  {
    hide Orphaned, Orphans, Next, Inv, Publication;
    ReachableStep(max, acts, j);
    OrphansIff(Exec(Initial(max), acts[..j]), acts[j], id);
  }

  /** A state on the way is consistent, and one action leads to the next. */
  lemma ReachableStep(max: nat, acts: seq<Action>, j: nat)
    requires NoJobPruning(acts) && j < |acts|
    ensures
      var g := Exec(Initial(max), acts[..j]);
      Inv(g) && Publication(g) && Exec(Initial(max), acts[..j + 1]) == Next(g, acts[j])
  {
    hide Next, Inv, Publication;
    assert acts[..j + 1] == acts[..j] + [acts[j]];
    ExecSnoc(Initial(max), acts[..j], acts[j]);
    InitialOk(max);
    InitialPublication(max);
    ExecOk(Initial(max), acts[..j]);
    ExecPublication(Initial(max), acts[..j]);
  }

  lemma {:induction false} StoredSince(max: nat, acts: seq<Action>, i: nat, j: nat, id: ShardId)
    requires NoJobPruning(acts) && i <= j <= |acts| && id in Exec(Initial(max), acts[..i]).store.shards
    ensures id in Exec(Initial(max), acts[..j]).store.shards
    decreases j
  {
    hide Exec, Next, Inv, Publication, Stored;
    if i < j {
      StoredSince(max, acts, i, j - 1, id);
      ReachableStep(max, acts, j - 1);
      ShardsAfter(Exec(Initial(max), acts[..j - 1]), acts[j - 1], id);
    }
  }

  lemma MarkerStaysGone(g: Global, a: Action, id: ShardId)
    requires Inv(g) && Publication(g) && !a.PruneJobs? && Announced(g, id) && id !in g.store.markers
    ensures Announced(Next(g, a), id) && id !in Next(g, a).store.markers
  {
    hide Inv, Publication, EnqueuesOk, DocAt, WorkerStep;
    match a
    case Work(w, step) => WorkerStepPublished(g, w, step);
    case EnqueuePut(job, io) =>
      EnqueuePutEffect(g, job, io);
      if Enqueuing(g, job) {
        WithDocKeys(g, job, g.progress[job]);
      }
    case Submit(job, sub) => ProgressKnown(g);
    case _ =>
  }

  lemma ProgressKnown(g: Global)
    requires Publication(g)
    ensures g.progress.Keys == g.submitted.Keys
  {
  }

  /** Markers are written once: a shard whose enqueued marker is gone is never listed by a scan again. */
  lemma {:induction false} MarkerNeverReturns(max: nat, acts: seq<Action>, i: nat, id: ShardId)
    requires NoJobPruning(acts) && i <= |acts|
    requires
      var past := Exec(Initial(max), acts[..i]);
      Announced(past, id) && id !in past.store.markers
    ensures
      var g := Exec(Initial(max), acts);
      Announced(g, id) && id !in g.store.markers
  {
    hide Announced, Next, Inv, Publication;
    if i == |acts| {
      assert acts[..i] == acts;
    } else {
      var n := |acts| - 1;
      assert acts[..n][..i] == acts[..i];
      MarkerNeverReturns(max, acts[..n], i, id);
      InitialOk(max);
      InitialPublication(max);
      ExecOk(Initial(max), acts[..n]);
      ExecPublication(Initial(max), acts[..n]);
      MarkerStaysGone(Exec(Initial(max), acts[..n]), acts[n], id);
    }
  }

  /** Other processes run, and nobody prunes jobs. */
  predicate OthersOnly(acts: seq<Action>, w: string) {
    forall i :: 0 <= i < |acts| ==> !acts[i].PruneJobs? && !(acts[i].Work? && acts[i].w == w)
  }

  lemma {:induction false} LocalStays(g: Global, acts: seq<Action>, w: string)
    requires OthersOnly(acts, w)
    ensures LocalOf(Exec(g, acts), w) == LocalOf(g, w) && Exec(g, acts).maxAttempts == g.maxAttempts
  {
    if acts != [] {
      var n := |acts| - 1;
      LocalStays(g, acts[..n], w);
      OtherLeaves(Exec(g, acts[..n]), acts[n], w);
      hide Next;
    }
  }

  lemma OtherLeaves(g: Global, a: Action, w: string)
    requires !(a.Work? && a.w == w)
    ensures LocalOf(Next(g, a), w) == LocalOf(g, w) && Next(g, a).maxAttempts == g.maxAttempts
  {
    hide WorkerStep, DocAt, PutDoc;
  }

  /**
   The scan takes a failed read for a missing descriptor. Whatever runs between the read and the
   worker's next write, that write takes the marker from a shard unfinished by then exactly when the
   read failed, or found the shard finished, and the write does not get lost.
   */
  lemma ReadErrorOrphansIff(
    g: Global, w: string, todo: set<ShardId>, now: int, id: ShardId, ok: bool, others: seq<Action>, del: Io)
    requires LocalOf(g, w) == Scan(todo, now) && id in todo && id in g.store.shards && OthersOnly(others, w)
    requires
      var g2 := Exec(Next(g, Work(w, GetShard(id, ok))), others);
      id in g2.store.shards && !Terminal(g2.store.shards[id]) && id in g2.store.markers
    ensures
      var g2 := Exec(Next(g, Work(w, GetShard(id, ok))), others);
      Orphaned(Next(g2, Work(w, Write(del, 0, 0))), id)
      <==> (!ok || Terminal(g.store.shards[id])) && del != Lost
  {
    hide Exec, Terminal;
    var g1 := Next(g, Work(w, GetShard(id, ok)));
    LooksUp(g, w, todo, now, id, ok);
    LocalStays(g1, others, w);
    hide Next;
    WriteAfterLookUp(Exec(g1, others), w, g.store, id, g.maxAttempts, todo - {id}, now, ok, del);
  }

  lemma LooksUp(g: Global, w: string, todo: set<ShardId>, now: int, id: ShardId, ok: bool)
    requires LocalOf(g, w) == Scan(todo, now) && id in todo
    ensures
      var g1 := Next(g, Work(w, GetShard(id, ok)));
      g1.store == g.store && LocalOf(g1, w) == LookUp(g.store, w, id, g.maxAttempts, todo - {id}, now, ok)
  {
    hide LookUp, RunStep, ItemStep;
  }

  /** The write that follows a look-up: only a drop deletes the marker. */
  lemma WriteAfterLookUp(
    g: Global, w: string, seen: Store, id: ShardId, max: nat, todo: set<ShardId>, now: int, ok: bool, del: Io)
    requires id in seen.shards && LocalOf(g, w) == LookUp(seen, w, id, max, todo, now, ok)
    requires id in g.store.shards && !Terminal(g.store.shards[id]) && id in g.store.markers
    ensures
      Orphaned(Next(g, Work(w, Write(del, 0, 0))), id)
      <==> (!ok || Terminal(seen.shards[id])) && del != Lost
  {
    hide Next, Terminal;
    MarkersAfter(g, Work(w, Write(del, 0, 0)));
    KeepsUnfinished(g, Work(w, Write(del, 0, 0)), id);
  }

  /** Such a run: a worker's read of the one pending shard fails, and the marker is gone for good. */
  lemma ReadErrorOrphansShard(max: nat)
    ensures
      var acts := ENQUEUE + [Work("a", ListMarkers(0)), Work("a", GetShard(ID, false)), Work("a", Write(Good, 0, 0))];
      Orphaned(Exec(Initial(max), acts), ID)
  {
    hide Exec, Next, FreshShard, Slice, NumShards;
    var g0 := Exec(Initial(max), ENQUEUE);
    EnqueueOne(max);
    OneFresh();
    var scan, look, drop := Work("a", ListMarkers(0)), Work("a", GetShard(ID, false)), Work("a", Write(Good, 0, 0));
    ExecConcat(Initial(max), ENQUEUE, [scan, look, drop]);
    ExecThree(g0, scan, look, drop);
    ListsMarkers(g0, "a", 0);
    LooksUp(Next(g0, scan), "a", {ID}, 0, ID, false);
    ExecNone(Next(Next(g0, scan), look));
    ReadErrorOrphansIff(Next(g0, scan), "a", {ID}, 0, ID, false, [], Good);
  }

  lemma ExecNone(g: Global)
    ensures Exec(g, []) == g
  {
  }

  lemma ListsMarkers(g: Global, w: string, now: int)
    requires LocalOf(g, w) == Idle
    ensures
      var g' := Next(g, Work(w, ListMarkers(now)));
      g'.store == g.store && LocalOf(g', w) == Scan(g.store.markers, now)
  {
  }

  /**
   The poison guard ignores the outcome of its descriptor write and goes on to delete the marker.
   Whatever runs in between, the shard is an orphan after the delete exactly when it is unfinished by
   then and the delete is not lost, or the marker was gone before; and if nothing runs in between,
   exactly when the descriptor write is lost and the delete is not.
   */
  lemma PoisonOrphansIff(
    g: Global, w: string, read: Shard, todo: set<ShardId>, now: int, put: Io, others: seq<Action>, del: Io)
    requires LocalOf(g, w) == Poison(read, todo, now) && !Terminal(read) && OthersOnly(others, w)
    requires IdOf(read) in g.store.markers && IdOf(read) in g.store.shards && g.store.shards[IdOf(read)] == read
    requires IdOf(read) in Exec(Next(g, Work(w, Write(put, 0, 0))), others).store.shards
    ensures
      var id, g2 := IdOf(read), Exec(Next(g, Work(w, Write(put, 0, 0))), others);
      var g' := Next(g2, Work(w, Write(del, 0, 0)));
      (Orphaned(g', id) <==> !Terminal(g2.store.shards[id]) && (del != Lost || id !in g2.store.markers))
      && (others == [] ==> (Orphaned(g', id) <==> put == Lost && del != Lost))
  {
    hide Exec;
    var id, g1 := IdOf(read), Next(g, Work(w, Write(put, 0, 0)));
    PoisonWrite(g, w, read, todo, now, put);
    LocalStays(g1, others, w);
    ExecNone(g1);
    hide Next, Terminal;
    MarkersAfter(Exec(g1, others), Work(w, Write(del, 0, 0)));
    KeepsUnfinished(Exec(g1, others), Work(w, Write(del, 0, 0)), id);
  }

  lemma PoisonWrite(g: Global, w: string, read: Shard, todo: set<ShardId>, now: int, put: Io)
    requires LocalOf(g, w) == Poison(read, todo, now) && !Terminal(read)
    requires IdOf(read) in g.store.shards && g.store.shards[IdOf(read)] == read
    ensures
      var g1 := Next(g, Work(w, Write(put, 0, 0)));
      LocalOf(g1, w) == Drop(IdOf(read), todo, now) && g1.store.markers == g.store.markers
      && IdOf(read) in g1.store.shards && (Terminal(g1.store.shards[IdOf(read)]) <==> put != Lost)
  {
    hide RunStep, ItemStep;
  }

  /** Such a state is reachable: worker "a" claims and crashes, "b" gives the shard up, the write is lost. */
  lemma LostPoisonWriteOrphansShard()
    ensures
      var acts := ENQUEUE + ClaimActs("a", 0) + [Work("b", ListMarkers(5)), Work("b", GetShard(ID, true))]
                  + [Work("b", Write(Lost, 0, 0)), Work("b", Write(Good, 0, 0))];
      var g := Exec(Initial(1), acts);
      Orphaned(g, ID)
  {
    hide Exec, Next, ClaimActs, FreshShard, Slice, NumShards;
    var a := ClaimActs("a", 0);
    var look := [Work("b", ListMarkers(5)), Work("b", GetShard(ID, true))];
    var drop := [Work("b", Write(Lost, 0, 0)), Work("b", Write(Good, 0, 0))];
    var g0 := Exec(Initial(1), ENQUEUE);
    EnqueueOne(1);
    OneFresh();
    var unclaimed := FreshShard("job", SUB, 0);
    ExecConcat(Initial(1), ENQUEUE, a);
    ClaimShard(g0, unclaimed, "a", 0);
    var g1 := Exec(g0, a);
    var hers := Claimed(unclaimed, "a", 0, 1);
    ExecConcat(Initial(1), ENQUEUE + a, look);
    ExecTwo(g1, look[0], look[1]);
    var g2 := Exec(g1, look);
    FindsPoison(g1, hers, "b");
    ExecConcat(Initial(1), ENQUEUE + a + look, drop);
    ExecTwo(g2, drop[0], drop[1]);
    PoisonWrite(g2, "b", hers, {}, 5, Lost);
    ExecNone(Next(g2, drop[0]));
    PoisonOrphansIff(g2, "b", hers, {}, 5, Lost, [], Good);
  }

  lemma FindsPoison(g: Global, s: Shard, w: string)
    requires Ready(g, s) && LocalOf(g, w) == Idle && Claimable(s, 5) && s.attempts >= g.maxAttempts
    ensures
      var g' := Next(Next(g, Work(w, ListMarkers(5))), Work(w, GetShard(ID, true)));
      Ready(g', s) && LocalOf(g', w) == Poison(s, {}, 5)
  {
    var g1 := Next(g, Work(w, ListMarkers(5)));
    assert LocalOf(g1, w) == Scan({ID}, 5) && g1.store == g.store;
    assert {ID} - {ID} == {};
  }

  /**
   The late release after the marker is cleared: worker "b" finishes and clears, and then "a" reopens
   the shard, which no scan finds any more.
   */
  lemma LateReleaseOrphansClearedShard(max: nat)
    requires max >= 2
    ensures
      var acts := OvertakenActs() + [Work("b", Write(Good, 0, 0))];
      var g, g' := Exec(Initial(max), acts), Exec(Initial(max), acts + LateActs());
      TerminalAt(g, ID) && g.store.markers == {} && Orphaned(g', ID)
  {
    hide Exec, Next, OvertakenActs;
    var early, clear := OvertakenActs(), [Work("b", Write(Good, 0, 0))];
    OvertakenRun(max);
    var g := Exec(Initial(max), early);
    ExecSnoc(Initial(max), early, clear[0]);
    Clears(g);
    ExecConcat(Initial(max), early + clear, LateActs());
    LateRelease(Next(g, clear[0]));
  }

  lemma Clears(g: Global)
    requires Overtaken(g) && g.store.markers == {ID} && LocalOf(g, "b") == Clear(ID)
    ensures
      var g' := Next(g, Work("b", Write(Good, 0, 0)));
      Overtaken(g') && g'.store.markers == {}
  {
    hide ClaimStep, ItemStep;
    assert {ID} - {ID} == {};
  }

  /**
   The late release between a read and a delete: worker "c" reads the finished shard, "a" reopens it,
   and "c" deletes the marker it took for stale.
   */
  lemma LateReleaseBeforeDropOrphansShard(max: nat)
    requires max >= 2
    ensures
      var acts := OvertakenActs() + [Work("c", ListMarkers(7)), Work("c", GetShard(ID, true))] + LateActs();
      var g, g' := Exec(Initial(max), acts), Exec(Initial(max), acts + [Work("c", Write(Good, 0, 0))]);
      ID in g.store.markers && Orphaned(g', ID)
  {
    hide Exec, Next, OvertakenActs;
    var early, look := OvertakenActs(), [Work("c", ListMarkers(7)), Work("c", GetShard(ID, true))];
    var acts := early + look + LateActs();
    OvertakenRun(max);
    var g := Exec(Initial(max), early);
    ExecConcat(Initial(max), early, look);
    ExecTwo(g, look[0], look[1]);
    FindsFinished(g);
    var g1 := Exec(g, look);
    ExecConcat(Initial(max), early + look, LateActs());
    LateRelease(g1);
    ExecSnoc(Initial(max), acts, Work("c", Write(Good, 0, 0)));
    MarkersAfter(Exec(g1, LateActs()), Work("c", Write(Good, 0, 0)));
    KeepsUnfinished(Exec(g1, LateActs()), Work("c", Write(Good, 0, 0)), ID);
  }

  lemma FindsFinished(g: Global)
    requires Overtaken(g) && g.store.markers == {ID} && LocalOf(g, "c") == Idle
    ensures
      var g' := Next(Next(g, Work("c", ListMarkers(7))), Work("c", GetShard(ID, true)));
      Overtaken(g') && g'.store.markers == {ID} && LocalOf(g', "c").Drop? && LocalOf(g', "c").id == ID
  {
    hide Next;
    ListsMarkers(g, "c", 7);
    var g1 := Next(g, Work("c", ListMarkers(7)));
    OtherLeaves(g, Work("c", ListMarkers(7)), "a");
    LooksUp(g1, "c", {ID}, 7, ID, true);
    OtherLeaves(g1, Work("c", GetShard(ID, true)), "a");
  }
}
