/**
 What a worker writes, by the fields of the descriptors, and when it may get to write it: under any
 interleaving a claim or a poison write follows the read of a shard that was free then, a heartbeat
 stores the counts of its run, and a shard is marked done after its results were stored.
 */
module ShardWrites {
  import opened Prelude
  import opened Jobs
  import opened ShardProtocol
  import opened ShardInvariant
  import opened JobOutcome
  import opened ShardPublication
  import opened ShardLease

  // ----- leases are respected -----

  /** Leased to its owner at `now`: running, and the lease has not run out. */
  predicate Leased(s: Shard, now: int) {
    s.status == ShardStatus.Running && s.lease.Some? && now <= s.lease.value
  }

  /** The descriptor at hand was free at `now`, below the limit for a claim and at it for giving up. */
  predicate ReadFree(l: Local, max: nat) {
    (l.Claim? || l.Poison? ==>
       (l.read.status == ShardStatus.Pending || l.read.status == ShardStatus.Running) && !Leased(l.read, l.now))
    && (l.Claim? ==> l.read.attempts < max)
    && (l.Poison? ==> l.read.attempts >= max)
  }

  /** A descriptor that is leased sends the worker on to the next marker. */
  lemma LeasedIsPassedOver(s: Store, w: string, todo: set<ShardId>, now: int, id: ShardId, max: nat)
    requires id in todo && id in s.shards && Leased(s.shards[id], now)
    ensures WorkerStep(s, w, Scan(todo, now), GetShard(id, true), max) == Stay(s, Scan(todo - {id}, now))
  {
  }

  /** One that is free is claimed, or given up after too many claims. */
  lemma FreeIsTaken(s: Store, w: string, todo: set<ShardId>, now: int, id: ShardId, max: nat)
    requires id in todo && id in s.shards && !Leased(s.shards[id], now)
    ensures
      var shard := s.shards[id];
      var o := WorkerStep(s, w, Scan(todo, now), GetShard(id, true), max);
      o.store == s
      && (shard.status == ShardStatus.Pending || shard.status == ShardStatus.Running ==>
            o.local == if shard.attempts < max then Claim(shard, todo - {id}, now)
                       else Poison(shard, todo - {id}, now))
      && (shard.status == ShardStatus.Done || shard.status == ShardStatus.Failed ==>
            o.local == Drop(id, todo - {id}, now))
  {
  }

  /** A worker gets to a claim, or to giving up, only by reading a free descriptor. */
  lemma ClaimsWhatItRead(s: Store, w: string, l: Local, step: Step, max: nat)
    requires forall id :: id in s.shards ==> IdOf(s.shards[id]) == id
    ensures
      var l' := WorkerStep(s, w, l, step, max).local;
      l'.Claim? || l'.Poison? ==>
        l' == l || (ReadFree(l', max) && IdOf(l'.read) in s.shards && s.shards[IdOf(l'.read)] == l'.read)
  {
    hide ItemStep, RunStep, ReadFree, LookUp;
    if Rendering(l) {
      ItemStepFrame(s, l, step);
      HeldInItem(s, l, step);
      NoClaimInItem(s, l, step);
    } else if !Claiming(l) {
      NoClaimInRun(s, l, step);
    } else if l.Scan? && step.GetShard? {
      LookUpReadsFree(s, w, step.id, max, l.todo - {step.id}, l.now, step.ok);
    }
  }

  lemma LookUpReadsFree(s: Store, w: string, id: ShardId, max: nat, todo: set<ShardId>, now: int, ok: bool)
    requires id in s.shards ==> IdOf(s.shards[id]) == id
    ensures
      var l := LookUp(s, w, id, max, todo, now, ok);
      l.Claim? || l.Poison? ==> ReadFree(l, max) && IdOf(l.read) in s.shards && s.shards[IdOf(l.read)] == l.read
  {
  }

  lemma NoClaimInItem(s: Store, l: Local, step: Step)
    requires Rendering(l)
    ensures !ItemStep(s, l, step).local.Claim? && !ItemStep(s, l, step).local.Poison?
  {
    hide ItemId, Counted;
  }

  lemma NoClaimInRun(s: Store, l: Local, step: Step)
    requires !Rendering(l) && !Claiming(l)
    ensures !RunStep(s, l, step).local.Claim? && !RunStep(s, l, step).local.Poison?
  {
  }

  /** The descriptor a worker is about to overwrite was free when it was read, and stored after `t` actions. */
  ghost predicate WasFree(g0: Global, acts: seq<Action>, l: Local, t: nat) {
    t <= |acts| && ReadFree(l, g0.maxAttempts)
    && (l.Claim? || l.Poison? ==> StoredAt(Exec(g0, acts[..t]), l.read.jobId, l.read))
  }

  /** Under any interleaving, only a shard that was read as free is claimed or given up. */
  lemma {:induction false} ClaimsOnlyFree(max: nat, acts: seq<Action>, w: string) returns (t: nat)
    ensures WasFree(Initial(max), acts, LocalOf(Exec(Initial(max), acts), w), t)
    ensures Exec(Initial(max), acts).maxAttempts == max
  {
    if acts == [] {
      t := 0;
    } else {
      var n := |acts| - 1;
      var past, a := acts[..n], acts[n];
      var g := Exec(Initial(max), past);
      t := ClaimsOnlyFree(max, past, w);
      assert past[..t] == acts[..t];
      assert acts[..n] == past;
      hide Next, Inv;
      LimitStays(g, a);
      if a.Work? && a.w == w {
        InitialOk(max);
        ExecOk(Initial(max), past);
        StoredUnderIds(g);
        OwnMove(g, w, a.step);
        ClaimsWhatItRead(g.store, w, LocalOf(g, w), a.step, max);
        var l' := LocalOf(Next(g, a), w);
        if (l'.Claim? || l'.Poison?) && l' != LocalOf(g, w) {
          t := n;
        }
      } else {
        OtherMove(g, w, a);
      }
    }
  }

  lemma LimitStays(g: Global, a: Action)
    ensures Next(g, a).maxAttempts == g.maxAttempts
  {
    hide WorkerStep, DocAt;
  }

  lemma OwnMove(g: Global, w: string, step: Step)
    ensures LocalOf(Next(g, Work(w, step)), w) == WorkerStep(g.store, w, LocalOf(g, w), step, g.maxAttempts).local
  {
    hide WorkerStep;
  }

  lemma OtherMove(g: Global, w: string, a: Action)
    requires !(a.Work? && a.w == w)
    ensures LocalOf(Next(g, a), w) == LocalOf(g, w)
  {
    hide WorkerStep, DocAt;
  }

  lemma StoredUnderIds(g: Global)
    requires Inv(g)
    ensures forall id :: id in g.store.shards ==> IdOf(g.store.shards[id]) == id
  {
  }

  // ----- descriptors by their fields -----

  /** The same items of the same job. */
  predicate SameRange(a: Shard, b: Shard) {
    a.jobId == b.jobId && a.index == b.index && a.start == b.start && a.len == b.len
  }

  /** Taken by `w` from the descriptor `read`: one claim more, the counts as they were. */
  predicate TakenBy(s: Shard, read: Shard, w: string, lease: int) {
    SameRange(s, read) && s.status == ShardStatus.Running && s.owner == Some(w) && s.lease == Some(lease)
    && s.attempts == read.attempts + 1 && s.done == read.done && s.failed == read.failed
  }

  /** Given up: nobody's, with the attempts and counts it had. */
  predicate GivenUp(s: Shard, read: Shard) {
    SameRange(s, read) && s.status == ShardStatus.Failed && s.owner == None && s.lease == None
    && s.attempts == read.attempts && s.done == read.done && s.failed == read.failed
  }

  /** The number of items that failed. */
  function CountFailed(items: seq<BatchItem>): nat {
    if items == [] then 0
    else CountFailed(items[..|items| - 1]) + if items[|items| - 1].status == ItemStatus.Failed then 1 else 0
  }

  /** The counts are those of the items. */
  predicate CountsItems(s: Shard, items: seq<BatchItem>) {
    s.done == CountSuccess(items) && s.failed == CountFailed(items)
  }

  lemma {:induction false} SettledItemsSplit(items: seq<BatchItem>)
    requires forall j :: 0 <= j < |items| ==> items[j].status != ItemStatus.Pending
    ensures CountSuccess(items) + CountFailed(items) == |items|
  {
    if items != [] {
      SettledItemsSplit(items[..|items| - 1]);
    }
  }

  /** A run has counted its items. */
  lemma RunCountsItems(subs: Subs, ever: Ever, w: string, run: Run)
    requires RunOk(subs, ever, w, run)
    ensures run.done == CountSuccess(run.items) && run.failed == CountFailed(run.items)
  {
    forall j | 0 <= j < |run.items|
      ensures run.items[j].status != ItemStatus.Pending
    {
      assert ItemOk(run.items[j], run.shard.start, run.inputs, run.meta.opts, run.manifest, ever, j);
    }
    SettledItemsSplit(run.items);
  }

  /** What the descriptor writes of a worker store, by the point it has reached. */
  predicate WritesByFields(s: Shard, w: string, l: Local, at: int, lease: int)
    requires l.Poison? || l.Claim? || l.Release? || l.BeatWrite? || l.PutDone?
  {
    match l
    case Poison(read, _, _) => GivenUp(s, read)
    case Claim(read, _, _) => TakenBy(s, read, w, lease)
    case Release(shard) => SameRange(s, shard) && s.status == ShardStatus.Pending && s.owner == None && s.lease == None
    case BeatWrite(run) =>
      SameRange(s, run.shard) && s.status == ShardStatus.Running && s.owner == Some(w) && s.lease == Some(lease)
      && s.attempts == run.shard.attempts && s.updatedAt == at && CountsItems(s, run.items)
    case PutDone(run) =>
      SameRange(s, run.shard) && s.status == ShardStatus.Done && s.owner == None && s.lease == None
      && s.attempts == run.shard.attempts && s.updatedAt == at && CountsItems(s, run.items)
  }

  /** A descriptor write that reaches storage stores such a descriptor. */
  lemma StoresByFields(g: Global, w: string, io: Io, at: int, lease: int)
    requires Inv(g) && io != Lost
    requires var l := LocalOf(g, w); l.Poison? || l.Claim? || l.Release? || l.BeatWrite? || l.PutDone?
    ensures
      var l := LocalOf(g, w);
      var id := Focus(l).value;
      var s' := Next(g, Work(w, Write(io, at, lease))).store;
      id in s'.shards && WritesByFields(s'.shards[id], w, l, at, lease)
      && forall other :: other != id ==>
        (other in s'.shards <==> other in g.store.shards)
        && (other in s'.shards ==> s'.shards[other] == g.store.shards[other])
  {
    hide StoreOk, ItemsOk, CountPersisted, Loaded, Next;
    var l := LocalOf(g, w);
    assert LocalOk(g.submitted, g.ever, g.everPdf, w, l);
    if l.BeatWrite? || l.PutDone? {
      RunCountsItems(g.submitted, g.ever, w, l.run);
    }
    StoredEffect(g, Work(w, Write(io, at, lease)));
  }

  // ----- results before the descriptor -----

  /** Past the write of its results. */
  predicate LocalFiled(s: Store, l: Local) {
    l.PutDone? ==> IdOf(l.run.shard) in s.results
  }

  /** Every done shard has its results. */
  ghost predicate Filed(g: Global) {
    (forall id :: id in g.store.shards && g.store.shards[id].status == ShardStatus.Done ==> id in g.store.results)
    && forall w :: w in g.workers ==> LocalFiled(g.store, g.workers[w])
  }

  lemma ResultsGrow(s: Store, w: string, l: Local, step: Step, max: nat)
    ensures
      var o := WorkerStep(s, w, l, step, max);
      s.results.Keys <= o.store.results.Keys && (o.local == l || LocalFiled(o.store, o.local))
  {
    hide ItemStep, ClaimStep, RunStep;
    if Rendering(l) {
      ItemsAreNotFiled(s, l, step);
    } else if Claiming(l) {
      ClaimsAreNotFiled(s, w, l, step, max);
    } else {
      RunFiles(s, l, step);
    }
  }

  lemma ClaimsAreNotFiled(s: Store, w: string, l: Local, step: Step, max: nat)
    requires Claiming(l)
    ensures ClaimStep(s, w, l, step, max).store.results == s.results
    ensures !ClaimStep(s, w, l, step, max).local.PutDone?
  {
    hide LookUp;
    if l.Scan? && step.GetShard? {
      LookUpFiles(s, w, step.id, max, l.todo - {step.id}, l.now, step.ok);
    }
  }

  lemma RunFiles(s: Store, l: Local, step: Step)
    requires !Rendering(l) && !Claiming(l)
    ensures
      var o := RunStep(s, l, step);
      s.results.Keys <= o.store.results.Keys && (o.local == l || LocalFiled(o.store, o.local))
  {
    hide WriteBeat, AfterItem, CheckOwner;
    if l.BeatWrite? && step.Write? {
      BeatFiles(s, l.run, step.io, step.at, step.lease);
    } else if l.ItemEnd? || l.BeatRead? {
      BeatReadFiles(s, l, step);
    }
  }

  lemma LookUpFiles(s: Store, w: string, id: ShardId, max: nat, todo: set<ShardId>, now: int, ok: bool)
    ensures !LookUp(s, w, id, max, todo, now, ok).PutDone?
  {
  }

  lemma BeatFiles(s: Store, run: Run, io: Io, at: int, lease: int)
    ensures WriteBeat(s, run, io, at, lease).store.results == s.results
    ensures !WriteBeat(s, run, io, at, lease).local.PutDone?
  {
  }

  lemma BeatReadFiles(s: Store, l: Local, step: Step)
    requires l.ItemEnd? || l.BeatRead?
    ensures RunStep(s, l, step).store == s && !RunStep(s, l, step).local.PutDone?
  {
  }

  lemma ItemsAreNotFiled(s: Store, l: Local, step: Step)
    requires Rendering(l)
    ensures ItemStep(s, l, step).store.results == s.results && !ItemStep(s, l, step).local.PutDone?
  {
    hide ItemId, Counted;
  }

  /** Only the last write of a run makes a shard done. */
  lemma OnlyPutDoneFinishes(g: Global, a: Action)
    requires Inv(g) && Stored(g, a).Some? && Stored(g, a).value.status == ShardStatus.Done
    ensures a.Work? && LocalOf(g, a.w).PutDone? && Stored(g, a).value.index == LocalOf(g, a.w).run.shard.index
    ensures IdOf(Stored(g, a).value) == IdOf(LocalOf(g, a.w).run.shard)
  {
    hide StoreOk, ItemsOk, CountPersisted, Loaded;
    if a.Work? {
      assert LocalOk(g.submitted, g.ever, g.everPdf, a.w, LocalOf(g, a.w));
    }
  }

  lemma NextFiled(g: Global, a: Action)
    requires Inv(g) && Filed(g) && !a.PruneJobs?
    ensures Filed(Next(g, a))
  {
    hide Inv, Next, LocalFiled, Stored;
    var g' := Next(g, a);
    StoredEffect(g, a);
    ResultsStay(g, a);
    forall w | w in g'.workers
      ensures LocalFiled(g'.store, g'.workers[w])
    {
      FiledAfter(g, a, w);
    }
    forall id | id in g'.store.shards && g'.store.shards[id].status == ShardStatus.Done
      ensures id in g'.store.results
    {
      if Stored(g, a).Some? && id == IdOf(Stored(g, a).value) {
        OnlyPutDoneFinishes(g, a);
        FiledNow(g, a.w);
      }
    }
  }

  lemma ResultsStay(g: Global, a: Action)
    requires !a.PruneJobs?
    ensures g.store.results.Keys <= Next(g, a).store.results.Keys
  {
    if a.Work? {
      ResultsGrow(g.store, a.w, LocalOf(g, a.w), a.step, g.maxAttempts);
      hide WorkerStep;
    } else {
      hide DocAt;
    }
  }

  lemma FiledNow(g: Global, w: string)
    requires Filed(g)
    ensures LocalFiled(g.store, LocalOf(g, w))
    ensures LocalOf(g, w).PutDone? ==> IdOf(LocalOf(g, w).run.shard) in g.store.results
  {
  }

  lemma FiledAfter(g: Global, a: Action, w: string)
    requires Filed(g) && !a.PruneJobs? && w in Next(g, a).workers
    ensures LocalFiled(Next(g, a).store, LocalOf(Next(g, a), w))
  {
    FiledNow(g, w);
    ResultsStay(g, a);
    if a.Work? && a.w == w {
      OwnMove(g, w, a.step);
      ResultsGrow(g.store, w, LocalOf(g, w), a.step, g.maxAttempts);
      SameStore(g, w, a.step);
    } else {
      OtherMove(g, w, a);
    }
    hide Next, WorkerStep;
  }

  lemma SameStore(g: Global, w: string, step: Step)
    ensures Next(g, Work(w, step)).store == WorkerStep(g.store, w, LocalOf(g, w), step, g.maxAttempts).store
  {
    hide WorkerStep;
  }

  lemma {:induction false} ExecFiled(max: nat, acts: seq<Action>)
    requires NoJobPruning(acts)
    ensures Filed(Exec(Initial(max), acts))
  {
    if acts != [] {
      var n := |acts| - 1;
      ExecFiled(max, acts[..n]);
      InitialOk(max);
      ExecOk(Initial(max), acts[..n]);
      NextFiled(Exec(Initial(max), acts[..n]), acts[n]);
    }
  }

  /** While jobs are not pruned, whoever reads a shard as done finds one result for each of its items. */
  lemma DoneHasResults(max: nat, acts: seq<Action>, id: ShardId)
    requires NoJobPruning(acts)
    requires
      var s := Exec(Initial(max), acts).store;
      id in s.shards && s.shards[id].status == ShardStatus.Done
    ensures
      var s := Exec(Initial(max), acts).store;
      id in s.results && |s.results[id]| == s.shards[id].len
  {
    ExecFiled(max, acts);
    StoredShardsAreSane(max, acts, id);
    StoredResultsAreComplete(max, acts, id);
  }
}
