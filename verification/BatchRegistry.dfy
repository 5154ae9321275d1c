/**
 The batch operations of crates/papermake-registry/src/registry/batch.rs and the drain loop of
 crates/papermake-worker/src/main.rs as they are written: loops over markers, items and shards,
 one storage operation at a time, with arbitrary storage failures and with other processes
 running before every operation. Each method is proved to follow the protocol machine step by
 step (`g` is the machine's state after `trace`), so everything proved about the machine holds
 of this code. What the code returns, what it leaves in storage and how often it loops is
 proved here.
 */
module BatchRegistry {
  import opened Prelude
  import opened Jobs
  import opened ShardProtocol
  import opened ShardInvariant
  import JobOutcome
  import opened ShardPublication
  import opened ShardLease
  import opened ShardWrites
  import opened ShardResume
  import opened JobItems
  import opened BatchSteps
  import opened Sorting

  class Registry {
    /** The storage, and beside it the other processes and the history that the machine keeps. */
    var g: Global
    /** The other processes' next actions, one batch before each storage operation. */
    const others: nat -> seq<Action>
    var clock: nat
    /** No other process runs; no storage operation fails; rendering and tags follow `world`. */
    const alone: bool
    const reliable: bool
    const steady: bool
    const world: World
    /** Descriptors whose bytes do not decode. */
    const unreadable: set<ShardId>
    ghost const origin: Global
    ghost var trace: seq<Action>

    ghost predicate Valid()
      reads this
    {
      g == Exec(origin, trace) && Inv(g) && (alone && steady ==> Matches(g, world))
    }

    function At(w: string): Local
      reads this
    {
      LocalOf(g, w)
    }

    constructor (g0: Global, others: nat -> seq<Action>, alone: bool, reliable: bool, steady: bool, world: World,
                 unreadable: set<ShardId>)
      requires Inv(g0) && (alone && steady ==> Matches(g0, world))
      ensures Valid() && g == g0 && origin == g0 && trace == []
      ensures this.others == others && this.alone == alone && this.reliable == reliable && this.steady == steady
      ensures this.world == world && this.unreadable == unreadable
    {
      this.g, this.clock := g0, 0;
      this.others, this.alone, this.reliable, this.steady := others, alone, reliable, steady;
      this.world, this.unreadable := world, unreadable;
      this.origin, this.trace := g0, [];
    }

    /** One action of the machine happens. */
    method Happen(a: Action)
      requires Valid() && (alone && steady ==> FollowsWorld(g, a, world))
      modifies this`g, this`trace
      ensures Valid() && g == Next(old(g), a) && trace == old(trace) + [a] && Later(old(trace), trace)
    {
      hide Inv, Matches, Next, FollowsWorld;
      NextOk(g, a);
      if alone && steady {
        NextMatches(g, a, world);
      }
      g := Next(g, a);
      trace := trace + [a];
      ExecSnoc(origin, old(trace), a);
    }

    /** Other processes run for a while; the actor does not. */
    method Interfere(who: Actor)
      requires Valid()
      modifies this
      ensures Valid() && Later(old(trace), trace)
      ensures who.Worker? ==> At(who.w) == old(At(who.w))
      ensures who.Client? ==> Enqueue(g, who.job) == old(Enqueue(g, who.job))
      ensures Grows(old(g.submitted), g.submitted) && Extends(old(g.ever), g.ever)
      ensures g.maxAttempts == old(g.maxAttempts)
      ensures alone ==> g == old(g)
    {
      hide Inv, Matches, Exec, Next, Later;
      LaterChains();
      if alone {
        return;
      }
      var acts := others(clock);
      clock := clock + 1;
      for i := 0 to |acts|
        invariant Valid() && Later(old(trace), trace) && g.maxAttempts == old(g.maxAttempts)
        invariant who.Worker? ==> At(who.w) == old(At(who.w))
        invariant who.Client? ==> Enqueue(g, who.job) == old(Enqueue(g, who.job))
        invariant Grows(old(g.submitted), g.submitted) && Extends(old(g.ever), g.ever)
      {
        if !Acts(acts[i], who) {
          OthersLeave(g, acts[i], who);
          JobOutcome.NextGrows(g, acts[i]);
          Happen(acts[i]);
        }
      }
    }

    /** Worker `w` moves on as the machine says. */
    method Do(w: string, step: Step)
      requires Valid() && !step.Compiled? && !step.Resolve?
      modifies this`g, this`trace
      ensures Valid() && Later(old(trace), trace)
      ensures
        var o := WorkerStep(old(g.store), w, old(At(w)), step, old(g.maxAttempts));
        At(w) == o.local && g.store == o.store && g.maxAttempts == old(g.maxAttempts) && g.submitted == old(g.submitted)
      ensures Extends(old(g.ever), g.ever) && old(g.everPdf) <= g.everPdf
    {
      hide Inv, Matches, Exec, WorkerStep, Later;
      LaterChains();
      Happen(Work(w, step));
    }

    // ----- storage operations of a worker -----

    /** `get` of a shard descriptor: an error and a missing key look alike. */
    method GetShardDoc(w: string, id: ShardId) returns (ok: bool, doc: Option<Shard>)
      requires Valid()
      modifies this
      ensures Valid() && Later(old(trace), trace) && At(w) == old(At(w)) && g.maxAttempts == old(g.maxAttempts)
      ensures alone ==> g == old(g)
      ensures reliable ==> ok
      ensures doc == if ok && id in g.store.shards then Some(g.store.shards[id]) else None
    {
      hide Inv, Matches, Exec, Later;
      LaterChains();
      Interfere(Worker(w));
      ok := AttemptRead(reliable);
      doc := if ok && id in g.store.shards then Some(g.store.shards[id]) else None;
    }

    /** `put_shard`: the descriptor written must be the one the machine writes here. */
    method PutShardDoc(w: string, shard: Shard, at: int, lease: int) returns (io: Io)
      requires Valid() && Written(w, At(w), Write(Good, at, lease)) == Some(shard)
      modifies this
      ensures Valid() && Later(old(trace), trace) && g.maxAttempts == old(g.maxAttempts)
      ensures Extends(old(g.ever), g.ever)
      ensures At(w) == AfterPut(w, old(At(w)), io, at, lease)
      ensures io != Lost ==> IdOf(shard) in g.store.shards && g.store.shards[IdOf(shard)] == shard
      ensures alone ==>
        g.store == Apply(io, old(g.store), PutShard(old(g.store), shard)) && g.submitted == old(g.submitted)
      ensures reliable ==> io == Good
    {
      hide Inv, Matches, Exec, WorkerStep, AfterPut, Later;
      LaterChains();
      Interfere(Worker(w));
      io := Attempt(reliable);
      WrittenStores(g.store, w, At(w), shard, io, at, lease, g.maxAttempts);
      Do(w, Write(io, at, lease));
    }

    /** `delete` of a pending marker; the caller ignores the outcome. */
    method DeleteMarkerDoc(w: string, id: ShardId)
      requires Valid() && (At(w).Drop? || At(w).Clear?) && At(w).id == id
      modifies this
      ensures Valid() && Later(old(trace), trace) && g.maxAttempts == old(g.maxAttempts)
      ensures Extends(old(g.ever), g.ever)
      ensures At(w) == if old(At(w)).Drop? then Scan(old(At(w)).todo, old(At(w)).now) else Idle
      ensures alone ==> exists io :: g.store == DeleteMarker(old(g.store), id, io) && (reliable ==> io == Good)
      ensures alone ==> g.submitted == old(g.submitted)
    {
      hide Inv, Matches, Exec, WorkerStep, Later;
      LaterChains();
      Interfere(Worker(w));
      var io := Attempt(reliable);
      MarkerDeletes(g.store, w, At(w), io, 0, g.maxAttempts);
      Do(w, Write(io, 0, 0));
    }

    // ----- claiming -----

    /** The markers, each of them once, in an order of the worker's own. */
    method SpreadMarkers() returns (order: seq<ShardId>)
      ensures forall id :: id in order <==> id in g.store.markers
      ensures Distinct(order)
    {
      var rest := g.store.markers;
      order := [];
      while rest != {}
        invariant forall id :: id in order || id in rest <==> id in g.store.markers
        invariant forall id :: id in order ==> id !in rest
        invariant Distinct(order)
        decreases rest
      {
        var id :| id in rest;
        order := order + [id];
        rest := rest - {id};
      }
    }

    /**
     One marker of the scan. `None` sends the caller on to the next marker. Only the shard of this
     marker is touched. A shard that is leased, or cannot be decoded, is left alone: only a failed read
     costs its marker. What is claimed was free.
     */
    method TryClaim(w: string, id: ShardId, ttl: nat, now: int) returns (r: Option<ClaimResult>)
      requires Valid() && At(w).Scan? && At(w).now == now && id in At(w).todo
      modifies this
      ensures Valid() && Later(old(trace), trace) && g.maxAttempts == old(g.maxAttempts)
      ensures r == None ==> At(w) == Scan(old(At(w)).todo - {id}, now)
      ensures r.Some? ==> r.value.Got? || r.value.ClaimFailed?
      ensures r.Some? ==> At(w) == if r.value.Got? then Prepare(r.value.shard, r.value.meta, r.value.inputs) else Idle
      ensures alone ==> TouchesOnly(old(g.store), g.store, id) && g.submitted == old(g.submitted)
      ensures alone && reliable && r == None && id in g.store.markers ==> MustWait(g.store, unreadable, id, now)
      ensures alone && reliable && HasDocuments(old(g.store), id) && r.Some? ==> r.value.Got?
      ensures alone && reliable ==> (r.Some? <==> CanClaim(old(g.store), id, unreadable, g.maxAttempts, now))
      ensures alone && reliable && r == None ==> PassedOver(old(g.store), g.store, id, unreadable, now)
      ensures alone && MustWait(old(g.store), unreadable, id, now) ==>
        r == None && g.store.shards == old(g.store).shards && (reliable ==> g.store == old(g.store))
      ensures alone && r.Some? && r.value.Got? ==>
        IdOf(r.value.shard) == id && id in g.store.shards && g.store.shards[id] == r.value.shard
        && IsFree(old(g.store), id, unreadable, now)
        && TakenBy(r.value.shard, old(g.store).shards[id], w, now + ttl)
        && r.value.shard.attempts <= g.maxAttempts
    {
      hide Inv, Matches, Exec, WorkerStep, Later;
      LaterChains();
      var got, doc := GetShardDoc(w, id);
      ghost var todo := At(w).todo;
      ScanLooksUp(g.store, w, todo, now, id, got, g.maxAttempts);
      if doc == None {
        Do(w, GetShard(id, got));
        DeleteMarkerDoc(w, id);
        return None;
      }
      if id in unreadable {
        Do(w, SkipShard(id));
        return None;
      }
      var shard := doc.value;
      StoredUnderKey(g, id);
      Do(w, GetShard(id, got));
      if Terminal(shard) {
        DeleteMarkerDoc(w, id);
        return None;
      }
      if !Claimable(shard, now) {
        return None;
      }
      if shard.attempts >= g.maxAttempts {
        GiveUp(w, shard, now);
        return None;
      }
      r := WriteClaim(w, shard, ttl, now);
    }

    /** The poison guard: a shard claimed too often is abandoned, errors or not. */
    method GiveUp(w: string, read: Shard, now: int)
      requires Valid() && At(w).Poison? && At(w).read == read && At(w).now == now
      modifies this
      ensures Valid() && Later(old(trace), trace) && g.maxAttempts == old(g.maxAttempts)
      ensures At(w) == Scan(old(At(w)).todo, now)
      ensures alone && IdOf(read) in old(g.store).shards && old(g.store).shards[IdOf(read)] == read ==>
        TouchesOnly(old(g.store), g.store, IdOf(read))
      ensures alone ==> g.submitted == old(g.submitted)
      ensures alone && reliable ==>
        var id := IdOf(read);
        id in g.store.shards && GivenUp(g.store.shards[id], read)
        && g.store == old(g.store).(shards := old(g.store).shards[id := g.store.shards[id]],
                                    markers := old(g.store).markers - {id})
    {
      hide Inv, Matches, Exec, WorkerStep, Later;
      LaterChains();
      var shard := read.(status := ShardStatus.Failed, owner := None, lease := None, updatedAt := now);
      var _ := PutShardDoc(w, shard, now, 0);
      DeleteMarkerDoc(w, IdOf(shard));
    }

    /** The optimistic claim. */
    method WriteClaim(w: string, read: Shard, ttl: nat, now: int) returns (r: Option<ClaimResult>)
      requires Valid() && At(w).Claim? && At(w).read == read && At(w).now == now
      modifies this
      ensures Valid() && Later(old(trace), trace) && g.maxAttempts == old(g.maxAttempts)
      ensures r == None ==> At(w) == Scan(old(At(w)).todo, now)
      ensures r.Some? ==> r.value.Got? || r.value.ClaimFailed?
      ensures r.Some? ==> At(w) == if r.value.Got? then Prepare(r.value.shard, r.value.meta, r.value.inputs) else Idle
      ensures alone && IdOf(read) in old(g.store).shards && old(g.store).shards[IdOf(read)] == read ==>
        TouchesOnly(old(g.store), g.store, IdOf(read)) && r.Some?
      ensures alone && reliable && HasDocuments(old(g.store), IdOf(read)) && r.Some? ==> r.value.Got?
      ensures alone ==> g.submitted == old(g.submitted)
      ensures alone && r.Some? && r.value.Got? ==>
        TakenBy(r.value.shard, read, w, now + ttl) && IdOf(r.value.shard) == IdOf(read)
        && IdOf(read) in g.store.shards && g.store.shards[IdOf(read)] == r.value.shard
    {
      hide Inv, Matches, Exec, WorkerStep, Later;
      LaterChains();
      var shard := read.(status := ShardStatus.Running, owner := Some(w), lease := Some(now + ttl),
                         attempts := read.attempts + 1, updatedAt := now);
      var io := PutShardDoc(w, shard, now, now + ttl);
      if io != Good {
        return Some(ClaimFailed);
      }
      r := ConfirmClaim(w, shard);
    }

    /** Read the claim back; if it still stands, load the job and the inputs. */
    method ConfirmClaim(w: string, shard: Shard) returns (r: Option<ClaimResult>)
      requires Valid() && At(w).Confirm? && At(w).shard == shard && shard.owner == Some(w)
      modifies this
      ensures Valid() && Later(old(trace), trace) && g.maxAttempts == old(g.maxAttempts)
      ensures r == None ==> At(w) == Scan(old(At(w)).todo, old(At(w)).now)
      ensures r.Some? ==> (r.value.Got? && r.value.shard == shard) || r.value.ClaimFailed?
      ensures r.Some? ==> At(w) == if r.value.Got? then Prepare(r.value.shard, r.value.meta, r.value.inputs) else Idle
      ensures alone ==> g.store == old(g.store) && g.submitted == old(g.submitted)
      ensures alone && IdOf(shard) in g.store.shards && g.store.shards[IdOf(shard)] == shard ==> r.Some?
      ensures alone && reliable && HasDocuments(g.store, IdOf(shard)) && r.Some? ==> r.value.Got?
    {
      hide Inv, Matches, Exec, WorkerStep, Later;
      LaterChains();
      ghost var todo, now := At(w).todo, At(w).now;
      var ok, current := GetShardDoc(w, IdOf(shard));
      var readable := ok && IdOf(shard) !in unreadable;
      ReadsBack(g.store, w, shard, todo, now, readable, g.maxAttempts);
      Do(w, Read(readable));
      if readable && current.Some? && current.value.owner != Some(w) {
        return None;
      }
      Interfere(Worker(w));
      var read := AttemptRead(reliable);
      var meta := if read && shard.jobId in g.store.jobs then Some(g.store.jobs[shard.jobId]) else None;
      FetchesJob(g.store, w, shard, read, g.maxAttempts);
      Do(w, Read(read));
      if meta == None {
        return Some(ClaimFailed);
      }
      Interfere(Worker(w));
      read := AttemptRead(reliable);
      var inputs := if read && IdOf(shard) in g.store.inputs then Some(g.store.inputs[IdOf(shard)]) else None;
      FetchesInputs(g.store, w, shard, meta.value, read, g.maxAttempts);
      Do(w, Read(read));
      if inputs == None {
        return Some(ClaimFailed);
      }
      return Some(Got(meta.value, shard, inputs.value));
    }

    /**
     `claim_next_shard`. Left alone it returns `NothingToClaim` only if every marker that remains
     has to wait, it fails only on a missing document, and a claim uses up one of the claims that
     were left.
     */
    method ClaimNextShard(w: string, ttl: nat, now: int) returns (r: ClaimResult)
      requires Valid() && At(w) == Idle
      modifies this
      ensures Valid() && Later(old(trace), trace) && g.maxAttempts == old(g.maxAttempts)
      ensures alone ==> SameDocuments(old(g.store), g.store)
      ensures At(w) == if r.Got? then Prepare(r.shard, r.meta, r.inputs) else Idle
      ensures alone && reliable && r == NothingToClaim ==>
        forall id :: id in g.store.markers ==> MustWait(g.store, unreadable, id, now)
      ensures alone && reliable && AllDocumented(old(g.store)) ==> !r.ClaimFailed?
      ensures alone ==> Progress(old(g.store), g.store) && g.submitted == old(g.submitted)
      ensures alone && r.Got? ==> Tokens(g.store, g.maxAttempts) < Tokens(old(g.store), g.maxAttempts)
      ensures alone && r.Got? ==> IdOf(r.shard) in g.store.shards && g.store.shards[IdOf(r.shard)] == r.shard
      ensures alone && r.Got? ==>
        IsFree(old(g.store), IdOf(r.shard), unreadable, now)
        && TakenBy(r.shard, old(g.store).shards[IdOf(r.shard)], w, now + ttl)
    {
      hide Inv, Matches, Exec, WorkerStep, Tokens, MustWait, Distinct, Later, PassedOver, Progress, Untouched,
        CanClaim, SameDocuments, AllDocumented, HasDocuments, TouchesOnly;
      LaterChains();
      Interfere(Worker(w));
      var listed := AttemptRead(reliable);
      ProgressStarts(g.store);
      if !listed {
        return ClaimFailed;
      }
      var order := SpreadMarkers();
      ghost var s0 := g.store;
      ScanStarts(g.store, w, now, g.maxAttempts);
      Do(w, ListMarkers(now));
      assert g.store.markers == Rest(order, 0);
      NothingTouched(s0, Rest(order, 0));
      for i := 0 to |order|
        invariant Valid() && Later(old(trace), trace) && g.maxAttempts == old(g.maxAttempts)
        invariant At(w) == Scan(Rest(order, i), now)
        invariant alone ==> Progress(s0, g.store) && g.submitted == old(g.submitted)
        invariant alone ==> SameDocuments(s0, g.store) && Untouched(s0, g.store, Rest(order, i))
        invariant alone && reliable ==>
          forall k :: 0 <= k < i && order[k] in g.store.markers ==> MustWait(g.store, unreadable, order[k], now)
      {
        ghost var before := g.store;
        RestStep(order, i);
        assert order[i] in order;
        if alone {
          DocumentedAt(s0, g.store, order[i]);
        }
        var next := TryClaim(w, order[i], ttl, now);
        if alone {
          TouchProgress(s0, before, g.store, order[i]);
          TouchLeaves(s0, before, g.store, order[i], Rest(order, i), unreadable, now);
        }
        if next.Some? {
          if alone && next.value.Got? {
            ClaimUsesToken(s0, g.store, order[i], g.maxAttempts);
          }
          return next.value;
        }
        if alone && reliable {
          forall k | 0 <= k <= i && order[k] in g.store.markers
            ensures MustWait(g.store, unreadable, order[k], now)
          {
            if k < i {
              OrderDistinct(order, k, i);
              OthersMustWait(before, g.store, unreadable, order[i], order[k], now);
            }
          }
        }
      }
      assert Rest(order, |order|) == {};
      ScanEnds(g.store, w, now, g.maxAttempts);
      Do(w, EndScan);
      if alone {
        NoNewMarkers(s0, g.store);
      }
      return NothingToClaim;
    }

    // ----- running a claimed shard -----

    /** Worker `w` learns the manifest its reference resolves to, or that there is none. */
    method DoResolve(w: string, manifest: Option<string>)
      requires Valid() && At(w).Prepare?
      requires alone && steady && manifest.Some? ==> manifest.value == world.manifest(At(w).shard.jobId)
      modifies this`g, this`trace
      ensures Valid() && Later(old(trace), trace)
      ensures
        var o := WorkerStep(old(g.store), w, old(At(w)), Resolve(manifest), old(g.maxAttempts));
        At(w) == o.local && g.store == o.store && g.maxAttempts == old(g.maxAttempts) && g.submitted == old(g.submitted)
        && g.ever.resolved == old(g.ever.resolved) + o.resolved
    {
      hide Inv, Matches, Exec, WorkerStep, Later;
      Happen(Work(w, Resolve(manifest)));
    }

    /** Worker `w` learns how the rendering of its item went. */
    method DoCompiled(w: string, success: bool)
      requires Valid() && At(w).Compile? && |At(w).run.items| < |At(w).run.inputs|
      requires alone && steady ==> success == world.renders(ItemId(At(w).run))
      modifies this`g, this`trace
      ensures Valid() && Later(old(trace), trace)
      ensures
        var o := WorkerStep(old(g.store), w, old(At(w)), Compiled(success), old(g.maxAttempts));
        At(w) == o.local && g.store == o.store && g.maxAttempts == old(g.maxAttempts) && g.submitted == old(g.submitted)
    {
      hide Inv, Matches, Exec, WorkerStep, Later;
      Happen(Work(w, Compiled(success)));
    }

    /** `prepare_batch`: resolve the reference and load the template; any part of it may fail. */
    method PrepareBatch(w: string, job: string) returns (manifest: Option<string>)
      requires Valid() && At(w).Prepare? && At(w).shard.jobId == job
      modifies this
      ensures Valid() && Later(old(trace), trace) && g.maxAttempts == old(g.maxAttempts)
      ensures reliable && steady ==> manifest == Some(world.manifest(job))
      ensures At(w) == AfterPrepare(old(At(w)), manifest)
      ensures manifest.Some? ==> (job, manifest.value) in g.ever.resolved
      ensures alone ==> g.store == old(g.store) && g.submitted == old(g.submitted)
    {
      hide Inv, Matches, Exec, WorkerStep, Later;
      LaterChains();
      Interfere(Worker(w));
      manifest := if steady then Some(world.manifest(job)) else None;
      if !steady {
        manifest := *;
      } else if !reliable {
        if * {
          manifest := None;
        }
      }
      Prepares(g.store, w, At(w), manifest, g.maxAttempts);
      DoResolve(w, manifest);
    }

    /** Write a shard back as pending, for anybody to claim. */
    method ReleaseShard(w: string, shard: Shard, now: int) returns (ok: bool)
      requires Valid() && At(w) == Release(Released(shard))
      modifies this
      ensures Valid() && Later(old(trace), trace) && g.maxAttempts == old(g.maxAttempts)
      ensures alone ==> SameDocuments(old(g.store), g.store)
      ensures At(w) == Idle
      ensures alone ==> g.submitted == old(g.submitted)
      ensures alone && Claims(old(g.store), shard) ==> Progress(old(g.store), g.store)
      ensures alone ==> g.store.markers == old(g.store).markers
      ensures alone && ok ==> g.store == PutShard(old(g.store), Released(shard).(updatedAt := now))
      ensures reliable ==> ok
    {
      hide Inv, Matches, Exec, WorkerStep, Later;
      LaterChains();
      var released := shard.(status := ShardStatus.Pending, owner := None, lease := None, updatedAt := now);
      var io := PutShardDoc(w, released, now, 0);
      ok := io == Good;
    }

    /** The resume probe of an item; an error counts as not rendered yet. */
    method AlreadySucceeded(w: string, id: RenderId, isResume: bool) returns (yes: bool)
      requires Valid()
      modifies this
      ensures Valid() && Later(old(trace), trace) && g.maxAttempts == old(g.maxAttempts) && At(w) == old(At(w))
      ensures alone ==> g == old(g)
      ensures yes ==> isResume && id in g.store.metas && g.store.metas[id]
      ensures reliable ==> (yes <==> isResume && id in g.store.metas && g.store.metas[id])
    {
      hide Inv, Matches, Exec, WorkerStep, Later;
      LaterChains();
      yes := false;
      if isResume {
        Interfere(Worker(w));
        var ok := AttemptRead(reliable);
        yes := ok && id in g.store.metas && g.store.metas[id];
      }
    }

    /** A put of one of an item's artifacts. */
    method PutArtifact(w: string) returns (io: Io)
      requires Valid() && WritesArtifact(At(w))
      modifies this
      ensures Valid() && Later(old(trace), trace) && g.maxAttempts == old(g.maxAttempts)
      ensures At(w) == AfterArtifact(old(At(w)), io)
      ensures alone ==> g.store == Apply(io, old(g.store), WithArtifact(old(g.store), old(At(w))))
      ensures alone ==> SameJobs(old(g.store), g.store) && g.submitted == old(g.submitted)
      ensures alone ==> OtherMetasStay(old(g.store), g.store, ItemId(old(At(w)).run))
      ensures reliable ==> io == Good
    {
      hide Inv, Matches, Exec, WorkerStep, Later, AfterArtifact, ItemId;
      LaterChains();
      Interfere(Worker(w));
      io := Attempt(reliable);
      ArtifactWrites(g.store, w, At(w), io, g.maxAttempts);
      Do(w, Write(io, 0, 0));
    }

    /**
     `render_one`: inputs, rendering, PDF, `meta.json`, analytics; the first error fails the item. A
     success was persisted, PDF first; left alone it is stored with its data, and without storage
     errors a failed rendering is stored as a failure.
     */
    method RenderOne(w: string, id: RenderId) returns (success: bool, ghost clean: bool)
      requires Valid() && At(w).PutData? && |At(w).run.items| < |At(w).run.inputs| && ItemId(At(w).run) == id
      modifies this
      ensures Valid() && Later(old(trace), trace) && g.maxAttempts == old(g.maxAttempts)
      ensures At(w) == ItemEnd(Counted(old(At(w)).run, success, clean))
      ensures success ==> id in g.ever.ok && id in g.everPdf
      ensures alone && success ==> RenderStored(g.store, id, true)
      ensures alone && reliable ==> RenderStored(g.store, id, success)
      ensures reliable && steady ==> success == world.renders(id)
      ensures alone ==> SameJobs(old(g.store), g.store) && g.submitted == old(g.submitted)
      ensures alone ==> OtherMetasStay(old(g.store), g.store, id)
      ensures reliable && old(At(w)).run.clean ==> clean
    {
      hide Inv, Matches, Exec, WorkerStep, Later, ItemId, Counted;
      LaterChains();
      var io := PutArtifact(w);
      if io != Good {
        return false, false;
      }
      var rendered: bool := *;
      rendered := if steady then world.renders(id) else rendered;
      CompileMoves(g.store, w, At(w).run, rendered, g.maxAttempts);
      DoCompiled(w, rendered);
      success, clean := PersistOutcome(w, id, rendered);
    }

    /** Store a rendering: the PDF if there is one, then `meta.json`, then the analytics record. */
    method PersistOutcome(w: string, id: RenderId, rendered: bool) returns (success: bool, ghost clean: bool)
      requires Valid() && (if rendered then At(w).PutPdf? else At(w).PutMeta? && !At(w).success)
      requires |At(w).run.items| < |At(w).run.inputs| && ItemId(At(w).run) == id
      modifies this
      ensures Valid() && Later(old(trace), trace) && g.maxAttempts == old(g.maxAttempts)
      ensures At(w) == ItemEnd(Counted(old(At(w)).run, success, clean))
      ensures success ==> rendered && id in g.ever.ok && id in g.everPdf
      ensures alone && success && id in old(g.store).datas ==> RenderStored(g.store, id, true)
      ensures alone && reliable && id in old(g.store).datas ==> RenderStored(g.store, id, rendered)
      ensures reliable ==> success == rendered
      ensures alone ==> SameJobs(old(g.store), g.store) && g.submitted == old(g.submitted)
      ensures alone ==> OtherMetasStay(old(g.store), g.store, id)
      ensures reliable && old(At(w)).run.clean ==> clean
    {
      hide Inv, Matches, Exec, WorkerStep, Later, ItemId, Counted;
      LaterChains();
      var io: Io;
      if rendered {
        io := PutArtifact(w);
        if io != Good {
          return false, false;
        }
      }
      io := PutArtifact(w);
      if io != Good {
        return false, false;
      }
      success, clean := StageRecord(w, id, rendered);
    }

    /** `store_render` of the analytics record. */
    method StageRecord(w: string, id: RenderId, rendered: bool) returns (success: bool, ghost clean: bool)
      requires Valid() && At(w).Stage? && At(w).success == rendered && |At(w).run.items| < |At(w).run.inputs|
      requires ItemId(At(w).run) == id
      modifies this
      ensures Valid() && Later(old(trace), trace) && g.maxAttempts == old(g.maxAttempts)
      ensures At(w) == ItemEnd(Counted(old(At(w)).run, success, clean))
      ensures success ==> rendered && id in g.ever.ok && id in g.everPdf
      ensures reliable ==> success == rendered
      ensures alone ==> g.store == old(g.store) && g.submitted == old(g.submitted)
      ensures reliable && old(At(w)).run.clean ==> clean
    {
      hide Inv, Matches, Exec, WorkerStep, Later, Counted, ItemId;
      LaterChains();
      if rendered {
        StagedWasStored(g, w);
      }
      var staged := AttemptRead(reliable);
      StageMoves(g.store, w, At(w).run, rendered, staged, g.maxAttempts);
      success, clean := rendered && staged, At(w).run.clean && staged;
      Do(w, Staged(staged));
    }

    /**
     `heartbeat_shard`. `seen` is what the read returned: nothing on an error, a missing descriptor or
     one that does not decode, and then the run goes on without a write. Another owner ends the run,
     without a write too. Otherwise the lease is renewed.
     */
    method HeartbeatShard(w: string, shard: Shard, ttl: nat, now: int)
      returns (mine: bool, renewed: Shard, ghost seen: Option<Shard>, ghost readAt: nat)
      requires Valid() && At(w).BeatRead? && At(w).run.shard == shard
      modifies this
      ensures Valid() && Later(old(trace), trace) && g.maxAttempts == old(g.maxAttempts)
      ensures At(w) == if mine then LoopHead(old(At(w)).run.(shard := renewed)) else Idle
      ensures mine <==> (seen.Some? ==> seen.value.owner == shard.owner)
      ensures renewed == if seen.Some? && mine then shard.(lease := Some(now + ttl), updatedAt := now) else shard
      ensures |old(trace)| <= readAt <= |trace|
      ensures seen.Some? ==>
        JobOutcome.StoredAt(StateAt(origin, trace, readAt), shard.jobId, seen.value) && seen.value.index == shard.index
      ensures alone && seen.Some? ==>
        IdOf(shard) in old(g.store).shards && old(g.store).shards[IdOf(shard)] == seen.value
      ensures alone && reliable && IdOf(shard) in old(g.store).shards && IdOf(shard) !in unreadable ==> seen.Some?
      ensures alone && !(seen.Some? && mine) ==> g.store == old(g.store)
      ensures alone && seen.Some? && mine ==>
        g.store == old(g.store) || g.store == PutShard(old(g.store), renewed)
      ensures alone && reliable && seen.Some? && mine ==> g.store == PutShard(old(g.store), renewed)
      ensures alone ==> g.submitted == old(g.submitted)
      ensures alone && Claims(old(g.store), shard) && !mine ==> old(g.store).shards[IdOf(shard)].owner != shard.owner
    {
      hide Inv, Matches, Exec, WorkerStep, Later, LoopHead;
      LaterChains();
      hide StateAt;
      ghost var run := At(w).run;
      var ok, current := GetShardDoc(w, IdOf(shard));
      ok := ok && IdOf(shard) !in unreadable;
      seen, readAt := if ok then current else None, |trace|;
      NowIs(origin, trace);
      ghost var t0 := trace;
      if current.Some? {
        StoredUnderKey(g, IdOf(shard));
      }
      BeatReads(g.store, w, run, ok, g.maxAttempts);
      Do(w, Read(ok));
      PastIsFixed(origin, t0, trace, readAt);
      LaterIsLonger(t0, trace);
      LaterIsLonger(old(trace), t0);
      renewed := shard;
      if ok && current.Some? {
        if current.value.owner != shard.owner {
          return false, shard, seen, readAt;
        }
        ghost var t1 := trace;
        renewed := shard.(lease := Some(now + ttl), updatedAt := now);
        var _ := PutShardDoc(w, renewed, now, now + ttl);
        PastIsFixed(origin, t1, trace, readAt);
        LaterIsLonger(t1, trace);
      }
      mine := true;
    }

    /** `put` of a shard's results document. */
    method PutResultsDoc(w: string, id: ShardId, items: seq<BatchItem>) returns (ok: bool)
      requires Valid() && At(w).PutResults? && IdOf(At(w).run.shard) == id && At(w).run.items == items
      modifies this
      ensures Valid() && Later(old(trace), trace) && g.maxAttempts == old(g.maxAttempts)
      ensures Extends(old(g.ever), g.ever)
      ensures alone ==> SameDocuments(old(g.store), g.store)
      ensures At(w) == if ok then PutDone(old(At(w)).run) else Idle
      ensures alone ==>
        g.submitted == old(g.submitted) && g.store.shards == old(g.store).shards
        && g.store.markers == old(g.store).markers && g.store.datas == old(g.store).datas
      ensures alone && ok ==> id in g.store.results && g.store.results[id] == items
      ensures reliable ==> ok
    {
      hide Inv, Matches, Exec, WorkerStep, Later;
      LaterChains();
      Interfere(Worker(w));
      var io := Attempt(reliable);
      ResultsWrite(g.store, w, At(w).run, io, g.maxAttempts);
      Do(w, Write(io, 0, 0));
      ok := io == Good;
    }

    /**
     Write the results, mark the shard done, drop its marker. Left alone and without storage
     errors the descriptor, the results and the marker are as a completed shard's should be.
     */
    method FinishShard(w: string, shard: Shard, items: seq<BatchItem>, done: nat, failed: nat, now: int)
      returns (r: RunOutcome)
      requires Valid() && At(w).PutResults?
      requires At(w).run.shard == shard && At(w).run.items == items && At(w).run.done == done
        && At(w).run.failed == failed
      modifies this
      ensures Valid() && Later(old(trace), trace) && g.maxAttempts == old(g.maxAttempts)
      ensures Extends(old(g.ever), g.ever)
      ensures alone ==> SameDocuments(old(g.store), g.store)
      ensures At(w) == Idle
      ensures r == RunOutcome.Completed || r == StorageFailed
      ensures reliable ==> r == RunOutcome.Completed
      ensures alone && r == StorageFailed ==> g.store.markers == old(g.store).markers
      ensures alone ==> g.submitted == old(g.submitted)
      ensures alone && Claims(old(g.store), shard) ==> Progress(old(g.store), g.store)
      ensures alone && r == RunOutcome.Completed ==>
        var id := IdOf(shard);
        id in g.store.results && g.store.results[id] == items && g.store.datas == old(g.store).datas
        && id in g.store.shards && g.store.shards[id].status == ShardStatus.Done
        && g.store.shards[id].done == done && g.store.shards[id].failed == failed
        && (reliable ==> id !in g.store.markers)
    {
      hide Inv, Matches, Exec, WorkerStep, Later;
      LaterChains();
      var stored := PutResultsDoc(w, IdOf(shard), items);
      if !stored {
        return StorageFailed;
      }
      var finished := shard.(done := done, failed := failed, status := ShardStatus.Done, owner := None, lease := None,
          updatedAt := now);
      var io := PutShardDoc(w, finished, now, 0);
      if io != Good {
        return StorageFailed;
      }
      DeleteMarkerDoc(w, IdOf(shard));
      return RunOutcome.Completed;
    }

    /**
     `run_claimed_shard`. A completed run that was left alone leaves a done descriptor whose counts
     are those of the stored results, and, if rendering and tags are steady, the very results that
     any other clean attempt stores. On a later attempt every input whose success was stored at the
     start is a success in these results, whatever rendering answers now; on a first attempt every
     input is rendered. Any other ending keeps the marker, and a shard that could not
     be prepared, or was stopped, is pending again with its attempts.
     */
    method RunClaimedShard(w: string, meta: BatchJob, claimed: Shard, inputs: seq<BatchInput>, ttl: nat)
      returns (r: RunOutcome, ghost version: string)
      requires Valid() && At(w) == Prepare(claimed, meta, inputs)
      modifies this
      ensures Valid() && Later(old(trace), trace) && g.maxAttempts == old(g.maxAttempts)
      ensures alone ==> SameDocuments(old(g.store), g.store)
      ensures alone && StillOwned(old(g.store), claimed) ==> r != Abandoned
      ensures reliable ==> r != StorageFailed && (steady ==> r != Unprepared)
      ensures At(w) == Idle
      ensures alone ==> g.submitted == old(g.submitted)
      ensures alone && Claims(old(g.store), claimed) ==> Progress(old(g.store), g.store)
      ensures alone && reliable && r == RunOutcome.Completed ==> IsCompleted(g.store, IdOf(claimed))
      ensures alone && reliable && steady && r == RunOutcome.Completed ==> HasExpectedResults(g, IdOf(claimed), world)
      ensures r == RunOutcome.Completed ==> (claimed.jobId, version) in g.ever.resolved
      ensures alone && reliable && r == RunOutcome.Completed ==>
        var id := IdOf(claimed);
        id in g.store.results && |g.store.results[id]| == |inputs|
        && Resumed(old(g.store), g.store, g.store.results[id], claimed.start, inputs, version, meta.opts,
                   claimed.attempts > 1)
      ensures alone && r != RunOutcome.Completed ==> g.store.markers == old(g.store).markers
      ensures alone && (r == Unprepared || r == Stopped) ==> IsReleased(old(g.store), g.store, claimed)
    {
      hide Inv, Matches, Exec, WorkerStep, Later, LoopHead, Counted, Expected, IsCompleted, HasExpectedResults,
        Resumed, SameDocuments, StillOwned, Progress, Claims;
      LaterChains();
      version := "";
      var manifest := PrepareBatch(w, claimed.jobId);
      if manifest == None {
        var now := Clock();
        var ok := ReleaseShard(w, claimed, now);
        return if ok then Unprepared else StorageFailed, "";
      }
      version := manifest.value;
      var shard, items, done, failed := claimed, [], 0, 0;
      var ended;
      ghost var clean;
      ended, shard, items, done, failed, clean := RunItems(w, meta, claimed, inputs, manifest.value, ttl);
      if ended.Some? {
        return ended.value, version;
      }
      ghost var ready := g;
      VersionResolved(g, w);
      var now := Clock();
      r := FinishShard(w, shard, items, done, failed, now);
      if alone {
        DocumentsChain(old(g.store), ready.store, g.store);
        if Claims(old(g.store), claimed) {
          ProgressChains(old(g.store), ready.store, g.store);
        }
      }
      if alone && reliable {
        ResumedStays(old(g.store), ready.store, g.store, items, claimed.start, inputs, version, meta.opts,
            claimed.attempts > 1);
        FinishedRun(ready, g, w, world, steady);
      }
    }

    /** The item loop of `run_claimed_shard`: to its end, or to the early exit it reports. */
    method RunItems(w: string, meta: BatchJob, claimed: Shard, inputs: seq<BatchInput>, manifest: string, ttl: nat)
      returns (ended: Option<RunOutcome>, shard: Shard, items: seq<BatchItem>, done: nat, failed: nat,
          ghost clean: bool)
      requires Valid() && At(w) == LoopHead(Run(claimed, meta, inputs, manifest, [], 0, 0, true))
      modifies this
      ensures Valid() && Later(old(trace), trace) && g.maxAttempts == old(g.maxAttempts)
      ensures alone ==> SameDocuments(old(g.store), g.store)
      ensures alone && StillOwned(old(g.store), claimed) ==> ended != Some(Abandoned)
      ensures reliable ==> ended != Some(StorageFailed)
      ensures ended.Some? ==>
        At(w) == Idle && (ended.value == Stopped || ended.value == Abandoned || ended.value == StorageFailed)
      ensures alone ==> g.store.markers == old(g.store).markers
      ensures alone && ended == Some(Stopped) ==> IsReleased(old(g.store), g.store, claimed)
      ensures ended == None ==>
        At(w) == PutResults(Run(shard, meta, inputs, manifest, items, done, failed, clean))
        && IdOf(shard) == IdOf(claimed) && (reliable ==> clean)
      ensures alone ==> g.submitted == old(g.submitted)
      ensures alone && Claims(old(g.store), claimed) ==>
        Progress(old(g.store), g.store) && (ended == None ==> Claims(g.store, shard))
      ensures alone && reliable && ended == None ==>
        |items| == |inputs|
        && Resumed(old(g.store), g.store, items, claimed.start, inputs, manifest, meta.opts, claimed.attempts > 1)
    {
      hide Inv, Matches, Exec, WorkerStep, Later, LoopHead, Counted, SameJobs, Progress, Claims, Resumed,
        KeepsRenders, OtherMetasStay,
        SameDocuments, StillOwned;
      LaterChains();
      ended, shard, items, done, failed, clean := None, claimed, [], 0, 0, true;
      var isResume := shard.attempts > 1;
      ghost var s0 := g.store;
      ProgressStarts(s0);
      NothingResumed(s0, inputs, claimed.start, manifest, meta.opts, isResume);
      for j := 0 to |inputs|
        invariant Valid() && Later(old(trace), trace) && g.maxAttempts == old(g.maxAttempts)
        invariant |items| == j
        invariant At(w) == LoopHead(Run(shard, meta, inputs, manifest, items, done, failed, clean))
        invariant IdOf(shard) == IdOf(claimed) && shard.attempts == claimed.attempts && shard.start == claimed.start
        invariant reliable ==> clean
        invariant alone ==> g.submitted == old(g.submitted)
        invariant alone && Claims(s0, claimed) ==> Progress(s0, g.store) && Claims(g.store, shard)
        invariant alone ==> g.store.markers == s0.markers && SameDocuments(s0, g.store)
        invariant alone && StillOwned(s0, claimed) ==> StillOwned(g.store, shard)
        invariant alone && reliable ==>
          Resumed(s0, g.store, items, claimed.start, inputs, manifest, meta.opts, isResume)
          && KeepsRenders(s0, g.store, isResume)
      {
        ghost var s1 := g.store;
        ghost var run := Run(shard, meta, inputs, manifest, items, done, failed, clean);
        assert At(w) == Item(run) by { HeadOfLoop(run); }
        var stop: bool := *;
        if stop {
          var r := StopShard(w, shard, done, failed);
          if alone {
            DocumentsChain(s0, s1, g.store);
          }
          if alone && Claims(s0, claimed) {
            ProgressChains(s0, s1, g.store);
          }
          ended := Some(r);
          return;
        }
        var id := RenderId(manifest, inputs[j].data, meta.opts);
        var success: bool;
        success, clean := RunItem(w, id, isResume);
        ghost var s2 := g.store;
        if alone {
          MarkersStay(s1, s2);
          DocumentsStay(s1, s2, shard);
          DocumentsChain(s0, s1, s2);
        }
        CountedAs(run, success, clean);
        if success {
          done := done + 1;
        } else {
          failed := failed + 1;
        }
        ghost var before := items;
        items := items + [BatchItem(shard.start + j, inputs[j].key, Some(id),
            if success then ItemStatus.Success else ItemStatus.Failed)];
        if alone && reliable {
          ResumeNext(s0, s1, s2, before, items[j], claimed.start, inputs, manifest, meta.opts, isResume);
        }
        var mine;
        ghost var was := shard;
        mine, shard := BeatIfDue(w, shard, done, failed, ttl);
        if alone {
          DocumentsChain(s0, s2, g.store);
        }
        if alone && Claims(s0, claimed) {
          ProgressThrough(s0, s1, s2, was);
          ProgressChains(s0, s2, g.store);
        }
        if alone && reliable {
          ResumeThrough(s0, s2, g.store, items, claimed.start, inputs, manifest, meta.opts, isResume);
        }
        if !mine {
          ended := Some(Abandoned);
          return;
        }
      }
      HeadOfLoop(Run(shard, meta, inputs, manifest, items, done, failed, clean));
    }

    /** A graceful shutdown: store the counts and release the shard. */
    method StopShard(w: string, shard: Shard, done: nat, failed: nat) returns (r: RunOutcome)
      requires Valid() && At(w).Item? && |At(w).run.items| < |At(w).run.inputs|
      requires At(w).run.shard == shard && At(w).run.done == done && At(w).run.failed == failed
      modifies this
      ensures Valid() && Later(old(trace), trace) && g.maxAttempts == old(g.maxAttempts)
      ensures alone ==> SameDocuments(old(g.store), g.store)
      ensures At(w) == Idle
      ensures r == Stopped || r == StorageFailed
      ensures reliable ==> r == Stopped
      ensures alone ==> g.submitted == old(g.submitted) && g.store.markers == old(g.store).markers
      ensures alone && Claims(old(g.store), shard) ==> Progress(old(g.store), g.store)
      ensures alone && r == Stopped ==>
        IsReleased(old(g.store), g.store, shard)
        && g.store.shards[IdOf(shard)].done == done && g.store.shards[IdOf(shard)].failed == failed
    {
      hide Inv, Matches, Exec, WorkerStep, Later;
      LaterChains();
      ItemStarts(g.store, w, At(w).run, true, false, g.maxAttempts);
      Do(w, Advance(true, false));
      var stopped := shard.(done := done, failed := failed);
      var now := Clock();
      var ok := ReleaseShard(w, stopped, now);
      return if ok then Stopped else StorageFailed;
    }

    /** Heartbeat with the current counts, if the interval has passed: a descriptor that is stored has them. */
    method BeatIfDue(w: string, shard: Shard, done: nat, failed: nat, ttl: nat) returns (mine: bool, renewed: Shard)
      requires Valid() && At(w).ItemEnd?
      requires At(w).run.shard == shard && At(w).run.done == done && At(w).run.failed == failed
      modifies this
      ensures Valid() && Later(old(trace), trace) && g.maxAttempts == old(g.maxAttempts)
      ensures alone ==> SameDocuments(old(g.store), g.store)
      ensures alone && StillOwned(old(g.store), shard) ==> mine && StillOwned(g.store, renewed)
      ensures At(w) == if mine then LoopHead(old(At(w)).run.(shard := renewed)) else Idle
      ensures IdOf(renewed) == IdOf(shard) && renewed.attempts == shard.attempts && renewed.start == shard.start
      ensures alone ==> g.submitted == old(g.submitted) && g.store.markers == old(g.store).markers
      ensures alone ==> g.store.metas == old(g.store).metas && g.store.datas == old(g.store).datas
      ensures alone && g.store != old(g.store) ==> HasBeaten(g.store, shard, done, failed)
      ensures renewed == shard || (renewed.done == done && renewed.failed == failed)
      ensures alone && Claims(old(g.store), shard) ==> Progress(old(g.store), g.store) && Claims(g.store, renewed)
    {
      hide Inv, Matches, Exec, WorkerStep, Later, LoopHead;
      LaterChains();
      ghost var run := At(w).run;
      var due: bool := *;
      ItemEnds(g.store, w, run, due, g.maxAttempts);
      Do(w, Tick(due));
      mine, renewed := true, shard;
      if due {
        renewed := shard.(done := done, failed := failed);
        var now := Clock();
        ghost var seen, readAt;
        ghost var s0, counted := g.store, renewed;
        mine, renewed, seen, readAt := HeartbeatShard(w, renewed, ttl, now);
        if alone {
          BeatFrame(s0, g.store, shard, counted, renewed);
        }
      }
    }

    /**
     One item. On a resume a success that is stored counts as one and nothing is rendered or written;
     everything else is rendered, also what is stored as a failure. A success was persisted.
     */
    method RunItem(w: string, id: RenderId, isResume: bool) returns (success: bool, ghost clean: bool)
      requires Valid() && At(w).Item? && |At(w).run.items| < |At(w).run.inputs| && ItemId(At(w).run) == id
      requires isResume ==> At(w).run.shard.attempts > 1
      modifies this
      ensures Valid() && Later(old(trace), trace) && g.maxAttempts == old(g.maxAttempts)
      ensures At(w) == ItemEnd(Counted(old(At(w)).run, success, clean))
      ensures success ==> id in g.ever.ok && id in g.everPdf
      ensures alone && success ==> id in g.store.metas && g.store.metas[id]
      ensures alone && reliable && isResume && Succeeded(old(g.store), id) ==> success && g.store == old(g.store)
      ensures alone && reliable && !(isResume && Succeeded(old(g.store), id)) ==> RenderStored(g.store, id, success)
      ensures alone ==> OtherMetasStay(old(g.store), g.store, id)
      ensures alone ==> SameJobs(old(g.store), g.store) && g.submitted == old(g.submitted)
      ensures reliable && old(At(w)).run.clean ==> clean
    {
      hide Inv, Matches, Exec, WorkerStep, Later, Counted, ItemId;
      LaterChains();
      var skip := AlreadySucceeded(w, id, isResume);
      if skip {
        MetaWasStored(g, id);
      }
      ItemStarts(g.store, w, At(w).run, false, skip, g.maxAttempts);
      Do(w, Advance(false, skip));
      if skip {
        success, clean := true, old(At(w)).run.clean;
      } else {
        success, clean := RenderOne(w, id);
      }
    }

    method Clock() returns (now: int) {
      now := *;
    }

    // ----- the worker's drain loop -----

    /**
     Claim and run shards until there is nothing to claim, a claim fails, or shutdown is observed.
     Left alone, the loop ends without any shutdown: it makes no more claims than the shards
     outstanding at its start have claims left. Without storage errors and missing documents it ends
     only when every marker that is left has to wait.
     */
    method Drain(w: string, ttl: nat, shutdownAfter: Option<nat>) returns (claims: nat, last: ClaimResult, now: int)
      requires Valid() && At(w) == Idle && (alone || shutdownAfter.Some?)
      modifies this
      ensures Valid() && Later(old(trace), trace) && At(w) == Idle
      ensures alone ==> claims + |Tokens(g.store, g.maxAttempts)| <= |Tokens(old(g.store), g.maxAttempts)|
      ensures shutdownAfter.Some? ==> claims <= shutdownAfter.value
      ensures alone && shutdownAfter == None ==> !last.Got?
      ensures alone && reliable && shutdownAfter == None && AllDocumented(old(g.store)) ==> last.NothingToClaim?
      ensures alone && reliable && last.NothingToClaim? ==>
        forall id :: id in g.store.markers ==> MustWait(g.store, unreadable, id, now)
    {
      hide Inv, Matches, Exec, WorkerStep, Later, Tokens, Progress, MustWait, AllDocumented, SameDocuments;
      LaterChains();
      claims, last, now := 0, ClaimFailed, 0;
      while shutdownAfter.Some? ==> claims < shutdownAfter.value
        invariant Valid() && Later(old(trace), trace) && At(w) == Idle && g.maxAttempts == old(g.maxAttempts)
        invariant shutdownAfter.Some? ==> claims <= shutdownAfter.value
        invariant alone ==> claims + |Tokens(g.store, g.maxAttempts)| <= |Tokens(old(g.store), g.maxAttempts)|
        invariant last.Got? || last.ClaimFailed?
        invariant alone && AllDocumented(old(g.store)) ==> AllDocumented(g.store)
        decreases if shutdownAfter.Some? then shutdownAfter.value - claims else |Tokens(g.store, g.maxAttempts)|
      {
        ghost var s0 := g.store;
        now := Clock();
        last := ClaimNextShard(w, ttl, now);
        ghost var s1 := g.store;
        if alone {
          ProgressShrinksTokens(s0, s1, g.maxAttempts);
          Cardinality(Tokens(s1, g.maxAttempts), Tokens(s0, g.maxAttempts));
          MarkersShrink(s0, s1);
        }
        if !last.Got? {
          break;
        }
        claims := claims + 1;
        assert alone ==> Claims(s1, last.shard);
        var _, _ := RunClaimedShard(w, last.meta, last.shard, last.inputs, ttl);
        if alone {
          ProgressShrinksTokens(s1, g.store, g.maxAttempts);
          Cardinality(Tokens(g.store, g.maxAttempts), Tokens(s1, g.maxAttempts));
          MarkersShrink(s1, g.store);
        }
      }
    }

    // ----- enqueuing -----

    /** One document of an enqueue: the one the machine writes next. */
    method PutDocument(job: string, sub: Submission, d: Doc, ghost s0: Store, ghost i: nat) returns (ok: bool)
      requires Valid() && ValidSubmission(sub) && i < NumDocs(sub) && Writing(g, job, sub, i) && d == DocAt(job, sub, i)
      requires alone ==> g.store == AllPuts(s0, job, sub, i)
      modifies this
      ensures Valid() && Later(old(trace), trace)
      ensures Submitted(g, job, sub) && (ok ==> Writing(g, job, sub, i + 1))
      ensures alone && ok ==> g.store == AllPuts(s0, job, sub, i + 1)
      ensures alone ==> PutSome(s0, g.store, job, sub)
      ensures reliable ==> ok
    {
      hide Inv, Matches, Exec, Later, DocAt, PutDoc, NumDocs;
      LaterChains();
      Interfere(Client(job));
      var io := Attempt(reliable);
      Happen(EnqueuePut(job, io));
      ok := io == Good;
      assert alone ==> g.store == AllPuts(s0, job, sub, i) || g.store == AllPuts(s0, job, sub, i + 1);
    }

    /** One shard's inputs and pending descriptor. */
    method PutShardDocs(job: string, sub: Submission, k: nat, ghost s0: Store) returns (ok: bool)
      requires Valid() && ValidSubmission(sub) && k < NumShards(sub) && Writing(g, job, sub, 2 * k)
      requires alone ==> g.store == AllPuts(s0, job, sub, 2 * k)
      modifies this
      ensures Valid() && Later(old(trace), trace)
      ensures Submitted(g, job, sub) && (ok ==> Writing(g, job, sub, 2 * (k + 1)))
      ensures alone && ok ==> g.store == AllPuts(s0, job, sub, 2 * (k + 1))
      ensures alone ==> PutSome(s0, g.store, job, sub)
      ensures reliable ==> ok
    {
      hide Inv, Matches, Exec, Later, DocAt, FreshShard, PutSome, AllPuts;
      LaterChains();
      ShardRange(sub, k);
      DocsOfShard(job, sub, k);
      var start := k * sub.size;
      var len := Min(|sub.inputs| - start, sub.size);
      ok := PutDocument(job, sub, InputsDoc((job, k), sub.inputs[start..start + len]), s0, 2 * k);
      if !ok {
        return;
      }
      var shard := Shard(job, k, start, len, ShardStatus.Pending, None, None, 0, 0, 0, sub.at);
      ok := PutDocument(job, sub, ShardDoc(shard), s0, 2 * k + 1);
    }

    /** Every shard's inputs and pending descriptor. */
    method PutShards(job: string, sub: Submission, ghost s0: Store) returns (ok: bool)
      requires Valid() && ValidSubmission(sub) && Writing(g, job, sub, 0) && g.store == s0
      modifies this
      ensures Valid() && Later(old(trace), trace)
      ensures Submitted(g, job, sub) && (ok ==> Writing(g, job, sub, 2 * NumShards(sub)))
      ensures alone && ok ==> g.store == AllPuts(s0, job, sub, 2 * NumShards(sub))
      ensures alone ==> PutSome(s0, g.store, job, sub)
      ensures reliable ==> ok
    {
      hide Inv, Matches, Exec, Later, DocAt, PutSome, AllPuts, NumShards;
      LaterChains();
      var numShards := NumShards(sub);
      AllPutsStart(s0, job, sub);
      for k := 0 to numShards
        invariant Valid() && Later(old(trace), trace)
        invariant Writing(g, job, sub, 2 * k)
        invariant alone ==> g.store == AllPuts(s0, job, sub, 2 * k) && PutSome(s0, g.store, job, sub)
      {
        ok := PutShardDocs(job, sub, k, s0);
        if !ok {
          return;
        }
      }
      ok := true;
    }

    /** The markers, once everything else is written. */
    method PutMarkers(job: string, sub: Submission, ghost s0: Store) returns (ok: bool)
      requires Valid() && ValidSubmission(sub) && Writing(g, job, sub, 2 * NumShards(sub) + 1)
      requires alone ==> g.store == AllPuts(s0, job, sub, 2 * NumShards(sub) + 1)
      modifies this
      ensures Valid() && Later(old(trace), trace)
      ensures Submitted(g, job, sub) && (ok ==> Writing(g, job, sub, NumDocs(sub)))
      ensures alone && ok ==> g.store == AllPuts(s0, job, sub, NumDocs(sub))
      ensures alone ==> PutSome(s0, g.store, job, sub)
      ensures reliable ==> ok
    {
      hide Inv, Matches, Exec, Later, DocAt, AllPuts;
      LaterChains();
      var numShards := NumShards(sub);
      for k := 0 to numShards
        invariant Valid() && Later(old(trace), trace)
        invariant Writing(g, job, sub, 2 * numShards + 1 + k)
        invariant alone ==> g.store == AllPuts(s0, job, sub, 2 * numShards + 1 + k)
      {
        MarkerOfShard(job, sub, k);
        ok := PutDocument(job, sub, MarkerDoc((job, k)), s0, 2 * numShards + 1 + k);
        if !ok {
          return;
        }
      }
      ok := true;
    }

    /**
     `enqueue_batch_job` under a fresh job id. Success means that every document of the submission
     was written; left alone, a prefix of exactly those documents was, in the order that publishes
     markers last.
     */
    method EnqueueBatchJob(
      job: string, reference: string, inputs: seq<BatchInput>, retainDays: Option<nat>, opts: string,
      batchShardSize: nat, now: int) returns (r: Option<BatchJob>)
      requires Valid() && job !in g.submitted && job !in g.open
      modifies this
      ensures Valid() && Later(old(trace), trace)
      ensures
        var sub := Submission(reference, inputs, retainDays, opts, Max(batchShardSize, 1), now);
        Submitted(g, job, sub)
        && (r.Some? ==> r.value == JobOf(job, sub) && Writing(g, job, sub, NumDocs(sub)))
        && (alone && r.Some? ==> g.store == AllPuts(old(g.store), job, sub, NumDocs(sub)))
        && (alone ==> PutSome(old(g.store), g.store, job, sub))
      ensures reliable ==> r.Some?
    {
      hide Inv, Matches, Exec, Later, DocAt, AllPuts, PutSome;
      LaterChains();
      var shardSize := Max(batchShardSize, 1);
      var sub := Submission(reference, inputs, retainDays, opts, shardSize, now);
      ghost var s0 := g.store;
      Happen(Submit(job, sub));
      var ok := PutShards(job, sub, s0);
      if !ok {
        return None;
      }
      var meta := BatchJob(job, reference, |inputs|, retainDays, opts, shardSize,
          (|inputs| + shardSize - 1) / shardSize, now);
      DocsOfJob(job, sub);
      ok := PutDocument(job, sub, JobDoc(meta), s0, 2 * NumShards(sub));
      if !ok {
        return None;
      }
      ok := PutMarkers(job, sub, s0);
      return if ok then Some(meta) else None;
    }

    // ----- reading a job -----

    /** `get_job_meta`. */
    method GetJobMeta(job: string) returns (meta: Option<BatchJob>)
      requires Valid()
      modifies this
      ensures Valid() && Later(old(trace), trace)
      ensures alone ==> g == old(g)
      ensures Grows(old(g.submitted), g.submitted) && Extends(old(g.ever), g.ever)
      ensures meta.Some? ==>
        job in g.submitted && ValidSubmission(g.submitted[job]) && meta.value == JobOf(job, g.submitted[job])
      ensures reliable && job in g.store.jobs ==> meta.Some?
    {
      hide Matches, Exec, Later, ShardOk, ResultOk, LocalOk;
      LaterChains();
      Interfere(Reader);
      var ok := AttemptRead(reliable);
      meta := if ok && job in g.store.jobs then Some(g.store.jobs[job]) else None;
    }

    /** `load_shard_results`: nothing until the shard completes; an error is passed on. */
    method LoadShardResults(job: string, k: nat) returns (r: Option<seq<BatchItem>>)
      requires Valid()
      requires job in g.submitted && ValidSubmission(g.submitted[job]) && k < NumShards(g.submitted[job])
      modifies this
      ensures Valid() && Later(old(trace), trace)
      ensures alone ==> g == old(g)
      ensures Grows(old(g.submitted), g.submitted)
      ensures r.Some? ==> r.value == [] || ResultRanged(r.value, old(g.submitted)[job], k)
      ensures r.Some? ==> r.value == ResultsOf(g.store, (job, k))
      ensures r.Some? ==> r.value == if (job, k) in g.store.results then g.store.results[(job, k)] else []
      ensures reliable ==> r.Some?
    {
      hide Inv, Matches, Exec, Later, ResultRanged;
      LaterChains();
      Interfere(Reader);
      var ok := AttemptRead(reliable);
      StoredRanged(g, job, k);
      r := if ok then Some(ResultsOf(g.store, (job, k))) else None;
    }

    /** Keep the items inside the window. */
    method Filter(items: seq<BatchItem>, lo: nat, hi: nat) returns (r: seq<BatchItem>)
      ensures r == Window(items, lo, hi)
    {
      r := [];
      for i := 0 to |items|
        invariant r == Window(items[..i], lo, hi)
      {
        assert items[..i + 1][..i] == items[..i];
        if lo <= items[i].index < hi {
          r := r + [items[i]];
        }
      }
      assert items[..|items|] == items;
    }

    /**
     `list_job_items`. Whatever runs meanwhile, a page ascends, stays inside its window and is the
     window of the results stored when each of its shards was read, after `at[i]` actions; left
     alone, it is exactly the page of the store.
     */
    method ListJobItems(job: string, offset: nat, limit: nat) returns (r: Option<seq<BatchItem>>, ghost at: seq<nat>)
      requires Valid()
      modifies this
      ensures Valid() && Later(old(trace), trace)
      ensures r.Some? ==> JobItems.Ascending(r.value) && Within(r.value, offset, offset + limit)
      ensures alone ==> g == old(g)
      ensures reliable && alone && job in g.store.jobs ==> r.Some?
      ensures r.Some? ==> job in g.submitted && ValidSubmission(g.submitted[job])
      ensures forall i :: 0 <= i < |at| ==> |old(trace)| <= at[i] <= |trace|
      ensures r.Some? ==>
        var sub := g.submitted[job];
        var end := PageEnd(|sub.inputs|, offset, limit);
        r.value == Window(SeenItems(origin, trace, job, offset / sub.size, at), offset, end)
        && (offset < end ==> |at| == (end - 1) / sub.size + 1 - offset / sub.size)
      ensures alone && r.Some? ==> r.value == PageAt(g.store, job, g.submitted[job], offset, limit)
    {
      hide SeenItems, StateAt;
      hide Inv, Matches, Exec, Later, ResultsRanged, ResultRanged, Page, ItemsOfShards, Window, JobItems.Ascending,
        Within, ResultsOf, NumShards, CoveredBefore, Collected, Sort;
      LaterChains();
      at := [];
      var meta := GetJobMeta(job);
      if meta == None {
        return None, [];
      }
      ghost var sub := g.submitted[job];
      StoreRanged(g, job);
      NothingSeen(origin, trace, job, offset / sub.size, offset, PageEnd(|sub.inputs|, offset, limit));
      if limit == 0 || offset >= meta.value.total {
        EmptyPage(g.store, job, sub, offset, limit);
        return Some([]), [];
      }
      var end := Min(SaturatingAdd(offset, limit), meta.value.total);
      if end <= offset {
        EmptyPage(g.store, job, sub, offset, limit);
        return Some([]), [];
      }
      var size := Max(meta.value.shardSize, 1);
      var k0, k1 := offset / size, (end - 1) / size;
      WindowShards(sub, offset, end);
      var out := [];
      NothingCollected(g.store, job, k0, offset, end);
      for k := k0 to k1 + 1
        invariant Valid() && Later(old(trace), trace) && (alone ==> g == old(g))
        invariant job in g.submitted && g.submitted[job] == sub
        invariant Collected(out, sub, k, offset, end)
        invariant alone ==> out == Window(ItemsOfShards(g.store, job, k0, k), offset, end)
        invariant |at| == k - k0 && forall i :: 0 <= i < |at| ==> |old(trace)| <= at[i] <= |trace|
        invariant out == Window(SeenItems(origin, trace, job, k0, at), offset, end)
      {
        ghost var t0 := trace;
        var loaded := LoadShardResults(job, k);
        LaterIsLonger(t0, trace);
        LaterIsLonger(old(trace), trace);
        if loaded == None {
          return None, at;
        }
        SeenNext(origin, t0, trace, job, k0, at, offset, end);
        at := at + [|trace|];
        var kept := Filter(loaded.value, offset, end);
        CollectedStep(out, loaded.value, sub, k, offset, end);
        if alone {
          CollectNext(g.store, job, k0, k, offset, end);
        }
        out := out + kept;
      }
      CollectedAscends(out, sub, k1 + 1, offset, end);
      ItemsAreOrdered();
      SortUnchanged(out, ItemLess);
      if alone {
        PageNeedsOnlyOverlap(g.store, job, sub, offset, end, k0, k1 + 1);
      }
      return Some(Sort(out, ItemLess)), at;
    }

    /** One descriptor of a listing, if it can be read and decoded. */
    method ReadListed(id: ShardId) returns (doc: Option<Shard>)
      requires Valid()
      modifies this
      ensures Valid() && Later(old(trace), trace)
      ensures alone ==> g == old(g)
      ensures Grows(old(g.submitted), g.submitted) && Extends(old(g.ever), g.ever)
      ensures doc.Some? ==> id in g.store.shards && g.store.shards[id] == doc.value
      ensures reliable && id in g.store.shards && id !in unreadable ==> doc.Some?
    {
      hide Inv, Matches, Exec, Later;
      Interfere(Reader);
      var ok := AttemptRead(reliable);
      doc := if ok && id in g.store.shards && id !in unreadable then Some(g.store.shards[id]) else None;
    }

    /**
     `list_job_shards`: unless the listing fails, the descriptors that can be read, by index, each as it
     was stored when it was read, after `seen[index]` actions. Left alone and without storage errors
     these are all that decode.
     */
    method ListJobShards(job: string) returns (r: Option<seq<Shard>>, ghost seen: map<nat, nat>)
      requires Valid()
      modifies this
      ensures Valid() && Later(old(trace), trace)
      ensures alone ==> g == old(g)
      ensures Grows(old(g.submitted), g.submitted) && Extends(old(g.ever), g.ever)
      ensures reliable ==> r.Some?
      ensures r.Some? ==>
        JobOutcome.Ascending(r.value) && Listed(origin, old(trace), trace, g, job, r.value, seen)
      ensures alone && reliable ==>
        forall id :: id in g.store.shards && id.0 == job && id !in unreadable ==> g.store.shards[id] in r.value
    {
      hide Inv, Matches, Exec, Later, Listed, AllRead;
      LaterChains();
      Interfere(Reader);
      var listing := AttemptRead(reliable);
      if !listing {
        return None, map[];
      }
      var keys := set id | id in g.store.shards && id.0 == job;
      ghost var listed := keys;
      var shards := [];
      seen := map[];
      NothingListed(origin, old(trace), trace, g, job, unreadable);
      assert listed - keys == {};
      while keys != {}
        invariant Valid() && Later(old(trace), trace) && (alone ==> g == old(g))
        invariant Grows(old(g.submitted), g.submitted) && Extends(old(g.ever), g.ever)
        invariant keys <= listed && forall id :: id in listed ==> id.0 == job
        invariant Apart(shards, ShardLess) && Listed(origin, old(trace), trace, g, job, shards, seen)
        invariant forall i :: 0 <= i < |shards| ==> (job, shards[i].index) !in keys
        invariant alone && reliable ==> AllRead(g.store, listed - keys, unreadable, shards)
        decreases keys
      {
        var id :| id in keys;
        ghost var rest := keys;
        keys := keys - {id};
        ghost var g0, t0, shards0 := g, trace, shards;
        var doc := ReadListed(id);
        StillListed(origin, old(trace), t0, trace, g0, g, job, shards, seen);
        if doc.Some? {
          ListedNext(origin, old(trace), trace, g, id, shards, seen);
          shards, seen := shards + [doc.value], seen[id.1 := |trace|];
        }
        if alone && reliable {
          ReadOne(g.store, listed, rest, id, unreadable, shards0, shards);
        }
      }
      assert listed - keys == listed;
      if alone && reliable {
        ReadAll(g.store, listed, unreadable, shards);
      }
      ShardsAreOrdered();
      SortAscends(shards, ShardLess);
      ListedSorted(origin, old(trace), trace, g, job, shards, Sort(shards, ShardLess), seen);
      return Some(Sort(shards, ShardLess)), seen;
    }

    /**
     `get_batch_job`: the aggregate of the descriptors that were read. A job reported as completed has
     had a success, and a PDF, persisted for every one of its inputs, rendered by a version that its
     reference resolved to, even if the descriptors changed while they were read.
     */
    method GetBatchJob(job: string) returns (r: Option<JobView>, ghost shards: seq<Shard>, ghost seen: map<nat, nat>)
      requires Valid()
      modifies this
      ensures Valid() && Later(old(trace), trace)
      ensures alone ==> g == old(g)
      ensures r.Some? ==> job in g.submitted && ValidSubmission(g.submitted[job])
      ensures r.Some? ==> r.value == Aggregate(JobOf(job, g.submitted[job]), shards) && JobOutcome.Ascending(shards)
      ensures r.Some? ==> ViewMeans(JobOf(job, g.submitted[job]), shards, r.value)
      ensures r.Some? ==> Listed(origin, old(trace), trace, g, job, shards, seen)
      ensures alone && reliable && job in g.store.jobs ==> r.Some?
      ensures r.Some? && alone && reliable ==>
        forall id :: id in g.store.shards && id.0 == job && id !in unreadable ==> g.store.shards[id] in shards
      ensures r.Some? && r.value.status == JobStatus.Completed ==>
        g.ever.ok <= g.everPdf &&
        forall i :: 0 <= i < |g.submitted[job].inputs| ==>
          Persisted(g.ever, job, g.submitted[job].inputs[i], g.submitted[job].opts)
    {
      hide Matches, Exec, Later, ShardOk, ResultOk, LocalOk, Persisted, JobOutcome.Ascending, Aggregate, StateAt,
        ViewMeans;
      LaterChains();
      shards, seen := [], map[];
      var meta := GetJobMeta(job);
      if meta == None {
        return None, [], map[];
      }
      var listed;
      ghost var t0 := trace;
      listed, seen := ListJobShards(job);
      if listed == None {
        return None, [], map[];
      }
      shards := listed.value;
      LaterIsLonger(old(trace), t0);
      r := Some(Aggregate(meta.value, listed.value));
      AggregateMeans(meta.value, listed.value);
      if r.value.status == JobStatus.Completed {
        CompletedJob(g.submitted, g.ever, job, shards);
      }
    }
  }
}
