/**
 What lease discipline adds. As long as a claim overwrites the very descriptor it read and a run
 writes only while storage still names its worker, terminal shards stay as they are, attempts
 count claims, and no unfinished shard loses its marker. Without the discipline the first of
 these fails, and a lost poison write breaks the last: module LeaseFailures shows both runs.
 */
module ShardLease {
  import opened Prelude
  import opened Jobs
  import opened ShardProtocol
  import opened ShardInvariant
  import opened JobOutcome
  import opened ShardPublication

  /** The descriptor that this step of worker `w` stores, if it stores one. */
  function Written(w: string, l: Local, step: Step): Option<Shard> {
    if !step.Write? || step.io == Lost then None
    else
      match l
      case Poison(read, _, now) => Some(Poisoned(read, now))
      case Claim(read, _, now) => Some(Claimed(read, w, now, step.lease))
      case Release(shard) => Some(shard.(updatedAt := step.at))
      case BeatWrite(run) => Some(run.shard.(lease := Some(step.lease), updatedAt := step.at))
      case PutDone(run) => Some(Finished(run, step.at))
      case _ => None
  }

  lemma WrittenEffect(s: Store, w: string, l: Local, step: Step, max: nat)
    ensures
      var o := WorkerStep(s, w, l, step, max);
      o.store.shards == match Written(w, l, step)
                        case None => s.shards
                        case Some(shard) => s.shards[IdOf(shard) := shard]
  {
    if Rendering(l) {
      ItemStepFrame(s, l, step);
      hide ItemStep;
    }
  }

  /**
   A claim, or a poison write, overwrites the very descriptor it read; a run writes only while
   storage still names its worker; jobs are not pruned.
   */
  predicate Disciplined(g: Global, a: Action) {
    match a
    case Work(w, step) =>
      var l := LocalOf(g, w);
      if Written(w, l, step) == None then true
      else if l.Poison? || l.Claim? then IdOf(l.read) in g.store.shards && g.store.shards[IdOf(l.read)] == l.read
      else
        var id := IdOf(Written(w, l, step).value);
        id in g.store.shards && g.store.shards[id].owner == Some(w)
    case PruneJobs(_, _, _, _, _) => false
    case _ => true
  }

  ghost predicate DisciplinedRun(g: Global, acts: seq<Action>) {
    forall i :: 0 <= i < |acts| ==> Disciplined(Exec(g, acts[..i]), acts[i])
  }

  /** This action is a claim of shard `id` that reached storage. */
  predicate IsClaim(g: Global, a: Action, id: ShardId) {
    a.Work? && LocalOf(g, a.w).Claim? && a.step.Write? && a.step.io != Lost && IdOf(LocalOf(g, a.w).read) == id
  }

  /** The descriptor of the shard a worker has claimed. */
  function Held(l: Local): Option<Shard> {
    match l
    case Confirm(shard, _, _) => Some(shard)
    case FetchJob(shard) => Some(shard)
    case FetchInputs(shard, _) => Some(shard)
    case Prepare(shard, _, _) => Some(shard)
    case Release(shard) => Some(shard)
    case Idle => None
    case Scan(_, _) => None
    case Drop(_, _, _) => None
    case Poison(_, _, _) => None
    case Claim(_, _, _) => None
    case Clear(_) => None
    case _ => Some(l.run.shard)
  }

  /** A worker that storage names as the owner knows the stored number of attempts. */
  predicate LocalHolds(s: Store, max: nat, w: string, l: Local) {
    (l.Claim? ==> l.read.attempts < max)
    && (Held(l).Some? && IdOf(Held(l).value) in s.shards && s.shards[IdOf(Held(l).value)].owner == Some(w)
        ==> s.shards[IdOf(Held(l).value)].attempts == Held(l).value.attempts)
  }

  ghost predicate Leases(g: Global) {
    Inv(g) && Publication(g)
    && (forall id :: id in g.store.shards ==> g.store.shards[id].attempts <= g.maxAttempts)
    && (forall w :: w in g.workers ==> LocalHolds(g.store, g.maxAttempts, w, g.workers[w]))
  }

  lemma HeldStays(s: Store, w: string, l: Local, step: Step, max: nat)
    requires Written(w, l, step) == None || !l.Claim?
    requires l.Claim? ==> l.read.attempts < max
    ensures HoldsOn(l, WorkerStep(s, w, l, step, max).local, max)
  {
    hide ItemStep, ClaimStep, RunStep, Written;
    if Rendering(l) {
      HeldInItem(s, l, step);
    } else if step != Crash {
      if Claiming(l) {
        HeldInClaim(s, w, l, step, max);
      } else {
        HeldInRun(s, l, step);
      }
    }
  }

  /** The worker still holds what it held, and is about to claim only below the limit. */
  predicate HoldsOn(l: Local, l': Local, max: nat) {
    (Held(l').Some? ==>
       Held(l).Some? && IdOf(Held(l').value) == IdOf(Held(l).value)
       && Held(l').value.attempts == Held(l).value.attempts)
    && (l'.Claim? ==> l'.read.attempts < max)
  }

  lemma HeldInClaim(s: Store, w: string, l: Local, step: Step, max: nat)
    requires Claiming(l) && (l.Claim? ==> l.read.attempts < max)
    requires Written(w, l, step) == None || !l.Claim?
    ensures HoldsOn(l, ClaimStep(s, w, l, step, max).local, max)
  {
  }

  lemma HeldInRun(s: Store, l: Local, step: Step)
    requires !Claiming(l) && !Rendering(l)
    ensures HoldsOn(l, RunStep(s, l, step).local, 0)
  {
  }

  lemma HeldInItem(s: Store, l: Local, step: Step)
    requires Rendering(l)
    ensures
      var l' := ItemStep(s, l, step).local;
      !l'.Claim? && Held(l').Some? && IdOf(Held(l').value) == IdOf(l.run.shard)
      && Held(l').value.attempts == l.run.shard.attempts
  {
  }

  /** What a disciplined write may do to the descriptor it overwrites. */
  lemma WriteRespects(g: Global, w: string, step: Step)
    requires Leases(g) && Disciplined(g, Work(w, step)) && Written(w, LocalOf(g, w), step).Some?
    ensures
      var l := LocalOf(g, w);
      var shard := Written(w, l, step).value;
      var id := IdOf(shard);
      id in g.store.shards && !Terminal(g.store.shards[id])
      && shard.attempts == g.store.shards[id].attempts + (if l.Claim? then 1 else 0)
      && shard.attempts <= g.maxAttempts
      && (shard.owner.Some? ==> shard.owner == Some(w))
  {
    var l := LocalOf(g, w);
    assert LocalOk(g.submitted, g.ever, g.everPdf, w, l) && LocalHolds(g.store, g.maxAttempts, w, l);
    var id := IdOf(Written(w, l, step).value);
    assert ShardOk(g.submitted, g.ever, g.store.shards[id]);
  }

  /** The descriptor that this action stores, if it stores one. */
  function Stored(g: Global, a: Action): Option<Shard> {
    match a
    case Work(w, step) => Written(w, LocalOf(g, w), step)
    case EnqueuePut(job, io) =>
      if io == Lost || job !in g.open || !Enqueuing(g, job) then None
      else if DocAt(job, g.submitted[job], g.progress[job]).ShardDoc? then
        Some(DocAt(job, g.submitted[job], g.progress[job]).shard)
      else None
    case _ => None
  }

  lemma StoredEffect(g: Global, a: Action)
    requires !a.PruneJobs?
    ensures Next(g, a).maxAttempts == g.maxAttempts
    ensures Next(g, a).store.shards == match Stored(g, a)
                                       case None => g.store.shards
                                       case Some(shard) => g.store.shards[IdOf(shard) := shard]
  {
    if a.Work? {
      WrittenEffect(g.store, a.w, LocalOf(g, a.w), a.step, g.maxAttempts);
      hide WorkerStep;
    } else if a.EnqueuePut? {
      hide DocAt;
    }
  }

  /** The descriptor an enqueue writes is new, unowned and unclaimed. */
  lemma FreshDocument(g: Global, job: string)
    requires Publication(g) && Enqueuing(g, job)
    ensures
      var d := DocAt(job, g.submitted[job], g.progress[job]);
      d.ShardDoc? ==> IdOf(d.shard) !in g.store.shards && d.shard.owner == None && d.shard.attempts == 0
  {
    var p := g.progress[job];
    if p < 2 * NumShards(g.submitted[job]) {
      assert EnqueueOk(g, (job, p / 2));
    }
  }

  /** A disciplined action stores a fresh descriptor, or overwrites one that is not terminal. */
  lemma StoredRespects(g: Global, a: Action)
    requires Leases(g) && Disciplined(g, a) && Stored(g, a).Some?
    ensures
      var shard := Stored(g, a).value;
      var id := IdOf(shard);
      if id in g.store.shards then
        !Terminal(g.store.shards[id]) && shard.attempts <= g.maxAttempts
        && shard.attempts == g.store.shards[id].attempts + (if IsClaim(g, a, id) then 1 else 0)
      else !IsClaim(g, a, id) && shard.attempts == 0 && shard.owner == None
    ensures a.Work? ==> IdOf(Stored(g, a).value) in g.store.shards
    ensures forall id :: id != IdOf(Stored(g, a).value) ==> !IsClaim(g, a, id)
  {
    if a.Work? {
      WriteRespects(g, a.w, a.step);
    } else {
      FreshDocument(g, a.job);
    }
    hide Leases, DocAt;
  }

  lemma NoWriteNoClaim(g: Global, a: Action, id: ShardId)
    requires Stored(g, a) == None
    ensures !IsClaim(g, a, id)
  {
  }

  /** What every disciplined action does to each stored descriptor. */
  ghost predicate KeepsDiscipline(g: Global, a: Action) {
    var g' := Next(g, a);
    forall id :: id in g.store.shards ==>
      id in g'.store.shards
      && (Terminal(g.store.shards[id]) ==> g'.store.shards[id] == g.store.shards[id])
      && g'.store.shards[id].attempts == g.store.shards[id].attempts + (if IsClaim(g, a, id) then 1 else 0)
      && g'.store.shards[id].attempts <= g'.maxAttempts
  }

  lemma NoPruning(g: Global, a: Action)
    requires Disciplined(g, a)
    ensures !a.PruneJobs?
  {
  }

  lemma Keeps(g: Global, a: Action)
    requires Leases(g) && Disciplined(g, a)
    ensures KeepsDiscipline(g, a)
    ensures forall id :: id in Next(g, a).store.shards && id !in g.store.shards ==>
      Next(g, a).store.shards[id].attempts == 0
    ensures forall id :: id !in g.store.shards ==> !IsClaim(g, a, id)
  {
    hide Inv, Publication, Next, Stored, IsClaim, Disciplined, LocalHolds;
    NoPruning(g, a);
    StoredEffect(g, a);
    if Stored(g, a).Some? {
      StoredRespects(g, a);
    } else {
      forall id: ShardId
        ensures !IsClaim(g, a, id)
      {
        NoWriteNoClaim(g, a, id);
      }
    }
  }

  /** Nobody else's knowledge of the attempts is invalidated. */
  lemma OthersHold(g: Global, a: Action, v: string, l: Local)
    requires Leases(g) && Disciplined(g, a) && LocalHolds(g.store, g.maxAttempts, v, l)
    requires a.Work? ==> v != a.w
    ensures LocalHolds(Next(g, a).store, g.maxAttempts, v, l)
  {
    hide Inv, Publication, Next, Stored, IsClaim, Disciplined;
    NoPruning(g, a);
    StoredEffect(g, a);
    if Stored(g, a).Some? {
      StoredRespects(g, a);
      StoredOwner(g, a);
    }
  }

  lemma StoredOwner(g: Global, a: Action)
    requires Leases(g) && Disciplined(g, a) && Stored(g, a).Some?
    ensures
      var owner := Stored(g, a).value.owner;
      owner.Some? ==> a.Work? && owner == Some(a.w)
  {
    if a.Work? {
      WriteRespects(g, a.w, a.step);
    } else {
      FreshDocument(g, a.job);
    }
  }

  lemma OwnHolds(g: Global, w: string, step: Step)
    requires Leases(g) && Disciplined(g, Work(w, step))
    ensures LocalHolds(Next(g, Work(w, step)).store, g.maxAttempts, w, LocalOf(Next(g, Work(w, step)), w))
  {
    var l := LocalOf(g, w);
    assert LocalHolds(g.store, g.maxAttempts, w, l);
    if l.Claim? && step.Write? && step.io != Lost {
      hide Inv, Publication, Disciplined, LocalHolds;
      ClaimHolds(g.store, w, l, step, g.maxAttempts);
    } else {
      OtherStepsHold(g, w, step);
    }
  }

  /** A claim that reached storage is what its worker holds. */
  lemma ClaimHolds(s: Store, w: string, l: Local, step: Step, max: nat)
    requires l.Claim? && step.Write? && step.io != Lost
    ensures LocalHolds(WorkerStep(s, w, l, step, max).store, max, w, WorkerStep(s, w, l, step, max).local)
  {
  }

  lemma OtherStepsHold(g: Global, w: string, step: Step)
    requires Leases(g) && Disciplined(g, Work(w, step)) && LocalHolds(g.store, g.maxAttempts, w, LocalOf(g, w))
    requires !(LocalOf(g, w).Claim? && step.Write? && step.io != Lost)
    ensures
      var o := WorkerStep(g.store, w, LocalOf(g, w), step, g.maxAttempts);
      LocalHolds(o.store, g.maxAttempts, w, o.local)
  {
    var l := LocalOf(g, w);
    NoClaimWrite(w, l, step);
    hide Inv, Publication, Disciplined, WorkerStep, Written;
    WrittenEffect(g.store, w, l, step, g.maxAttempts);
    if Written(w, l, step).Some? {
      WriteRespects(g, w, step);
      if Held(l).Some? {
        WriterOwns(g, w, step);
      }
    }
    HeldStays(g.store, w, l, step, g.maxAttempts);
  }

  /** A run that writes a descriptor is named by storage. */
  lemma WriterOwns(g: Global, w: string, step: Step)
    requires Disciplined(g, Work(w, step)) && Written(w, LocalOf(g, w), step).Some? && Held(LocalOf(g, w)).Some?
    ensures
      var id := IdOf(Written(w, LocalOf(g, w), step).value);
      id == IdOf(Held(LocalOf(g, w)).value) && id in g.store.shards && g.store.shards[id].owner == Some(w)
  {
  }

  lemma NoClaimWrite(w: string, l: Local, step: Step)
    ensures l.Claim? && !(step.Write? && step.io != Lost) ==> Written(w, l, step) == None
  {
  }

  lemma NextLeases(g: Global, a: Action)
    requires Leases(g) && Disciplined(g, a)
    ensures KeepsDiscipline(g, a) && Leases(Next(g, a))
  {
    hide Inv, Publication, LocalHolds, Next, IsClaim, Disciplined, Stored;
    var g' := Next(g, a);
    NoPruning(g, a);
    NextOk(g, a);
    NextPublication(g, a);
    Keeps(g, a);
    StoredEffect(g, a);
    assert forall id :: id in g'.store.shards ==> g'.store.shards[id].attempts <= g'.maxAttempts;
    forall v | v in g'.workers
      ensures LocalHolds(g'.store, g'.maxAttempts, v, g'.workers[v])
    {
      if a.Work? && v == a.w {
        OwnHolds(g, a.w, a.step);
      } else {
        WorkersAfter(g, a, v);
        OthersHold(g, a, v, g.workers[v]);
      }
    }
  }

  lemma WorkersAfter(g: Global, a: Action, v: string)
    requires v in Next(g, a).workers && !(a.Work? && v == a.w)
    ensures v in g.workers && Next(g, a).workers[v] == g.workers[v]
  {
  }

  lemma {:induction false} ExecLeases(g: Global, acts: seq<Action>)
    requires Leases(g) && DisciplinedRun(g, acts)
    ensures Leases(Exec(g, acts))
  {
    hide Leases, DisciplinedRun, Disciplined, Next, KeepsDiscipline;
    if acts != [] {
      var n := |acts| - 1;
      LastStep(g, acts);
      ExecLeases(g, acts[..n]);
      NextLeases(Exec(g, acts[..n]), acts[n]);
    }
  }

  /** The last action of a disciplined run, and the run before it. */
  lemma LastStep(g: Global, acts: seq<Action>)
    requires DisciplinedRun(g, acts) && acts != []
    ensures
      var n := |acts| - 1;
      DisciplinedRun(g, acts[..n]) && Disciplined(Exec(g, acts[..n]), acts[n])
      && Exec(g, acts) == Next(Exec(g, acts[..n]), acts[n])
  {
    hide Disciplined, Next;
    DisciplinedPrefix(g, acts, |acts| - 1);
  }

  lemma DisciplinedPrefix(g: Global, acts: seq<Action>, n: nat)
    requires DisciplinedRun(g, acts) && n <= |acts|
    ensures DisciplinedRun(g, acts[..n])
  {
    hide Disciplined, Exec;
    forall i | 0 <= i < n
      ensures Disciplined(Exec(g, acts[..n][..i]), acts[..n][i])
    {
      assert acts[..n][..i] == acts[..i];
    }
  }

  lemma InitialLeases(max: nat)
    ensures Leases(Initial(max))
  {
  }

  function CountClaims(g: Global, acts: seq<Action>, id: ShardId): nat {
    if acts == [] then 0
    else
      var n := |acts| - 1;
      CountClaims(g, acts[..n], id) + if IsClaim(Exec(g, acts[..n]), acts[n], id) then 1 else 0
  }

  /** In a disciplined run the stored attempts are exactly the claims made, and never exceed the limit. */
  lemma {:induction false} AttemptsCountClaims(max: nat, acts: seq<Action>, id: ShardId)
    requires DisciplinedRun(Initial(max), acts)
    ensures
      var g := Exec(Initial(max), acts);
      if id in g.store.shards
      then g.store.shards[id].attempts == CountClaims(Initial(max), acts, id) <= max
      else CountClaims(Initial(max), acts, id) == 0
  {
    hide Leases, DisciplinedRun, Disciplined, IsClaim, Next;
    if acts != [] {
      var n := |acts| - 1;
      LastStep(Initial(max), acts);
      AttemptsCountClaims(max, acts[..n], id);
      InitialLeases(max);
      ExecLeases(Initial(max), acts[..n]);
      MaxIsFixed(max, acts);
      Keeps(Exec(Initial(max), acts[..n]), acts[n]);
    }
  }

  lemma {:induction false} MaxIsFixed(max: nat, acts: seq<Action>)
    ensures Exec(Initial(max), acts).maxAttempts == max
  {
    if acts != [] {
      MaxIsFixed(max, acts[..|acts| - 1]);
    }
  }

  /** In a disciplined run a done or abandoned shard never changes again. */
  lemma {:induction false} TerminalForever(max: nat, acts: seq<Action>, i: nat, id: ShardId)
    requires DisciplinedRun(Initial(max), acts) && i <= |acts|
    requires
      var past := Exec(Initial(max), acts[..i]);
      id in past.store.shards && Terminal(past.store.shards[id])
    ensures
      var past, g := Exec(Initial(max), acts[..i]), Exec(Initial(max), acts);
      id in g.store.shards && g.store.shards[id] == past.store.shards[id]
  {
    hide Leases, DisciplinedRun, Disciplined, Next, Exec, Terminal;
    if i == |acts| {
      assert acts[..i] == acts;
    } else {
      var n := |acts| - 1;
      LastStep(Initial(max), acts);
      assert acts[..n][..i] == acts[..i];
      TerminalForever(max, acts[..n], i, id);
      InitialLeases(max);
      ExecLeases(Initial(max), acts[..n]);
      TerminalStays(Exec(Initial(max), acts[..n]), acts[n], id);
    }
  }

  lemma TerminalStays(g: Global, a: Action, id: ShardId)
    requires Leases(g) && Disciplined(g, a) && id in g.store.shards && Terminal(g.store.shards[id])
    ensures id in Next(g, a).store.shards && Next(g, a).store.shards[id] == g.store.shards[id]
  {
    hide Leases, Disciplined, IsClaim, Next;
    Keeps(g, a);
  }

  // ----- marker liveness -----

  /** Reads of stored descriptors succeed and poison writes reach storage. */
  predicate MarkerSafe(g: Global, a: Action) {
    a.Work? ==>
      (a.step.GetShard? && a.step.id in g.store.shards ==> a.step.ok)
      && (LocalOf(g, a.w).Poison? && a.step.Write? ==> a.step.io != Lost)
  }

  ghost predicate MarkerSafeRun(g: Global, acts: seq<Action>) {
    forall i :: 0 <= i < |acts| ==> MarkerSafe(Exec(g, acts[..i]), acts[i])
  }

  /** Enqueue has written this shard's marker. */
  predicate Announced(g: Global, id: ShardId) {
    KnownShard(g.submitted, id) && id.0 in g.progress
    && 2 * NumShards(g.submitted[id.0]) + 1 + id.1 < g.progress[id.0]
  }

  /** An announced shard that is not terminal has its marker. */
  predicate MarkerKept(g: Global, id: ShardId) {
    Announced(g, id) && id in g.store.shards && !Terminal(g.store.shards[id]) ==> id in g.store.markers
  }

  /** A worker about to delete a marker does so for a terminal shard. */
  predicate DropsTerminal(s: Store, l: Local) {
    (l.Drop? && l.id in s.shards ==> Terminal(s.shards[l.id]))
    && (l.Clear? && l.id in s.shards ==> Terminal(s.shards[l.id]))
  }

  ghost predicate MarkersKept(g: Global) {
    (forall id :: id in g.store.shards ==> MarkerKept(g, id))
    && (forall w :: w in g.workers ==> DropsTerminal(g.store, g.workers[w]))
  }

  /** Markers disappear only for terminal shards, and the worker still drops only such markers. */
  predicate Drops(s: Store, o: Outcome) {
    DropsTerminal(o.store, o.local)
    && forall id :: id in s.markers && id !in o.store.markers ==> id in s.shards ==> Terminal(s.shards[id])
  }

  lemma ClaimDrops(s: Store, w: string, l: Local, step: Step, max: nat)
    requires Claiming(l) && DropsTerminal(s, l)
    requires step.GetShard? && step.id in s.shards ==> step.ok
    requires l.Poison? && step.Write? ==> step.io != Lost
    ensures Drops(s, ClaimStep(s, w, l, step, max))
  {
  }

  lemma RunDrops(s: Store, l: Local, step: Step)
    requires !Claiming(l) && !Rendering(l) && DropsTerminal(s, l)
    ensures Drops(s, RunStep(s, l, step))
  {
  }

  lemma ItemDrops(s: Store, l: Local, step: Step)
    requires Rendering(l)
    ensures Drops(s, ItemStep(s, l, step))
  {
    ItemStepFrame(s, l, step);
    HeldInItem(s, l, step);
    hide ItemStep;
  }

  lemma OwnDropsTerminal(g: Global, w: string, step: Step)
    requires MarkerSafe(g, Work(w, step)) && DropsTerminal(g.store, LocalOf(g, w))
    ensures Drops(g.store, WorkerStep(g.store, w, LocalOf(g, w), step, g.maxAttempts))
  {
    hide ClaimStep, RunStep, ItemStep;
    var l := LocalOf(g, w);
    if step != Crash {
      if Claiming(l) {
        ClaimDrops(g.store, w, l, step, g.maxAttempts);
      } else if Rendering(l) {
        ItemDrops(g.store, l, step);
      } else {
        RunDrops(g.store, l, step);
      }
    }
  }

  lemma WorkMarkers(g: Global, w: string, step: Step)
    requires Leases(g) && MarkersKept(g) && Disciplined(g, Work(w, step)) && MarkerSafe(g, Work(w, step))
    ensures MarkersKept(Next(g, Work(w, step)))
  {
    var g' := Next(g, Work(w, step));
    assert DropsTerminal(g.store, LocalOf(g, w));
    OwnDropsTerminal(g, w, step);
    Keeps(g, Work(w, step));
    WorkerStepPublished(g, w, step);
    hide WorkerStep, Leases, Disciplined, MarkerSafe, IsClaim;
    forall id | id in g'.store.shards
      ensures MarkerKept(g', id)
    {
      assert MarkerKept(g, id);
    }
    forall v | v in g'.workers
      ensures DropsTerminal(g'.store, g'.workers[v])
    {
      if v != w {
        assert DropsTerminal(g.store, g.workers[v]);
      }
    }
  }

  lemma EnqueueMarkers(g: Global, job: string, io: Io)
    requires Leases(g) && MarkersKept(g)
    ensures MarkersKept(Next(g, EnqueuePut(job, io)))
  {
    hide Next, IsClaim, Inv, DropsTerminal, MarkerKept;
    var a := EnqueuePut(job, io);
    var g' := Next(g, a);
    forall id | id in g'.store.shards
      ensures MarkerKept(g', id)
    {
      EnqueueKeepsMarker(g, job, io, id);
    }
    forall v | v in g'.workers
      ensures DropsTerminal(g'.store, g'.workers[v])
    {
      WorkersAfter(g, a, v);
      EnqueueKeepsDrops(g, job, io, v);
    }
  }

  lemma EnqueueKeepsDrops(g: Global, job: string, io: Io, v: string)
    requires Leases(g) && MarkersKept(g) && v in g.workers
    ensures DropsTerminal(Next(g, EnqueuePut(job, io)).store, g.workers[v])
  {
    hide Next, IsClaim, Inv;
    Keeps(g, EnqueuePut(job, io));
    assert DropsTerminal(g.store, g.workers[v]) && LocalPublished(g, g.workers[v]);
    if Focus(g.workers[v]).Some? {
      PublishedDocs(g, Focus(g.workers[v]).value);
    }
  }

  lemma EnqueueKeepsMarker(g: Global, job: string, io: Io, id: ShardId)
    requires Leases(g) && MarkersKept(g) && id in Next(g, EnqueuePut(job, io)).store.shards
    ensures MarkerKept(Next(g, EnqueuePut(job, io)), id)
  {
    hide Next, IsClaim, Inv;
    var a := EnqueuePut(job, io);
    var g' := Next(g, a);
    NextPublication(g, a);
    assert KnownShard(g'.submitted, id) && EnqueueOk(g', id);
    Keeps(g, a);
    EnqueueAddsMarkers(g, job, io, id);
    if id in g.store.shards {
      assert MarkerKept(g, id) && EnqueueOk(g, id);
    }
  }

  /** An enqueue deletes no marker, and announces a shard by writing its marker. */
  lemma EnqueueAddsMarkers(g: Global, job: string, io: Io, id: ShardId)
    requires Publication(g)
    ensures
      var g' := Next(g, EnqueuePut(job, io));
      g.store.markers <= g'.store.markers
      && (Announced(g', id) ==> Announced(g, id) || id in g'.store.markers)
      && (id in g'.store.shards && id !in g.store.shards ==> !Announced(g', id))
  {
    hide Next, EnqueueOk, DocAt;
    EnqueuePutEffect(g, job, io);
    if Enqueuing(g, job) {
      WithDocKeys(g, job, g.progress[job]);
    }
  }

  lemma NextMarkers(g: Global, a: Action)
    requires Leases(g) && MarkersKept(g) && Disciplined(g, a) && MarkerSafe(g, a)
    ensures MarkersKept(Next(g, a))
  {
    NoPruning(g, a);
    hide Disciplined, MarkerSafe, DropsTerminal, DocAt, WorkerStep;
    match a
    case EnqueuePut(job, io) => EnqueueMarkers(g, job, io);
    case Work(w, step) => WorkMarkers(g, w, step);
    case Submit(job, sub) => SubmitMarkers(g, job, sub);
    case _ => SameMarkers(g, Next(g, a));
  }

  lemma SubmitMarkers(g: Global, job: string, sub: Submission)
    requires Leases(g) && MarkersKept(g)
    ensures MarkersKept(Next(g, Submit(job, sub)))
  {
    hide Inv, DropsTerminal;
    var g' := Next(g, Submit(job, sub));
    forall id | id in g'.store.shards
      ensures MarkerKept(g', id)
    {
      assert MarkerKept(g, id) && KnownShard(g.submitted, id);
    }
  }

  lemma SameMarkers(g: Global, g': Global)
    requires MarkersKept(g) && g'.submitted == g.submitted && g'.progress == g.progress && g'.workers == g.workers
    requires g'.store.shards == g.store.shards && g'.store.markers == g.store.markers
    ensures MarkersKept(g')
  {
    forall id | id in g'.store.shards
      ensures MarkerKept(g', id)
    {
      assert MarkerKept(g, id);
    }
  }

  lemma {:induction false} ExecMarkers(g: Global, acts: seq<Action>)
    requires Leases(g) && MarkersKept(g) && DisciplinedRun(g, acts) && MarkerSafeRun(g, acts)
    ensures MarkersKept(Exec(g, acts))
  {
    hide Leases, MarkersKept, DisciplinedRun, MarkerSafeRun, Disciplined, MarkerSafe, Next;
    if acts != [] {
      var n := |acts| - 1;
      LastStep(g, acts);
      LastStepSafe(g, acts);
      ExecMarkers(g, acts[..n]);
      ExecLeases(g, acts[..n]);
      NextMarkers(Exec(g, acts[..n]), acts[n]);
    }
  }

  lemma LastStepSafe(g: Global, acts: seq<Action>)
    requires MarkerSafeRun(g, acts) && acts != []
    ensures MarkerSafeRun(g, acts[..|acts| - 1]) && MarkerSafe(Exec(g, acts[..|acts| - 1]), acts[|acts| - 1])
  {
    hide MarkerSafe, Exec;
    var n := |acts| - 1;
    forall i | 0 <= i < n
      ensures MarkerSafe(Exec(g, acts[..n][..i]), acts[..n][i])
    {
      assert acts[..n][..i] == acts[..i];
    }
  }

  /**
   In a disciplined run in which reads of stored descriptors succeed and poison writes reach
   storage, no unfinished shard of a fully enqueued job is ever without its marker.
   */
  lemma UnfinishedShardsKeepMarkers(max: nat, acts: seq<Action>, id: ShardId)
    requires DisciplinedRun(Initial(max), acts) && MarkerSafeRun(Initial(max), acts)
    requires
      var g := Exec(Initial(max), acts);
      KnownShard(g.submitted, id) && id.0 in g.progress && g.progress[id.0] == NumDocs(g.submitted[id.0])
    ensures
      var g := Exec(Initial(max), acts);
      id in g.store.shards && (!Terminal(g.store.shards[id]) ==> id in g.store.markers)
  {
    var g := Exec(Initial(max), acts);
    InitialLeases(max);
    ExecLeases(Initial(max), acts);
    ExecMarkers(Initial(max), acts);
    PublishedDocs(g, id);
    assert MarkerKept(g, id);
  }
}
