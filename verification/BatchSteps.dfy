/**
 What the code of the batch registry relies on: the outcomes of its operations, where the protocol
 machine goes from each point of the code, and what reading and progress mean.
 */
module BatchSteps {
  import opened Prelude
  import opened Jobs
  import opened ShardProtocol
  import opened ShardInvariant
  import JobOutcome
  import opened ShardPublication
  import opened ShardLease
  import opened ShardWrites
  import opened ShardResume
  import opened JobItems
  import opened Sorting

  datatype ClaimResult =
    | Got(meta: BatchJob, shard: Shard, inputs: seq<BatchInput>)
    | NothingToClaim
    | ClaimFailed

  /** How a run of a claimed shard ended. */
  datatype RunOutcome = Completed | Stopped | Unprepared | Abandoned | StorageFailed

  /** One token for each claim that may still be made of each outstanding shard. */
  function Tokens(s: Store, max: nat): set<(ShardId, nat)> {
    set id, a: nat | id in s.markers && id in s.shards && s.shards[id].attempts <= a < max :: (id, a)
  }

  /** A marker that `claim_next_shard` has to leave: undecodable, or leased and not yet expired. */
  predicate MustWait(s: Store, unreadable: set<ShardId>, id: ShardId, now: int) {
    id in s.shards
    && (id in unreadable || Leased(s.shards[id], now))
  }

  predicate HasDocuments(s: Store, id: ShardId) {
    id.0 in s.jobs && id in s.inputs
  }

  /** No marker or descriptor appeared, and no attempts were taken back. */
  predicate Progress(s0: Store, s1: Store) {
    s1.markers <= s0.markers
    && forall id :: id in s1.shards ==> id in s0.shards && s0.shards[id].attempts <= s1.shards[id].attempts
  }

  lemma ProgressStarts(s: Store)
    ensures Progress(s, s) && SameDocuments(s, s)
  {
  }

  lemma NoNewMarkers(s0: Store, s1: Store)
    requires Progress(s0, s1)
    ensures s1.markers <= s0.markers
  {
  }

  lemma ProgressChains(s0: Store, s1: Store, s2: Store)
    requires Progress(s0, s1) && Progress(s1, s2)
    ensures Progress(s0, s2)
  {
  }

  /** Rendering an item is no step back, and leaves the claim as it is. */
  lemma ProgressThrough(s0: Store, s1: Store, s2: Store, shard: Shard)
    requires Progress(s0, s1) && SameJobs(s1, s2) && Claims(s1, shard)
    ensures Progress(s0, s2) && Claims(s2, shard)
  {
  }

  lemma ProgressShrinksTokens(s0: Store, s1: Store, max: nat)
    requires Progress(s0, s1)
    ensures Tokens(s1, max) <= Tokens(s0, max)
  {
  }

  /** A claim uses up a token. */
  lemma ClaimUsesToken(s0: Store, s1: Store, id: ShardId, max: nat)
    requires Progress(s0, s1) && id in s0.markers && id in s1.shards
    requires s0.shards[id].attempts < s1.shards[id].attempts <= max
    ensures Tokens(s1, max) < Tokens(s0, max)
  {
    ProgressShrinksTokens(s0, s1, max);
    var a := s0.shards[id].attempts;
    assert (id, a) in Tokens(s0, max) && (id, a) !in Tokens(s1, max);
  }

  // ----- what the machine does at each point of the code -----

  lemma ScanStarts(s: Store, w: string, now: int, max: nat)
    ensures WorkerStep(s, w, Idle, ListMarkers(now), max) == Stay(s, Scan(s.markers, now))
  {
  }

  lemma ScanLooksUp(s: Store, w: string, todo: set<ShardId>, now: int, id: ShardId, ok: bool, max: nat)
    requires id in todo
    ensures WorkerStep(s, w, Scan(todo, now), GetShard(id, ok), max) ==
      Stay(s, LookUp(s, w, id, max, todo - {id}, now, ok))
    ensures WorkerStep(s, w, Scan(todo, now), SkipShard(id), max) == Stay(s, Scan(todo - {id}, now))
  {
  }

  lemma ScanEnds(s: Store, w: string, now: int, max: nat)
    ensures WorkerStep(s, w, Scan({}, now), EndScan, max) == Stay(s, Idle)
  {
  }

  lemma ReadsBack(s: Store, w: string, shard: Shard, todo: set<ShardId>, now: int, ok: bool, max: nat)
    ensures WorkerStep(s, w, Confirm(shard, todo, now), Read(ok), max) ==
      Stay(s, if ok && IdOf(shard) in s.shards && s.shards[IdOf(shard)].owner != Some(w) then Scan(todo, now)
              else FetchJob(shard))
  {
  }

  lemma FetchesJob(s: Store, w: string, shard: Shard, ok: bool, max: nat)
    ensures WorkerStep(s, w, FetchJob(shard), Read(ok), max) ==
      Stay(s, if ok && shard.jobId in s.jobs then FetchInputs(shard, s.jobs[shard.jobId]) else Idle)
  {
  }

  lemma FetchesInputs(s: Store, w: string, shard: Shard, meta: BatchJob, ok: bool, max: nat)
    ensures WorkerStep(s, w, FetchInputs(shard, meta), Read(ok), max) ==
      Stay(s, if ok && IdOf(shard) in s.inputs then Prepare(shard, meta, s.inputs[IdOf(shard)]) else Idle)
  {
  }

  /** Where the worker is after the descriptor write it was about to do. */
  function AfterPut(w: string, l: Local, io: Io, at: int, lease: int): Local
    requires l.Poison? || l.Claim? || l.Release? || l.BeatWrite? || l.PutDone?
  {
    match l
    case Poison(read, todo, now) => Drop(IdOf(read), todo, now)
    case Claim(read, todo, now) =>
      if io == Good then Confirm(ShardProtocol.Claimed(read, w, now, lease), todo, now) else Idle
    case Release(_) => Idle
    case BeatWrite(run) => LoopHead(run.(shard := run.shard.(lease := Some(lease), updatedAt := at)))
    case PutDone(run) => if io == Good then Clear(IdOf(run.shard)) else Idle
  }

  /** A descriptor write of the machine stores that descriptor and nothing else. */
  lemma WrittenStores(s: Store, w: string, l: Local, shard: Shard, io: Io, at: int, lease: int, max: nat)
    requires Written(w, l, Write(Good, at, lease)) == Some(shard)
    ensures WorkerStep(s, w, l, Write(io, at, lease), max) ==
      Stay(Apply(io, s, PutShard(s, shard)), AfterPut(w, l, io, at, lease))
  {
  }

  lemma MarkerDeletes(s: Store, w: string, l: Local, io: Io, at: int, max: nat)
    requires l.Drop? || l.Clear?
    ensures WorkerStep(s, w, l, Write(io, at, 0), max) ==
      Stay(DeleteMarker(s, l.id, io), if l.Drop? then Scan(l.todo, l.now) else Idle)
  {
  }

  /** A history that goes on from an earlier one. */
  predicate Later(past: seq<Action>, now: seq<Action>) {
    past <= now
  }

  lemma LaterChains()
    ensures forall t :: Later(t, t)
    ensures forall t0, t1, t2 :: Later(t0, t1) && Later(t1, t2) ==> Later(t0, t2)
  {
  }

  /** Who runs: a worker by its id, a client enqueuing a job, or somebody who only reads. */
  datatype Actor = Worker(w: string) | Client(job: string) | Reader

  predicate Acts(a: Action, who: Actor) {
    match who
    case Worker(w) => a.Work? && a.w == w
    case Client(job) => (a.EnqueuePut? && a.job == job) || (a.Submit? && a.job == job)
    case Reader => false
  }

  // ----- facts about reading -----

  lemma StoredRanged(g: Global, job: string, k: nat)
    requires Inv(g) && job in g.submitted && ValidSubmission(g.submitted[job]) && k < NumShards(g.submitted[job])
    ensures ResultsOf(g.store, (job, k)) == [] || ResultRanged(ResultsOf(g.store, (job, k)), g.submitted[job], k)
  {
    InvariantGivesRanges(g.store, g.submitted, g.ever, job);
  }

  lemma StoreRanged(g: Global, job: string)
    requires Inv(g) && job in g.submitted && ValidSubmission(g.submitted[job])
    ensures ResultsRanged(g.store, job, g.submitted[job])
  {
    InvariantGivesRanges(g.store, g.submitted, g.ever, job);
  }

  lemma EmptyPage(s: Store, job: string, sub: Submission, offset: nat, limit: nat)
    requires ValidSubmission(sub)
    requires limit == 0 || PageEnd(|sub.inputs|, offset, limit) <= offset
    ensures PageAt(s, job, sub, offset, limit) == []
    ensures JobItems.Ascending([]) && Within([], offset, offset + limit)
  {
    WindowNone(ItemsOfShards(s, job, 0, NumShards(sub)), offset, PageEnd(|sub.inputs|, offset, limit));
  }

  /** An input lies in the shard of its quotient. */
  lemma QuotientCovers(sub: Submission, i: nat)
    requires ValidSubmission(sub) && i < |sub.inputs|
    ensures i / sub.size < NumShards(sub)
    ensures CoveredBefore(sub, i / sub.size) <= i < CoveredBefore(sub, i / sub.size + 1)
  {
    hide NumShards;
    ShardOfIndex(sub, i);
    CoveredStep(sub, i / sub.size);
  }

  /** The shards of a non-empty window cover it. */
  lemma WindowShards(sub: Submission, offset: nat, end: nat)
    requires ValidSubmission(sub) && offset < end <= |sub.inputs|
    ensures
      var k0, k1 := offset / sub.size, (end - 1) / sub.size;
      k0 <= k1 < NumShards(sub) && CoveredBefore(sub, k0) <= offset && end <= CoveredBefore(sub, k1 + 1)
  {
    hide NumShards, CoveredBefore;
    QuotientCovers(sub, offset);
    QuotientCovers(sub, end - 1);
    QuotientsRise(sub, offset / sub.size, (end - 1) / sub.size, offset, end - 1);
  }

  lemma QuotientsRise(sub: Submission, k0: nat, k1: nat, lo: nat, hi: nat)
    requires ValidSubmission(sub) && k0 < NumShards(sub) && k1 < NumShards(sub) && lo <= hi
    requires CoveredBefore(sub, k0) <= lo && hi < CoveredBefore(sub, k1 + 1)
    ensures k0 <= k1
  {
    hide NumShards, CoveredBefore;
    if k1 < k0 {
      CoveredMono(sub, k1 + 1, k0);
      assert false;
    }
  }

  predicate ItemLess(a: BatchItem, b: BatchItem) {
    a.index < b.index
  }

  predicate ShardLess(a: Shard, b: Shard) {
    a.index < b.index
  }

  lemma ItemsAreOrdered()
    ensures StrictOrder(ItemLess)
  {
  }

  lemma ShardsAreOrdered()
    ensures StrictOrder(ShardLess)
  {
  }

  /** What a page has collected before shard `k`. */
  predicate Collected(out: seq<BatchItem>, sub: Submission, k: nat, lo: nat, hi: nat)
    requires ValidSubmission(sub)
  {
    JobItems.Ascending(out) && Within(out, lo, hi) && (k <= NumShards(sub) ==> Within(out, lo, CoveredBefore(sub, k)))
  }

  lemma NothingCollected(s: Store, job: string, k: nat, lo: nat, hi: nat)
    ensures forall sub :: ValidSubmission(sub) ==> Collected([], sub, k, lo, hi)
    ensures Window(ItemsOfShards(s, job, k, k), lo, hi) == []
  {
  }

  lemma CollectNext(s: Store, job: string, k0: nat, k: nat, lo: nat, hi: nat)
    requires k0 <= k
    ensures Window(ItemsOfShards(s, job, k0, k + 1), lo, hi) ==
      Window(ItemsOfShards(s, job, k0, k), lo, hi) + Window(ResultsOf(s, (job, k)), lo, hi)
  {
    WindowAppend(ItemsOfShards(s, job, k0, k), ResultsOf(s, (job, k)), lo, hi);
  }

  lemma CollectedStep(out: seq<BatchItem>, loaded: seq<BatchItem>, sub: Submission, k: nat, lo: nat, hi: nat)
    requires ValidSubmission(sub) && k < NumShards(sub) && Collected(out, sub, k, lo, hi)
    requires loaded == [] || ResultRanged(loaded, sub, k)
    ensures Collected(out + Window(loaded, lo, hi), sub, k + 1, lo, hi)
  {
    var kept := Window(loaded, lo, hi);
    CoveredStep(sub, k);
    WindowMembers(loaded, lo, hi);
    forall i | 0 <= i < |kept|
      ensures CoveredBefore(sub, k) <= kept[i].index < CoveredBefore(sub, k + 1) && lo <= kept[i].index < hi
    {
      assert kept[i] in kept;
    }
  }

  lemma CollectedAscends(out: seq<BatchItem>, sub: Submission, k: nat, lo: nat, hi: nat)
    requires ValidSubmission(sub) && Collected(out, sub, k, lo, hi)
    ensures JobItems.Ascending(out) && Within(out, lo, hi)
    ensures Ascends(out, ItemLess)
    ensures forall hi' :: hi <= hi' ==> Within(out, lo, hi')
  {
  }

  lemma StoredOk(g: Global, id: ShardId)
    requires Inv(g) && id in g.store.shards
    ensures IdOf(g.store.shards[id]) == id && ShardOk(g.submitted, g.ever, g.store.shards[id])
  {
  }

  lemma CompletedJob(subs: Subs, ever: Ever, job: string, shards: seq<Shard>)
    requires job in subs && ValidSubmission(subs[job]) && JobOutcome.Ascending(shards)
    requires forall k :: 0 <= k < |shards| ==> shards[k].jobId == job && ShardOk(subs, ever, shards[k])
    requires Aggregate(JobOf(job, subs[job]), shards).status == JobStatus.Completed
    ensures forall i :: 0 <= i < |subs[job].inputs| ==> Persisted(ever, job, subs[job].inputs[i], subs[job].opts)
  {
    NoShardsNoInputs(subs[job]);
    if NumShards(subs[job]) > 0 {
      JobOutcome.AscendingAll(subs, ever, job, shards);
      forall i | 0 <= i < |subs[job].inputs|
        ensures Persisted(ever, job, subs[job].inputs[i], subs[job].opts)
      {
        JobOutcome.CompletedShards(subs, ever, job, shards, i);
      }
    }
  }

  /** This document is in the store. */
  predicate HasDoc(s: Store, d: Doc) {
    match d
    case InputsDoc(id, inputs) => id in s.inputs && s.inputs[id] == inputs
    case ShardDoc(shard) => IdOf(shard) in s.shards && s.shards[IdOf(shard)] == shard
    case JobDoc(job) => job.jobId in s.jobs && s.jobs[job.jobId] == job
    case MarkerDoc(id) => id in s.markers
  }

  /** No document of a submission overwrites another. */
  lemma DocsApart(s: Store, job: string, sub: Submission, i: nat, n: nat)
    requires ValidSubmission(sub) && i < n < NumDocs(sub) && HasDoc(s, DocAt(job, sub, i))
    ensures HasDoc(PutDoc(s, DocAt(job, sub, n)), DocAt(job, sub, i))
  {
    if n < 2 * NumShards(sub) && i / 2 == n / 2 {
      assert i % 2 == 0 && n % 2 == 1;
    }
    if i < 2 * NumShards(sub) {
      assert IdOf(FreshShard(job, sub, i / 2)) == (job, i / 2);
    }
    if n < 2 * NumShards(sub) {
      assert IdOf(FreshShard(job, sub, n / 2)) == (job, n / 2);
    }
    hide FreshShard, Slice, JobOf;
  }

  lemma {:induction false} AllPutsHold(s: Store, job: string, sub: Submission, n: nat, i: nat)
    requires ValidSubmission(sub) && i < n <= NumDocs(sub)
    ensures HasDoc(AllPuts(s, job, sub, n), DocAt(job, sub, i))
  {
    if i < n - 1 {
      AllPutsHold(s, job, sub, n - 1, i);
      DocsApart(AllPuts(s, job, sub, n - 1), job, sub, i, n - 1);
    } else {
      hide DocAt;
    }
  }

  /** What a successful enqueue leaves: every shard's slice of the inputs, descriptor and marker, and the job. */
  lemma EnqueueStoresTheJob(s: Store, job: string, sub: Submission, k: nat)
    requires ValidSubmission(sub) && k < NumShards(sub)
    ensures
      var s' := AllPuts(s, job, sub, NumDocs(sub));
      (job, k) in s'.inputs && s'.inputs[(job, k)] == Slice(sub, k)
      && (job, k) in s'.shards && s'.shards[(job, k)] == FreshShard(job, sub, k)
      && (job, k) in s'.markers && job in s'.jobs && s'.jobs[job] == JobOf(job, sub)
  {
    var n := NumDocs(sub);
    DocsOfShard(job, sub, k);
    DocsOfJob(job, sub);
    MarkerOfShard(job, sub, k);
    AllPutsHold(s, job, sub, n, 2 * k);
    AllPutsHold(s, job, sub, n, 2 * k + 1);
    AllPutsHold(s, job, sub, n, 2 * NumShards(sub));
    AllPutsHold(s, job, sub, n, 2 * NumShards(sub) + 1 + k);
    hide AllPuts, DocAt;
  }

  /** The tokens are one for each claim left: the sum of what every outstanding shard has left. */
  function ClaimsLeft(s: Store, max: nat, order: seq<ShardId>): nat {
    if order == [] then 0
    else
      var id := order[|order| - 1];
      ClaimsLeft(s, max, order[..|order| - 1])
      + if id in s.shards && s.shards[id].attempts < max then max - s.shards[id].attempts else 0
  }

  function TokensOf(s: Store, max: nat, order: seq<ShardId>): set<(ShardId, nat)> {
    set id, a: nat | id in order && id in s.shards && s.shards[id].attempts <= a < max :: (id, a)
  }

  lemma {:induction false} TokensCounted(s: Store, max: nat, order: seq<ShardId>)
    requires Distinct(order)
    ensures |TokensOf(s, max, order)| == ClaimsLeft(s, max, order)
  {
    if order != [] {
      var n := |order| - 1;
      TokensCounted(s, max, order[..n]);
      var id := order[n];
      var lo := if id in s.shards && s.shards[id].attempts < max then s.shards[id].attempts else max;
      var own := set a: nat | lo <= a < max :: (id, a);
      RangeCounted(id, lo, max);
      TokensSplit(s, max, order[..n], id, own);
      NotBefore(order, n);
      assert order == order[..n] + [id];
    }
  }

  lemma NotBefore(order: seq<ShardId>, n: nat)
    requires Distinct(order) && n < |order|
    ensures order[n] !in order[..n]
  {
    forall i | 0 <= i < n
      ensures order[i] != order[n]
    {
      OrderDistinct(order, i, n);
    }
  }

  /** One more shard adds its own tokens. */
  lemma TokensSplit(s: Store, max: nat, order: seq<ShardId>, id: ShardId, own: set<(ShardId, nat)>)
    requires own == set a: nat | (if id in s.shards then s.shards[id].attempts else max) <= a < max :: (id, a)
    ensures TokensOf(s, max, order + [id]) == TokensOf(s, max, order) + own
    ensures id !in order ==> |TokensOf(s, max, order + [id])| == |TokensOf(s, max, order)| + |own|
  {
    assert forall k :: k in order + [id] <==> k in order || k == id;
    assert TokensOf(s, max, order + [id]) == TokensOf(s, max, order) + own;
    if id !in order {
      assert TokensOf(s, max, order) !! own;
    }
  }

  lemma {:induction false} RangeCounted(id: ShardId, lo: nat, hi: nat)
    requires lo <= hi
    ensures |set a: nat | lo <= a < hi :: (id, a)| == hi - lo
    decreases hi
  {
    if lo < hi {
      RangeCounted(id, lo, hi - 1);
      assert (set a: nat | lo <= a < hi :: (id, a)) == (set a: nat | lo <= a < hi - 1 :: (id, a)) + {(id, hi - 1)};
    } else {
      assert (set a: nat | lo <= a < hi :: (id, a)) == {};
    }
  }

  /** `Drain`'s bound is the sum of the claims left over the outstanding shards. */
  lemma DrainBound(s: Store, max: nat, order: seq<ShardId>)
    requires Distinct(order) && forall id :: id in order <==> id in s.markers
    ensures |Tokens(s, max)| == ClaimsLeft(s, max, order)
  {
    TokensCounted(s, max, order);
    assert Tokens(s, max) == TokensOf(s, max, order);
  }

  predicate Submitted(g: Global, job: string, sub: Submission) {
    job in g.submitted && g.submitted[job] == sub
  }

  /** The store holds the first documents of a submission, up to some point. */
  ghost predicate PutSome(s0: Store, s: Store, job: string, sub: Submission)
    requires ValidSubmission(sub)
  {
    exists n :: 0 <= n <= NumDocs(sub) && s == AllPuts(s0, job, sub, n)
  }

  lemma AllPutsStart(s0: Store, job: string, sub: Submission)
    requires ValidSubmission(sub)
    ensures AllPuts(s0, job, sub, 0) == s0 && PutSome(s0, s0, job, sub)
  {
    assert AllPuts(s0, job, sub, 0) == s0;
  }

  /** The client is writing document `i` of its submission. */
  predicate Writing(g: Global, job: string, sub: Submission, i: nat) {
    job in g.open && job in g.submitted && g.submitted[job] == sub && job in g.progress && g.progress[job] == i
  }

  /** The store after the first `n` documents of a submission. */
  function AllPuts(s: Store, job: string, sub: Submission, n: nat): Store
    requires ValidSubmission(sub) && n <= NumDocs(sub)
  {
    if n == 0 then s else PutDoc(AllPuts(s, job, sub, n - 1), DocAt(job, sub, n - 1))
  }

  lemma DocsOfShard(job: string, sub: Submission, k: nat)
    requires ValidSubmission(sub) && k < NumShards(sub)
    ensures DocAt(job, sub, 2 * k) == InputsDoc((job, k), Slice(sub, k))
    ensures DocAt(job, sub, 2 * k + 1) == ShardDoc(FreshShard(job, sub, k))
    ensures ShardStart(sub, k) <= |sub.inputs|
    ensures FreshShard(job, sub, k) ==
      Shard(job, k, k * sub.size, ShardLen(sub, k), ShardStatus.Pending, None, None, 0, 0, 0, sub.at)
  {
    ShardRange(sub, k);
    assert (2 * k) / 2 == k && (2 * k + 1) / 2 == k && (2 * k) % 2 == 0 && (2 * k + 1) % 2 == 1;
  }

  lemma DocsOfJob(job: string, sub: Submission)
    requires ValidSubmission(sub)
    ensures DocAt(job, sub, 2 * NumShards(sub)) == JobDoc(JobOf(job, sub))
  {
  }

  lemma MarkerOfShard(job: string, sub: Submission, k: nat)
    requires ValidSubmission(sub) && k < NumShards(sub)
    ensures DocAt(job, sub, 2 * NumShards(sub) + 1 + k) == MarkerDoc((job, k))
  {
  }

  lemma Cardinality<T>(a: set<T>, b: set<T>)
    requires a <= b
    ensures |a| <= |b|
    ensures a < b ==> |a| < |b|
  {
    assert b == a + (b - a);
  }

  /** Jobs and inputs are as they were. */
  predicate SameDocuments(s0: Store, s1: Store) {
    s1.jobs == s0.jobs && s1.inputs == s0.inputs
  }

  /** Storage names the same owner. */
  predicate StillOwned(s: Store, shard: Shard) {
    (shard.jobId, shard.index) in s.shards && s.shards[(shard.jobId, shard.index)].owner == shard.owner
  }

  lemma DocumentsStay(s0: Store, s1: Store, shard: Shard)
    requires SameJobs(s0, s1)
    ensures SameDocuments(s0, s1) && (StillOwned(s0, shard) ==> StillOwned(s1, shard))
  {
  }

  lemma DocumentsChain(s0: Store, s1: Store, s2: Store)
    requires SameDocuments(s0, s1) && SameDocuments(s1, s2)
    ensures SameDocuments(s0, s2)
  {
  }

  /** Every outstanding shard has its job and its inputs. */
  predicate AllDocumented(s: Store) {
    forall id :: id in s.markers ==> HasDocuments(s, id)
  }

  lemma DocumentedAt(s0: Store, s: Store, id: ShardId)
    requires SameDocuments(s0, s)
    ensures AllDocumented(s0) && id in s0.markers ==> HasDocuments(s, id)
  {
  }

  /** What a heartbeat may do to a store. */
  lemma BeatFrame(s0: Store, s1: Store, shard: Shard, counted: Shard, renewed: Shard)
    requires s1 == s0 || s1 == PutShard(s0, renewed)
    requires counted == shard.(done := counted.done, failed := counted.failed)
    requires renewed == counted.(lease := renewed.lease, updatedAt := renewed.updatedAt)
    ensures s1.markers == s0.markers && s1.metas == s0.metas && s1.datas == s0.datas && SameDocuments(s0, s1)
    ensures s1 != s0 ==> HasBeaten(s1, shard, counted.done, counted.failed)
    ensures Claims(s0, shard) ==> Progress(s0, s1) && Claims(s1, renewed)
    ensures StillOwned(s0, shard) ==> StillOwned(s1, renewed)
  {
  }

  lemma MarkersShrink(s0: Store, s1: Store)
    requires Progress(s0, s1) && SameDocuments(s0, s1)
    ensures AllDocumented(s0) ==> AllDocumented(s1)
  {
  }

  /** Storage holds this shard with these counts. */
  predicate HasBeaten(s: Store, shard: Shard, done: nat, failed: nat) {
    var id := (shard.jobId, shard.index);
    id in s.shards && s.shards[id].done == done && s.shards[id].failed == failed
  }

  /** Storage holds the claimed descriptor's attempts. */
  predicate Claims(s: Store, shard: Shard) {
    IdOf(shard) in s.shards && s.shards[IdOf(shard)].attempts == shard.attempts
  }

  /** Shards, results and markers are as they were. */
  predicate SameJobs(s0: Store, s1: Store) {
    s1.jobs == s0.jobs && s1.inputs == s0.inputs && s1.shards == s0.shards && s1.results == s0.results
    && s1.markers == s0.markers
  }

  lemma MarkersStay(s0: Store, s1: Store)
    requires SameJobs(s0, s1)
    ensures s1.markers == s0.markers
  {
  }

  function AfterPrepare(l: Local, manifest: Option<string>): Local
    requires l.Prepare?
  {
    if manifest == None then Release(Released(l.shard))
    else LoopHead(Run(l.shard, l.meta, l.inputs, manifest.value, [], 0, 0, true))
  }

  lemma Prepares(s: Store, w: string, l: Local, manifest: Option<string>, max: nat)
    requires l.Prepare?
    ensures
      var o := WorkerStep(s, w, l, Resolve(manifest), max);
      o.store == s && o.local == AfterPrepare(l, manifest)
      && (manifest.Some? ==> (l.shard.jobId, manifest.value) in o.resolved)
  {
  }

  /** About to put an item's data, PDF or meta. */
  predicate WritesArtifact(l: Local) {
    (l.PutData? || l.PutPdf? || l.PutMeta?) && |l.run.items| < |l.run.inputs|
  }

  function AfterArtifact(l: Local, io: Io): Local
    requires WritesArtifact(l)
  {
    if io != Good then ItemEnd(Counted(l.run, false, false))
    else if l.PutData? then Compile(l.run)
    else if l.PutPdf? then PutMeta(l.run, true)
    else Stage(l.run, l.success)
  }

  /** The store once an item's data, PDF or meta is put. */
  function WithArtifact(s: Store, l: Local): Store
    requires WritesArtifact(l)
  {
    var id := ItemId(l.run);
    if l.PutData? then s.(datas := s.datas + {id})
    else if l.PutPdf? then s.(pdfs := s.pdfs + {id})
    else s.(metas := s.metas[id := l.success])
  }

  lemma ArtifactWrites(s: Store, w: string, l: Local, io: Io, max: nat)
    requires WritesArtifact(l)
    ensures
      var o := WorkerStep(s, w, l, Write(io, 0, 0), max);
      o.local == AfterArtifact(l, io) && o.store == Apply(io, s, WithArtifact(s, l))
  {
    hide Counted, ItemId;
  }

  /** A render whose data and meta are stored, and its PDF if it succeeded. */
  predicate RenderStored(s: Store, id: RenderId, success: bool) {
    id in s.datas && id in s.metas && s.metas[id] == success && (success ==> id in s.pdfs)
  }

  /** Renders other than this one have the outcome they had, and no input data is gone. */
  ghost predicate OtherMetasStay(s0: Store, s1: Store, id: RenderId) {
    s0.datas <= s1.datas
    && forall other :: other != id ==>
      (other in s1.metas <==> other in s0.metas) && (other in s0.metas ==> s1.metas[other] == s0.metas[other])
  }

  lemma OtherMetasChain(s0: Store, s1: Store, s2: Store, id: RenderId)
    requires OtherMetasStay(s0, s1, id) && OtherMetasStay(s1, s2, id)
    ensures OtherMetasStay(s0, s2, id)
  {
  }

  /** This render is stored as a success. */
  predicate Succeeded(s: Store, id: RenderId) {
    id in s.metas && s.metas[id]
  }

  /** What a run has done about its first inputs, with the successes of earlier attempts in `s0`. */
  predicate Resumed(
    s0: Store, s: Store, items: seq<BatchItem>, start: nat, inputs: seq<BatchInput>, manifest: string, opts: string,
    isResume: bool)
  {
    |items| <= |inputs|
    && forall j :: 0 <= j < |items| ==> ItemResumed(s0, s, items[j], start + j, inputs[j], manifest, opts, isResume)
  }

  /**
   One result: a success of an earlier attempt stays one, whatever rendering would answer now, and
   everything else was rendered, so its data is stored.
   */
  predicate ItemResumed(
    s0: Store, s: Store, item: BatchItem, index: nat, input: BatchInput, manifest: string, opts: string,
    isResume: bool)
  {
    var id := RenderId(manifest, input.data, opts);
    item.index == index && item.key == input.key && item.renderId == Some(id)
    && (isResume && Succeeded(s0, id) ==> item.status == ItemStatus.Success)
    && (!(isResume && Succeeded(s0, id)) ==> id in s.datas)
    && item.status != ItemStatus.Pending
  }

  /** Earlier successes are kept, and renders stored since then have their data. */
  ghost predicate KeepsRenders(s0: Store, s: Store, isResume: bool) {
    s0.datas <= s.datas
    && (isResume ==> forall id :: Succeeded(s0, id) ==> Succeeded(s, id))
    && forall id :: Succeeded(s, id) && !Succeeded(s0, id) ==> id in s.datas
  }

  lemma NothingResumed(s0: Store, inputs: seq<BatchInput>, start: nat, manifest: string, opts: string, isResume: bool)
    ensures Resumed(s0, s0, [], start, inputs, manifest, opts, isResume) && KeepsRenders(s0, s0, isResume)
  {
  }

  /** One more item is run, from store `s1` to `s2`. */
  lemma ResumeNext(
    s0: Store, s1: Store, s2: Store, items: seq<BatchItem>, item: BatchItem, start: nat, inputs: seq<BatchInput>,
    manifest: string, opts: string, isResume: bool)
    requires |items| < |inputs| && item.index == start + |items| && item.key == inputs[|items|].key
    requires Resumed(s0, s1, items, start, inputs, manifest, opts, isResume) && KeepsRenders(s0, s1, isResume)
    requires
      var id := RenderId(manifest, inputs[|items|].data, opts);
      item.renderId == Some(id) && item.status != ItemStatus.Pending
      && if isResume && Succeeded(s1, id) then item.status == ItemStatus.Success && s2 == s1
         else OtherMetasStay(s1, s2, id) && id in s2.datas
    ensures Resumed(s0, s2, items + [item], start, inputs, manifest, opts, isResume) && KeepsRenders(s0, s2, isResume)
  {
    forall j | 0 <= j < |items + [item]|
      ensures ItemResumed(s0, s2, (items + [item])[j], start + j, inputs[j], manifest, opts, isResume)
    {
      if j < |items| {
        assert ItemResumed(s0, s1, items[j], start + j, inputs[j], manifest, opts, isResume);
      }
    }
  }

  /** A heartbeat changes neither. */
  lemma ResumeThrough(
    s0: Store, s1: Store, s2: Store, items: seq<BatchItem>, start: nat, inputs: seq<BatchInput>, manifest: string,
    opts: string, isResume: bool)
    requires Resumed(s0, s1, items, start, inputs, manifest, opts, isResume) && KeepsRenders(s0, s1, isResume)
    requires s2.metas == s1.metas && s2.datas == s1.datas
    ensures Resumed(s0, s2, items, start, inputs, manifest, opts, isResume) && KeepsRenders(s0, s2, isResume)
  {
  }

  lemma ResumedStays(
    s0: Store, s1: Store, s2: Store, items: seq<BatchItem>, start: nat, inputs: seq<BatchInput>, manifest: string,
    opts: string, isResume: bool)
    requires Resumed(s0, s1, items, start, inputs, manifest, opts, isResume) && s1.datas <= s2.datas
    ensures Resumed(s0, s2, items, start, inputs, manifest, opts, isResume)
  {
  }

  /** What a worker knows of an item it is about to stage, or was told an earlier attempt rendered. */
  lemma StagedWasStored(g: Global, w: string)
    requires Inv(g) && LocalOf(g, w).Stage? && LocalOf(g, w).success
    requires |LocalOf(g, w).run.items| < |LocalOf(g, w).run.inputs|
    ensures ItemId(LocalOf(g, w).run) in g.ever.ok && ItemId(LocalOf(g, w).run) in g.everPdf
  {
  }

  /** A run renders with a version that its job's reference resolved to. */
  lemma VersionResolved(g: Global, w: string)
    requires Inv(g) && LocalOf(g, w).PutResults?
    ensures (LocalOf(g, w).run.shard.jobId, LocalOf(g, w).run.manifest) in g.ever.resolved
  {
    assert LocalOk(g.submitted, g.ever, g.everPdf, w, LocalOf(g, w));
  }

  lemma MetaWasStored(g: Global, id: RenderId)
    requires Inv(g) && id in g.store.metas && g.store.metas[id]
    ensures id in g.ever.ok && id in g.everPdf
  {
  }

  lemma CompileMoves(s: Store, w: string, run: Run, success: bool, max: nat)
    ensures WorkerStep(s, w, Compile(run), Compiled(success), max) ==
      Stay(s, if success then PutPdf(run) else PutMeta(run, false))
  {
  }

  lemma StageMoves(s: Store, w: string, run: Run, success: bool, ok: bool, max: nat)
    requires |run.items| < |run.inputs|
    ensures WorkerStep(s, w, Stage(run, success), Staged(ok), max) ==
      Stay(s, ItemEnd(Counted(run, success && ok, run.clean && ok)))
  {
    hide Counted;
  }

  lemma BeatReads(s: Store, w: string, run: Run, ok: bool, max: nat)
    ensures WorkerStep(s, w, BeatRead(run), Read(ok), max) == Stay(s, CheckOwner(s, run, ok))
  {
    hide CheckOwner;
  }

  lemma ItemEnds(s: Store, w: string, run: Run, due: bool, max: nat)
    ensures WorkerStep(s, w, ItemEnd(run), Tick(due), max) == Stay(s, AfterItem(run, due))
  {
    hide AfterItem;
  }

  lemma ItemStarts(s: Store, w: string, run: Run, stop: bool, skip: bool, max: nat)
    requires |run.items| < |run.inputs|
    requires skip ==> run.shard.attempts > 1 && ItemId(run) in s.metas && s.metas[ItemId(run)]
    ensures WorkerStep(s, w, Item(run), Advance(stop, skip), max) == Stay(s,
      if stop then Release(Released(WithCounts(run).shard))
      else if skip then ItemEnd(Counted(run, true, run.clean))
      else PutData(run))
  {
    hide Counted, ItemId;
  }

  lemma ResultsWrite(s: Store, w: string, run: Run, io: Io, max: nat)
    ensures WorkerStep(s, w, PutResults(run), Write(io, 0, 0), max) ==
      Stay(Apply(io, s, s.(results := s.results[IdOf(run.shard) := run.items])),
          if io == Good then PutDone(run) else Idle)
  {
  }

  lemma HeadOfLoop(run: Run)
    ensures LoopHead(run) == if |run.items| < |run.inputs| then Item(run) else PutResults(run)
  {
  }

  lemma CountedAs(run: Run, success: bool, clean: bool)
    requires |run.items| < |run.inputs|
    ensures
      var j := |run.items|;
      var id := RenderId(run.manifest, run.inputs[j].data, run.meta.opts);
      var item := BatchItem(run.shard.start + j, run.inputs[j].key, Some(id),
          if success then ItemStatus.Success else ItemStatus.Failed);
      Counted(run, success, clean) ==
      Run(run.shard, run.meta, run.inputs, run.manifest, run.items + [item],
          if success then run.done + 1 else run.done, if success then run.failed else run.failed + 1, clean)
  {
  }

  /** Results stored for every item, the descriptor done with their counts, the marker gone. */
  predicate IsCompleted(s: Store, id: ShardId) {
    id in s.results && id in s.shards && id !in s.markers
    && s.shards[id].status == ShardStatus.Done
    && |s.results[id]| == s.shards[id].len
    && s.shards[id].done == CountSuccess(s.results[id])
    && s.shards[id].done + s.shards[id].failed == s.shards[id].len
  }

  predicate HasExpectedResults(g: Global, id: ShardId, world: World) {
    KnownShard(g.submitted, id) && id in g.store.results
    && g.store.results[id] == Expected(id.0, g.submitted[id.0], id.1, world)
  }

  /** What a run that was ready to store its results left behind. */
  lemma FinishedRun(ready: Global, g: Global, w: string, world: World, steady: bool)
    requires Inv(ready) && Inv(g) && LocalOf(ready, w).PutResults? && g.submitted == ready.submitted
    requires steady ==> Matches(ready, world) && LocalOf(ready, w).run.clean
    requires
      var run := LocalOf(ready, w).run;
      var id := IdOf(run.shard);
      id in g.store.results && g.store.results[id] == run.items && id !in g.store.markers
      && id in g.store.shards && g.store.shards[id].status == ShardStatus.Done
      && g.store.shards[id].done == run.done && g.store.shards[id].failed == run.failed
    ensures IsCompleted(g.store, IdOf(LocalOf(ready, w).run.shard))
    ensures steady ==> HasExpectedResults(g, IdOf(LocalOf(ready, w).run.shard), world)
  {
    hide LocalMatches, LocalHolds, CountPersisted, ItemsOk, CountSuccess, ResultOk;
    var run := LocalOf(ready, w).run;
    var id := IdOf(run.shard);
    assert LocalOk(ready.submitted, ready.ever, ready.everPdf, w, PutResults(run));
    StoredOk(g, id);
    if steady {
      MatchingRun(ready, w, world);
    }
  }

  lemma MatchingRun(g: Global, w: string, world: World)
    requires Inv(g) && Matches(g, world) && LocalOf(g, w).PutResults? && LocalOf(g, w).run.clean
    ensures
      var run := LocalOf(g, w).run;
      KnownShard(g.submitted, IdOf(run.shard))
      && run.items == Expected(run.shard.jobId, g.submitted[run.shard.jobId], run.shard.index, world)
  {
    hide StoreOk, CountPersisted, ItemsOk, CountSuccess;
    var run := LocalOf(g, w).run;
    assert LocalOk(g.submitted, g.ever, g.everPdf, w, PutResults(run));
    assert LocalMatches(g.submitted, world, PutResults(run));
    var e := Expected(run.shard.jobId, g.submitted[run.shard.jobId], run.shard.index, world);
    assert e[..|run.items|] == e;
  }

  predicate Distinct(order: seq<ShardId>) {
    forall i, j :: 0 <= i < j < |order| ==> order[i] != order[j]
  }

  lemma OrderDistinct(order: seq<ShardId>, i: nat, j: nat)
    requires Distinct(order) && i < j < |order|
    ensures order[i] != order[j]
  {
  }

  function Rest(order: seq<ShardId>, i: nat): set<ShardId>
    requires i <= |order|
  {
    set id | id in order[i..]
  }

  lemma RestStep(order: seq<ShardId>, i: nat)
    requires Distinct(order) && i < |order|
    ensures order[i] in Rest(order, i) && Rest(order, i) - {order[i]} == Rest(order, i + 1)
  {
    assert order[i..] == [order[i]] + order[i + 1..];
    forall j | i < j < |order|
      ensures order[j] != order[i]
    {
      OrderDistinct(order, i, j);
    }
  }

  /** A shard that nobody has finished, that nobody holds, and that can be read. */
  predicate IsFree(s: Store, id: ShardId, unreadable: set<ShardId>, now: int) {
    id in s.shards && !MustWait(s, unreadable, id, now)
    && (s.shards[id].status == ShardStatus.Pending || s.shards[id].status == ShardStatus.Running)
  }

  /** The shard of a marker that can be claimed now. */
  predicate CanClaim(s: Store, id: ShardId, unreadable: set<ShardId>, max: nat, now: int) {
    IsFree(s, id, unreadable, now) && s.shards[id].attempts < max
  }

  /** What the scan leaves of a store for a marker whose shard cannot be claimed. */
  predicate PassedOver(s: Store, s': Store, id: ShardId, unreadable: set<ShardId>, now: int) {
    if MustWait(s, unreadable, id, now) then s' == s
    else if !IsFree(s, id, unreadable, now) then s' == s.(markers := s.markers - {id})
    else
      id in s'.shards && GivenUp(s'.shards[id], s.shards[id])
      && s' == s.(shards := s.shards[id := s'.shards[id]], markers := s.markers - {id})
  }

  /** Pending again for anybody to claim: no owner and no lease, the attempts and the marker kept. */
  predicate IsReleased(s0: Store, s1: Store, claimed: Shard) {
    IdOf(claimed) in s1.shards && s1.markers == s0.markers &&
    var shard := s1.shards[IdOf(claimed)];
    shard.status == ShardStatus.Pending && shard.owner == None && shard.lease == None
    && shard.attempts == claimed.attempts
  }

  /** The state after the first `t` actions of a trace. */
  ghost function StateAt(origin: Global, trace: seq<Action>, t: nat): Global
    requires t <= |trace|
  {
    Exec(origin, trace[..t])
  }

  lemma PastIsFixed(origin: Global, past: seq<Action>, now: seq<Action>, t: nat)
    requires Later(past, now) && t <= |past|
    ensures StateAt(origin, past, t) == StateAt(origin, now, t)
  {
    assert past[..t] == now[..t];
  }

  /** The results of shards `k`, `k + 1`, ..., each as stored after so many actions of the trace. */
  ghost function SeenItems(origin: Global, trace: seq<Action>, job: string, k: nat, at: seq<nat>): seq<BatchItem>
    requires forall i :: 0 <= i < |at| ==> at[i] <= |trace|
  {
    if at == [] then []
    else
      var n := |at| - 1;
      SeenItems(origin, trace, job, k, at[..n]) + ResultsOf(StateAt(origin, trace, at[n]).store, (job, k + n))
  }

  lemma {:induction false} SeenIsFixed(
    origin: Global, past: seq<Action>, now: seq<Action>, job: string, k: nat, at: seq<nat>)
    requires Later(past, now) && forall i :: 0 <= i < |at| ==> at[i] <= |past|
    ensures SeenItems(origin, past, job, k, at) == SeenItems(origin, now, job, k, at)
  {
    hide Later, StateAt, ResultsOf;
    LaterIsLonger(past, now);
    if at != [] {
      var n := |at| - 1;
      SeenIsFixed(origin, past, now, job, k, at[..n]);
      PastIsFixed(origin, past, now, at[n]);
    }
  }

  lemma LaterIsLonger(past: seq<Action>, now: seq<Action>)
    requires Later(past, now)
    ensures |past| <= |now|
  {
  }

  /** The present is the state after the whole trace. */
  lemma NowIs(origin: Global, trace: seq<Action>)
    ensures StateAt(origin, trace, |trace|) == Exec(origin, trace)
  {
    assert trace[..|trace|] == trace;
  }

  /** One more shard is read. */
  lemma SeenNext(
    origin: Global, past: seq<Action>, now: seq<Action>, job: string, k: nat, at: seq<nat>, lo: nat, hi: nat)
    requires Later(past, now) && forall i :: 0 <= i < |at| ==> at[i] <= |past|
    ensures forall i :: 0 <= i < |at + [|now|]| ==> (at + [|now|])[i] <= |now|
    ensures
      Window(SeenItems(origin, now, job, k, at + [|now|]), lo, hi)
      == Window(SeenItems(origin, past, job, k, at), lo, hi)
         + Window(ResultsOf(Exec(origin, now).store, (job, k + |at|)), lo, hi)
  {
    hide Later, StateAt, ResultsOf, Window, Exec;
    LaterIsLonger(past, now);
    SeenIsFixed(origin, past, now, job, k, at);
    NowIs(origin, now);
    assert (at + [|now|])[..|at|] == at;
    WindowAppend(SeenItems(origin, past, job, k, at), ResultsOf(Exec(origin, now).store, (job, k + |at|)), lo, hi);
  }

  lemma NothingSeen(origin: Global, trace: seq<Action>, job: string, k: nat, lo: nat, hi: nat)
    ensures Window(SeenItems(origin, trace, job, k, []), lo, hi) == []
  {
  }

  /** Every readable descriptor of these shards has been read. */
  predicate AllRead(s: Store, ids: set<ShardId>, unreadable: set<ShardId>, r: seq<Shard>) {
    forall id :: id in ids && id in s.shards && id !in unreadable ==> s.shards[id] in r
  }

  lemma ReadOne(
    s: Store, listed: set<ShardId>, rest: set<ShardId>, id: ShardId, unreadable: set<ShardId>, r0: seq<Shard>,
    r: seq<Shard>)
    requires id in rest && AllRead(s, listed - rest, unreadable, r0) && r0 <= r
    requires id in s.shards && id !in unreadable ==> s.shards[id] in r
    ensures AllRead(s, listed - (rest - {id}), unreadable, r)
  {
  }

  lemma ReadAll(s: Store, ids: set<ShardId>, unreadable: set<ShardId>, r: seq<Shard>)
    requires AllRead(s, ids, unreadable, r)
    ensures forall id :: id in ids && id in s.shards && id !in unreadable ==> s.shards[id] in r
  {
  }

  /** Descriptor `s` was stored when the shard of its index was read. */
  ghost predicate WasStored(
    origin: Global, past: seq<Action>, now: seq<Action>, job: string, s: Shard, seen: map<nat, nat>)
  {
    s.index in seen && |past| <= seen[s.index] <= |now|
    && JobOutcome.StoredAt(StateAt(origin, now, seen[s.index]), job, s)
  }

  /** Descriptors of a job that are sane and were stored when they were read. */
  ghost predicate Listed(
    origin: Global, past: seq<Action>, now: seq<Action>, g: Global, job: string, r: seq<Shard>, seen: map<nat, nat>)
  {
    forall i :: 0 <= i < |r| ==>
      r[i].jobId == job && ShardOk(g.submitted, g.ever, r[i]) && WasStored(origin, past, now, job, r[i], seen)
  }

  lemma NothingListed(
    origin: Global, past: seq<Action>, now: seq<Action>, g: Global, job: string, unreadable: set<ShardId>)
    ensures Listed(origin, past, now, g, job, [], map[]) && AllRead(g.store, {}, unreadable, [])
  {
  }

  /** What was listed stays so while the system runs on. */
  lemma StillListed(
    origin: Global, past: seq<Action>, t0: seq<Action>, t1: seq<Action>, g0: Global, g1: Global, job: string,
    r: seq<Shard>, seen: map<nat, nat>)
    requires Listed(origin, past, t0, g0, job, r, seen)
    requires Later(t0, t1) && Grows(g0.submitted, g1.submitted) && Extends(g0.ever, g1.ever)
    ensures Listed(origin, past, t1, g1, job, r, seen)
  {
    hide StateAt, JobOutcome.StoredAt, ShardOk, Grows;
    forall i | 0 <= i < |r|
      ensures ShardOk(g1.submitted, g1.ever, r[i]) && WasStored(origin, past, t1, job, r[i], seen)
    {
      ShardOkMono(g0.submitted, g1.submitted, g0.ever, g1.ever, r[i]);
      PastIsFixed(origin, t0, t1, seen[r[i].index]);
    }
  }

  lemma StoredNow(g: Global, id: ShardId)
    requires id in g.store.shards && IdOf(g.store.shards[id]) == id
    ensures JobOutcome.StoredAt(g, id.0, g.store.shards[id])
  {
  }

  lemma ListedNext(
    origin: Global, past: seq<Action>, trace: seq<Action>, g: Global, id: ShardId, r: seq<Shard>, seen: map<nat, nat>)
    requires g == Exec(origin, trace) && Later(past, trace) && Inv(g) && id in g.store.shards
    requires Listed(origin, past, trace, g, id.0, r, seen) && forall i :: 0 <= i < |r| ==> r[i].index != id.1
    ensures Listed(origin, past, trace, g, id.0, r + [g.store.shards[id]], seen[id.1 := |trace|])
    ensures IdOf(g.store.shards[id]) == id
  {
    hide Inv, Exec, StateAt, ShardOk, JobOutcome.StoredAt;
    StoredOk(g, id);
    StoredNow(g, id);
    NowIs(origin, trace);
    var r', seen' := r + [g.store.shards[id]], seen[id.1 := |trace|];
    forall i | 0 <= i < |r'|
      ensures WasStored(origin, past, trace, id.0, r'[i], seen')
    {
      if i < |r| {
        assert WasStored(origin, past, trace, id.0, r[i], seen);
      }
    }
  }

  lemma ListedSorted(
    origin: Global, past: seq<Action>, trace: seq<Action>, g: Global, job: string, r: seq<Shard>, sorted: seq<Shard>,
    seen: map<nat, nat>)
    requires Listed(origin, past, trace, g, job, r, seen) && forall s :: s in sorted ==> s in r
    ensures Listed(origin, past, trace, g, job, sorted, seen)
  {
    hide WasStored, ShardOk;
    forall i | 0 <= i < |sorted|
      ensures sorted[i].jobId == job && ShardOk(g.submitted, g.ever, sorted[i])
      ensures WasStored(origin, past, trace, job, sorted[i], seen)
    {
      assert sorted[i] in r;
    }
  }

  /** At most the marker and the descriptor of one shard changed, forwards. */
  predicate TouchesOnly(s0: Store, s1: Store, id: ShardId) {
    s1.markers <= s0.markers && s0.markers - {id} <= s1.markers
    && s1.jobs == s0.jobs && s1.inputs == s0.inputs
    && s1.shards.Keys == s0.shards.Keys
    && (id in s0.shards ==> s0.shards[id].attempts <= s1.shards[id].attempts)
    && forall other :: other in s0.shards && other != id ==> s1.shards[other] == s0.shards[other]
  }

  lemma TouchProgress(s0: Store, s1: Store, s2: Store, id: ShardId)
    requires Progress(s0, s1) && TouchesOnly(s1, s2, id)
    ensures Progress(s0, s2)
  {
  }

  /** The descriptors of these shards are as they were. */
  predicate Untouched(s0: Store, s1: Store, ids: set<ShardId>) {
    forall id :: id in ids ==>
      (id in s1.shards <==> id in s0.shards) && (id in s0.shards ==> s1.shards[id] == s0.shards[id])
  }

  lemma NothingTouched(s: Store, ids: set<ShardId>)
    ensures Untouched(s, s, ids)
  {
  }

  lemma TouchLeaves(
    s0: Store, s1: Store, s2: Store, id: ShardId, rest: set<ShardId>, unreadable: set<ShardId>, now: int)
    requires Untouched(s0, s1, rest) && TouchesOnly(s1, s2, id) && id in rest && SameDocuments(s0, s1)
    ensures Untouched(s0, s2, rest - {id}) && SameDocuments(s0, s2)
    ensures IsFree(s1, id, unreadable, now) ==>
      IsFree(s0, id, unreadable, now) && s0.shards[id] == s1.shards[id]
  {
  }

  lemma OthersMustWait(s0: Store, s1: Store, unreadable: set<ShardId>, id: ShardId, other: ShardId, now: int)
    requires TouchesOnly(s0, s1, id) && other != id && (other in s0.markers ==> MustWait(s0, unreadable, other, now))
    ensures other in s1.markers ==> MustWait(s1, unreadable, other, now)
  {
  }

  /** A stored descriptor names its own key. */
  lemma StoredUnderKey(g: Global, id: ShardId)
    requires Inv(g) && id in g.store.shards
    ensures IdOf(g.store.shards[id]) == id
  {
  }

  /** A client's own enqueue: what it submitted, how far it is, and whether it still runs. */
  function Enqueue(g: Global, job: string): (bool, bool, Option<Submission>, Option<nat>) {
    (job in g.submitted, job in g.open, if job in g.submitted then Some(g.submitted[job]) else None,
     if job in g.progress then Some(g.progress[job]) else None)
  }

  /** Nobody else moves a worker or an enqueue on. */
  lemma OthersLeave(g: Global, a: Action, who: Actor)
    requires !Acts(a, who)
    ensures Next(g, a).maxAttempts == g.maxAttempts
    ensures who.Worker? ==> LocalOf(Next(g, a), who.w) == LocalOf(g, who.w)
    ensures who.Client? ==> Enqueue(Next(g, a), who.job) == Enqueue(g, who.job)
  {
    hide WorkerStep, DocAt, PutDoc;
  }
}
