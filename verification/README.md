# Papermake registry: a Dafny model

This project models the storage protocols of the papermake template registry and proves what they
promise. Everything durable in the registry sits in one key-value store without transactions or
compare-and-set; correctness rests on the order of puts and deletes, on content addressing, and on
work being safe to repeat. The model is about exactly that.

The files, from the hardest part on:

- `Jobs`, `ShardProtocol`, `ShardInvariant`, `JobOutcome`, `ShardPublication`, `ShardResume`,
  `ShardLease`, `LeaseFailures`, `ClaimRace`, `JobItems`: sharded batch jobs as a state machine whose
  step is one storage operation of one process. A schedule is any interleaving of any number of
  clients and workers; a put or delete succeeds, fails without effect, or fails after taking effect;
  a worker may crash between any two operations. Nothing assumes mutual exclusion except where a
  lemma names the lease discipline.
- `ShardWrites`: what each write of a worker stores, field by field, and when it may get to write it.
- `BatchSteps`, `BatchRegistry`: the code of those operations, with its loops, over a storage that
  other processes change before every operation. Each method moves the state machine step by step.
- `TemplateStore`, `TemplateRegistry`, `TemplateListing`: publishing, deleting with mark and sweep,
  resolving and loading through the caches, and the two listings. `history` holds the storage after
  every single put or delete.
- `RenderStaging`, `RenderRetention`: buffered analytics records, concurrent flushes, the expiry
  index, and pruning.
- `Summaries`, `References`, `SampleData`, `Layout`, `MemoryStorage`: the aggregation, the reference
  syntax, the inferred sample data, the keys, and the in-memory store.
- `Prelude`, `Sorting`, `Strings`: shared definitions.

Hashes and render ids are injective constructors of what they are computed from. Clocks, randomness,
the renderer's verdict, read failures and the order of hash-map iteration are arbitrary values.

Things the code does that its comments do not say, with an instance and, but for the last, its exact
condition:

- The poison guard (crates/papermake-registry/src/registry/batch.rs:183-192) ignores the outcome of
  the descriptor write and drops the marker: an unfinished shard can become unreachable.
  `LeaseFailures.PoisonOrphansIff`, `LostPoisonWriteOrphansShard`.
- The scan takes any failed read of a descriptor for a missing one and drops the marker (lines
  160-164 of the same file): `LeaseFailures.ReadErrorOrphansIff`, `ReadErrorOrphansShard`.
- A stale owner can write its copy of a descriptor over a finished one (lines 349-353 and 371-378
  of the same file): `LeaseFailures.StaleOwnerReopensDoneShard`, `ReopensIff`, `TerminalStaysIff`.
- A late write also makes an unfinished shard drop out of every later scan when its marker is already
  cleared, or is about to be deleted by a worker that saw it done: `LeaseFailures.OrphansIff`,
  `NeverOrphanedIff`, `LateReleaseOrphansClearedShard`, `LateReleaseBeforeDropOrphansShard`,
  `MarkerNeverReturns`.
- A ref put or delete that fails after taking effect leaves the ref cache stale
  (crates/papermake-registry/src/registry/publish.rs:74-84, 129-136):
  `TemplateRegistry.TornWriteServesOldHash`, `PutStaleIff`, `DropStaleIff`.
- A meta put that fails after taking effect, or the cap of the analytics buffer, leaves an expiring
  render that no prune will find: `RenderRetention.TornMetaUncoversIff`,
  `TornMetaUncoversFirst`, `CapUncoversIff`, `CapUncoversOlder`.
- The cap of the analytics buffer drops the oldest staged records, as its comment says
  (crates/papermake-registry/src/render_storage/s3_buffered.rs:123-137), while flushes do not overlap;
  where two overlap and fail it can drop a newer one: `RenderStaging.OldestDroppedFirst`,
  `OverlapDropsNewer`.

## Model

| member | source | states |
|---|---|---|
| `Jobs.ShardRange` | crates/papermake-registry/src/registry/batch.rs:63-75 | a shard's range starts inside the inputs, is full unless it is the last, and ends where the next begins or at the total |
| `Jobs.SlicesConcatenate` | crates/papermake-registry/src/registry/batch.rs:63-81 | for every total and shard size, the shards' input slices concatenate to the submitted inputs |
| `Jobs.SlicesArePrefix` | crates/papermake-registry/src/registry/batch.rs:63-81 | the first shards hold exactly a prefix of the inputs, in order |
| `Jobs.ShardOfIndex` | crates/papermake-registry/src/registry/batch.rs:547-549 | item `i` lies in shard `i / size`, and that shard exists |
| `Jobs.ShardOfIndexUnique` | crates/papermake-registry/src/registry/batch.rs:547-549 | no other shard holds item `i` |
| `Jobs.NoShardsNoInputs` | crates/papermake-registry/src/registry/batch.rs:62-64 | a job has no shard exactly when it has no input |
| `Jobs.CompletedIff` | crates/papermake-registry/src/batch.rs:157-202 | the derived status is Completed exactly when every shard is terminal with all its items done, and not all shards were abandoned (or there is none) |
| `Jobs.CompletedWithFailuresIff` | crates/papermake-registry/src/batch.rs:157-202 | CompletedWithFailures exactly when all shards have ended, not all were abandoned, and some shard has items that were not done |
| `Jobs.FailedIff` | crates/papermake-registry/src/batch.rs:157-202 | Failed exactly when every shard of the job is there and was abandoned |
| `Jobs.RunningIff` | crates/papermake-registry/src/batch.rs:157-202 | Running exactly when some shard has not ended and some shard is running or done |
| `Jobs.QueuedIff` | crates/papermake-registry/src/batch.rs:157-202 | Queued exactly when some shard has not ended and none is running or done |
| `Jobs.ViewCounts` | crates/papermake-registry/src/batch.rs:157-202 | the view counts every done item, every failed item and every ended shard of the descriptors once |
| `Jobs.ViewUnique` | crates/papermake-registry/src/batch.rs:157-202 | descriptors have exactly one view |
| `ShardInvariant.NextOk` | crates/papermake-registry/src/registry/batch.rs:137-489 | every storage step of every process keeps descriptors, results and workers' states consistent with the submissions and with what was really persisted, without assuming mutual exclusion |
| `ShardInvariant.ExecOk` | crates/papermake-registry/src/registry/batch.rs:53-489 | the same for every schedule |
| `ShardInvariant.SuccessesPersisted` | crates/papermake-registry/src/registry/batch.rs:405-439 | a run counts no more successes than its items have had persisted by the version that the job's reference resolved to |
| `ShardInvariant.DocAtOk` | crates/papermake-registry/src/registry/batch.rs:73-116 | each document that enqueue writes agrees with its submission |
| `JobOutcome.StoredShardsAreSane` | crates/papermake-registry/src/registry/batch.rs:183-200 | in every reachable state a stored descriptor has its submission's range, done + failed at most len and equal to it when Done, owner and lease exactly while Running, and done at most the items ever persisted as successes by a version the job's reference resolved to |
| `JobOutcome.StoredResultsAreComplete` | crates/papermake-registry/src/registry/batch.rs:363-465 | in every reachable state a stored results document lists exactly its shard's indices in order with the caller's keys and the ids of one version its reference resolved to, nothing pending, and every success had its PDF stored first |
| `JobOutcome.CompletedMeansEveryItemPersisted` | crates/papermake-registry/src/batch.rs:157-187 | whatever the interleaving, and however long the descriptors took to read, a job that reads as Completed has had a success and a PDF persisted for every index: that input, those options, a version its reference resolved to |
| `ShardResume.CompletedMeansTheVersionPersisted` | crates/papermake-registry/src/batch.rs:157-187 | while tags do not move, that is the one render id each input asks for |
| `ShardPublication.MarkerImpliesDocuments` | crates/papermake-registry/src/registry/batch.rs:106-116 | without job pruning, in every reachable state a marker implies job.json, descriptor and inputs |
| `ShardPublication.ClaimFindsDocuments` | crates/papermake-registry/src/registry/batch.rs:207-209 | a worker that loads a claimed shard's job or inputs finds them, under any interleaving |
| `ShardPublication.ExecPublication` | crates/papermake-registry/src/registry/batch.rs:73-116 | publication order as an invariant over every schedule |
| `ShardWrites.ClaimsOnlyFree` | crates/papermake-registry/src/registry/batch.rs:169-200 | under any interleaving a worker gets to a claim, or to giving a shard up, only with a descriptor that was stored when it was read and was pending then, or running on no lease or on one that had run out, below the limit for a claim and at it for giving up |
| `ShardWrites.LeasedIsPassedOver` | crates/papermake-registry/src/registry/batch.rs:169-180 | a descriptor on a live lease sends the scan on to the next marker and changes nothing |
| `ShardWrites.FreeIsTaken` | crates/papermake-registry/src/registry/batch.rs:169-194 | a free descriptor is claimed, or given up after too many claims; a finished one has its marker dropped |
| `ShardWrites.StoresByFields` | crates/papermake-registry/src/registry/batch.rs:183-479 | in every reachable state a claim, an abandonment, a release, a heartbeat and a completion store the shard with the status, owner, lease and attempts that belong to them, heartbeat and completion with the numbers of items that succeeded and failed so far, and touch no other shard |
| `ShardWrites.DoneHasResults` | crates/papermake-registry/src/registry/batch.rs:457-475 | without job pruning, in every reachable state a Done shard has a results document with one result for each of its items |
| `ShardResume.CleanAttemptStoresExpected` | crates/papermake-registry/src/registry/batch.rs:359-465 | with a deterministic renderer and an unmoved tag, an attempt without storage errors stores one particular results document, whatever came before |
| `ShardResume.InterruptedEqualsUninterrupted` | crates/papermake-registry/src/registry/batch.rs:359-465 | two schedules of the same submission, one interrupted any number of times, end in the same results |
| `ShardResume.NextMatches` | crates/papermake-registry/src/registry/batch.rs:403-425 | every step keeps the clean part of every run equal to the expected results; resume skips only what rendering would give |
| `ShardLease.Keeps` | crates/papermake-registry/src/registry/batch.rs:183-200 | a disciplined action changes no terminal descriptor and raises attempts by one exactly if it is a claim, never past the limit |
| `ShardLease.AttemptsCountClaims` | crates/papermake-registry/src/registry/batch.rs:183-200 | in a disciplined run stored attempts are the number of claims and at most max_attempts |
| `ShardLease.TerminalForever` | crates/papermake-registry/src/registry/batch.rs:466-472 | in a disciplined run a Done or Failed descriptor never changes again |
| `ShardLease.UnfinishedShardsKeepMarkers` | crates/papermake-registry/src/registry/batch.rs:160-191 | in a disciplined run in which stored descriptors can be read and poison writes are stored, every unfinished shard of an enqueued job keeps its marker |
| `ShardLease.WriteRespects` | crates/papermake-registry/src/registry/batch.rs:349-387 | what a disciplined write finds in the descriptor it overwrites |
| `LeaseFailures.StaleOwnerReopensDoneShard` | crates/papermake-registry/src/registry/batch.rs:349-353 | without the discipline: a concrete run in which a stale owner's release turns a Done shard back to Pending |
| `LeaseFailures.ReopensIff` | crates/papermake-registry/src/registry/batch.rs:349-387 | in every reachable state without job pruning an action reopens a terminal shard exactly when it is a claim, a release or a heartbeat whose write reaches that shard's descriptor |
| `LeaseFailures.TerminalStaysIff` | crates/papermake-registry/src/registry/batch.rs:466-472 | a shard stays terminal from some point of a run on exactly when no such write follows |
| `LeaseFailures.LateWriteIsUndisciplined` | crates/papermake-registry/src/registry/batch.rs:349-387 | such a write breaks the lease discipline |
| `LeaseFailures.OrphansIff` | crates/papermake-registry/src/registry/batch.rs:160-192 | in every reachable state without job pruning an action orphans a stored shard (unfinished, without marker) exactly when it deletes the marker while the stored descriptor is unfinished, or is a late claim, release or heartbeat that reopens a finished shard whose marker is gone |
| `LeaseFailures.NeverOrphanedIff` | crates/papermake-registry/src/registry/batch.rs:160-192 | a shard is never orphaned from some point of a run on exactly when no such action follows |
| `LeaseFailures.LateReleaseOrphansClearedShard` | crates/papermake-registry/src/registry/batch.rs:349-353 | a run from an empty store: the marker of a finished shard is cleared and then a stale owner reopens the shard |
| `LeaseFailures.LateReleaseBeforeDropOrphansShard` | crates/papermake-registry/src/registry/batch.rs:166-176 | a run from an empty store: a worker reads a finished shard, a stale owner reopens it, the worker deletes the marker |
| `LeaseFailures.ReadErrorOrphansIff` | crates/papermake-registry/src/registry/batch.rs:160-176 | whatever other processes do between a scan's read and the worker's next write, that write takes the marker from a shard unfinished by then exactly when the read failed, or found the shard finished, and the write is not lost |
| `LeaseFailures.ReadErrorOrphansShard` | crates/papermake-registry/src/registry/batch.rs:160-164 | a concrete run of it, from an empty store |
| `LeaseFailures.MarkerNeverReturns` | crates/papermake-registry/src/registry/batch.rs:106-116 | a marker that enqueue has written and that is gone never comes back, so such a shard stays out of every later scan |
| `LeaseFailures.PoisonOrphansIff` | crates/papermake-registry/src/registry/batch.rs:183-192 | whatever other processes do in between, the poison guard leaves an orphan exactly when the shard is unfinished at the delete and the delete is not lost or the marker was gone; with nothing in between, exactly when the descriptor write is lost and the delete is not |
| `LeaseFailures.LostPoisonWriteOrphansShard` | crates/papermake-registry/src/registry/batch.rs:183-192 | a concrete run that reaches such a state |
| `ClaimRace.LatestWriterOwns` | crates/papermake-registry/src/registry/batch.rs:194-200 | the descriptor names the latest claimant |
| `ClaimRace.ConfirmsIffLatest` | crates/papermake-registry/src/registry/batch.rs:200-205 | a read-back confirms exactly when the worker's write is the latest at that moment |
| `ClaimRace.TwoWorkersRace` | crates/papermake-registry/src/registry/batch.rs:194-205 | a race of two does happen, and only the later writer keeps the shard |
| `ClaimRace.ExactlyOneConfirms` | crates/papermake-registry/src/registry/batch.rs:194-211 | when all writes precede all read-backs exactly one of the racing workers confirms: the last writer |
| `BatchRegistry.Registry.ClaimNextShard` | crates/papermake-registry/src/registry/batch.rs:137-214 | the marker loop as written, following the protocol machine; left alone it returns nothing only if every remaining marker is undecodable or leased, fails only on a missing document, each claim uses up one of the claims left, and what it claims was pending, or running on no lease or on one that had run out |
| `BatchRegistry.Registry.TryClaim` | crates/papermake-registry/src/registry/batch.rs:155-211 | one marker: left alone a leased or undecodable shard is not claimed and no descriptor changes, and without storage errors nothing does; it claims exactly if the descriptor is there, decodes, is pending or expired and has claims left, and otherwise drops the marker if the shard is missing or terminal and abandons it if out of claims |
| `BatchRegistry.Registry.GiveUp` | crates/papermake-registry/src/registry/batch.rs:183-192 | the poison guard abandons the shard and drops its marker, and changes nothing else |
| `BatchRegistry.Registry.HeartbeatShard` | crates/papermake-registry/src/registry/batch.rs:246-261 | on a read error, a missing or an undecodable descriptor the run goes on and nothing is written; another owner ends it, with nothing written; otherwise the lease is renewed and, left alone without storage errors, stored |
| `BatchRegistry.Registry.RenderOne` | crates/papermake-registry/src/registry/batch.rs:625-737 | data, rendering, PDF, meta, analytics in this order; a success was persisted with its PDF; left alone it is stored with its data, and without storage errors a failed rendering is stored as a failure |
| `BatchRegistry.Registry.RunItems` | crates/papermake-registry/src/registry/batch.rs:363-455 | the item loop: stop, resume probe, rendering, counting and heartbeat, step by step with the machine; left alone and without storage errors, on a later attempt every input whose success was stored at the start is listed as a success, and every other input was rendered; only another owner makes it abandon the shard |
| `BatchRegistry.Registry.RunItem` | crates/papermake-registry/src/registry/batch.rs:405-425 | on a later attempt a stored success counts as one and nothing is written; a stored failure, or anything on a first attempt, is rendered and its outcome stored; a success was persisted, PDF first; no other render's meta changes |
| `BatchRegistry.Registry.AlreadySucceeded` | crates/papermake-registry/src/registry/batch.rs:405-417 | without storage errors the probe says yes exactly when this is a later attempt and a success is stored; it never says yes otherwise |
| `BatchRegistry.Registry.BeatIfDue` | crates/papermake-registry/src/registry/batch.rs:441-455 | a heartbeat stores the counts so far; the run goes on unless storage names another owner |
| `BatchRegistry.Registry.FinishShard` | crates/papermake-registry/src/registry/batch.rs:457-479 | results, then the done descriptor, then the marker |
| `BatchRegistry.Registry.RunClaimedShard` | crates/papermake-registry/src/registry/batch.rs:317-489 | left alone, a completed run leaves a Done descriptor whose counts are those of the stored results and no marker, and with steady rendering exactly the expected results; on a later attempt every input whose success was stored at the start is a success in these results, whatever rendering answers now; any other ending keeps the marker, and a shard not prepared or stopped is pending again, unowned, with its attempts |
| `BatchRegistry.Registry.Drain` | crates/papermake-worker/src/main.rs:197-245 | left alone, one worker's claim-and-run loop ends without shutdown and makes at most as many claims as the outstanding shards have left, whatever each run's outcome; without storage errors and missing documents it ends only when every marker that is left is undecodable or leased |
| `BatchSteps.DrainBound` | crates/papermake-worker/src/main.rs:197-245 | that bound is the sum of max_attempts - attempts over the outstanding shards |
| `BatchSteps.ClaimUsesToken` | crates/papermake-registry/src/registry/batch.rs:194-200 | a claim strictly shrinks the set of claims left |
| `BatchRegistry.Registry.EnqueueBatchJob` | crates/papermake-registry/src/registry/batch.rs:53-126 | success means every document of the submission was written; left alone exactly a prefix of them was, in publication order |
| `BatchSteps.EnqueueStoresTheJob` | crates/papermake-registry/src/registry/batch.rs:73-116 | the whole sequence of puts leaves every shard's slice, pending descriptor and marker, and the job |
| `BatchRegistry.Registry.ListJobItems` | crates/papermake-registry/src/registry/batch.rs:533-558 | under interleaving a page ascends inside its window and is the window of the results stored when each shard was read; left alone it is exactly the page of the store |
| `BatchRegistry.Registry.GetBatchJob` | crates/papermake-registry/src/registry/batch.rs:505-529 | the view of descriptors each stored when it was read: its status by their statuses and counts, its counts their sums; a job reported as Completed has a success and a PDF persisted for every input by a version its reference resolved to |
| `BatchRegistry.Registry.ListJobShards` | crates/papermake-registry/src/registry/batch.rs:512-529 | descriptors read one by one while others write come out consistent, strictly ascending by index, each as stored when read; left alone and without storage errors they are all that decode |
| `JobItems.PageIsExact` | crates/papermake-registry/src/registry/batch.rs:533-558 | a page holds exactly the stored results with index in [offset, min(offset + limit, total)), ascending, saturation included |
| `JobItems.PagesConcatenate` | crates/papermake-registry/src/registry/batch.rs:543-558 | consecutive pages concatenate to one large page, also where the limit saturates |
| `JobItems.PageNeedsOnlyOverlap` | crates/papermake-registry/src/registry/batch.rs:547-556 | only the shards that overlap the window contribute |
| `TemplateStore.BundleMakesManifest` | crates/papermake-registry/src/bundle.rs:137-192 | a bundle that validates always makes a valid manifest with a text entry point |
| `TemplateStore.BundleIff` | crates/papermake-registry/src/bundle.rs:137-192 | what may be published: text as main file, a name and an author, a schema that is JSON, and further files under relative paths without two dots in a row that are not the main file |
| `TemplateStore.ManifestIff` | crates/papermake-registry/src/manifest.rs:105-149 | a manifest that is read back is held to the same, with the main file among its files |
| `TemplateStore.SweepCloses` | crates/papermake-registry/src/registry/publish.rs:187-208 | deleting any part of the dead blobs, and then the manifest, keeps every ref complete |
| `TemplateStore.DeadIsUnneeded` | crates/papermake-registry/src/registry/publish.rs:176-194 | the sweep deletes exactly the orphan's blobs that no remaining ref needs |
| `TemplateStore.BlindSweepClosesIff` | crates/papermake-registry/src/registry/publish.rs:157-185 | a sweep that cannot read some refs or manifests keeps closure exactly when a ref that was read points to the manifest, or no unread ref does and every blob it shares with a referenced template is listed by a manifest that was read |
| `TemplateStore.BlindSweepCanBreak` | crates/papermake-registry/src/registry/publish.rs:157-163 | a concrete store that such a sweep leaves dangling |
| `TemplateStore.PublishedCloses` | crates/papermake-registry/src/registry/publish.rs:31-79 | publishing a valid bundle keeps a store closed |
| `TemplateStore.PublishDeleteIsIdentity` | crates/papermake-registry/src/registry/publish.rs:14-212 | on a closed, garbage-free store, publishing an absent version and deleting it gives back the same store |
| `TemplateRegistry.Registry.Publish` | crates/papermake-registry/src/registry/publish.rs:14-88 | after each single put every ref is complete; success adds exactly this template; rejected input touches nothing; the outcome of the ref put alone decides the refs and the ref cache |
| `TemplateRegistry.Registry.DeleteVersion` | crates/papermake-registry/src/registry/publish.rs:105-139 | after each single delete every ref is complete; success leaves the store without the version and what only it needed, and reports the distinct blobs removed; the outcome of the ref delete alone decides the refs and the ref cache |
| `TemplateRegistry.Registry.GcOrphaned` | crates/papermake-registry/src/registry/publish.rs:143-212 | the mark and sweep loops compute the sweep of their specification, with whatever could not be read |
| `TemplateRegistry.Registry.DropBlobDocs` | crates/papermake-registry/src/registry/publish.rs:195-201 | the blobs go one by one, and the store is closed after each of them |
| `TemplateRegistry.Registry.Resolve` | crates/papermake-registry/src/registry/publish.rs:226-274 | with any evictions, a reference whose cached resolution is not stale is answered as without the cache, and any other as what is left of the cache says; an answer to a reference that pins a hash has that hash |
| `TemplateRegistry.PutStaleIff` | crates/papermake-registry/src/registry/publish.rs:74-84 | a ref put leaves its cached resolution stale exactly when it fails after taking effect while another hash is cached, or has no effect on a stale one |
| `TemplateRegistry.DropStaleIff` | crates/papermake-registry/src/registry/publish.rs:129-136 | a ref delete does so exactly when it fails after taking effect while anything is cached, or has no effect on a stale one |
| `TemplateRegistry.CacheIsInvisibleIff` | crates/papermake-registry/src/registry/publish.rs:226-274 | the cached and the uncached answer are equal exactly when the resolution is not stale, or the reference pins a hash that matches neither |
| `TemplateRegistry.TornWriteServesOldHash` | crates/papermake-registry/src/registry/publish.rs:74-84 | publish, torn republish, resolve: the cache answers the old hash; publish, torn delete, resolve: it answers what is gone |
| `TemplateRegistry.Serve` | crates/papermake-registry/src/registry/publish.rs:14-368 | if a ref write that fails has no effect, every sequence of publishes, deletes, resolves and loads is answered as by a registry without caches: rejected and absent input with its own error and an unchanged store, any other failure as a storage failure that moves at most the deleted ref |
| `TemplateRegistry.Registry.LoadTemplate` | crates/papermake-registry/src/registry/publish.rs:305-368 | through both caches, what is returned is the whole template that the reference resolved to, and a reference whose cached resolution is not stale is answered as without caches |
| `TemplateRegistry.ResolvedLoads` | crates/papermake-registry/src/registry/publish.rs:305-368 | in a closed store whatever resolves also loads, as the template that was published |
| `TemplateRegistry.PublishedLoads` | crates/papermake-registry/src/registry/publish.rs:14-368 | a published version loads under `name:tag` as the bundle that was given: main file, metadata, and every file under its plain and rooted path |
| `TemplateRegistry.Registry.Hydrate` | crates/papermake-registry/src/registry/render.rs:157-237 | every file is there under its plain and its rooted path, and nothing else is |
| `TemplateListing.RefKeyParses` | crates/papermake-registry/src/registry/templates.rs:220-240 | a version's key parses back to its name and tag |
| `TemplateListing.PathParses` | crates/papermake-registry/src/registry/templates.rs:242-262 | a path splits into namespace and last segment and joins back to itself |
| `TemplateListing.GetTemplateInfo` | crates/papermake-registry/src/registry/templates.rs:137-202 | the prefix scan finds a template exactly when it has a tag, and describes it: sorted tags, latest or first manifest |
| `TemplateListing.GroupKeys` | crates/papermake-registry/src/registry/templates.rs:42-65 | one pass over the keys gathers, for every template, exactly its tags, each once, and the key of latest |
| `TemplateListing.ListTemplates` | crates/papermake-registry/src/registry/templates.rs:34-130 | the full scan lists every template once, by ascending full name, rightly described |
| `TemplateListing.PrefixScanRefinesFullScan` | crates/papermake-registry/src/registry/templates.rs:34-202 | both scans agree: found exactly when listed, and equal, with no bleed from longer names |
| `TemplateListing.DescriptionUnique` | crates/papermake-registry/src/registry/templates.rs:59-110 | a store determines a template's description |
| `TemplateListing.LatestDescribes` | crates/papermake-registry/src/registry/templates.rs:59-110 | a template is described by its latest version if there is one, else by the one with the first tag |
| `TemplateListing.ClosedStoreLists` | crates/papermake-registry/src/registry/templates.rs:34-130 | a closed store of published refs meets what both scans need |
| `References.ParsePrinted` | crates/papermake-registry/src/reference.rs:14-97 | parsing a printed valid reference gives it back, the default tag made explicit |
| `References.PrintParsed` | crates/papermake-registry/src/reference.rs:258-272 | for any lower-casing that does to ASCII what Unicode does, a parsed reference is valid and prints as its lower-cased source with the default tag made explicit |
| `References.PublishableIffResolvable` | crates/papermake-registry/src/reference.rs:233-243 | a name and tag are accepted for publishing exactly when `name:tag` parses to that full name and tag |
| `References.ParseByParts` | crates/papermake-registry/src/reference.rs:14-97 | a reference is cut at its last at-sign, then its last colon, then its last slash, and the first bad part in the order hash, tag, namespace, name decides the error |
| `References.PartsByParts` | crates/papermake-registry/src/reference.rs:233-243 | parts to publish under are judged in the order namespace, name, tag |
| `References.SegmentIff` | crates/papermake-registry/src/reference.rs:124-198 | names and namespaces have 1 to 255 lower-case letters, digits, dots, dashes and underscores, a letter or digit at both ends |
| `References.TagIff` | crates/papermake-registry/src/reference.rs:200-231 | tags have 1 to 128 of these characters |
| `References.HashIff` | crates/papermake-registry/src/reference.rs:100-122 | hashes are `sha256:` and 64 hexadecimal digits |
| `References.RefKeyInjective` | crates/papermake-registry/src/address.rs:32-34 | different versions have different ref keys |
| `RenderStaging.NoRecordLost` | crates/papermake-registry/src/render_storage/s3_buffered.rs:93-189 | with any interleaving of store_render and flushes and any failing put, every staged record is in the buffer, in a flush, in a raw object of its date, or dropped |
| `RenderStaging.FinishedFlushIsDurable` | crates/papermake-registry/src/render_storage/s3_buffered.rs:140-189 | a flush that finishes has filed every record it took, raw and under its expiry date |
| `RenderStaging.NothingOverwritten` | crates/papermake-registry/src/render_storage/s3_buffered.rs:155-187 | no put ever overwrites an object of this instance |
| `RenderStaging.DropsIff` | crates/papermake-registry/src/render_storage/s3_buffered.rs:109-136 | in every reachable state records are dropped exactly by a failing put whose batch, with what was staged since, exceeds the cap |
| `RenderStaging.NothingDroppedUnderCap` | crates/papermake-registry/src/render_storage/s3_buffered.rs:109-136 | while the records that wait fit under the cap nothing is dropped, however many pass through and however flushes fail or overlap |
| `RenderStaging.OldestDroppedFirst` | crates/papermake-registry/src/render_storage/s3_buffered.rs:93-136 | while flushes do not overlap, records wait in the order they were staged in, those of a flush under way first, and what is dropped is older than all that wait |
| `RenderStaging.OverlapDropsNewer` | crates/papermake-registry/src/render_storage/s3_buffered.rs:109-136 | where two failing flushes overlap it need not be so: a run in which the newer of two records is dropped |
| `RenderStaging.IndexedIsFiled` | crates/papermake-registry/src/render_storage/s3_buffered.rs:140-187 | whatever fails and overlaps, a record that the expiry index names is in a raw object |
| `RenderRetention.RenderStore.Flush` | crates/papermake-registry/src/render_storage/s3_buffered.rs:93-121 | success empties the buffer into exactly one raw object per render date and one index object per expiry date and covers what was covered; failure keeps the newest staged records in order and uncovers at most what the cap drops |
| `RenderRetention.RenderStore.StoreRender` | crates/papermake-registry/src/render_storage/s3_buffered.rs:208-218 | run one at a time, the buffer stays a suffix of the unflushed records of length at most max(flush_max - 1, max_buffered); the render is covered, and a failed flush uncovers at most what the cap drops |
| `RenderRetention.RenderStore.WriteRaw` | crates/papermake-registry/src/render_storage/s3_buffered.rs:140-165 | the grouping loop files exactly the records of each render date in order |
| `RenderRetention.RenderStore.WriteIndex` | crates/papermake-registry/src/render_storage/s3_buffered.rs:167-187 | the grouping loop files exactly the ids of each expiry date in order |
| `RenderRetention.RenderStore.Render` | crates/papermake-registry/src/registry/batch.rs:667-737 | the stored meta has no expiry, or the one so many days after its date, as the render's own retention says if it has one, also if that is zero, else its template's, else the global one; success covers the render and uncovers none, and a failure stored no meta, or a torn meta that uncovers at most this render, or met a failed flush that uncovers at most what the cap drops |
| `RenderRetention.RetentionPrecedence` | crates/papermake-registry/src/render_storage/retention.rs:21-38 | that determines the record: per-render before per-template before global, zero days and dates past the calendar meaning no expiry |
| `RenderRetention.RenderStore.Prune` | crates/papermake-registry/src/render_storage/retention.rs:64-141 | a render that is unset, unreadable or in the future, or not listed by a due index object, is never deleted, and none is uncovered; on success every render that such an object lists is gone with its artifacts unless its meta keeps it, also one that a prune before left without a meta; what is still due is staged or was uncovered before; all three counts are exact |
| `RenderRetention.RenderStore.ExpiryEntryIsDue` | crates/papermake-registry/src/render_storage/retention.rs:198-222 | an entry is due exactly when the render is gone, or its current meta can be read and has an expiry that has come |
| `RenderRetention.FlushThenPrune` | crates/papermake-registry/src/render_storage/retention.rs:64-141 | flush then prune leaves no due render except those uncovered before, uncovers none, touches nothing that is not due, and deletes the artifacts of what it prunes |
| `RenderRetention.RunThenSweep` | crates/papermake-registry/src/render_storage/retention.rs:64-141 | for every sequence of renders, flushes and prunes, whatever fails: uncovered are at most the renders that the logged failed flushes dropped over the cap and those with a torn meta put, and a sweep that succeeds leaves no other render due; so with no drop and no torn meta put none is uncovered, however long the run; without failures what remains is exactly the last meta of every render not yet due |
| `RenderRetention.ShortRunsDropNothing` | crates/papermake-registry/src/render_storage/s3_buffered.rs:109-136 | a run whose renders all fit under the cap drops nothing |
| `RenderRetention.CapUncoversIff` | crates/papermake-registry/src/render_storage/s3_buffered.rs:127-137 | the cap uncovers a render exactly when all staged records of its expiry are dropped and no index object names it |
| `RenderRetention.TornMetaUncoversIff` | crates/papermake-registry/src/registry/batch.rs:700-737 | a meta put that fails after taking effect uncovers its render exactly when that expires on a date under which it is neither staged nor indexed |
| `RenderRetention.CapUncoversOlder` | crates/papermake-registry/src/render_storage/s3_buffered.rs:127-137 | a buffer of two under a cap of one leaves the older render uncovered |
| `RenderRetention.TornMetaUncoversFirst` | crates/papermake-registry/src/registry/batch.rs:700-737 | from an empty store one torn meta put of an expiring render leaves it uncovered |
| `RenderRetention.FlushCovers` | crates/papermake-registry/src/render_storage/s3_buffered.rs:167-187 | a successful flush covers exactly the renders that were covered: staged entries become indexed ones |
| `Summaries.ComputeSummary` | crates/papermake-registry/src/render_storage/summary.rs:88-253 | every rollup computed by the loops is the one defined for the newest record of each render id |
| `Summaries.Dedup` | crates/papermake-registry/src/render_storage/summary.rs:92-105 | exactly one record per id, one with the latest time |
| `Summaries.PercentileIsNearest` | crates/papermake-registry/src/render_storage/summary.rs:247-253 | a percentile is the value at the position nearest to that percentage of the way through the ascending values |
| `Summaries.VolumeByFields` | crates/papermake-registry/src/render_storage/summary.rs:107-125 | per day, ascending, how many records there are and how many failed |
| `Summaries.DurationsByFields` | crates/papermake-registry/src/render_storage/summary.rs:127-150 | per day, ascending, how many successes there are |
| `Summaries.HistogramByFields` | crates/papermake-registry/src/render_storage/summary.rs:152-168 | the six buckets by their edges |
| `Summaries.TemplatesByFields` | crates/papermake-registry/src/render_storage/summary.rs:170-215 | templates by number of records, most first, equal ones by name, each with its tags |
| `Summaries.TagsByFields` | crates/papermake-registry/src/render_storage/summary.rs:170-215 | tags in the same way |
| `Summaries.TotalsByFields` | crates/papermake-registry/src/render_storage/summary.rs:217-241 | the totals count the records of the last 24 hours and their successes |
| `Summaries.SummaryUnique` | crates/papermake-registry/src/render_storage/summary.rs:107-241 | a set of records has exactly one summary, ordering of the lists included |
| `Summaries.OrderAndRepetitionDoNotMatter` | crates/papermake-registry/src/render_storage/summary.rs:88-105 | if equal id and time mean equal record, reordering or repeating the input changes nothing |
| `Summaries.FiguresAgree` | crates/papermake-registry/src/render_storage/summary.rs:107-241 | volume and template totals add up to the distinct ids, the histogram to volume less failures, tags to their template, and p90 <= p95 <= p99 |
| `Summaries.DurationByDay` | crates/papermake-registry/src/render_storage/summary.rs:127-150 | per day of successes: count, sum and nearest-rank percentiles of the ascending durations |
| `Summaries.Histogram` | crates/papermake-registry/src/render_storage/summary.rs:152-168 | each bucket counts the successes between its edges |
| `SampleData.InsertCommutes` | crates/papermake-server/src/routes/ui/infer.rs:127-150 | inserting two paths in either order gives the same object |
| `SampleData.InsertTwice` | crates/papermake-server/src/routes/ui/infer.rs:127-150 | inserting a path twice is inserting it once |
| `SampleData.OnlyTheSetMatters` | crates/papermake-server/src/routes/ui/infer.rs:112-150 | the object depends only on the set of inserted paths |
| `SampleData.PathsAreThePrefixes` | crates/papermake-server/src/routes/ui/infer.rs:127-150 | the object's paths are exactly the prefixes of the inserted paths, and a node is a string exactly when no inserted path goes on below it |
| `SampleData.InsertJsonPath` | crates/papermake-server/src/routes/ui/infer.rs:127-150 | the recursive insertion computes its specification |
| `SampleData.FieldsResolve` | crates/papermake-server/src/routes/ui/infer.rs:112-125 | every field resolves in the sample |
| `SampleData.SampleDependsOnFieldSet` | crates/papermake-server/src/routes/ui/infer.rs:112-125 | the sample depends only on which fields there are |
| `SampleData.MentionUnique` | crates/papermake-server/src/routes/ui/infer.rs:1-31 | a source mentions at most one field at its front, and takes one length for it |
| `SampleData.ScanUnique` | crates/papermake-server/src/routes/ui/infer.rs:1-31 | a source has exactly one scan: mentions from left to right that do not overlap and leave out none that starts outside them |
| `SampleData.InferDataFields` | crates/papermake-server/src/routes/ui/infer.rs:1-31 | the fields of the source's one scan, each with its exact length, in the order of their first mention; blank ones and repetitions left out |
| `SampleData.ParseDataPath` | crates/papermake-server/src/routes/ui/infer.rs:33-52 | the longest dotted identifier path after `data.`, unless it starts with `at` |
| `SampleData.ParseQuoted` | crates/papermake-server/src/routes/ui/infer.rs:86-102 | the text up to the first unescaped quote, backslashes taken off |
| `SampleData.CallsMention` | crates/papermake-server/src/routes/ui/infer.rs:1-31 | `data.at` and `field` with a quoted key mention the key, with either kind of quotes |
| `SampleData.PathMentions` | crates/papermake-server/src/routes/ui/infer.rs:1-52 | `data.` and a dotted path mention that path, unless it starts with `at` |
| `SampleData.PathOfParts` | crates/papermake-server/src/routes/ui/infer.rs:112-125 | the path of a field is its parts between the dots |
| `SampleData.IdentIff` | crates/papermake-server/src/routes/ui/infer.rs:54-71 | identifiers are letters, underscores and, after the first place, digits |
| `SampleData.SampleFor` | crates/papermake-server/src/routes/ui/infer.rs:1-125 | each inferred field resolves in the sample built from them |
| `Layout.PendingKeyParses` | crates/papermake-registry/src/render_storage/layout.rs:42-56 | a pending key parses back to its job and shard |
| `Layout.PendingKeysDiffer` | crates/papermake-registry/src/render_storage/layout.rs:42-44 | different shards have different pending keys |
| `Layout.SignedKeyParses` | crates/papermake-registry/src/render_storage/layout.rs:52-56 | an index with a plus sign before it is read as well, one with a minus sign is not |
| `Layout.MarkersOutsideJobs` | crates/papermake-registry/src/render_storage/layout.rs:31-49 | no marker lies under a job's own prefix |
| `Layout.PartitionDateParses` | crates/papermake-registry/src/render_storage/layout.rs:92-148 | the partition date is read back exactly for dates not before year zero |
| `Layout.LeapsCounted` | crates/papermake-registry/src/render_storage/layout.rs:138-148 | leap years are one in four, but for the centuries, but for every fourth of these |
| `MemoryStorage.MemoryStorage.ListKeys` | crates/papermake-registry/src/storage/blob_storage.rs:136-152 | the keys with the prefix, each once, ascending |
| `MemoryStorage.MemoryStorage.DeleteMany` | crates/papermake-registry/src/storage/blob_storage.rs:48-56 | exactly the named keys are gone, absent or not |
| `MemoryStorage.ListingUnique` | crates/papermake-registry/src/storage/blob_storage.rs:136-152 | a listing is determined by the stored keys |

## Left out

- Typst compilation, fonts and PDF export: a foreign library; rendering is an arbitrary verdict, a function of the render id where determinism is assumed.
- The S3 client with its retries and backoff, HTTP routes, page markup, configuration and locales: plumbing around the operations modelled here.
- JSON encoding and date arithmetic: codecs are taken to invert each other, dates are day numbers except in `Layout`, times are integers; descriptors that do not decode are modelled in `BatchRegistry`, undecodable metas in `RenderRetention`.
- Floating point: averages and rates are kept as sum and count, percentiles as rounding on ranks.
- The lists of recent renders in a summary: with equal timestamps their order depends on hash-map iteration, so they are not a function of the records.
- `TemplateRegistry.Registry.Resolve`: is about storage whose reads of stored keys succeed.
- `TemplateRegistry.Registry.LoadTemplate`: the same; the cache of parsed fonts and the fetch timeout are not modelled.
- Concurrent `publish` and `delete_version`, and pruning concurrent with a re-render of the same id: the code does not guard them, and these operations do not overlap here.
- `RenderRetention.RenderStore.Prune`: leaves out the batch-job part of pruning, which in `ShardProtocol` is an arbitrary deletion of job documents; the analytics cutoff is not checked against the calendar's first date.
- `RenderStaging.NoRecordLost`: does not include losing the process, nor the later pruning of raw objects.
- `ShardLease.UnfinishedShardsKeepMarkers`: assumes that reads of stored descriptors succeed and that poison writes reach storage, since the code drops the marker otherwise (`LeaseFailures.ReadErrorOrphansIff`, `LeaseFailures.PoisonOrphansIff`).
- `SampleData.InsertJsonPath`: works on values; the in-place update of nested maps, which nothing else refers to, is not modelled. Printing is left out: keys are sorted, so equal objects print alike.
- The order in which workers try markers is a per-worker hash in the original; any order is allowed here.
- The synchronous `batch_render` and single renders appear only as external renders of the same ids.
- Render slots and leaked render tasks: a small counter machine beside the rest.
- Lock poisoning of the in-memory storage.
