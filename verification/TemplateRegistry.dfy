/**
 The template registry of crates/papermake-registry/src/registry/publish.rs as it is written:
 puts and deletes one at a time, any of which may fail with or without effect, the mark-sweep
 loops, and the two in-process caches with arbitrary evictions. `history` holds the storage after
 every single step, so what holds of all of `history` holds between every two storage steps,
 wherever an operation is cut off.
 */
module TemplateRegistry {
  import opened Prelude
  import opened References
  import opened TemplateStore

  datatype Error =
    | InvalidReference(reason: RefError)
    | InvalidBundle
    | InvalidManifest
    | InvalidEntrypoint
    | NotFound
    | HashMismatch
    | StorageFailed

  datatype Summary = Summary(manifestDeleted: bool, manifestKept: bool, blobsDeleted: nat)

  /** Everything needed to render: `files` maps plain and rooted paths to contents. */
  datatype Loaded = Loaded(hash: ManifestHash, manifest: Manifest, entrypoint: Content, files: map<string, Content>)

  /** How text is lower-cased and how a manifest hash is written out. */
  datatype Env = Env(lower: string -> string, text: ManifestHash -> string)

  function KeyOf(r: Reference): RefName {
    (FullName(r), TagOrDefault(r))
  }

  // ----- what resolving and loading say without any cache -----

  function Verify(r: Reference, h: ManifestHash, env: Env): Result<ManifestHash, Error> {
    if r.hash.Some? && env.text(h) != r.hash.value then Err(HashMismatch) else Ok(h)
  }

  function ResolveSpec(s: Store, env: Env, reference: string): Result<ManifestHash, Error> {
    match Parse(env.lower, reference)
    case Err(e) => Err(InvalidReference(e))
    case Ok(r) => if KeyOf(r) !in s.refs then Err(NotFound) else Verify(r, s.refs[KeyOf(r)], env)
  }

  /** The in-memory file system: every file under its path and under the rooted path. */
  function Rooted(files: map<string, Content>): map<string, Content> {
    files + map q | q in set p | p in files :: "/" + p :: files[q[1..]]
  }

  function FilesIn(s: Store, m: Manifest): map<string, Content>
    requires Listed(m) <= s.blobs.Keys
  {
    map p | p in m.files :: s.blobs[m.files[p]]
  }

  function LoadSpec(s: Store, env: Env, reference: string): Result<Loaded, Error> {
    match ResolveSpec(s, env, reference)
    case Err(e) => Err(e)
    case Ok(h) =>
      if h !in s.manifests then Err(StorageFailed)
      else
        var m := s.manifests[h];
        if !ValidManifest(m) then Err(InvalidManifest)
        else if m.files[ENTRYPOINT] !in s.blobs then Err(StorageFailed)
        else if !s.blobs[m.files[ENTRYPOINT]].utf8 then Err(InvalidEntrypoint)
        else if !(Listed(m) <= s.blobs.Keys) then Err(StorageFailed)
        else Ok(Loaded(h, m, s.blobs[m.files[ENTRYPOINT]], Rooted(FilesIn(s, m))))
  }

  // ----- the ref cache -----

  /** A cached resolution that storage no longer agrees with. */
  predicate Stale(refs: map<RefName, ManifestHash>, cache: map<RefName, ManifestHash>, key: RefName) {
    key in cache && !(key in refs && refs[key] == cache[key])
  }

  /** Refs and cache after a ref put, and after a ref delete: the cache follows only what succeeds. */
  function RefsAfterPut(
    refs: map<RefName, ManifestHash>, key: RefName, h: ManifestHash, io: Io): map<RefName, ManifestHash>
  {
    if io == Lost then refs else refs[key := h]
  }

  function CacheAfterPut(
    cache: map<RefName, ManifestHash>, key: RefName, h: ManifestHash, io: Io): map<RefName, ManifestHash>
  {
    if io == Good then cache[key := h] else cache
  }

  function RefsAfterDrop(refs: map<RefName, ManifestHash>, key: RefName, io: Io): map<RefName, ManifestHash> {
    if io == Lost then refs else refs - {key}
  }

  function CacheAfterDrop(cache: map<RefName, ManifestHash>, key: RefName, io: Io): map<RefName, ManifestHash> {
    if io == Good then cache - {key} else cache
  }

  /**
   A ref put leaves its cached resolution stale exactly when it fails after taking effect while
   another hash is cached, or has no effect on one that was stale. Other refs are as they were.
   */
  lemma PutStaleIff(
    refs: map<RefName, ManifestHash>, cache: map<RefName, ManifestHash>, key: RefName, h: ManifestHash, io: Io,
    k: RefName)
    ensures
      Stale(RefsAfterPut(refs, key, h, io), CacheAfterPut(cache, key, h, io), k)
      <==> if k != key || io == Lost then Stale(refs, cache, k) else io == Torn && key in cache && cache[key] != h
  {
  }

  /** A ref delete leaves it stale exactly when it fails after taking effect while anything is cached. */
  lemma DropStaleIff(
    refs: map<RefName, ManifestHash>, cache: map<RefName, ManifestHash>, key: RefName, io: Io, k: RefName)
    ensures
      Stale(RefsAfterDrop(refs, key, io), CacheAfterDrop(cache, key, io), k)
      <==> if k != key || io == Lost then Stale(refs, cache, k) else io == Torn && key in cache
  {
  }

  /** What resolving answers when the cache holds this. */
  function ResolveCached(
    s: Store, cache: map<RefName, ManifestHash>, env: Env, reference: string): Result<ManifestHash, Error>
  {
    match Parse(env.lower, reference)
    case Err(e) => Err(InvalidReference(e))
    case Ok(r) =>
      if KeyOf(r) in cache then Verify(r, cache[KeyOf(r)], env)
      else if KeyOf(r) !in s.refs then Err(NotFound)
      else Verify(r, s.refs[KeyOf(r)], env)
  }

  /** The reference names a ref whose cached resolution is stale. */
  predicate AsksStale(s: Store, cache: map<RefName, ManifestHash>, env: Env, reference: string) {
    Parse(env.lower, reference).Ok? && Stale(s.refs, cache, KeyOf(Parse(env.lower, reference).value))
  }

  /** The reference pins a hash that neither the cache nor storage has for its ref. */
  predicate PinsNeither(s: Store, cache: map<RefName, ManifestHash>, env: Env, reference: string) {
    Parse(env.lower, reference).Ok? &&
    var r := Parse(env.lower, reference).value;
    r.hash.Some? && KeyOf(r) in cache && KeyOf(r) in s.refs
    && env.text(cache[KeyOf(r)]) != r.hash.value && env.text(s.refs[KeyOf(r)]) != r.hash.value
  }

  /**
   The cache shows exactly when the cached resolution is stale, unless the reference pins a hash that
   matches neither: then both ways report the mismatch.
   */
  lemma CacheIsInvisibleIff(s: Store, cache: map<RefName, ManifestHash>, env: Env, reference: string)
    ensures
      ResolveCached(s, cache, env, reference) == ResolveSpec(s, env, reference)
      <==> !AsksStale(s, cache, env, reference) || PinsNeither(s, cache, env, reference)
  {
    hide Parse, TagOrDefault, FullName;
  }

  /**
   It does show: publish a template, publish another under the same ref with a put that fails after
   taking effect, and resolve. Storage says the new one and the cache still answers the old one; after
   a delete that is torn in the same way the cache answers what is gone.
   */
  lemma TornWriteServesOldHash(
    s: Store, ref: Reference, env: Env, first: ManifestHash, second: ManifestHash)
    requires LowersCase(env.lower) && ValidReference(ref) && ref.hash == None && first != second
    ensures
      var key, reference := KeyOf(ref), AsString(ref);
      var refs, cache := RefsAfterPut(s.refs, key, first, Good), CacheAfterPut(map[], key, first, Good);
      var put, dropped := s.(refs := RefsAfterPut(refs, key, second, Torn)), s.(refs := RefsAfterDrop(refs, key, Torn));
      var afterPut, afterDrop := CacheAfterPut(cache, key, second, Torn), CacheAfterDrop(cache, key, Torn);
      ResolveSpec(put, env, reference) == Ok(second) && ResolveCached(put, afterPut, env, reference) == Ok(first)
      && ResolveSpec(dropped, env, reference) == Err(NotFound)
      && ResolveCached(dropped, afterDrop, env, reference) == Ok(first)
  {
    ParsePrinted(env.lower, ref);
    hide Parse, AsString, ValidReference;
    assert KeyOf(ref.(tag := Some(TagOrDefault(ref)))) == KeyOf(ref);
  }

  /** The template behind a manifest hash, as it was published. */
  function LoadedOf(h: ManifestHash): Loaded
    requires ValidManifest(h.manifest)
  {
    Loaded(h, h.manifest, h.manifest.files[ENTRYPOINT].content,
           Rooted(map p | p in h.manifest.files :: h.manifest.files[p].content))
  }

  /** In a closed store whatever resolves also loads, as the template that was published. */
  lemma ResolvedLoads(s: Store, env: Env, reference: string)
    requires Closed(s) && ResolveSpec(s, env, reference).Ok?
    ensures
      var h := ResolveSpec(s, env, reference).value;
      ValidManifest(h.manifest) && LoadSpec(s, env, reference) == Ok(LoadedOf(h))
  {
    hide Parse, ValidMetadata, ValidPath, Rooted;
    var h := ResolveSpec(s, env, reference).value;
    var r := Parse(env.lower, reference).value;
    assert Complete(s, s.refs[KeyOf(r)]);
    assert h.manifest.files[ENTRYPOINT] in Listed(h.manifest);
    assert FilesIn(s, h.manifest) == map p | p in h.manifest.files :: h.manifest.files[p].content by {
      assert forall p :: p in h.manifest.files ==> h.manifest.files[p] in Listed(h.manifest);
    }
  }

  /** Every file is found under its path and under the rooted path, and nothing else is. */
  predicate FileSystemOf(fs: map<string, Content>, files: map<string, Content>) {
    (forall p :: p in files ==> p in fs && fs[p] == files[p] && "/" + p in fs && fs["/" + p] == files[p])
    && forall q :: q in fs ==> q in files || (q != "" && q[0] == '/' && q[1..] in files)
  }

  /** No plain path clashes with a rooted one when none starts with a slash. */
  lemma RootedMeans(files: map<string, Content>)
    requires forall p :: p in files ==> !("/" <= p)
    ensures FileSystemOf(Rooted(files), files)
  {
    var rooted := set p | p in files :: "/" + p;
    forall p | p in files
      ensures p in Rooted(files) && Rooted(files)[p] == files[p]
      ensures "/" + p in Rooted(files) && Rooted(files)["/" + p] == files[p]
    {
      assert "/" + p in rooted && ("/" + p)[1..] == p;
      assert p !in rooted;
    }
  }

  /** A version that was published loads under `name:tag` as the bundle that was given. */
  lemma PublishedLoads(s: Store, env: Env, bundle: Bundle, name: string, tag: string)
    requires Closed(s) && LowersCase(env.lower) && ValidBundle(bundle) && ValidateRefParts(name, tag).Ok?
    ensures
      var r := LoadSpec(Published(s, (name, tag), bundle), env, name + ":" + tag);
      r.Ok? && r.value.entrypoint == bundle.main && r.value.manifest.metadata == bundle.metadata
      && FileSystemOf(r.value.files, bundle.files["main.typ" := bundle.main])
      && r.value.hash.manifest == r.value.manifest
  {
    hide Parse, ValidateRefParts, ValidBundle, ValidManifest, Rooted, FileSystemOf, Closed;
    var s', reference := Published(s, (name, tag), bundle), name + ":" + tag;
    PublishableIffResolvable(env.lower, name, tag);
    PublishedCloses(s, (name, tag), bundle);
    assert KeyOf(Parse(env.lower, reference).value) == (name, tag);
    ResolvedLoads(s', env, reference);
    var h := ManifestHash(ManifestOf(bundle));
    assert ResolveSpec(s', env, reference) == Ok(h);
    BundleFiles(bundle);
  }

  /** What the manifest of a bundle leads back to. */
  lemma BundleFiles(b: Bundle)
    requires ValidBundle(b)
    ensures ValidManifest(ManifestOf(b))
    ensures
      var l := LoadedOf(ManifestHash(ManifestOf(b)));
      l.entrypoint == b.main && l.manifest.metadata == b.metadata && l.manifest == ManifestOf(b)
      && FileSystemOf(l.files, b.files["main.typ" := b.main])
  {
    hide FileSystemOf, Rooted, HasDotDot;
    BundleMakesManifest(b);
    var files := b.files["main.typ" := b.main];
    var m := ManifestOf(b);
    assert (map p | p in m.files :: m.files[p].content) == files;
    assert !("/" <= "main.typ");
    RootedMeans(files);
  }

  class Registry {
    var store: Store
    var refCache: map<RefName, ManifestHash>
    /** The cache of immutable objects, by key family. */
    var manifestCache: map<ManifestHash, Manifest>
    var blobCache: map<BlobHash, Content>
    const env: Env
    /** Reads of stored keys succeed. */
    const seeing: bool
    /** Puts, deletes and listings succeed. */
    const reliable: bool
    /** A ref put or delete that fails has no effect. */
    const wholeRefs: bool
    ghost var history: seq<Store>

    ghost predicate Valid()
      reads this
    {
      Addressed(store) && (seeing ==> Closed(store))
      && history != [] && history[|history| - 1] == store
      && (seeing ==> forall i :: 0 <= i < |history| ==> Closed(history[i]))
      && CachesAgree(manifestCache, blobCache) && (wholeRefs ==> NoneStale(store.refs, refCache))
    }

    constructor (s: Store, env: Env, seeing: bool, reliable: bool, wholeRefs: bool)
      requires Addressed(s) && (seeing ==> Closed(s))
      ensures Valid() && store == s && refCache == map[] && manifestCache == map[] && blobCache == map[]
      ensures this.env == env && this.seeing == seeing && this.reliable == reliable && this.wholeRefs == wholeRefs
      ensures history == [s]
    {
      store, refCache, manifestCache, blobCache := s, map[], map[], map[];
      this.env, this.seeing, this.reliable, this.wholeRefs := env, seeing, reliable, wholeRefs;
      history := [s];
    }

    /** The storage changes in one step. */
    method Step(s: Store)
      requires Valid() && Addressed(s) && (seeing ==> Closed(s)) && s.refs == store.refs
      modifies this`store, this`history
      ensures Valid() && store == s && history == old(history) + [s]
    {
      store := s;
      history := history + [s];
    }

    /** Any cache entries may disappear at any time. */
    method Evict()
      requires Valid()
      modifies this`refCache, this`manifestCache, this`blobCache
      ensures Valid() && Kept(old(refCache), refCache)
    {
      var refs: set<RefName>, manifests: set<ManifestHash>, blobs: set<BlobHash> := *, *, *;
      refCache, manifestCache, blobCache := refCache - refs, manifestCache - manifests, blobCache - blobs;
    }

    // ----- publish -----

    method PutBlobDoc(c: Content) returns (ok: bool)
      requires Valid()
      modifies this`store, this`history
      ensures Valid() && old(history) <= history
      ensures store == PutBlob(old(store), c) || (!ok && store == old(store))
      ensures reliable ==> ok
    {
      hide Closed, CachesAgree;
      var io := Attempt(reliable);
      ok := io == Good;
      if io != Lost {
        StepPutBlob(store, c, seeing);
        Step(PutBlob(store, c));
      }
    }

    method PutManifestDoc(m: Manifest) returns (ok: bool)
      requires Valid()
      modifies this`store, this`history
      ensures Valid() && old(history) <= history
      ensures store == PutManifest(old(store), m) || (!ok && store == old(store))
      ensures reliable ==> ok
    {
      hide Closed, CachesAgree;
      var io := Attempt(reliable);
      ok := io == Good;
      if io != Lost {
        StepPutManifest(store, m, seeing);
        Step(PutManifest(store, m));
      }
    }

    /** The outcome of a ref put or delete. */
    method AttemptRef() returns (io: Io)
      ensures reliable ==> io == Good
      ensures wholeRefs ==> io != Torn
    {
      io := Attempt(reliable);
      if io == Torn && wholeRefs {
        io := Lost;
      }
    }

    /** Write a ref, and on success the cache; a failure may leave the ref written. */
    method PutRefDoc(key: RefName, h: ManifestHash) returns (io: Io)
      requires Valid() && (seeing ==> Complete(store, h))
      modifies this`store, this`history, this`refCache
      ensures Valid() && old(history) <= history
      ensures reliable ==> io == Good
      ensures wholeRefs ==> io != Torn
      ensures store == old(store).(refs := RefsAfterPut(old(store.refs), key, h, io))
      ensures refCache == CacheAfterPut(old(refCache), key, h, io)
    {
      hide Closed, Complete;
      io := AttemptRef();
      if io != Lost {
        StepPutRef(store, key, h, seeing);
        store := PutRef(store, key, h);
        history := history + [store];
      }
      if io == Good {
        refCache := refCache[key := h];
      }
    }

    /** Store the files of a bundle, the main file first and the others in any order. */
    method PutFiles(b: Bundle) returns (ok: bool, hashes: map<string, BlobHash>)
      requires Valid() && ValidBundle(b)
      modifies this`store, this`history
      ensures Valid() && old(history) <= history
      ensures store.refs == old(store.refs) && store.manifests == old(store.manifests)
      ensures reliable ==> ok
      ensures ok ==> hashes == FilesOf(b) && store.blobs == WithBlobs(old(store.blobs), hashes.Values)
    {
      hide Closed, CachesAgree, Addressed, WithBlobs, ValidBundle, HashesOf;
      hashes := map[ENTRYPOINT := BlobHash(b.main)];
      ok := PutBlobDoc(b.main);
      if !ok {
        return;
      }
      FirstBlob(old(store.blobs), b);
      var rest := b.files.Keys;
      assert b.files.Keys - rest == {};
      while rest != {}
        invariant Valid() && old(history) <= history && rest <= b.files.Keys
        invariant store.refs == old(store.refs) && store.manifests == old(store.manifests)
        invariant hashes == HashesOf(b, b.files.Keys - rest)
        invariant store.blobs == WithBlobs(old(store.blobs), hashes.Values)
        decreases rest
      {
        var path :| path in rest;
        ok := PutBlobDoc(b.files[path]);
        if !ok {
          return;
        }
        NextBlob(old(store.blobs), b, b.files.Keys - rest, path);
        hashes := hashes[path := BlobHash(b.files[path])];
        assert b.files.Keys - (rest - {path}) == b.files.Keys - rest + {path};
        rest := rest - {path};
      }
      AllHashes(b);
      assert b.files.Keys - {} == b.files.Keys;
    }

    /**
     `publish`. It succeeds only on a valid name, tag and bundle, and then the store is the one
     with exactly this template added; rejected input touches nothing. `io` is the outcome of the ref
     put, if it came to that: it alone decides what the refs and the ref cache are.
     */
    method Publish(bundle: Bundle, name: string, tag: string)
      returns (r: Result<ManifestHash, Error>, ghost io: Option<Io>)
      requires Valid()
      modifies this`store, this`history, this`refCache
      ensures Valid() && old(history) <= history
      ensures ValidateRefParts(name, tag).Err? ==>
        r == Err(InvalidReference(ValidateRefParts(name, tag).error)) && io == None && store == old(store)
      ensures ValidateRefParts(name, tag).Ok? && !ValidBundle(bundle) ==>
        r == Err(InvalidBundle) && io == None && store == old(store)
      ensures r.Ok? ==>
        ValidateRefParts(name, tag).Ok? && ValidBundle(bundle)
        && r.value == ManifestHash(ManifestOf(bundle)) && store == Published(old(store), (name, tag), bundle)
      ensures r.Err? && ValidateRefParts(name, tag).Ok? && ValidBundle(bundle) ==> r == Err(StorageFailed) && !reliable
      ensures r.Ok? <==> io == Some(Good)
      ensures wholeRefs ==> io != Some(Torn)
      ensures io == None ==> store.refs == old(store.refs) && refCache == old(refCache)
      ensures io.Some? ==>
        var h := ManifestHash(ManifestOf(bundle));
        store.refs == RefsAfterPut(old(store.refs), (name, tag), h, io.value)
        && refCache == CacheAfterPut(old(refCache), (name, tag), h, io.value)
    {
      hide Closed, CachesAgree, ValidBundle, ValidateRefParts, ManifestOf, FilesOf, ValidManifest, Renderable;
      io := None;
      var parts := ValidateRefParts(name, tag);
      if parts.Err? {
        return Err(InvalidReference(parts.error)), None;
      }
      if !ValidBundle(bundle) {
        return Err(InvalidBundle), None;
      }
      var ok, hashes := PutFiles(bundle);
      if !ok {
        return Err(StorageFailed), None;
      }
      BundleMakesManifest(bundle);
      var manifest := Manifest(hashes, bundle.metadata);
      ManifestIs(bundle, manifest);
      ghost var stored := store;
      if !ValidManifest(manifest) {
        return Err(InvalidManifest), None;
      }
      ok := PutManifestDoc(manifest);
      if !ok {
        return Err(StorageFailed), None;
      }
      var hash := ManifestHash(manifest);
      ReadyToPoint(old(store), stored, store, manifest);
      var put := PutRefDoc((name, tag), hash);
      io := Some(put);
      if put != Good {
        return Err(StorageFailed), io;
      }
      PublishedIs(old(store), store, (name, tag), bundle);
      return Ok(hash), io;
    }

    // ----- delete -----

    /** Drop a ref, and on success the cached resolution; a failure may still have dropped it. */
    method DropRefDoc(key: RefName) returns (io: Io)
      requires Valid()
      modifies this`store, this`history, this`refCache
      ensures Valid() && old(history) <= history
      ensures reliable ==> io == Good
      ensures wholeRefs ==> io != Torn
      ensures store == old(store).(refs := RefsAfterDrop(old(store.refs), key, io))
      ensures refCache == CacheAfterDrop(old(refCache), key, io)
    {
      hide Closed;
      io := AttemptRef();
      if io != Lost {
        StepDropRef(store, key, seeing);
        store := DropRef(store, key);
        history := history + [store];
      }
      if io == Good {
        refCache := refCache - {key};
      }
    }

    /** The manifests that the refs which can be read point to. */
    method MarkManifests() returns (live: set<ManifestHash>, ghost blind: set<RefName>)
      ensures live == Live(store, Blind(blind, {})) && (seeing ==> blind == {})
    {
      var rest := store.refs.Keys;
      live, blind := {}, {};
      while rest != {}
        invariant rest <= store.refs.Keys && (seeing ==> blind == {}) && blind !! rest
        invariant live == set r | r in store.refs && r !in rest && r !in blind :: store.refs[r]
        decreases rest
      {
        var key :| key in rest;
        var readable := AttemptRead(seeing);
        if readable {
          live := live + {store.refs[key]};
        } else {
          blind := blind + {key};
        }
        rest := rest - {key};
      }
    }

    /** The blobs of the live manifests that can be read. */
    method MarkBlobs(live: set<ManifestHash>, ghost lost: set<ManifestHash>)
      returns (liveBlobs: set<BlobHash>, ghost blind: set<ManifestHash>)
      requires lost !! live
      ensures liveBlobs == set h, b | h in live && b in Reachable(store, Blind({}, blind), h) :: b
      ensures blind !! lost && blind <= live && (seeing ==> blind == {})
    {
      hide ValidManifest;
      var rest := live;
      liveBlobs, blind := {}, {};
      while rest != {}
        invariant rest <= live && blind <= live - rest && (seeing ==> blind == {})
        invariant liveBlobs == set h, b | h in live - rest && b in Reachable(store, Blind({}, blind), h) :: b
        decreases rest
      {
        var h :| h in rest;
        var readable := h in store.manifests;
        if readable && !seeing {
          readable := *;
        }
        ghost var was := blind;
        if readable && ValidManifest(store.manifests[h]) {
          liveBlobs := liveBlobs + store.manifests[h].files.Values;
        } else if h in store.manifests && !readable {
          blind := blind + {h};
        }
        MarkOne(store, live - rest, h, was, blind);
        rest := rest - {h};
      }
    }

    /** `delete_many`: one blob after another, up to the first error. */
    method DropBlobDocs(dead: set<BlobHash>, ghost h: ManifestHash) returns (ok: bool)
      requires Valid() && (seeing ==> h !in Live(store, SEEING) && dead <= Dead(store, SEEING, h))
      modifies this`store, this`history
      ensures Valid() && old(history) <= history
      ensures reliable ==> ok
      ensures ok ==> store == DropBlobs(old(store), dead)
      ensures exists part :: part <= dead && store == DropBlobs(old(store), part)
      ensures seeing ==> Closed(DropManifest(store, h))
    {
      hide Closed, CachesAgree, Dead;
      var rest := dead;
      ghost var s0 := store;
      DropNone(store);
      if seeing {
        SweepCloses(s0, h, {});
      }
      while rest != {}
        invariant Valid() && old(history) <= history && rest <= dead
        invariant store == DropBlobs(s0, dead - rest)
        invariant seeing ==> Closed(DropManifest(store, h))
        decreases rest
      {
        var b :| b in rest;
        var io := Attempt(reliable);
        if io != Lost {
          DropMore(s0, dead - rest, b);
          assert dead - (rest - {b}) == dead - rest + {b};
          if seeing {
            SweepCloses(s0, h, dead - (rest - {b}));
          }
          rest := rest - {b};
          DroppedAddressed(s0, dead - rest);
          Step(DropBlobs(store, {b}));
        }
        if io != Good {
          return false;
        }
      }
      assert dead - {} == dead;
      return true;
    }

    /** `gc_orphaned`: mark, sweep the blobs, drop the manifest. */
    method GcOrphaned(h: ManifestHash) returns (r: Result<Summary, Error>, ghost blind: Blind)
      requires Valid()
      modifies this`store, this`history
      ensures Valid() && old(history) <= history && (seeing ==> blind == SEEING)
      ensures store.refs == old(store.refs)
      ensures r.Ok? ==>
        store == Swept(old(store), blind, h)
        && r.value.manifestKept == (h in Live(old(store), blind)) && r.value.manifestDeleted == !r.value.manifestKept
        && r.value.blobsDeleted == if r.value.manifestKept then 0 else |Dead(old(store), blind, h)|
      ensures r.Err? ==> r == Err(StorageFailed)
      ensures reliable ==> r.Ok?
    {
      hide Closed, CachesAgree, ValidManifest, Reachable;
      blind := SEEING;
      var listed := Attempt(reliable);
      if listed != Good {
        return Err(StorageFailed), blind;
      }
      ghost var blindRefs, blindManifests;
      var live;
      live, blindRefs := MarkManifests();
      blind := Blind(blindRefs, {});
      if h in live {
        return Ok(Summary(false, true, 0)), blind;
      }
      var readable := h in store.manifests;
      if readable && !seeing {
        readable := *;
      }
      var orphanBlobs := if readable then BlobsListed(store.manifests[h]) else {};
      ghost var lost := if readable || h !in store.manifests then {} else {h};
      var liveBlobs;
      liveBlobs, blindManifests := MarkBlobs(live, lost);
      blind := Blind(blindRefs, blindManifests + lost);
      var dead := orphanBlobs - liveBlobs;
      SweepPlan(store, h, live, readable, blindRefs, blindManifests, lost);
      assert dead == Dead(store, blind, h);
      var ok := DropBlobDocs(dead, h);
      if !ok {
        return Err(StorageFailed), blind;
      }
      var io := Attempt(reliable);
      if io != Lost {
        ManifestDropAddressed(store, h);
        Step(DropManifest(store, h));
      }
      if io != Good {
        return Err(StorageFailed), blind;
      }
      return Ok(Summary(true, false, |dead|)), blind;
    }

    /**
     `delete_version`. With readable storage, success leaves exactly the store without the version
     and without what only it needed, and reports the number of blobs removed. `io` is the outcome of
     the ref delete, if it came to that: it alone decides what the refs and the ref cache are.
     */
    method DeleteVersion(name: string, tag: string)
      returns (r: Result<Summary, Error>, ghost blind: Blind, ghost io: Option<Io>)
      requires Valid()
      modifies this`store, this`history, this`refCache
      ensures Valid() && old(history) <= history && (seeing ==> blind == SEEING)
      ensures ValidateRefParts(name, tag).Err? ==>
        r == Err(InvalidReference(ValidateRefParts(name, tag).error)) && store == old(store)
      ensures seeing && ValidateRefParts(name, tag).Ok? && (name, tag) !in old(store).refs ==>
        r == Err(NotFound) && store == old(store)
      ensures r.Ok? ==>
        (name, tag) in old(store).refs && io == Some(Good)
        && var s, h := DropRef(old(store), (name, tag)), old(store).refs[(name, tag)];
           store == Swept(s, blind, h)
           && (seeing ==> store == Deleted(old(store), (name, tag)))
           && r.value.manifestDeleted == (h !in Live(s, blind))
           && r.value.blobsDeleted == if r.value.manifestDeleted then |Dead(s, blind, h)| else 0
      ensures wholeRefs ==> io != Some(Torn)
      ensures io == None ==> r.Err? && store == old(store) && refCache == old(refCache)
      ensures io.Some? ==>
        ValidateRefParts(name, tag).Ok? && (name, tag) in old(store).refs
        && store.refs == RefsAfterDrop(old(store.refs), (name, tag), io.value)
        && refCache == CacheAfterDrop(old(refCache), (name, tag), io.value)
      ensures seeing && r.Err? && ValidateRefParts(name, tag).Ok? && (name, tag) in old(store).refs ==>
        r == Err(StorageFailed) && !reliable
      ensures seeing && reliable && ValidateRefParts(name, tag).Ok? && (name, tag) in old(store).refs ==> r.Ok?
    {
      hide Closed, CachesAgree, ValidateRefParts, Swept, Dead, Live;
      blind, io := SEEING, None;
      var parts := ValidateRefParts(name, tag);
      if parts.Err? {
        return Err(InvalidReference(parts.error)), blind, None;
      }
      var key := (name, tag);
      var readable := AttemptRead(seeing);
      if !readable {
        return Err(StorageFailed), blind, None;
      }
      if key !in store.refs {
        return Err(NotFound), blind, None;
      }
      var hash := store.refs[key];
      var dropped := DropRefDoc(key);
      io := Some(dropped);
      if dropped != Good {
        return Err(StorageFailed), blind, io;
      }
      r, blind := GcOrphaned(hash);
    }

    // ----- resolve and load, through the caches -----

    /**
     `resolve`, from the ref cache when it has an entry. `cache` is what evictions had left of it. A
     reference whose cached resolution is not stale is answered as without a cache.
     */
    method Resolve(reference: string) returns (r: Result<ManifestHash, Error>, ghost cache: map<RefName, ManifestHash>)
      requires Valid() && seeing
      modifies this`refCache, this`manifestCache, this`blobCache
      ensures Valid()
      ensures Kept(old(refCache), cache) && r == ResolveCached(store, cache, env, reference)
      ensures !AsksStale(store, old(refCache), env, reference) ==> r == ResolveSpec(store, env, reference)
      ensures r.Ok? ==>
        Parse(env.lower, reference).Ok?
        && (Parse(env.lower, reference).value.hash.Some? ==>
              env.text(r.value) == Parse(env.lower, reference).value.hash.value)
      ensures forall k :: Stale(store.refs, refCache, k) ==> Stale(store.refs, old(refCache), k)
    {
      hide Closed, Parse;
      Evict();
      cache := refCache;
      CacheIsInvisibleIff(store, cache, env, reference);
      var parsed := Parse(env.lower, reference);
      if parsed.Err? {
        return Err(InvalidReference(parsed.error)), cache;
      }
      var key := KeyOf(parsed.value);
      var hash;
      if key in refCache {
        hash := refCache[key];
      } else {
        if key !in store.refs {
          return Err(NotFound), cache;
        }
        hash := store.refs[key];
        refCache := refCache[key := hash];
      }
      if parsed.value.hash.Some? && env.text(hash) != parsed.value.hash.value {
        return Err(HashMismatch), cache;
      }
      return Ok(hash), cache;
    }

    /** `get_immutable` of a blob. */
    method GetBlob(h: BlobHash) returns (c: Option<Content>)
      requires Valid() && seeing
      modifies this`manifestCache, this`blobCache, this`refCache
      ensures Valid() && Kept(old(refCache), refCache)
      ensures c.Some? ==> c.value == h.content
      ensures h in store.blobs ==> c.Some?
    {
      hide Closed;
      Evict();
      if h in blobCache {
        return Some(blobCache[h]);
      }
      if h !in store.blobs {
        return None;
      }
      blobCache := blobCache[h := store.blobs[h]];
      return Some(store.blobs[h]);
    }

    /** `get_immutable` of a manifest. */
    method GetManifest(h: ManifestHash) returns (m: Option<Manifest>)
      requires Valid() && seeing
      modifies this`manifestCache, this`blobCache, this`refCache
      ensures Valid() && Kept(old(refCache), refCache)
      ensures m.Some? ==> m.value == h.manifest
      ensures h in store.manifests ==> m.Some?
    {
      hide Closed;
      Evict();
      if h in manifestCache {
        return Some(manifestCache[h]);
      }
      if h !in store.manifests {
        return None;
      }
      manifestCache := manifestCache[h := store.manifests[h]];
      return Some(store.manifests[h]);
    }

    /** `hydrate_file_system`: every file, under its path and under the rooted path. */
    method Hydrate(m: Manifest) returns (r: Option<map<string, Content>>)
      requires Valid() && seeing
      modifies this`manifestCache, this`blobCache, this`refCache
      ensures Valid() && Kept(old(refCache), refCache)
      ensures r.Some? ==> r.value == Rooted(map p | p in m.files :: m.files[p].content)
      ensures r.Some? && (forall p :: p in m.files ==> !("/" <= p)) ==>
        FileSystemOf(r.value, map p | p in m.files :: m.files[p].content)
      ensures Listed(m) <= store.blobs.Keys ==> r.Some?
    {
      hide Closed, CachesAgree, Rooted, FileSystemOf;
      var rest := m.files.Keys;
      var files: map<string, Content> := map[];
      while rest != {}
        invariant Valid() && rest <= m.files.Keys && Kept(old(refCache), refCache)
        invariant files == map p | p in m.files.Keys - rest :: m.files[p].content
        decreases rest
      {
        var path :| path in rest;
        assert m.files[path] in Listed(m);
        var c := GetBlob(m.files[path]);
        if c == None {
          return None;
        }
        files := files[path := c.value];
        rest := rest - {path};
      }
      assert files == map p | p in m.files :: m.files[p].content;
      if forall p :: p in files ==> !("/" <= p) {
        RootedMeans(files);
      }
      return Some(Rooted(files));
    }

    /**
     `load_template` through both caches. What it returns is a whole template, the one that the ref
     resolved to through the cache; a reference whose cached resolution is not stale is answered as
     without caches.
     */
    method LoadTemplate(reference: string) returns (r: Result<Loaded, Error>, ghost cache: map<RefName, ManifestHash>)
      requires Valid() && seeing
      modifies this`refCache, this`manifestCache, this`blobCache
      ensures Valid()
      ensures Kept(old(refCache), cache)
      ensures r.Ok? ==>
        ResolveCached(store, cache, env, reference) == Ok(r.value.hash)
        && ValidManifest(r.value.hash.manifest) && r.value == LoadedOf(r.value.hash)
      ensures !AsksStale(store, old(refCache), env, reference) ==> r == LoadSpec(store, env, reference)
      ensures forall k :: Stale(store.refs, refCache, k) ==> Stale(store.refs, old(refCache), k)
    {
      hide CachesAgree, Parse, Closed, ValidManifest, Rooted, LoadSpec, ResolveSpec, ResolveCached, Complete, NoneStale;
      var resolved;
      resolved, cache := Resolve(reference);
      if resolved.Err? {
        if ResolveSpec(store, env, reference).Err? {
          UnresolvedFails(store, env, reference);
        }
        return Err(resolved.error), cache;
      }
      var hash := resolved.value;
      if ResolveSpec(store, env, reference) == Ok(hash) {
        ResolvedLoads(store, env, reference);
        ResolvedComplete(store, env, reference);
      }
      var m := GetManifest(hash);
      if m == None {
        return Err(StorageFailed), cache;
      }
      if !ValidManifest(m.value) {
        return Err(InvalidManifest), cache;
      }
      HasEntrypoint(m.value);
      var entry := GetBlob(m.value.files[ENTRYPOINT]);
      if entry == None {
        return Err(StorageFailed), cache;
      }
      if !entry.value.utf8 {
        return Err(InvalidEntrypoint), cache;
      }
      var files := Hydrate(m.value);
      if files == None {
        return Err(StorageFailed), cache;
      }
      return Ok(Loaded(hash, m.value, entry.value, files.value)), cache;
    }
  }

  // ----- serving requests -----

  datatype Request =
    | PublishRequest(bundle: Bundle, name: string, tag: string)
    | DeleteRequest(name: string, tag: string)
    | ResolveRequest(reference: string)
    | LoadRequest(reference: string)

  datatype Answer =
    | PublishAnswer(published: Result<ManifestHash, Error>)
    | DeleteAnswer(deleted: Result<Summary, Error>)
    | ResolveAnswer(resolved: Result<ManifestHash, Error>)
    | LoadAnswer(loaded: Result<Loaded, Error>)

  /**
   The answer, and the store after it, that a registry without caches gives from store `s`. What is
   rejected or absent is answered so and changes nothing. Otherwise only storage fails, and then a
   publish moves no ref, and a delete at most its own.
   */
  ghost predicate Answers(s: Store, s': Store, env: Env, q: Request, a: Answer) {
    match q
    case PublishRequest(bundle, name, tag) =>
      a.PublishAnswer?
      && (match ValidateRefParts(name, tag)
          case Err(e) => a.published == Err(InvalidReference(e)) && s' == s
          case Ok(_) =>
            if !ValidBundle(bundle) then a.published == Err(InvalidBundle) && s' == s
            else
              || (a.published == Ok(ManifestHash(ManifestOf(bundle))) && s' == Published(s, (name, tag), bundle))
              || (a.published == Err(StorageFailed) && s'.refs == s.refs))
    case DeleteRequest(name, tag) =>
      a.DeleteAnswer?
      && (match ValidateRefParts(name, tag)
          case Err(e) => a.deleted == Err(InvalidReference(e)) && s' == s
          case Ok(_) =>
            if (name, tag) !in s.refs then a.deleted == Err(NotFound) && s' == s
            else
              || (a.deleted.Ok? && s' == Deleted(s, (name, tag)))
              || (a.deleted == Err(StorageFailed) && (s'.refs == s.refs || s'.refs == s.refs - {(name, tag)})))
    case ResolveRequest(reference) => a == ResolveAnswer(ResolveSpec(s, env, reference)) && s' == s
    case LoadRequest(reference) => a == LoadAnswer(LoadSpec(s, env, reference)) && s' == s
  }

  /** One request. */
  method ServeOne(reg: Registry, q: Request) returns (a: Answer)
    requires reg.Valid() && reg.seeing && reg.wholeRefs
    modifies reg
    ensures reg.Valid() && Closed(reg.store)
    ensures Answers(old(reg.store), reg.store, reg.env, q, a)
  {
    hide Parse, ResolveSpec, LoadSpec, Closed, ManifestOf, Published, Deleted, ValidateRefParts, ValidBundle;
    NoneAskStale(reg);
    match q
    case PublishRequest(bundle, name, tag) =>
      var r, _ := reg.Publish(bundle, name, tag);
      a := PublishAnswer(r);
    case DeleteRequest(name, tag) =>
      var r, _, _ := reg.DeleteVersion(name, tag);
      a := DeleteAnswer(r);
    case ResolveRequest(reference) =>
      var r, _ := reg.Resolve(reference);
      a := ResolveAnswer(r);
    case LoadRequest(reference) =>
      var r, _ := reg.LoadTemplate(reference);
      a := LoadAnswer(r);
  }

  lemma NoneAskStale(reg: Registry)
    requires reg.Valid() && reg.wholeRefs
    ensures forall reference :: !AsksStale(reg.store, reg.refCache, reg.env, reference)
  {
    hide Parse, Closed, Addressed, CachesAgree;
  }

  /**
   Any sequence of publishes, deletes, resolves and loads, with arbitrary evictions and failures in
   between, is answered as by a registry without caches, as long as a ref write that fails has no
   effect. `stores[i]` is the store before request `i`.
   */
  method Serve(reg: Registry, requests: seq<Request>) returns (answers: seq<Answer>, ghost stores: seq<Store>)
    requires reg.Valid() && reg.seeing && reg.wholeRefs
    modifies reg
    ensures reg.Valid() && |answers| == |requests| && |stores| == |requests| + 1
    ensures stores[0] == old(reg.store) && stores[|requests|] == reg.store
    ensures forall i :: 0 <= i < |requests| ==> Answers(stores[i], stores[i + 1], reg.env, requests[i], answers[i])
  {
    hide Answers, Closed;
    answers, stores := [], [reg.store];
    for i := 0 to |requests|
      invariant reg.Valid() && |answers| == i && |stores| == i + 1
      invariant stores[0] == old(reg.store) && stores[i] == reg.store
      invariant forall j :: 0 <= j < i ==> Answers(stores[j], stores[j + 1], reg.env, requests[j], answers[j])
    {
      var a := ServeOne(reg, requests[i]);
      answers := answers + [a];
      stores := stores + [reg.store];
    }
  }

  // ----- facts used above -----

  /** Cached objects are what their hash says. */
  predicate CachesAgree(manifests: map<ManifestHash, Manifest>, blobs: map<BlobHash, Content>) {
    (forall h :: h in manifests ==> manifests[h] == h.manifest)
    && (forall b :: b in blobs ==> blobs[b] == b.content)
  }

  /** Every cached resolution is what storage says. */
  predicate NoneStale(refs: map<RefName, ManifestHash>, cache: map<RefName, ManifestHash>) {
    forall k :: k in cache ==> k in refs && refs[k] == cache[k]
  }

  /** What evictions may leave of a cache. */
  predicate Kept(before: map<RefName, ManifestHash>, after: map<RefName, ManifestHash>) {
    forall k :: k in after ==> k in before && after[k] == before[k]
  }

  lemma StepPutBlob(s: Store, c: Content, closed: bool)
    requires Addressed(s) && (closed ==> Closed(s))
    ensures Addressed(PutBlob(s, c)) && (closed ==> Closed(PutBlob(s, c)))
  {
    if closed { PutBlobCloses(s, c); }
  }

  lemma StepPutManifest(s: Store, m: Manifest, closed: bool)
    requires Addressed(s) && (closed ==> Closed(s))
    ensures Addressed(PutManifest(s, m)) && (closed ==> Closed(PutManifest(s, m)))
  {
    if closed { PutManifestCloses(s, m); }
  }

  lemma StepPutRef(s: Store, key: RefName, h: ManifestHash, closed: bool)
    requires Addressed(s) && (closed ==> Closed(s) && Complete(s, h))
    ensures Addressed(PutRef(s, key, h)) && (closed ==> Closed(PutRef(s, key, h)))
  {
    if closed { PutRefCloses(s, key, h); }
  }

  lemma StepDropRef(s: Store, key: RefName, closed: bool)
    requires Addressed(s) && (closed ==> Closed(s))
    ensures Addressed(DropRef(s, key)) && (closed ==> Closed(DropRef(s, key)))
  {
    if closed { DropRefCloses(s, key); }
  }

  /** These blobs added to those. */
  function WithBlobs(blobs: map<BlobHash, Content>, hashes: set<BlobHash>): map<BlobHash, Content> {
    blobs + map h | h in hashes :: h.content
  }

  /** The hashes of the main file and of some of the others. */
  function HashesOf(b: Bundle, done: set<string>): map<string, BlobHash> {
    (map p | p in done && p in b.files :: BlobHash(b.files[p]))[ENTRYPOINT := BlobHash(b.main)]
  }

  lemma AllHashes(b: Bundle)
    ensures HashesOf(b, b.files.Keys) == FilesOf(b)
  {
  }

  lemma FirstBlob(blobs: map<BlobHash, Content>, b: Bundle)
    ensures HashesOf(b, {}) == map[ENTRYPOINT := BlobHash(b.main)]
    ensures blobs[BlobHash(b.main) := b.main] == WithBlobs(blobs, HashesOf(b, {}).Values)
  {
    var one := map[ENTRYPOINT := BlobHash(b.main)];
    assert HashesOf(b, {}) == one;
    assert one[ENTRYPOINT] == BlobHash(b.main);
    assert one.Values == {BlobHash(b.main)};
  }

  lemma NextBlob(blobs: map<BlobHash, Content>, b: Bundle, done: set<string>, path: string)
    requires ValidBundle(b) && path in b.files && path !in done
    ensures HashesOf(b, done + {path}) == HashesOf(b, done)[path := BlobHash(b.files[path])]
    ensures WithBlobs(blobs, HashesOf(b, done).Values)[BlobHash(b.files[path]) := b.files[path]]
            == WithBlobs(blobs, HashesOf(b, done + {path}).Values)
  {
    var hashes, c := HashesOf(b, done), b.files[path];
    assert path != ENTRYPOINT;
    var grown := hashes[path := BlobHash(c)];
    assert HashesOf(b, done + {path}) == grown;
    BlobAdded(blobs, hashes, path, c);
  }

  lemma BlobAdded(blobs: map<BlobHash, Content>, hashes: map<string, BlobHash>, path: string, c: Content)
    requires path !in hashes
    ensures WithBlobs(blobs, hashes.Values)[BlobHash(c) := c] == WithBlobs(blobs, hashes[path := BlobHash(c)].Values)
  {
    var grown := hashes[path := BlobHash(c)];
    assert grown[path] == BlobHash(c);
    assert forall q :: q in hashes ==> grown[q] == hashes[q];
    assert grown.Values == hashes.Values + {BlobHash(c)};
  }

  lemma ManifestIs(b: Bundle, m: Manifest)
    requires m.files == FilesOf(b) && m.metadata == b.metadata
    ensures m == ManifestOf(b)
  {
  }

  /** Once files and manifest are stored, a ref may point to the manifest. */
  lemma ReadyToPoint(s0: Store, s1: Store, s2: Store, m: Manifest)
    requires s1.blobs == WithBlobs(s0.blobs, m.files.Values) && s2 == PutManifest(s1, m) && Renderable(m)
    ensures Complete(s2, ManifestHash(m))
  {
  }

  lemma PublishedIs(s0: Store, s: Store, key: RefName, b: Bundle)
    requires
      var m := ManifestOf(b);
      s.refs == s0.refs[key := ManifestHash(m)] && s.manifests == s0.manifests[ManifestHash(m) := m]
      && s.blobs == WithBlobs(s0.blobs, m.files.Values)
    ensures s == Published(s0, key, b)
  {
    hide ManifestOf;
  }

  lemma MarkOne(s: Store, done: set<ManifestHash>, h: ManifestHash, was: set<ManifestHash>, blind: set<ManifestHash>)
    requires h !in done && was <= done
    requires blind == was || blind == was + {h}
    ensures
      (set k, b | k in done + {h} && b in Reachable(s, Blind({}, blind), k) :: b) ==
      (set k, b | k in done && b in Reachable(s, Blind({}, was), k) :: b) + Reachable(s, Blind({}, blind), h)
  {
    assert forall k :: k in done ==> Reachable(s, Blind({}, blind), k) == Reachable(s, Blind({}, was), k);
  }

  lemma DropNone(s: Store)
    ensures DropBlobs(s, {}) == s
  {
  }

  lemma DropMore(s: Store, part: set<BlobHash>, b: BlobHash)
    ensures DropBlobs(DropBlobs(s, part), {b}) == DropBlobs(s, part + {b})
  {
    assert (s.blobs - part) - {b} == s.blobs - (part + {b});
  }

  lemma DroppedAddressed(s: Store, part: set<BlobHash>)
    requires Addressed(s)
    ensures Addressed(DropBlobs(s, part))
  {
  }

  lemma ManifestDropAddressed(s: Store, h: ManifestHash)
    requires Addressed(s)
    ensures Addressed(DropManifest(s, h))
  {
  }

  function BlobsListed(m: Manifest): set<BlobHash> {
    if ValidManifest(m) then m.files.Values else {}
  }

  /** What the two marking passes and the orphan's own manifest amount to. */
  lemma SweepPlan(s: Store, h: ManifestHash, live: set<ManifestHash>, readable: bool,
                  blindRefs: set<RefName>, blindManifests: set<ManifestHash>, lost: set<ManifestHash>)
    requires live == Live(s, Blind(blindRefs, {})) && h !in live && blindManifests <= live
    requires readable ==> h in s.manifests
    requires lost == if readable || h !in s.manifests then {} else {h}
    ensures
      var blind := Blind(blindRefs, blindManifests + lost);
      live == Live(s, blind)
      && Dead(s, blind, h) ==
         (if readable then BlobsListed(s.manifests[h]) else {})
         - (set k, b | k in live && b in Reachable(s, Blind({}, blindManifests), k) :: b)
  {
    hide ValidManifest;
    var blind := Blind(blindRefs, blindManifests + lost);
    assert forall k :: k in live ==> Reachable(s, blind, k) == Reachable(s, Blind({}, blindManifests), k);
  }

  lemma UnresolvedFails(s: Store, env: Env, reference: string)
    requires ResolveSpec(s, env, reference).Err?
    ensures LoadSpec(s, env, reference) == Err(ResolveSpec(s, env, reference).error)
  {
  }

  lemma ResolvedComplete(s: Store, env: Env, reference: string)
    requires Closed(s) && ResolveSpec(s, env, reference).Ok?
    ensures
      var h := ResolveSpec(s, env, reference).value;
      Complete(s, h) && h in s.manifests && ValidManifest(h.manifest) && Listed(h.manifest) <= s.blobs.Keys
      && h.manifest.files[ENTRYPOINT] in s.blobs && h.manifest.files[ENTRYPOINT].content.utf8
  {
    hide Parse;
    var r := Parse(env.lower, reference).value;
    assert Complete(s, s.refs[KeyOf(r)]);
    var h := ResolveSpec(s, env, reference).value;
    assert h.manifest.files[ENTRYPOINT] in Listed(h.manifest);
  }

  lemma HasEntrypoint(m: Manifest)
    requires ValidManifest(m)
    ensures ENTRYPOINT in m.files
  {
  }
}
