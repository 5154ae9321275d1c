/**
 The content-addressed template store of crates/papermake-registry/src/registry/publish.rs: refs
 point to manifests, manifests list blobs. A hash is an injective function of what it is the hash
 of. What publishing and deleting a version do to a store, and when they keep it closed.
 */
module TemplateStore {
  import opened Prelude
  import opened Strings

  /** File content, with what decoding it as UTF-8 text and as JSON would say. */
  datatype Content = Content(bytes: string, utf8: bool, json: bool)

  datatype BlobHash = BlobHash(content: Content)

  datatype Metadata = Metadata(name: string, author: string, retainDays: Option<nat>)

  datatype Manifest = Manifest(files: map<string, BlobHash>, metadata: Metadata)

  datatype ManifestHash = ManifestHash(manifest: Manifest)

  /** Full template name and tag. */
  type RefName = (string, string)

  datatype Store = Store(
    refs: map<RefName, ManifestHash>, manifests: map<ManifestHash, Manifest>, blobs: map<BlobHash, Content>)

  const ENTRYPOINT := "main.typ"

  // ----- bundles and manifests -----

  datatype Bundle = Bundle(main: Content, files: map<string, Content>, metadata: Metadata)

  predicate HasDotDot(path: string) {
    |path| >= 2 && ((path[0] == '.' && path[1] == '.') || HasDotDot(path[1..]))
  }

  predicate ValidMetadata(m: Metadata) {
    !Blank(m.name) && !Blank(m.author)
  }

  /** `Manifest::validate_file_path`. */
  predicate ValidPath(path: string) {
    !Blank(path) && !HasDotDot(path) && !("/" <= path)
  }

  /** `TemplateBundle::validate`. */
  predicate ValidBundle(b: Bundle) {
    b.main.utf8 && ValidMetadata(b.metadata)
    && ("schema.json" in b.files ==> b.files["schema.json"].json)
    && forall p :: p in b.files ==> ValidPath(p) && p != ENTRYPOINT
  }

  /** `Manifest::validate`. */
  predicate ValidManifest(m: Manifest) {
    ENTRYPOINT in m.files && ValidMetadata(m.metadata) && forall p :: p in m.files ==> ValidPath(p)
  }

  /** Valid, with an entry point that is text. */
  predicate Renderable(m: Manifest) {
    ValidManifest(m) && m.files[ENTRYPOINT].content.utf8
  }

  /** Some character is no white space. */
  predicate HasText(s: string) {
    exists i :: 0 <= i < |s| && !WhiteSpace(s[i])
  }

  /** Two dots in a row, anywhere. */
  ghost predicate HasTwoDots(path: string) {
    exists a: string, b: string :: IsCut(path, a, b)
  }

  predicate IsCut(path: string, a: string, b: string) {
    path == a + ".." + b
  }

  lemma {:induction false} DotDotIff(path: string)
    ensures HasDotDot(path) <==> HasTwoDots(path)
  {
    if |path| >= 2 {
      DotDotIff(path[1..]);
      if path[0] == '.' && path[1] == '.' {
        assert IsCut(path, "", path[2..]);
      }
      if a, b :| IsCut(path[1..], a, b) {
        assert path == [path[0]] + path[1..];
        assert IsCut(path, [path[0]] + a, b);
      }
      if a, b :| IsCut(path, a, b) {
        CutTail(path, a, b);
      }
    }
  }

  lemma CutTail(path: string, a: string, b: string)
    requires IsCut(path, a, b)
    ensures a == "" ==> |path| >= 2 && path[0] == '.' && path[1] == '.'
    ensures a != "" ==> IsCut(path[1..], a[1..], b)
  {
  }

  /**
   What may be published: text as the main file, a name and an author, a schema that is JSON if there is
   one, and further files under relative paths that do not climb and do not replace the main file.
   */
  lemma BundleIff(b: Bundle)
    ensures ValidBundle(b) <==>
      b.main.utf8 && HasText(b.metadata.name) && HasText(b.metadata.author)
      && ("schema.json" in b.files ==> b.files["schema.json"].json)
      && forall p :: p in b.files ==> HasText(p) && p[0] != '/' && !HasTwoDots(p) && p != "main.typ"
  {
    forall p | p in b.files
      ensures ValidPath(p) <==> HasText(p) && p[0] != '/' && !HasTwoDots(p)
    {
      PathIff(p);
    }
    hide ValidPath;
  }

  /** A manifest that is read back is held to the same, with the main file among its files. */
  lemma ManifestIff(m: Manifest)
    ensures ValidManifest(m) <==>
      "main.typ" in m.files && HasText(m.metadata.name) && HasText(m.metadata.author)
      && forall p :: p in m.files ==> HasText(p) && p[0] != '/' && !HasTwoDots(p)
  {
    forall p | p in m.files
      ensures ValidPath(p) <==> HasText(p) && p[0] != '/' && !HasTwoDots(p)
    {
      PathIff(p);
    }
    hide ValidPath;
  }

  lemma PathIff(path: string)
    ensures ValidPath(path) <==> HasText(path) && path[0] != '/' && !HasTwoDots(path)
  {
    DotDotIff(path);
    hide HasDotDot, WhiteSpace;
    assert path != "" ==> ("/" <= path <==> path[0] == '/');
  }

  function FilesOf(b: Bundle): map<string, BlobHash> {
    (map p | p in b.files :: BlobHash(b.files[p]))[ENTRYPOINT := BlobHash(b.main)]
  }

  function ManifestOf(b: Bundle): Manifest {
    Manifest(FilesOf(b), b.metadata)
  }

  /** A valid bundle always makes a valid manifest. */
  lemma BundleMakesManifest(b: Bundle)
    requires ValidBundle(b)
    ensures ValidManifest(ManifestOf(b)) && Renderable(ManifestOf(b))
  {
    assert ENTRYPOINT[0] != '/' && !WhiteSpace(ENTRYPOINT[0]);
    EntrypointIsPath();
    hide ValidPath, ValidMetadata;
  }

  lemma EntrypointIsPath()
    ensures ValidPath(ENTRYPOINT)
  {
    assert !WhiteSpace(ENTRYPOINT[0]);
    assert ENTRYPOINT[1..] == "ain.typ" && "ain.typ"[1..] == "in.typ" && "in.typ"[1..] == "n.typ"
      && "n.typ"[1..] == ".typ";
    assert ".typ"[1..] == "typ" && "typ"[1..] == "yp" && "yp"[1..] == "p";
    assert !HasDotDot("yp") && !HasDotDot("typ");
    assert !HasDotDot(".typ") && !HasDotDot("n.typ");
    assert !HasDotDot("in.typ") && !HasDotDot("ain.typ");
  }

  // ----- closed stores -----

  function Listed(m: Manifest): set<BlobHash> {
    m.files.Values
  }

  /** A stored manifest is a renderable template, and each blob it lists is stored. */
  predicate Complete(s: Store, h: ManifestHash) {
    h in s.manifests && Renderable(s.manifests[h]) && Listed(s.manifests[h]) <= s.blobs.Keys
  }

  /** What is stored under a hash is what was hashed. */
  predicate Addressed(s: Store) {
    (forall h :: h in s.manifests ==> s.manifests[h] == h.manifest)
    && (forall b :: b in s.blobs ==> s.blobs[b] == b.content)
  }

  /** Every ref reaches a complete template. */
  predicate Closed(s: Store) {
    Addressed(s) && forall r :: r in s.refs ==> Complete(s, s.refs[r])
  }

  /** Every manifest is referenced and every blob is listed. */
  predicate GarbageFree(s: Store) {
    (forall h :: h in s.manifests ==> h in s.refs.Values)
    && (forall b :: b in s.blobs ==> exists h :: h in s.manifests && b in Listed(s.manifests[h]))
  }

  // ----- publishing -----

  function PutBlob(s: Store, c: Content): Store {
    s.(blobs := s.blobs[BlobHash(c) := c])
  }

  function PutManifest(s: Store, m: Manifest): Store {
    s.(manifests := s.manifests[ManifestHash(m) := m])
  }

  function PutRef(s: Store, r: RefName, h: ManifestHash): Store {
    s.(refs := s.refs[r := h])
  }

  /** The store after a bundle was published under a ref. */
  function Published(s: Store, r: RefName, b: Bundle): Store {
    var m := ManifestOf(b);
    Store(s.refs[r := ManifestHash(m)], s.manifests[ManifestHash(m) := m],
          s.blobs + map h | h in Listed(m) :: h.content)
  }

  lemma PutBlobCloses(s: Store, c: Content)
    requires Closed(s)
    ensures Closed(PutBlob(s, c))
  {
    hide Renderable, Listed;
  }

  lemma PutManifestCloses(s: Store, m: Manifest)
    requires Closed(s)
    ensures Closed(PutManifest(s, m))
  {
    hide Renderable, Listed;
  }

  lemma PutRefCloses(s: Store, r: RefName, h: ManifestHash)
    requires Closed(s) && Complete(s, h)
    ensures Closed(PutRef(s, r, h))
  {
  }

  // ----- deleting -----

  function DropRef(s: Store, r: RefName): Store {
    s.(refs := s.refs - {r})
  }

  function DropBlobs(s: Store, dead: set<BlobHash>): Store {
    s.(blobs := s.blobs - dead)
  }

  function DropManifest(s: Store, h: ManifestHash): Store {
    s.(manifests := s.manifests - {h})
  }

  /** What a sweep that cannot read some refs or manifests takes for live. */
  datatype Blind = Blind(refs: set<RefName>, manifests: set<ManifestHash>)

  const SEEING := Blind({}, {})

  function Live(s: Store, blind: Blind): set<ManifestHash> {
    set r | r in s.refs && r !in blind.refs :: s.refs[r]
  }

  /** The blobs of a manifest that can be read. */
  function Reachable(s: Store, blind: Blind, h: ManifestHash): set<BlobHash> {
    if h in s.manifests && h !in blind.manifests && ValidManifest(s.manifests[h]) then Listed(s.manifests[h]) else {}
  }

  function LiveBlobs(s: Store, blind: Blind): set<BlobHash> {
    set h, b | h in Live(s, blind) && b in Reachable(s, blind, h) :: b
  }

  /** The blobs that the sweep deletes along with manifest `h`. */
  function Dead(s: Store, blind: Blind, h: ManifestHash): set<BlobHash> {
    Reachable(s, blind, h) - LiveBlobs(s, blind)
  }

  /** `gc_orphaned` run to its end on a store whose ref was just dropped. */
  function Swept(s: Store, blind: Blind, h: ManifestHash): Store {
    if h in Live(s, blind) then s else DropManifest(DropBlobs(s, Dead(s, blind, h)), h)
  }

  function Deleted(s: Store, r: RefName): Store
    requires r in s.refs
  {
    Swept(DropRef(s, r), SEEING, s.refs[r])
  }

  /** The blobs that some remaining ref still needs. */
  predicate Needed(s: Store, b: BlobHash) {
    exists r :: r in s.refs && s.refs[r] in s.manifests && b in Listed(s.manifests[s.refs[r]])
  }

  /** With everything readable, the sweep removes exactly the orphan's blobs that no ref needs any more. */
  lemma DeadIsUnneeded(s: Store, h: ManifestHash)
    requires Closed(s)
    ensures Dead(s, SEEING, h) == set b | b in Reachable(s, SEEING, h) && !Needed(s, b)
  {
    forall b: BlobHash
      ensures b in LiveBlobs(s, SEEING) <==> Needed(s, b)
    {
      LiveIffNeeded(s, b);
    }
    hide Reachable, Closed, Needed, LiveBlobs;
  }

  lemma LiveIffNeeded(s: Store, b: BlobHash)
    requires Closed(s)
    ensures b in LiveBlobs(s, SEEING) <==> Needed(s, b)
  {
    hide ValidManifest, Addressed;
    if Needed(s, b) {
      var r :| r in s.refs && s.refs[r] in s.manifests && b in Listed(s.manifests[s.refs[r]]);
      assert Complete(s, s.refs[r]);
      assert s.refs[r] in Live(s, SEEING) && b in Reachable(s, SEEING, s.refs[r]);
    }
    if b in LiveBlobs(s, SEEING) {
      var h :| h in Live(s, SEEING) && b in Reachable(s, SEEING, h);
      var r :| r in s.refs && s.refs[r] == h;
      assert b in Listed(s.manifests[s.refs[r]]);
    }
  }

  /** Deleting any part of the dead blobs, and then the orphan manifest, keeps a store closed. */
  lemma SweepCloses(s: Store, h: ManifestHash, part: set<BlobHash>)
    requires Closed(s) && h !in Live(s, SEEING) && part <= Dead(s, SEEING, h)
    ensures Closed(DropBlobs(s, part)) && Closed(DropManifest(DropBlobs(s, part), h))
  {
    hide ValidManifest;
    forall r | r in s.refs
      ensures s.refs[r] != h && Listed(s.manifests[s.refs[r]]) !! part && Complete(s, s.refs[r])
    {
      assert s.refs[r] in Live(s, SEEING);
      assert Complete(s, s.refs[r]);
      forall b | b in Listed(s.manifests[s.refs[r]])
        ensures b !in part
      {
        assert b in Reachable(s, SEEING, s.refs[r]);
        assert b in LiveBlobs(s, SEEING);
      }
    }
  }

  lemma DropRefCloses(s: Store, r: RefName)
    requires Closed(s)
    ensures Closed(DropRef(s, r))
  {
  }

  /** A manifest that a readable ref points to and that can be read lists this blob. */
  predicate SeenInUse(s: Store, blind: Blind, b: BlobHash) {
    exists k :: k in Live(s, blind) && b in Reachable(s, blind, k)
  }

  /** The template behind this ref outlives the sweep: all it shares with the orphan was seen in use. */
  predicate Spared(s: Store, blind: Blind, h: ManifestHash, r: RefName)
    requires r in s.refs && s.refs[r] in s.manifests
  {
    s.refs[r] != h
    && forall b :: b in Listed(s.manifests[s.refs[r]]) && b in Reachable(s, blind, h) ==> SeenInUse(s, blind, b)
  }

  /**
   A sweep that cannot read everything keeps the store closed exactly when a ref that was read points
   to the manifest, or no unread ref does and every blob that a referenced template shares with it is
   listed by a manifest that was read.
   */
  lemma BlindSweepClosesIff(s: Store, blind: Blind, h: ManifestHash)
    requires Closed(s)
    ensures forall r :: r in s.refs ==> s.refs[r] in s.manifests
    ensures Closed(Swept(s, blind, h)) <==> h in Live(s, blind) || forall r :: r in s.refs ==> Spared(s, blind, h, r)
  {
    hide ValidManifest;
    var s' := Swept(s, blind, h);
    assert forall r :: r in s.refs ==> Complete(s, s.refs[r]);
    if h !in Live(s, blind) {
      forall r | r in s.refs
        ensures Spared(s, blind, h, r) <==> Complete(s', s.refs[r])
      {
        SparedIffComplete(s, blind, h, r);
      }
      assert forall r :: r in s.refs ==> s'.refs[r] == s.refs[r];
    }
  }

  lemma SparedIffComplete(s: Store, blind: Blind, h: ManifestHash, r: RefName)
    requires r in s.refs && Complete(s, s.refs[r]) && h !in Live(s, blind)
    ensures Spared(s, blind, h, r) <==> Complete(Swept(s, blind, h), s.refs[r])
  {
    hide Renderable, Reachable, Live;
    forall b: BlobHash
      ensures b in LiveBlobs(s, blind) <==> SeenInUse(s, blind, b)
    {
    }
  }

  /** It does fail: a second tag of the orphan's manifest that cannot be read is left dangling. */
  lemma BlindSweepCanBreak(c: Content)
    requires c.utf8
    ensures
      var m := Manifest(map[ENTRYPOINT := BlobHash(c)], Metadata("invoice", "ann", None));
      var h := ManifestHash(m);
      var s := Store(map[("invoice", "v2") := h], map[h := m], map[BlobHash(c) := c]);
      Closed(s) && !Closed(Swept(s, Blind({("invoice", "v2")}, {}), h))
  {
    EntrypointIsPath();
    hide ValidPath;
    var meta := Metadata("invoice", "ann", None);
    assert !WhiteSpace(meta.name[0]) && !WhiteSpace(meta.author[0]);
    var m := Manifest(map[ENTRYPOINT := BlobHash(c)], meta);
    var h := ManifestHash(m);
    var s := Store(map[("invoice", "v2") := h], map[h := m], map[BlobHash(c) := c]);
    assert Complete(s, h);
    var blind := Blind({("invoice", "v2")}, {});
    assert h !in Live(s, blind);
    assert Swept(s, blind, h).refs[("invoice", "v2")] == h;
  }

  lemma PublishedCloses(s: Store, r: RefName, b: Bundle)
    requires Closed(s) && ValidBundle(b)
    ensures Closed(Published(s, r, b))
  {
    BundleMakesManifest(b);
    var m := ManifestOf(b);
    AddedBlobs(s, Published(s, r, b), ManifestHash(m));
    PublishedComplete(s, r, m, Published(s, r, b));
    hide ManifestOf, ValidBundle, ValidManifest, Renderable, Closed;
  }

  lemma PublishedComplete(s: Store, r: RefName, m: Manifest, s': Store)
    requires Closed(s) && Renderable(m)
    requires s'.refs == s.refs[r := ManifestHash(m)] && s'.manifests == s.manifests[ManifestHash(m) := m]
    requires s.blobs.Keys + Listed(m) == s'.blobs.Keys && Addressed(s')
    ensures Closed(s')
  {
    hide Renderable;
    forall q | q in s'.refs
      ensures Complete(s', s'.refs[q])
    {
      if q != r {
        assert Complete(s, s.refs[q]);
      }
    }
  }

  /** From a closed, garbage-free store, publishing an absent version and deleting it changes nothing. */
  lemma PublishDeleteIsIdentity(s: Store, r: RefName, b: Bundle)
    requires Closed(s) && GarbageFree(s) && r !in s.refs && ValidBundle(b)
    ensures Deleted(Published(s, r, b), r) == s
  {
    hide ManifestOf, ValidBundle, ValidManifest, Closed, GarbageFree, Dead;
    var h := ManifestHash(ManifestOf(b));
    var d := DropRef(Published(s, r, b), r);
    assert d.refs == s.refs;
    if h in s.refs.Values {
      RepublishAddsNothing(s, r, b);
      LiveAfter(s, d);
    } else {
      NewBlobsAreDead(s, r, b);
      LiveAfter(s, d);
      UnknownManifest(s, h);
      assert DropManifest(d, h).manifests == s.manifests;
    }
  }

  lemma UnknownManifest(s: Store, h: ManifestHash)
    requires GarbageFree(s) && h !in s.refs.Values
    ensures h !in s.manifests
  {
  }

  /** Publishing a template that is there already only adds a ref. */
  lemma RepublishAddsNothing(s: Store, r: RefName, b: Bundle)
    requires Closed(s) && ManifestHash(ManifestOf(b)) in s.refs.Values
    ensures Published(s, r, b).manifests == s.manifests && Published(s, r, b).blobs == s.blobs
  {
    hide ManifestOf, ValidManifest;
    var h := ManifestHash(ManifestOf(b));
    var q :| q in s.refs && s.refs[q] == h;
    assert Complete(s, s.refs[q]);
  }

  /** The blobs that deleting a fresh publication removes are those it added. */
  lemma NewBlobsAreDead(s: Store, r: RefName, b: Bundle)
    requires Closed(s) && GarbageFree(s) && r !in s.refs && ValidBundle(b)
    requires ManifestHash(ManifestOf(b)) !in s.refs.Values
    ensures
      var h := ManifestHash(ManifestOf(b));
      var d := DropRef(Published(s, r, b), r);
      DropBlobs(d, Dead(d, SEEING, h)).blobs == s.blobs
  {
    hide ManifestOf, ValidBundle, ValidManifest, Closed, GarbageFree, Dead, Needed;
    var h := ManifestHash(ManifestOf(b));
    var d := DropRef(Published(s, r, b), r);
    assert d.refs == s.refs;
    BundleMakesManifest(b);
    PublishedCloses(s, r, b);
    DropRefCloses(Published(s, r, b), r);
    DeadIsUnneeded(d, h);
    assert Reachable(d, SEEING, h) == Listed(h.manifest);
    ClosedIsAddressed(s);
    AddedBlobs(s, d, h);
    forall x: BlobHash
      ensures Needed(d, x) <==> x in s.blobs
    {
      NeededIffStored(s, d, h, x);
    }
    var kept := DropBlobs(d, Dead(d, SEEING, h)).blobs;
    assert kept.Keys == s.blobs.Keys;
  }

  lemma ClosedIsAddressed(s: Store)
    requires Closed(s)
    ensures Addressed(s)
  {
  }

  /** A blob of the store after publishing is an old one or a listed one. */
  lemma AddedBlobs(s: Store, d: Store, h: ManifestHash)
    requires d.blobs == s.blobs + map x | x in Listed(h.manifest) :: x.content
    requires Addressed(s)
    ensures d.blobs.Keys == s.blobs.Keys + Listed(h.manifest)
    ensures forall x :: x in s.blobs ==> d.blobs[x] == s.blobs[x]
    ensures forall x :: x in d.blobs ==> d.blobs[x] == x.content
  {
  }

  lemma LiveAfter(s: Store, d: Store)
    requires d.refs == s.refs
    ensures Live(d, SEEING) == s.refs.Values
  {
    assert forall r :: r in s.refs ==> s.refs[r] in s.refs.Values;
  }

  /** In a garbage-free store, what is needed is what is stored. */
  lemma NeededIffStored(s: Store, d: Store, h: ManifestHash, x: BlobHash)
    requires Closed(s) && GarbageFree(s) && d.refs == s.refs && h !in s.refs.Values
    requires d.manifests == s.manifests[h := h.manifest]
    ensures Needed(d, x) <==> x in s.blobs
  {
    hide ValidManifest;
    if Needed(d, x) {
      var r :| r in d.refs && d.refs[r] in d.manifests && x in Listed(d.manifests[d.refs[r]]);
      assert Complete(s, s.refs[r]) && s.refs[r] in s.refs.Values;
    }
    if x in s.blobs {
      var k :| k in s.manifests && x in Listed(s.manifests[k]);
      var r :| r in s.refs && s.refs[r] == k;
      assert d.refs[r] in d.manifests && d.manifests[d.refs[r]] == s.manifests[k];
    }
  }
}
