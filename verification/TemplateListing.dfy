/**
 Listing templates (crates/papermake-registry/src/registry/templates.rs): a scan of all ref keys,
 and a scan of one template's key prefix, over string keys as they are stored. Both describe the
 same templates.
 */
module TemplateListing {
  import opened Prelude
  import opened References
  import opened Sorting
  import opened Strings
  import opened TemplateStore

  datatype Info = Info(
    name: string, namespace: Option<string>, tags: seq<string>, hash: ManifestHash, metadata: Metadata)

  /** The refs by key, and the manifests. */
  datatype View = View(refs: map<string, ManifestHash>, manifests: map<ManifestHash, Manifest>)

  /** Every ref key was built by a publish, and its manifest is stored. */
  predicate PublishedView(v: View) {
    forall key :: key in v.refs ==>
      WellFormed(key) && v.refs[key] in v.manifests && ValidManifest(v.manifests[v.refs[key]])
  }

  predicate WellFormed(key: string) {
    ParseRefKey(key).Some?
    && var (name, tag) := ParseRefKey(key).value;
       key == RefKey(name, tag) && ValidateRefParts(name, tag).Ok?
  }

  function FullNameOf(i: Info): string {
    match i.namespace
    case Some(ns) => ns + "/" + i.name
    case None => i.name
  }

  /** `parse_ref_key`. */
  function ParseRefKey(key: string): Option<(string, string)> {
    if !("refs/" <= key) then None
    else
      var parts := Split(key[5..], '/');
      if |parts| < 2 then None else Some((Join(parts[..|parts| - 1], '/'), parts[|parts| - 1]))
  }

  /** `parse_namespace_path`. */
  function ParseNamespacePath(path: string): (Option<string>, string) {
    var parts := Split(path, '/');
    if |parts| == 1 then (None, parts[0])
    else if |parts| == 2 then (Some(parts[0]), parts[1])
    else (Some(Join(parts[..|parts| - 1], '/')), parts[|parts| - 1])
  }

  /** The key of a version parses back to it, whatever the name, for every tag without a slash. */
  lemma RefKeyParses(name: string, tag: string)
    requires '/' !in tag
    ensures ParseRefKey(RefKey(name, tag)) == Some((name, tag))
  {
    LastPart(name, tag);
    JoinSplit(name, '/');
    hide Split, Join, RefKey;
    KeyPath(name, tag);
    var parts := Split(name + "/" + tag, '/');
    assert parts[..|parts| - 1] == Split(name, '/');
  }

  lemma KeyPath(name: string, tag: string)
    ensures "refs/" <= RefKey(name, tag) && RefKey(name, tag)[5..] == name + "/" + tag
  {
    assert RefKey(name, tag) == "refs/" + (name + "/" + tag);
  }

  lemma LastPart(name: string, tag: string)
    requires '/' !in tag
    ensures Split(name + "/" + tag, '/') == Split(name, '/') + [tag]
  {
    var path := name + ['/'] + tag;
    assert path == name + "/" + tag;
    RFindSplit(name, '/', tag);
    assert path[..|name|] == name && path[|name| + 1..] == tag;
  }

  /** The parts of a path are its last segment and the rest, and they make the full name again. */
  lemma PathParses(path: string)
    ensures
      var (namespace, name) := ParseNamespacePath(path);
      (if namespace.Some? then namespace.value + "/" + name else name) == path
      && (namespace.Some? <==> '/' in path) && '/' !in name
  {
    JoinSplit(path, '/');
    if RFind(path, '/').Some? {
      var i := RFind(path, '/').value;
      JoinSplit(path[..i], '/');
      var parts := Split(path, '/');
      assert parts[..|parts| - 1] == Split(path[..i], '/');
      assert path == path[..i] + "/" + path[i + 1..];
    }
  }

  /** A well-formed key is the key of exactly one version. */
  lemma KeyOfVersion(key: string, name: string, tag: string)
    requires WellFormed(key) && ParseRefKey(key) == Some((name, tag))
    ensures key == RefKey(name, tag) && ValidTag(tag) && '/' !in tag
  {
    SegmentCharsPlain(tag);
  }

  predicate HasVersion(v: View, name: string, tag: string) {
    RefKey(name, tag) in v.refs
  }

  /** The tag whose manifest describes the template: "latest", or else the first. */
  function Chosen(tags: seq<string>): string
    requires tags != []
  {
    if "latest" in tags then "latest" else tags[0]
  }

  predicate NameLess(a: Info, b: Info) {
    LexLess(FullNameOf(a), FullNameOf(b))
  }

  lemma NamesAreOrdered()
    ensures StrictOrder(NameLess)
  {
    LexIsStrict();
  }

  predicate DistinctTags(tags: seq<string>) {
    forall i, j :: 0 <= i < j < |tags| ==> tags[i] != tags[j]
  }

  predicate DistinctNames(infos: seq<Info>) {
    forall i, j :: 0 <= i < j < |infos| ==> FullNameOf(infos[i]) != FullNameOf(infos[j])
  }

  /** The tags of a template: each version's once, ascending. */
  predicate TagsOf(v: View, name: string, tags: seq<string>) {
    Ascends(tags, LexLess)
    && (forall t :: t in tags ==> HasVersion(v, name, t) && '/' !in t)
    && (forall key :: key in v.refs && ParseRefKey(key).Some? && ParseRefKey(key).value.0 == name ==>
          ParseRefKey(key).value.1 in tags)
  }

  /** `info` is the right answer for `name`. */
  predicate Describes(v: View, name: string, info: Info) {
    TagsOf(v, name, info.tags) && info.tags != []
    && HasVersion(v, name, Chosen(info.tags)) && info.hash == v.refs[RefKey(name, Chosen(info.tags))]
    && info.hash in v.manifests && info.metadata == v.manifests[info.hash].metadata
    && (info.namespace, info.name) == ParseNamespacePath(name)
  }

  lemma DescriptionUnique(v: View, name: string, a: Info, b: Info)
    requires Describes(v, name, a) && Describes(v, name, b)
    ensures a == b && FullNameOf(a) == name
  {
    forall t
      ensures t in a.tags <==> t in b.tags
    {
      if t in a.tags || t in b.tags {
        RefKeyParses(name, t);
      }
    }
    LexIsStrict();
    AscendsUnique(a.tags, b.tags, LexLess);
    PathParses(name);
  }

  /** A template is described by its "latest" version if there is one, else by the one with the first tag. */
  lemma LatestDescribes(v: View, name: string, info: Info)
    requires Describes(v, name, info)
    ensures HasVersion(v, name, "latest") ==> info.hash == v.refs[RefKey(name, "latest")]
    ensures !HasVersion(v, name, "latest") ==>
      info.tags != [] && HasVersion(v, name, info.tags[0]) && info.hash == v.refs[RefKey(name, info.tags[0])]
    ensures forall t :: t in info.tags && t != info.tags[0] ==> LexLess(info.tags[0], t)
  {
    hide LexLess, ParseNamespacePath;
    RefKeyParses(name, "latest");
    assert info.tags[0] in info.tags;
    hide RefKey, ParseRefKey;
  }

  // ----- the two scans -----

  /** The tags of `name` among these keys, each once, and the key of "latest" if it is there. */
  ghost predicate Grouped(v: View, keys: set<string>, name: string, tags: seq<string>, latest: Option<string>) {
    DistinctTags(tags)
    && (forall t :: t in tags <==> HasVersion(v, name, t) && '/' !in t && RefKey(name, t) in keys)
    && latest == if "latest" in tags then Some(RefKey(name, "latest")) else None
  }

  /** Collect the tags of the keys that parse to `name`, and "latest" if it is there. */
  method CollectTags(v: View, keys: set<string>, name: string) returns (tags: seq<string>, latest: Option<string>)
    requires PublishedView(v) && keys <= v.refs.Keys
    ensures Grouped(v, keys, name, tags, latest)
  {
    hide ParseRefKey, RefKey, PublishedView;
    var rest := keys;
    tags, latest := [], None;
    while rest != {}
      invariant rest <= keys && Grouped(v, keys - rest, name, tags, latest)
      decreases rest
    {
      var key :| key in rest;
      rest := rest - {key};
      var parsed := ParseRefKey(key);
      TagsStep(v, name, key);
      if parsed.Some? && parsed.value.0 == name {
        var tag := parsed.value.1;
        if tag == "latest" {
          latest := Some(key);
        }
        tags := tags + [tag];
      }
    }
  }

  /** Which tag of `name` a key stands for. */
  lemma TagsStep(v: View, name: string, key: string)
    requires PublishedView(v) && key in v.refs
    ensures ParseRefKey(key).Some? && '/' !in ParseRefKey(key).value.1
    ensures ParseRefKey(key).value.0 == name ==> key == RefKey(name, ParseRefKey(key).value.1)
    ensures forall t :: '/' !in t && key == RefKey(name, t) ==> ParseRefKey(key) == Some((name, t))
  {
    KeyOfVersion(key, ParseRefKey(key).value.0, ParseRefKey(key).value.1);
    forall t | '/' !in t && key == RefKey(name, t)
      ensures ParseRefKey(key) == Some((name, t))
    {
      RefKeyParses(name, t);
    }
  }

  /** What both scans make of the tags they collected. */
  function InfoFrom(v: View, name: string, tags: seq<string>, latest: Option<string>): Option<Info>
    requires tags != []
  {
    var sorted := Sort(tags, LexLess);
    if sorted == [] then None
    else
      var key := if latest.Some? then latest.value else RefKey(name, sorted[0]);
      if key !in v.refs || v.refs[key] !in v.manifests || !ValidManifest(v.manifests[v.refs[key]]) then None
      else
        var (namespace, short) := ParseNamespacePath(name);
        Some(Info(short, namespace, sorted, v.refs[key], v.manifests[v.refs[key]].metadata))
  }

  lemma InfoDescribes(v: View, name: string, tags: seq<string>, latest: Option<string>)
    requires PublishedView(v) && tags != [] && DistinctTags(tags)
    requires forall t :: t in tags <==> HasVersion(v, name, t) && '/' !in t
    requires latest == if "latest" in tags then Some(RefKey(name, "latest")) else None
    ensures InfoFrom(v, name, tags, latest).Some? && Describes(v, name, InfoFrom(v, name, tags, latest).value)
  {
    hide ParseRefKey, ValidManifest, RefKey, ParseNamespacePath, Sort, WellFormed;
    var sorted := Sort(tags, LexLess);
    LexIsStrict();
    SortAscends(tags, LexLess);
    assert tags[0] in sorted;
    assert sorted[0] in tags;
    forall key | key in v.refs && ParseRefKey(key).Some? && ParseRefKey(key).value.0 == name
      ensures ParseRefKey(key).value.1 in sorted
    {
      TagsStep(v, name, key);
    }
    assert HasVersion(v, name, Chosen(sorted));
  }

  /** `get_template_info`: only the keys under `refs/{name}/` are listed. */
  method GetTemplateInfo(v: View, name: string) returns (r: Option<Info>)
    requires PublishedView(v)
    ensures r.Some? ==> Describes(v, name, r.value)
    ensures r.Some? <==> exists t :: HasVersion(v, name, t) && '/' !in t
  {
    var prefix := "refs/" + name + "/";
    var keys := set key | key in v.refs && prefix <= key;
    var tags, latest := CollectTags(v, keys, name);
    forall t | HasVersion(v, name, t)
      ensures RefKey(name, t) in keys
    {
      assert RefKey(name, t)[..|prefix|] == prefix;
    }
    if tags == [] {
      return None;
    }
    assert tags[0] in tags;
    InfoDescribes(v, name, tags, latest);
    return InfoFrom(v, name, tags, latest);
  }

  function NamesIn(keys: set<string>): set<string> {
    set key | key in keys && ParseRefKey(key).Some? :: ParseRefKey(key).value.0
  }

  /** Every template once, by ascending full name, each rightly described. */
  ghost predicate Lists(v: View, infos: seq<Info>) {
    Ascends(infos, NameLess)
    && (forall i :: i in infos ==> Describes(v, FullNameOf(i), i))
    && (forall name :: name in NamesIn(v.refs.Keys) ==> exists i :: i in infos && FullNameOf(i) == name)
  }

  /** What `list_templates` gathers for a template: its tags, and the key of "latest". */
  type Group = (seq<string>, Option<string>)

  /** The templates that these keys are versions of, each with its tags. */
  ghost predicate AllGrouped(v: View, keys: set<string>, groups: map<string, Group>) {
    groups.Keys == NamesIn(keys)
    && forall name :: name in groups ==> Grouped(v, keys, name, groups[name].0, groups[name].1)
  }

  /** The grouping pass: one look at every key. */
  method GroupKeys(v: View) returns (groups: map<string, Group>)
    requires PublishedView(v)
    ensures AllGrouped(v, v.refs.Keys, groups)
  {
    hide ParseRefKey, RefKey, PublishedView, AllGrouped;
    var rest := v.refs.Keys;
    groups := map[];
    NothingGrouped(v);
    assert v.refs.Keys - rest == {};
    while rest != {}
      invariant rest <= v.refs.Keys && AllGrouped(v, v.refs.Keys - rest, groups)
      decreases rest
    {
      var key :| key in rest;
      ghost var done := v.refs.Keys - rest;
      rest := rest - {key};
      assert v.refs.Keys - rest == done + {key};
      var parsed := ParseRefKey(key);
      TagsStep(v, "", key);
      if parsed.Some? {
        var (name, tag) := parsed.value;
        var (tags, latest) := if name in groups then groups[name] else ([], None);
        GroupNext(v, done, key, groups, tags, latest);
        groups := groups[name := (tags + [tag], if tag == "latest" then Some(key) else latest)];
      }
    }
    assert v.refs.Keys - rest == v.refs.Keys;
  }

  lemma NothingGrouped(v: View)
    ensures AllGrouped(v, {}, map[])
  {
  }

  /** One more key: its template has one more tag, and the others are as they were. */
  lemma GroupNext(
    v: View, done: set<string>, key: string, groups: map<string, Group>, tags: seq<string>, latest: Option<string>)
    requires PublishedView(v) && key in v.refs && key !in done && done <= v.refs.Keys && ParseRefKey(key).Some?
    requires AllGrouped(v, done, groups)
    requires
      var name := ParseRefKey(key).value.0;
      (tags, latest) == if name in groups then groups[name] else ([], None)
    ensures
      var (name, tag) := ParseRefKey(key).value;
      AllGrouped(v, done + {key}, groups[name := (tags + [tag], if tag == "latest" then Some(key) else latest)])
  {
    hide ParseRefKey, RefKey, PublishedView, Grouped;
    var (name, tag) := ParseRefKey(key).value;
    var groups' := groups[name := (tags + [tag], if tag == "latest" then Some(key) else latest)];
    if name !in groups {
      NewName(v, done, name);
    }
    assert NamesIn(done + {key}) == NamesIn(done) + {name};
    forall n | n in groups'
      ensures Grouped(v, done + {key}, n, groups'[n].0, groups'[n].1)
    {
      if n == name {
        TagAdded(v, done, key, tags, latest);
      } else {
        OtherKept(v, done, key, n, groups[n].0, groups[n].1);
      }
    }
  }

  /** A name not seen yet has no tags among these keys. */
  lemma NewName(v: View, done: set<string>, name: string)
    requires PublishedView(v) && done <= v.refs.Keys && name !in NamesIn(done)
    ensures Grouped(v, done, name, [], None)
  {
    hide ParseRefKey, RefKey, PublishedView;
    forall t | HasVersion(v, name, t) && '/' !in t
      ensures RefKey(name, t) !in done
    {
      TagsStep(v, name, RefKey(name, t));
    }
  }

  lemma TagAdded(v: View, done: set<string>, key: string, tags: seq<string>, latest: Option<string>)
    requires PublishedView(v) && key in v.refs && key !in done && ParseRefKey(key).Some?
    requires Grouped(v, done, ParseRefKey(key).value.0, tags, latest)
    ensures
      var (name, tag) := ParseRefKey(key).value;
      Grouped(v, done + {key}, name, tags + [tag], if tag == "latest" then Some(key) else latest)
  {
    hide ParseRefKey, RefKey, PublishedView;
    TagsStep(v, ParseRefKey(key).value.0, key);
  }

  lemma OtherKept(v: View, done: set<string>, key: string, name: string, tags: seq<string>, latest: Option<string>)
    requires PublishedView(v) && key in v.refs && ParseRefKey(key).Some? && ParseRefKey(key).value.0 != name
    requires Grouped(v, done, name, tags, latest)
    ensures Grouped(v, done + {key}, name, tags, latest)
  {
    hide ParseRefKey, RefKey, PublishedView;
    TagsStep(v, name, key);
  }

  /** `list_templates`: group all ref keys by template in one pass, then describe each template. */
  method ListTemplates(v: View) returns (infos: seq<Info>)
    requires PublishedView(v)
    ensures Lists(v, infos)
    ensures forall i, j :: 0 <= i < j < |infos| ==> LexLess(FullNameOf(infos[i]), FullNameOf(infos[j]))
  {
    hide ParseRefKey, RefKey, PublishedView, Describes, InfoFrom, NamesIn, Sort, Grouped;
    var groups := GroupKeys(v);
    var rest := groups.Keys;
    infos := [];
    while rest != {}
      invariant rest <= groups.Keys && DistinctNames(infos)
      invariant forall i :: i in infos ==> FullNameOf(i) in groups.Keys - rest && Describes(v, FullNameOf(i), i)
      invariant forall name :: name in groups.Keys - rest ==> exists i :: i in infos && FullNameOf(i) == name
      decreases rest
    {
      var name :| name in rest;
      var (tags, latest) := groups[name];
      GroupDescribes(v, name, tags, latest);
      var info := InfoFrom(v, name, tags, latest).value;
      DescriptionUnique(v, name, info, info);
      ghost var before := infos;
      infos := infos + [info];
      assert info in infos;
      forall n | n in groups.Keys - (rest - {name})
        ensures exists i :: i in infos && FullNameOf(i) == n
      {
        if n != name {
          assert n in groups.Keys - rest;
          var i :| i in before && FullNameOf(i) == n;
          assert i in infos;
        }
      }
      rest := rest - {name};
    }
    NamesAreOrdered();
    LexIsStrict();
    SortAscends(infos, NameLess);
    ghost var unsorted := infos;
    infos := Sort(infos, NameLess);
    forall name | name in NamesIn(v.refs.Keys)
      ensures exists i :: i in infos && FullNameOf(i) == name
    {
      assert name in groups.Keys - rest;
      var i :| i in unsorted && FullNameOf(i) == name;
      assert i in infos;
    }
  }

  /** The tags of a template that some key is a version of describe it. */
  lemma GroupDescribes(v: View, name: string, tags: seq<string>, latest: Option<string>)
    requires PublishedView(v) && name in NamesIn(v.refs.Keys) && Grouped(v, v.refs.Keys, name, tags, latest)
    ensures tags != [] && InfoFrom(v, name, tags, latest).Some?
    ensures Describes(v, name, InfoFrom(v, name, tags, latest).value)
  {
    hide InfoFrom, Describes, PublishedView, ParseRefKey, RefKey;
    NamedHasTag(v, name, tags);
    InfoDescribes(v, name, tags, latest);
  }

  /** A name among the parsed keys has a tag. */
  lemma NamedHasTag(v: View, name: string, tags: seq<string>)
    requires PublishedView(v) && name in NamesIn(v.refs.Keys)
    requires forall t :: t in tags <==> HasVersion(v, name, t) && '/' !in t && RefKey(name, t) in v.refs.Keys
    ensures tags != []
  {
    var key :| key in v.refs && ParseRefKey(key).Some? && ParseRefKey(key).value.0 == name;
    TagsStep(v, name, key);
    assert ParseRefKey(key).value.1 in tags;
  }

  /**
   The prefix scan refines the full scan: `get_template_info(name)` finds a template exactly when
   the listing has an entry of that full name, and then they are equal. A name that is only the
   namespace of other templates is not found.
   */
  lemma PrefixScanRefinesFullScan(v: View, name: string, infos: seq<Info>, r: Option<Info>)
    requires PublishedView(v) && Lists(v, infos)
    requires r.Some? ==> Describes(v, name, r.value)
    requires r.Some? <==> exists t :: HasVersion(v, name, t) && '/' !in t
    ensures r.Some? <==> exists i :: i in infos && FullNameOf(i) == name
    ensures r.Some? ==> r.value in infos
    ensures forall i :: i in infos && FullNameOf(i) == name ==> r == Some(i)
  {
    hide ParseNamespacePath, ParseRefKey, ValidManifest, RefKey, WellFormed;
    if r.Some? {
      var t :| HasVersion(v, name, t) && '/' !in t;
      RefKeyParses(name, t);
      assert name in NamesIn(v.refs.Keys);
      var i :| i in infos && FullNameOf(i) == name;
      DescriptionUnique(v, name, i, r.value);
    }
    forall i | i in infos && FullNameOf(i) == name
      ensures r == Some(i)
    {
      assert i.tags[0] in i.tags;
      assert HasVersion(v, name, i.tags[0]);
      DescriptionUnique(v, name, i, r.value);
    }
  }

  // ----- where such views come from -----

  /** The refs of a template store under their keys. */
  function ViewOf(s: Store): (v: View)
    requires forall r :: r in s.refs ==> ValidateRefParts(r.0, r.1).Ok?
    ensures forall r :: r in s.refs ==> RefKey(r.0, r.1) in v.refs && v.refs[RefKey(r.0, r.1)] == s.refs[r]
    ensures forall key :: key in v.refs ==> exists r :: r in s.refs && key == RefKey(r.0, r.1)
  {
    KeysInjective(s);
    View(map r | r in s.refs :: RefKey(r.0, r.1) := s.refs[r], s.manifests)
  }

  lemma ValidPartsTag(name: string, tag: string)
    requires ValidateRefParts(name, tag).Ok?
    ensures ValidTag(tag)
  {
  }

  lemma KeysInjective(s: Store)
    requires forall r :: r in s.refs ==> ValidateRefParts(r.0, r.1).Ok?
    ensures forall a, b :: a in s.refs && b in s.refs && RefKey(a.0, a.1) == RefKey(b.0, b.1) ==> a == b
  {
    hide ValidateRefParts, RefKey;
    forall a, b | a in s.refs && b in s.refs && RefKey(a.0, a.1) == RefKey(b.0, b.1)
      ensures a == b
    {
      ValidPartsTag(a.0, a.1);
      ValidPartsTag(b.0, b.1);
      RefKeyInjective(a.0, a.1, b.0, b.1);
    }
  }

  /** A closed store whose refs were published gives a view that both scans accept. */
  lemma ClosedStoreLists(s: Store)
    requires Closed(s) && forall r :: r in s.refs ==> ValidateRefParts(r.0, r.1).Ok?
    ensures PublishedView(ViewOf(s))
  {
    var v := ViewOf(s);
    forall key | key in v.refs
      ensures WellFormed(key) && v.refs[key] in v.manifests && ValidManifest(v.manifests[v.refs[key]])
    {
      var r :| r in s.refs && key == RefKey(r.0, r.1);
      ValidPartsTag(r.0, r.1);
      SegmentCharsPlain(r.1);
      RefKeyParses(r.0, r.1);
      assert Complete(s, s.refs[r]);
    }
  }
}
