/**
 The aggregated analytics of crates/papermake-registry/src/render_storage/summary.rs: records are
 reduced to the newest one of each render id, and the rollups are computed over those in loops.
 What the loops compute is described by the set of those records alone. Averages and rates are
 kept as sum and count; times are milliseconds.
 */
module Summaries {
  import opened Prelude
  import opened Sorting
  import opened Strings

  datatype Record = Record(id: string, at: int, template: string, tag: string, success: bool, ms: nat, rest: string)

  const DAY_MS := 86_400_000

  const EDGES: seq<nat> := [100, 250, 500, 1000, 2000]

  function Day(r: Record): int {
    r.at / DAY_MS
  }

  datatype Volume = Volume(day: int, renders: nat, failures: nat)

  datatype Durations = Durations(day: int, count: nat, total: nat, p90: nat, p95: nat, p99: nat)

  datatype TagCount = TagCount(tag: string, renders: nat)

  datatype Template = Template(name: string, total: nat, byTag: seq<TagCount>)

  datatype Totals = Totals(renders: nat, successes: nat, p90: nat)

  datatype Summary = Summary(
    volume: seq<Volume>, durations: seq<Durations>, histogram: seq<nat>, templates: seq<Template>, totals: Totals)

  // ----- what the figures mean, for a set of records -----

  /** The records with this key. */
  function Part<K(==)>(s: set<Record>, key: Record -> K, k: K): set<Record> {
    set r | r in s && key(r) == k
  }

  function TemplateOf(r: Record): string {
    r.template
  }

  function TagOf(r: Record): string {
    r.tag
  }

  function MillisOf(r: Record): nat {
    r.ms
  }

  function Successes(s: set<Record>): set<Record> {
    set r | r in s && r.success
  }

  function Failures(s: set<Record>): set<Record> {
    set r | r in s && !r.success
  }

  function Since(s: set<Record>, cutoff: int): set<Record> {
    set r | r in s && r.at >= cutoff
  }

  /** The histogram bucket of a duration: the first edge above it, or the open one. */
  predicate IsBucket(ms: nat, b: nat) {
    b <= |EDGES| && (b < |EDGES| ==> ms < EDGES[b]) && (b > 0 ==> EDGES[b - 1] <= ms)
  }

  function BucketOf(r: Record): nat {
    if r.ms < 100 then 0 else if r.ms < 250 then 1 else if r.ms < 500 then 2
    else if r.ms < 1000 then 3 else if r.ms < 2000 then 4 else 5
  }

  lemma BucketIsUnique(r: Record, b: nat)
    ensures IsBucket(r.ms, b) <==> b == BucketOf(r)
  {
    assert EDGES[0] == 100 && EDGES[1] == 250 && EDGES[2] == 500 && EDGES[3] == 1000 && EDGES[4] == 2000;
  }

  predicate Ordered(ds: seq<nat>) {
    forall i, j :: 0 <= i < j < |ds| ==> ds[i] <= ds[j]
  }

  /** `ds` lists the durations of these records in ascending order, repetitions included. */
  ghost predicate DurationsOf(s: set<Record>, ds: seq<nat>) {
    Ordered(ds) && forall v: nat :: multiset(ds)[v] == |Part(s, MillisOf, v)|
  }

  function Sum(ds: seq<nat>): nat {
    if ds == [] then 0 else Sum(ds[..|ds| - 1]) + ds[|ds| - 1]
  }

  /** Nearest rank, half rounded up, for a percentage. */
  function Rank(n: nat, percent: nat): nat
    requires n > 0
  {
    Min(((n - 1) * percent * 2 + 100) / 200, n - 1)
  }

  function Percentile(sorted: seq<nat>, percent: nat): nat {
    if sorted == [] then 0 else sorted[Rank(|sorted|, percent)]
  }

  /** `v` is the value at the position nearest to this percentage of the way, the later one if two are as near. */
  predicate NearestRank(sorted: seq<nat>, percent: nat, v: nat) {
    if sorted == [] then v == 0
    else
      exists k: nat :: k < |sorted| && v == sorted[k] && Nearest(k, |sorted|, percent)
  }

  predicate Nearest(k: nat, n: nat, percent: nat) {
    2 * (n - 1) * percent - 100 < 200 * k <= 2 * (n - 1) * percent + 100
  }

  /** The percentile computed is the value at the nearest rank. */
  lemma PercentileIsNearest(sorted: seq<nat>, percent: nat)
    requires percent <= 100
    ensures NearestRank(sorted, percent, Percentile(sorted, percent))
  {
    if sorted != [] {
      var n, k := |sorted|, Rank(|sorted|, percent);
      var x := (n - 1) * percent * 2 + 100;
      assert (n - 1) * percent <= (n - 1) * 100 by { ScaledUp(n - 1, percent, 100); }
      assert x / 200 * 200 <= x < x / 200 * 200 + 200;
      assert Nearest(k, n, percent);
    }
  }

  lemma ScaledUp(n: nat, a: nat, b: nat)
    requires a <= b
    ensures n * a <= n * b
  {
  }

  /** There is one value at the nearest rank, and a higher percentage has no smaller one. */
  lemma NearestRankAscends(sorted: seq<nat>, p: nat, q: nat, v: nat, w: nat)
    requires Ordered(sorted) && p <= q && NearestRank(sorted, p, v) && NearestRank(sorted, q, w)
    ensures v <= w && (p == q ==> v == w) && (sorted != [] ==> v in sorted)
  {
    if sorted != [] {
      var j: nat :| j < |sorted| && v == sorted[j] && Nearest(j, |sorted|, p);
      var k: nat :| k < |sorted| && w == sorted[k] && Nearest(k, |sorted|, q);
      ScaledUp(|sorted| - 1, p, q);
      NearestOrder(j, k, |sorted|, p, q);
    }
  }

  lemma NearestOrder(j: nat, k: nat, n: nat, p: nat, q: nat)
    requires n > 0 && Nearest(j, n, p) && Nearest(k, n, q) && (n - 1) * p <= (n - 1) * q
    ensures j <= k && (p == q ==> j == k)
  {
    var x, y := (n - 1) * p, (n - 1) * q;
    assert 2 * (n - 1) * p == 2 * x && 2 * (n - 1) * q == 2 * y;
  }

  predicate VolumeLess(a: Volume, b: Volume) {
    a.day < b.day
  }

  predicate DurationsLess(a: Durations, b: Durations) {
    a.day < b.day
  }

  predicate TagLess(a: TagCount, b: TagCount) {
    a.renders > b.renders || (a.renders == b.renders && LexLess(a.tag, b.tag))
  }

  predicate TemplateLess(a: Template, b: Template) {
    a.total > b.total || (a.total == b.total && LexLess(a.name, b.name))
  }

  lemma OrdersAreStrict()
    ensures StrictOrder(VolumeLess) && StrictOrder(DurationsLess) && StrictOrder(TagLess) && StrictOrder(TemplateLess)
  {
    LexIsStrict();
  }

  predicate VolumeFigures(v: Volume, s: set<Record>) {
    v.renders == |Part(s, Day, v.day)| && v.failures == |Part(Failures(s), Day, v.day)| && v.renders > 0
  }

  /** One entry for each day with renders, by day. */
  predicate VolumeOk(vs: seq<Volume>, s: set<Record>) {
    Ascends(vs, VolumeLess)
    && (forall v :: v in vs ==> VolumeFigures(v, s))
    && (forall r :: r in s ==> exists v :: v in vs && v.day == Day(r))
  }

  ghost predicate DurationFigures(d: Durations, s: set<Record>) {
    exists ds: seq<nat> :: DurationsOf(Part(s, Day, d.day), ds) && ds != [] && FiguresFrom(d, ds)
  }

  predicate FiguresFrom(d: Durations, ds: seq<nat>) {
    d.count == |ds| && d.total == Sum(ds)
    && NearestRank(ds, 90, d.p90) && NearestRank(ds, 95, d.p95) && NearestRank(ds, 99, d.p99)
  }

  /** One entry for each day with successful renders, by day. */
  ghost predicate DurationsOk(ds: seq<Durations>, s: set<Record>) {
    Ascends(ds, DurationsLess)
    && (forall d :: d in ds ==> DurationFigures(d, Successes(s)))
    && (forall r :: r in Successes(s) ==> exists d :: d in ds && d.day == Day(r))
  }

  predicate HistogramOk(h: seq<nat>, s: set<Record>) {
    |h| == |EDGES| + 1 && forall b: nat :: b <= |EDGES| ==> h[b] == |Part(Successes(s), BucketOf, b)|
  }

  predicate TagFigures(t: TagCount, s: set<Record>) {
    t.renders == |Part(s, TagOf, t.tag)| && t.renders > 0
  }

  predicate TagsOk(ts: seq<TagCount>, s: set<Record>) {
    Ascends(ts, TagLess)
    && (forall t :: t in ts ==> TagFigures(t, s))
    && (forall r :: r in s ==> exists t :: t in ts && t.tag == r.tag)
  }

  predicate TemplateFigures(t: Template, s: set<Record>) {
    t.total == |Part(s, TemplateOf, t.name)| && t.total > 0 && TagsOk(t.byTag, Part(s, TemplateOf, t.name))
  }

  /** One entry for each template, the most rendered first. */
  predicate TemplatesOk(ts: seq<Template>, s: set<Record>) {
    Ascends(ts, TemplateLess)
    && (forall t :: t in ts ==> TemplateFigures(t, s))
    && (forall r :: r in s ==> exists t :: t in ts && t.name == r.template)
  }

  ghost predicate TotalsOk(t: Totals, s: set<Record>, now: int) {
    var w := Since(s, now - DAY_MS);
    t.renders == |w| && t.successes == |Successes(w)|
    && exists ds: seq<nat> :: DurationsOf(Successes(w), ds) && NearestRank(ds, 90, t.p90)
  }

  ghost predicate Describes(y: Summary, s: set<Record>, now: int) {
    VolumeOk(y.volume, s) && DurationsOk(y.durations, s) && HistogramOk(y.histogram, s)
    && TemplatesOk(y.templates, s) && TotalsOk(y.totals, s, now)
  }

  // ----- a set of records has one summary -----

  lemma {:induction false} OrderedUnique(a: seq<nat>, b: seq<nat>)
    requires Ordered(a) && Ordered(b) && multiset(a) == multiset(b)
    ensures a == b
  {
    hide Ordered;
    assert |a| == |multiset(a)|;
    assert |b| == |multiset(b)|;
    if a != [] {
      PrefixOrdered(a);
      PrefixOrdered(b);
      LastIsLargest(a, b);
      LastIsLargest(b, a);
      WithoutLast(a);
      WithoutLast(b);
      OrderedUnique(a[..|a| - 1], b[..|b| - 1]);
      assert a == a[..|a| - 1] + [a[|a| - 1]];
      assert b == b[..|b| - 1] + [b[|b| - 1]];
    }
  }

  lemma PrefixOrdered(a: seq<nat>)
    requires Ordered(a) && a != []
    ensures Ordered(a[..|a| - 1])
  {
  }

  lemma WithoutLast(a: seq<nat>)
    requires a != []
    ensures multiset(a[..|a| - 1]) == multiset(a) - multiset{a[|a| - 1]}
  {
    assert a == a[..|a| - 1] + [a[|a| - 1]];
  }

  lemma LastIsLargest(a: seq<nat>, b: seq<nat>)
    requires Ordered(a) && a != [] && b != [] && multiset(a) == multiset(b)
    ensures b[|b| - 1] <= a[|a| - 1]
  {
    assert b[|b| - 1] in multiset(b);
    assert b[|b| - 1] in a;
  }

  lemma DurationsUnique(s: set<Record>, a: seq<nat>, b: seq<nat>)
    requires DurationsOf(s, a) && DurationsOf(s, b)
    ensures a == b
  {
    assert forall v :: multiset(a)[v] == multiset(b)[v];
    assert multiset(a) == multiset(b);
    OrderedUnique(a, b);
  }

  lemma PartNonEmpty<K>(s: set<Record>, key: Record -> K, k: K) returns (r: Record)
    requires |Part(s, key, k)| > 0
    ensures r in s && key(r) == k
  {
    r :| r in Part(s, key, k);
  }

  lemma VolumeUnique(a: seq<Volume>, b: seq<Volume>, s: set<Record>)
    requires VolumeOk(a, s) && VolumeOk(b, s)
    ensures a == b
  {
    forall v
      ensures v in a <==> v in b
    {
      if v in a {
        VolumeIn(a, b, s, v);
      }
      if v in b {
        VolumeIn(b, a, s, v);
      }
    }
    OrdersAreStrict();
    AscendsUnique(a, b, VolumeLess);
  }

  lemma VolumeIn(a: seq<Volume>, b: seq<Volume>, s: set<Record>, v: Volume)
    requires VolumeOk(a, s) && VolumeOk(b, s) && v in a
    ensures v in b
  {
    var r := PartNonEmpty(s, Day, v.day);
    var w :| w in b && w.day == Day(r);
    assert VolumeFigures(v, s) && VolumeFigures(w, s);
    assert v == w;
  }

  lemma DurationsListUnique(a: seq<Durations>, b: seq<Durations>, s: set<Record>)
    requires DurationsOk(a, s) && DurationsOk(b, s)
    ensures a == b
  {
    forall d
      ensures d in a <==> d in b
    {
      if d in a {
        DurationsIn(a, b, s, d);
      }
      if d in b {
        DurationsIn(b, a, s, d);
      }
    }
    OrdersAreStrict();
    AscendsUnique(a, b, DurationsLess);
  }

  lemma DurationsIn(a: seq<Durations>, b: seq<Durations>, s: set<Record>, d: Durations)
    requires DurationsOk(a, s) && DurationsOk(b, s) && d in a
    ensures d in b
  {
    hide DurationFigures, Ascends, Part;
    var r := FiguresRecord(d, Successes(s));
    var e :| e in b && e.day == Day(r);
    FiguresUnique(d, e, Successes(s));
  }

  /** A day with duration figures has a record. */
  lemma FiguresRecord(d: Durations, s: set<Record>) returns (r: Record)
    requires DurationFigures(d, s)
    ensures r in s && Day(r) == d.day
  {
    var p := Part(s, Day, d.day);
    var ds: seq<nat> :| DurationsOf(p, ds) && ds != [] && FiguresFrom(d, ds);
    hide FiguresFrom;
    assert multiset(ds)[ds[0]] > 0;
    assert |Part(p, MillisOf, ds[0])| > 0;
    r := PartNonEmpty(p, MillisOf, ds[0]);
  }

  lemma FiguresUnique(d: Durations, e: Durations, s: set<Record>)
    requires DurationFigures(d, s) && DurationFigures(e, s) && d.day == e.day
    ensures d == e
  {
    hide DurationsOf, Part, NearestRank;
    var p := Part(s, Day, d.day);
    var ds: seq<nat> :| DurationsOf(p, ds) && ds != [] && FiguresFrom(d, ds);
    var es: seq<nat> :| DurationsOf(p, es) && es != [] && FiguresFrom(e, es);
    DurationsUnique(p, ds, es);
    DurationsAreOrdered(p, ds);
    NearestRankAscends(ds, 90, 90, d.p90, e.p90);
    NearestRankAscends(ds, 95, 95, d.p95, e.p95);
    NearestRankAscends(ds, 99, 99, d.p99, e.p99);
  }

  lemma DurationsAreOrdered(s: set<Record>, ds: seq<nat>)
    requires DurationsOf(s, ds)
    ensures Ordered(ds)
  {
  }

  lemma TagsUnique(a: seq<TagCount>, b: seq<TagCount>, s: set<Record>)
    requires TagsOk(a, s) && TagsOk(b, s)
    ensures a == b
  {
    forall t
      ensures t in a <==> t in b
    {
      if t in a {
        TagIn(a, b, s, t);
      }
      if t in b {
        TagIn(b, a, s, t);
      }
    }
    OrdersAreStrict();
    AscendsUnique(a, b, TagLess);
  }

  lemma TagIn(a: seq<TagCount>, b: seq<TagCount>, s: set<Record>, t: TagCount)
    requires TagsOk(a, s) && TagsOk(b, s) && t in a
    ensures t in b
  {
    var r := PartNonEmpty(s, TagOf, t.tag);
    var u :| u in b && u.tag == r.tag;
    assert TagFigures(t, s) && TagFigures(u, s);
    assert t == u;
  }

  lemma TemplatesUnique(a: seq<Template>, b: seq<Template>, s: set<Record>)
    requires TemplatesOk(a, s) && TemplatesOk(b, s)
    ensures a == b
  {
    forall t
      ensures t in a <==> t in b
    {
      if t in a {
        TemplateIn(a, b, s, t);
      }
      if t in b {
        TemplateIn(b, a, s, t);
      }
    }
    OrdersAreStrict();
    AscendsUnique(a, b, TemplateLess);
  }

  lemma TemplateIn(a: seq<Template>, b: seq<Template>, s: set<Record>, t: Template)
    requires TemplatesOk(a, s) && TemplatesOk(b, s) && t in a
    ensures t in b
  {
    var r := PartNonEmpty(s, TemplateOf, t.name);
    var u :| u in b && u.name == r.template;
    assert TemplateFigures(t, s) && TemplateFigures(u, s);
    TagsUnique(t.byTag, u.byTag, Part(s, TemplateOf, t.name));
    assert t == u;
  }

  /** The records determine every figure and the order of every list. */
  lemma SummaryUnique(a: Summary, b: Summary, s: set<Record>, now: int)
    requires Describes(a, s, now) && Describes(b, s, now)
    ensures a == b
  {
    hide VolumeOk, DurationsOk, TemplatesOk, TotalsOk, HistogramOk;
    VolumeUnique(a.volume, b.volume, s);
    DurationsListUnique(a.durations, b.durations, s);
    TemplatesUnique(a.templates, b.templates, s);
    TotalsUnique(a.totals, b.totals, s, now);
    HistogramUnique(a.histogram, b.histogram, s);
  }

  lemma TotalsUnique(a: Totals, b: Totals, s: set<Record>, now: int)
    requires TotalsOk(a, s, now) && TotalsOk(b, s, now)
    ensures a == b
  {
    hide DurationsOf, NearestRank;
    var w := Successes(Since(s, now - DAY_MS));
    var ds: seq<nat> :| DurationsOf(w, ds) && NearestRank(ds, 90, a.p90);
    var es: seq<nat> :| DurationsOf(w, es) && NearestRank(es, 90, b.p90);
    DurationsUnique(w, ds, es);
    DurationsAreOrdered(w, ds);
    NearestRankAscends(ds, 90, 90, a.p90, b.p90);
  }

  lemma HistogramUnique(a: seq<nat>, b: seq<nat>, s: set<Record>)
    requires HistogramOk(a, s) && HistogramOk(b, s)
    ensures a == b
  {
    assert forall i :: 0 <= i < |a| ==> a[i] == b[i];
  }

  // ----- a summary by the fields of the records -----

  /** Volume: per day, ascending, how many records there are and how many of them failed. */
  lemma VolumeByFields(vs: seq<Volume>, s: set<Record>)
    requires VolumeOk(vs, s)
    ensures forall i, j :: 0 <= i < j < |vs| ==> vs[i].day < vs[j].day
    ensures forall v :: v in vs ==>
      v.renders == |set r | r in s && r.at / DAY_MS == v.day|
      && v.failures == |set r | r in s && r.at / DAY_MS == v.day && !r.success|
  {
    forall v | v in vs
      ensures v.renders == |set r | r in s && r.at / DAY_MS == v.day|
      ensures v.failures == |set r | r in s && r.at / DAY_MS == v.day && !r.success|
    {
      assert VolumeFigures(v, s);
      assert Part(s, Day, v.day) == set r | r in s && r.at / DAY_MS == v.day;
      assert Part(Failures(s), Day, v.day) == set r | r in s && r.at / DAY_MS == v.day && !r.success;
    }
  }

  /** The histogram counts the successes by their duration. */
  lemma HistogramByFields(h: seq<nat>, s: set<Record>)
    requires HistogramOk(h, s)
    ensures |h| == 6
    ensures h[0] == |Within(s, 0, 100)| && h[1] == |Within(s, 100, 250)| && h[2] == |Within(s, 250, 500)|
    ensures h[3] == |Within(s, 500, 1000)| && h[4] == |Within(s, 1000, 2000)|
    ensures h[5] == |set r | r in s && r.success && 2000 <= r.ms|
  {
    assert forall b: nat :: b < 6 ==> h[b] == |Part(Successes(s), BucketOf, b)|;
    assert Part(Successes(s), BucketOf, 0) == Within(s, 0, 100);
    assert Part(Successes(s), BucketOf, 1) == Within(s, 100, 250);
    assert Part(Successes(s), BucketOf, 2) == Within(s, 250, 500);
    assert Part(Successes(s), BucketOf, 3) == Within(s, 500, 1000);
    assert Part(Successes(s), BucketOf, 4) == Within(s, 1000, 2000);
    assert Part(Successes(s), BucketOf, 5) == set r | r in s && r.success && 2000 <= r.ms;
  }

  function Within(s: set<Record>, lo: nat, hi: nat): set<Record> {
    set r | r in s && r.success && lo <= r.ms < hi
  }

  /** Templates by how often they were rendered, most first, equal ones by name. */
  lemma TemplatesByFields(ts: seq<Template>, s: set<Record>)
    requires TemplatesOk(ts, s)
    ensures forall i, j :: 0 <= i < j < |ts| ==>
      ts[i].total > ts[j].total || (ts[i].total == ts[j].total && LexLess(ts[i].name, ts[j].name))
    ensures forall t :: t in ts ==> t.total == |set r | r in s && r.template == t.name|
    ensures forall t :: t in ts ==> TagsOk(t.byTag, set r | r in s && r.template == t.name)
  {
    hide LexLess, TagsOk;
    forall t | t in ts
      ensures t.total == |set r | r in s && r.template == t.name|
      ensures TagsOk(t.byTag, set r | r in s && r.template == t.name)
    {
      assert TemplateFigures(t, s);
      assert Part(s, TemplateOf, t.name) == set r | r in s && r.template == t.name;
    }
  }

  /** Tags in the same way. */
  lemma TagsByFields(ts: seq<TagCount>, s: set<Record>)
    requires TagsOk(ts, s)
    ensures forall i, j :: 0 <= i < j < |ts| ==>
      ts[i].renders > ts[j].renders || (ts[i].renders == ts[j].renders && LexLess(ts[i].tag, ts[j].tag))
    ensures forall t :: t in ts ==> t.renders == |set r | r in s && r.tag == t.tag|
  {
    hide LexLess;
    forall t | t in ts
      ensures t.renders == |set r | r in s && r.tag == t.tag|
    {
      assert TagFigures(t, s);
      assert Part(s, TagOf, t.tag) == set r | r in s && r.tag == t.tag;
    }
  }

  /** The durations of a day are those of its successes. */
  lemma DurationsByFields(ds: seq<Durations>, s: set<Record>)
    requires DurationsOk(ds, s)
    ensures forall i, j :: 0 <= i < j < |ds| ==> ds[i].day < ds[j].day
    ensures forall d :: d in ds ==> d.count == |set r | r in s && r.success && r.at / DAY_MS == d.day|
  {
    forall d | d in ds
      ensures d.count == |set r | r in s && r.success && r.at / DAY_MS == d.day|
    {
      assert DurationFigures(d, Successes(s));
      var p := Part(Successes(s), Day, d.day);
      var ms: seq<nat> :| DurationsOf(p, ms) && ms != [] && FiguresFrom(d, ms);
      DurationsCounted(p, ms);
      assert p == set r | r in s && r.success && r.at / DAY_MS == d.day;
    }
  }

  /** There are as many durations as records. */
  lemma {:induction false} DurationsCounted(s: set<Record>, ds: seq<nat>)
    requires DurationsOf(s, ds)
    ensures |ds| == |s|
    decreases |s|
  {
    if s == {} {
      if ds != [] {
        var r := RecordFor(s, ds);
      }
    } else {
      var r :| r in s;
      var i := DurationAt(s, ds, r);
      var rest: seq<nat> := ds[..i] + ds[i + 1..];
      WithoutAt(s, ds, r, i, rest);
      DurationsCounted(s - {r}, rest);
    }
  }

  lemma WithoutAt(s: set<Record>, ds: seq<nat>, r: Record, i: nat, rest: seq<nat>)
    requires DurationsOf(s, ds) && r in s && i < |ds| && ds[i] == r.ms && rest == ds[..i] + ds[i + 1..]
    ensures DurationsOf(s - {r}, rest)
  {
    assert ds == ds[..i] + [ds[i]] + ds[i + 1..];
    var bag: multiset<nat> := multiset(ds);
    var left: multiset<nat> := multiset(rest);
    assert left == bag - multiset{ds[i]};
    forall v: nat
      ensures left[v] == |Part(s - {r}, MillisOf, v)|
    {
      OneLess(s, r, v);
    }
    forall j, k | 0 <= j < k < |rest|
      ensures rest[j] <= rest[k]
    {
      var jj, kk := if j < i then j else j + 1, if k < i then k else k + 1;
      assert rest[j] == ds[jj] && rest[k] == ds[kk];
    }
  }

  lemma RecordFor(s: set<Record>, ds: seq<nat>) returns (r: Record)
    requires DurationsOf(s, ds) && ds != []
    ensures r in s
  {
    assert multiset(ds)[ds[0]] > 0;
    r :| r in Part(s, MillisOf, ds[0]);
  }

  lemma DurationAt(s: set<Record>, ds: seq<nat>, r: Record) returns (i: nat)
    requires DurationsOf(s, ds) && r in s
    ensures i < |ds| && ds[i] == r.ms
  {
    assert r in Part(s, MillisOf, r.ms);
    assert multiset(ds)[r.ms] > 0;
    assert r.ms in ds;
    i :| i < |ds| && ds[i] == r.ms;
  }

  lemma OneLess(s: set<Record>, r: Record, v: nat)
    requires r in s
    ensures |Part(s, MillisOf, v)| == |Part(s - {r}, MillisOf, v)| + if r.ms == v then 1 else 0
  {
    if r.ms == v {
      assert Part(s, MillisOf, v) == Part(s - {r}, MillisOf, v) + {r};
    } else {
      assert Part(s, MillisOf, v) == Part(s - {r}, MillisOf, v);
    }
  }

  /** The totals are about the records of the last 24 hours. */
  lemma TotalsByFields(t: Totals, s: set<Record>, now: int)
    requires TotalsOk(t, s, now)
    ensures t.renders == |set r | r in s && now - r.at <= 86_400_000|
    ensures t.successes == |set r | r in s && now - r.at <= 86_400_000 && r.success|
  {
    assert Since(s, now - DAY_MS) == set r | r in s && now - r.at <= 86_400_000;
    assert Successes(Since(s, now - DAY_MS)) == set r | r in s && now - r.at <= 86_400_000 && r.success;
  }

  /** A day's total of durations adds up over any way of cutting them. */
  lemma {:induction false} SumAdds(a: seq<nat>, b: seq<nat>)
    ensures Sum(a + b) == Sum(a) + Sum(b)
    ensures |b| == 1 ==> Sum(b) == b[0]
  {
    if b == [] {
      assert a + b == a;
    } else {
      var n := |b| - 1;
      SumAdds(a, b[..n]);
      assert (a + b)[..|a + b| - 1] == a + b[..n];
      assert |b| == 1 ==> b[..n] == [];
    }
  }

  // ----- the newest record of each id -----

  /** `s` holds one newest record for each id among `records`. */
  predicate Newest(records: seq<Record>, s: set<Record>) {
    (forall r :: r in s ==> r in records && forall q :: q in records && q.id == r.id ==> q.at <= r.at)
    && (forall r :: r in records ==> exists k :: k in s && k.id == r.id)
    && (forall a, b :: a in s && b in s && a.id == b.id ==> a == b)
  }

  /** Two records with the same id and time are the same record. */
  predicate Consistent(records: seq<Record>) {
    forall a, b :: a in records && b in records && a.id == b.id && a.at == b.at ==> a == b
  }

  lemma NewestUnique(a: seq<Record>, b: seq<Record>, s: set<Record>, t: set<Record>)
    requires Consistent(a) && (forall r :: r in a <==> r in b) && Newest(a, s) && Newest(b, t)
    ensures s == t
  {
    forall r
      ensures r in s <==> r in t
    {
      if r in s {
        var k :| k in t && k.id == r.id;
      }
      if r in t {
        var k :| k in s && k.id == r.id;
      }
    }
  }

  /** `y` is the summary of these raw records. */
  ghost predicate Summarizes(y: Summary, records: seq<Record>, now: int) {
    exists s: set<Record> :: Newest(records, s) && Describes(y, s, now)
  }

  /**
   Reordering the raw records, or repeating them as a retried flush does, changes nothing: any two
   summaries of lists with the same members are equal.
   */
  lemma OrderAndRepetitionDoNotMatter(a: seq<Record>, b: seq<Record>, x: Summary, y: Summary, now: int)
    requires Consistent(a) && forall r :: r in a <==> r in b
    requires Summarizes(x, a, now) && Summarizes(y, b, now)
    ensures x == y
  {
    hide Newest, Describes, Consistent;
    var s: set<Record> :| Newest(a, s) && Describes(x, s, now);
    var t: set<Record> :| Newest(b, t) && Describes(y, t, now);
    NewestUnique(a, b, s, t);
    SummaryUnique(x, y, s, now);
  }

  // ----- the figures agree with each other -----

  function SumParts<K(==)>(s: set<Record>, key: Record -> K, keys: seq<K>): nat {
    if keys == [] then 0 else SumParts(s, key, keys[..|keys| - 1]) + |Part(s, key, keys[|keys| - 1])|
  }

  /** Parts with different keys add up to the records they cover. */
  lemma {:induction false} PartsAddUp<K>(s: set<Record>, key: Record -> K, keys: seq<K>)
    requires forall i, j :: 0 <= i < j < |keys| ==> keys[i] != keys[j]
    ensures SumParts(s, key, keys) == |set r | r in s && key(r) in keys|
  {
    var covered := set r | r in s && key(r) in keys;
    if keys == [] {
      assert covered == {};
    } else {
      var n := |keys| - 1;
      PartsAddUp(s, key, keys[..n]);
      var before := set r | r in s && key(r) in keys[..n];
      assert keys == keys[..n] + [keys[n]];
      assert covered == before + Part(s, key, keys[n]);
      assert before !! Part(s, key, keys[n]);
    }
  }

  lemma PartsCover<K>(s: set<Record>, key: Record -> K, keys: seq<K>)
    requires forall i, j :: 0 <= i < j < |keys| ==> keys[i] != keys[j]
    requires forall r :: r in s ==> key(r) in keys
    ensures SumParts(s, key, keys) == |s|
  {
    PartsAddUp(s, key, keys);
    assert s == set r | r in s && key(r) in keys;
  }

  function DaysOf(vs: seq<Volume>): seq<int> {
    seq(|vs|, i requires 0 <= i < |vs| => vs[i].day)
  }

  function NamesOf(ts: seq<Template>): seq<string> {
    seq(|ts|, i requires 0 <= i < |ts| => ts[i].name)
  }

  function TagsOf(ts: seq<TagCount>): seq<string> {
    seq(|ts|, i requires 0 <= i < |ts| => ts[i].tag)
  }

  function SumRenders(vs: seq<Volume>): nat {
    if vs == [] then 0 else SumRenders(vs[..|vs| - 1]) + vs[|vs| - 1].renders
  }

  function SumFailures(vs: seq<Volume>): nat {
    if vs == [] then 0 else SumFailures(vs[..|vs| - 1]) + vs[|vs| - 1].failures
  }

  function SumTotals(ts: seq<Template>): nat {
    if ts == [] then 0 else SumTotals(ts[..|ts| - 1]) + ts[|ts| - 1].total
  }

  function SumTags(ts: seq<TagCount>): nat {
    if ts == [] then 0 else SumTags(ts[..|ts| - 1]) + ts[|ts| - 1].renders
  }

  lemma {:induction false} VolumeSums(vs: seq<Volume>, s: set<Record>)
    requires forall v :: v in vs ==> VolumeFigures(v, s)
    ensures SumRenders(vs) == SumParts(s, Day, DaysOf(vs)) && SumFailures(vs) == SumParts(Failures(s), Day, DaysOf(vs))
  {
    if vs != [] {
      var n := |vs| - 1;
      VolumeSums(vs[..n], s);
      assert DaysOf(vs)[..n] == DaysOf(vs[..n]);
      assert VolumeFigures(vs[n], s);
    }
  }

  lemma {:induction false} TemplateSums(ts: seq<Template>, s: set<Record>)
    requires forall t :: t in ts ==> TemplateFigures(t, s)
    ensures SumTotals(ts) == SumParts(s, TemplateOf, NamesOf(ts))
  {
    if ts != [] {
      var n := |ts| - 1;
      TemplateSums(ts[..n], s);
      assert NamesOf(ts)[..n] == NamesOf(ts[..n]);
      assert TemplateFigures(ts[n], s);
    }
  }

  lemma {:induction false} TagSums(ts: seq<TagCount>, s: set<Record>)
    requires forall t :: t in ts ==> TagFigures(t, s)
    ensures SumTags(ts) == SumParts(s, TagOf, TagsOf(ts))
  {
    if ts != [] {
      var n := |ts| - 1;
      TagSums(ts[..n], s);
      assert TagsOf(ts)[..n] == TagsOf(ts[..n]);
      assert TagFigures(ts[n], s);
    }
  }

  lemma VolumeTotal(vs: seq<Volume>, s: set<Record>)
    requires VolumeOk(vs, s)
    ensures SumRenders(vs) == |s| && SumFailures(vs) == |Failures(s)|
  {
    VolumeSums(vs, s);
    forall r | r in s
      ensures Day(r) in DaysOf(vs)
    {
      var v :| v in vs && v.day == Day(r);
      var i :| 0 <= i < |vs| && vs[i] == v;
      assert DaysOf(vs)[i] == Day(r);
    }
    PartsCover(s, Day, DaysOf(vs));
    PartsCover(Failures(s), Day, DaysOf(vs));
  }

  lemma TemplateTotal(ts: seq<Template>, s: set<Record>)
    requires TemplatesOk(ts, s)
    ensures SumTotals(ts) == |s|
    ensures forall t :: t in ts ==> SumTags(t.byTag) == t.total
  {
    TemplateSums(ts, s);
    OrdersAreStrict();
    forall r | r in s
      ensures r.template in NamesOf(ts)
    {
      var t :| t in ts && t.name == r.template;
      var i :| 0 <= i < |ts| && ts[i] == t;
      assert NamesOf(ts)[i] == r.template;
    }
    forall i, j | 0 <= i < j < |ts|
      ensures ts[i].name != ts[j].name
    {
      assert TemplateFigures(ts[i], s) && TemplateFigures(ts[j], s);
      assert TemplateLess(ts[i], ts[j]);
    }
    PartsCover(s, TemplateOf, NamesOf(ts));
    forall t | t in ts
      ensures SumTags(t.byTag) == t.total
    {
      assert TemplateFigures(t, s);
      TagTotal(t.byTag, Part(s, TemplateOf, t.name));
    }
  }

  lemma TagTotal(ts: seq<TagCount>, s: set<Record>)
    requires TagsOk(ts, s)
    ensures SumTags(ts) == |s|
  {
    TagSums(ts, s);
    OrdersAreStrict();
    forall r | r in s
      ensures r.tag in TagsOf(ts)
    {
      var t :| t in ts && t.tag == r.tag;
      var i :| 0 <= i < |ts| && ts[i] == t;
      assert TagsOf(ts)[i] == r.tag;
    }
    forall i, j | 0 <= i < j < |ts|
      ensures ts[i].tag != ts[j].tag
    {
      assert TagFigures(ts[i], s) && TagFigures(ts[j], s);
      assert TagLess(ts[i], ts[j]);
    }
    PartsCover(s, TagOf, TagsOf(ts));
  }

  lemma HistogramTotal(h: seq<nat>, s: set<Record>)
    requires HistogramOk(h, s)
    ensures Sum(h) == |Successes(s)|
  {
    var buckets: seq<nat> := [0, 1, 2, 3, 4, 5];
    PartsCover(Successes(s), BucketOf, buckets);
    HistogramSums(h, Successes(s), 6);
    assert buckets[..6] == buckets && h[..6] == h;
  }

  lemma {:induction false} HistogramSums(h: seq<nat>, s: set<Record>, n: nat)
    requires |h| == 6 && n <= 6 && forall b: nat :: b < 6 ==> h[b] == |Part(s, BucketOf, b)|
    ensures Sum(h[..n]) == SumParts(s, BucketOf, [0, 1, 2, 3, 4, 5][..n])
  {
    if n > 0 {
      HistogramSums(h, s, n - 1);
      assert h[..n][..n - 1] == h[..n - 1];
      var buckets: seq<nat> := [0, 1, 2, 3, 4, 5];
      assert buckets[..n][..n - 1] == buckets[..n - 1] && buckets[n - 1] == n - 1;
    }
  }

  lemma SuccessesAndFailures(s: set<Record>)
    ensures |Successes(s)| + |Failures(s)| == |s|
  {
    assert Successes(s) + Failures(s) == s;
    assert Successes(s) !! Failures(s);
  }

  function Ids(records: seq<Record>): set<string> {
    set r | r in records :: r.id
  }

  lemma {:induction false} OneRecordPerId(s: set<Record>)
    requires forall a, b :: a in s && b in s && a.id == b.id ==> a == b
    ensures |s| == |set r | r in s :: r.id|
  {
    if s != {} {
      var x :| x in s;
      OneRecordPerId(s - {x});
      assert (set r | r in s :: r.id) == (set r | r in s - {x} :: r.id) + {x.id};
    }
  }

  /**
   The figures of a summary fit together: the volume adds up to the distinct render ids, and so do
   the template totals; the histogram to the volume less the failures; the tags of a template to
   its total; and each day's percentiles ascend.
   */
  lemma FiguresAgree(records: seq<Record>, y: Summary, now: int)
    requires Summarizes(y, records, now)
    ensures SumRenders(y.volume) == |Ids(records)|
    ensures SumTotals(y.templates) == |Ids(records)|
    ensures Sum(y.histogram) + SumFailures(y.volume) == SumRenders(y.volume)
    ensures forall t :: t in y.templates ==> SumTags(t.byTag) == t.total
    ensures forall d :: d in y.durations ==> d.p90 <= d.p95 <= d.p99
    ensures y.totals.successes <= y.totals.renders <= |Ids(records)|
  {
    hide TemplatesOk, VolumeOk, HistogramOk, DurationsOk, TotalsOk, Newest, Part;
    var s: set<Record> :| Newest(records, s) && Describes(y, s, now);
    DistinctIds(records, s);
    VolumeTotal(y.volume, s);
    TemplateTotal(y.templates, s);
    HistogramTotal(y.histogram, s);
    SuccessesAndFailures(s);
    DurationsAscend(y.durations, s);
    TotalsBounded(y.totals, s, now);
  }

  lemma DistinctIds(records: seq<Record>, s: set<Record>)
    requires Newest(records, s)
    ensures |s| == |Ids(records)|
  {
    OneRecordPerId(s);
    SameIds(records, s);
    hide Newest;
  }

  lemma SameIds(records: seq<Record>, s: set<Record>)
    requires Newest(records, s)
    ensures (set r | r in s :: r.id) == Ids(records)
  {
    forall id | id in Ids(records)
      ensures exists r :: r in s && r.id == id
    {
      var r :| r in records && r.id == id;
    }
  }

  lemma DurationsAscend(out: seq<Durations>, s: set<Record>)
    requires DurationsOk(out, s)
    ensures forall d :: d in out ==> d.p90 <= d.p95 <= d.p99
  {
    forall d | d in out
      ensures d.p90 <= d.p95 <= d.p99
    {
      assert DurationFigures(d, Successes(s));
      hide NearestRank;
      var ds: seq<nat> :| DurationsOf(Part(Successes(s), Day, d.day), ds) && ds != [] && FiguresFrom(d, ds);
      DurationsAreOrdered(Part(Successes(s), Day, d.day), ds);
      NearestRankAscends(ds, 90, 95, d.p90, d.p95);
      NearestRankAscends(ds, 95, 99, d.p95, d.p99);
    }
  }

  lemma TotalsBounded(t: Totals, s: set<Record>, now: int)
    requires TotalsOk(t, s, now)
    ensures t.successes <= t.renders <= |s|
  {
    WindowSmaller(s, now - DAY_MS);
  }

  lemma WindowSmaller(s: set<Record>, cutoff: int)
    ensures |Successes(Since(s, cutoff))| <= |Since(s, cutoff)| <= |s|
  {
    SubsetSmaller(Since(s, cutoff), s);
    SubsetSmaller(Successes(Since(s, cutoff)), Since(s, cutoff));
  }

  lemma SubsetSmaller(a: set<Record>, b: set<Record>)
    requires a <= b
    ensures |a| <= |b|
  {
    assert b == a + (b - a);
  }

  // ----- the loops -----

  /** The records of a list without repetitions, as a set. */
  function Elems(rs: seq<Record>): set<Record> {
    set r | r in rs
  }

  predicate NoRepeats(rs: seq<Record>) {
    forall i, j :: 0 <= i < j < |rs| ==> rs[i] != rs[j]
  }

  lemma ElemsStep(rs: seq<Record>, i: nat)
    requires NoRepeats(rs) && i < |rs|
    ensures Elems(rs[..i + 1]) == Elems(rs[..i]) + {rs[i]} && rs[i] !in Elems(rs[..i])
  {
    assert rs[..i + 1] == rs[..i] + [rs[i]];
  }

  lemma PartStep<K>(s: set<Record>, r: Record, key: Record -> K, k: K)
    requires r !in s
    ensures Part(s + {r}, key, k) == Part(s, key, k) + if key(r) == k then {r} else {}
    ensures |Part(s + {r}, key, k)| == |Part(s, key, k)| + if key(r) == k then 1 else 0
  {
    assert Part(s + {r}, key, k) == Part(s, key, k) + if key(r) == k then {r} else {};
  }

  lemma FailuresStep(s: set<Record>, r: Record)
    ensures Failures(s + {r}) == Failures(s) + if r.success then {} else {r}
    ensures Successes(s + {r}) == Successes(s) + if r.success then {r} else {}
  {
  }

  /** Keep the newest record of each id, the first of equally new ones. */
  method Dedup(records: seq<Record>) returns (kept: seq<Record>)
    ensures NoRepeats(kept) && Newest(records, Elems(kept))
  {
    var latest: map<string, Record> := map[];
    for i := 0 to |records|
      invariant forall id :: id in latest ==> latest[id].id == id && latest[id] in records[..i]
      invariant forall r :: r in records[..i] ==> r.id in latest && r.at <= latest[r.id].at
    {
      var r := records[i];
      assert records[..i + 1] == records[..i] + [r];
      if r.id !in latest || r.at > latest[r.id].at {
        latest := latest[r.id := r];
      }
    }
    assert records[..|records|] == records;
    kept := [];
    var rest := latest.Keys;
    while rest != {}
      invariant rest <= latest.Keys && NoRepeats(kept)
      invariant forall r :: r in kept <==> r.id in latest && r.id !in rest && latest[r.id] == r
      decreases rest
    {
      var id :| id in rest;
      kept := kept + [latest[id]];
      rest := rest - {id};
    }
    forall r | r in records
      ensures exists k :: k in Elems(kept) && k.id == r.id
    {
      assert latest[r.id] in kept;
    }
  }

  // Volume: one pair of counters for each day.

  function Keys<K>(s: set<Record>, key: Record -> K): set<K> {
    set r | r in s :: key(r)
  }

  function VolumeMap(s: set<Record>): map<int, (nat, nat)> {
    map d | d in Keys(s, Day) :: (|Part(s, Day, d)|, |Part(Failures(s), Day, d)|)
  }

  lemma KeysStep<K>(s: set<Record>, r: Record, key: Record -> K)
    ensures Keys(s + {r}, key) == Keys(s, key) + {key(r)}
    ensures key(r) !in Keys(s, key) ==> Part(s, key, key(r)) == {}
  {
  }

  lemma VolumeAt(s: set<Record>, r: Record, d: int)
    requires r !in s
    ensures |Part(s + {r}, Day, d)| == |Part(s, Day, d)| + if Day(r) == d then 1 else 0
    ensures |Part(Failures(s + {r}), Day, d)| - |Part(Failures(s), Day, d)| == if Day(r) == d && !r.success then 1
      else 0
    ensures d !in Keys(s, Day) ==> |Part(s, Day, d)| == 0 && |Part(Failures(s), Day, d)| == 0
  {
    FailuresStep(s, r);
    PartStep(s, r, Day, d);
    if !r.success {
      PartStep(Failures(s), r, Day, d);
    }
    if d !in Keys(s, Day) {
      assert Part(s, Day, d) == {} && Part(Failures(s), Day, d) == {};
    }
  }

  lemma VolumeStep(s: set<Record>, r: Record)
    requires r !in s
    ensures
      var vol := VolumeMap(s);
      var e := if Day(r) in vol then vol[Day(r)] else (0, 0);
      VolumeMap(s + {r}) == vol[Day(r) := (e.0 + 1, if r.success then e.1 else e.1 + 1)]
  {
    hide Part, Failures, Day;
    KeysStep(s, r, Day);
    forall d
      ensures |Part(s + {r}, Day, d)| == |Part(s, Day, d)| + if Day(r) == d then 1 else 0
      ensures |Part(Failures(s + {r}), Day, d)| - |Part(Failures(s), Day, d)| == if Day(r) == d && !r.success then 1
        else 0
      ensures d !in Keys(s, Day) ==> |Part(s, Day, d)| == 0 && |Part(Failures(s), Day, d)| == 0
    {
      VolumeAt(s, r, d);
    }
  }

  method VolumeByDay(rs: seq<Record>) returns (vs: seq<Volume>)
    requires NoRepeats(rs)
    ensures VolumeOk(vs, Elems(rs))
  {
    hide VolumeMap, Elems, NoRepeats;
    var vol: map<int, (nat, nat)> := map[];
    NoVolume(rs);
    for i := 0 to |rs|
      invariant vol == VolumeMap(Elems(rs[..i]))
    {
      ElemsStep(rs, i);
      VolumeStep(Elems(rs[..i]), rs[i]);
      var d := Day(rs[i]);
      var e := if d in vol then vol[d] else (0, 0);
      vol := vol[d := (e.0 + 1, if rs[i].success then e.1 else e.1 + 1)];
    }
    assert rs[..|rs|] == rs;
    vs := SortVolume(vol, Elems(rs));
  }

  lemma NoVolume(rs: seq<Record>)
    ensures VolumeMap(Elems(rs[..0])) == map[]
  {
    assert Elems(rs[..0]) == {};
    assert Keys({}, Day) == {};
  }

  method SortVolume(vol: map<int, (nat, nat)>, ghost s: set<Record>) returns (vs: seq<Volume>)
    requires vol == VolumeMap(s)
    ensures VolumeOk(vs, s)
  {
    hide VolumeMap;
    vs := [];
    var rest := vol.Keys;
    while rest != {}
      invariant rest <= vol.Keys && Apart(vs, VolumeLess)
      invariant forall v :: v in vs ==> v.day in vol && v.day !in rest && v == Volume(v.day, vol[v.day].0, vol[v.day].1)
      invariant forall d :: d in vol && d !in rest ==> Volume(d, vol[d].0, vol[d].1) in vs
      decreases rest
    {
      var day := Pick(rest);
      vs := vs + [Volume(day, vol[day].0, vol[day].1)];
      rest := rest - {day};
    }
    OrdersAreStrict();
    SortAscends(vs, VolumeLess);
    VolumeSorted(s, vs, Sort(vs, VolumeLess));
    vs := Sort(vs, VolumeLess);
  }

  lemma VolumeSorted(s: set<Record>, vs: seq<Volume>, sorted: seq<Volume>)
    requires forall v :: v in vs ==>
      v.day in VolumeMap(s) && v == Volume(v.day, VolumeMap(s)[v.day].0, VolumeMap(s)[v.day].1)
    requires forall d :: d in VolumeMap(s) ==> Volume(d, VolumeMap(s)[d].0, VolumeMap(s)[d].1) in vs
    requires Ascends(sorted, VolumeLess) && forall v :: v in sorted <==> v in vs
    ensures VolumeOk(sorted, s)
  {
    forall v | v in sorted
      ensures VolumeFigures(v, s)
    {
      var r :| r in s && Day(r) == v.day;
      assert r in Part(s, Day, v.day);
    }
    forall r | r in s
      ensures exists v :: v in sorted && v.day == Day(r)
    {
      assert Day(r) in VolumeMap(s);
    }
  }

  // Durations: a list of milliseconds for each day with a success.

  method KeepSuccesses(rs: seq<Record>) returns (kept: seq<Record>)
    requires NoRepeats(rs)
    ensures NoRepeats(kept) && Elems(kept) == Successes(Elems(rs))
  {
    kept := [];
    for i := 0 to |rs|
      invariant NoRepeats(kept) && forall r :: r in kept <==> r in rs[..i] && r.success
    {
      ElemsStep(rs, i);
      assert rs[..i + 1] == rs[..i] + [rs[i]];
      if rs[i].success {
        kept := kept + [rs[i]];
      }
    }
    assert rs[..|rs|] == rs;
  }

  predicate MillisLess(a: nat, b: nat) {
    a < b
  }

  /** The durations in ascending order. */
  method SortedMillis(rs: seq<Record>) returns (ds: seq<nat>)
    requires NoRepeats(rs)
    ensures DurationsOf(Elems(rs), ds) && |ds| == |rs|
  {
    hide Elems, NoRepeats;
    var ms: seq<nat> := [];
    NoMillis(rs);
    for i := 0 to |rs|
      invariant |ms| == i
      invariant forall v: nat :: multiset(ms)[v] == |Part(Elems(rs[..i]), MillisOf, v)|
    {
      ElemsStep(rs, i);
      forall v: nat
        ensures multiset(ms + [rs[i].ms])[v] == |Part(Elems(rs[..i + 1]), MillisOf, v)|
      {
        PartStep(Elems(rs[..i]), rs[i], MillisOf, v);
      }
      ms := ms + [rs[i].ms];
    }
    assert rs[..|rs|] == rs;
    ds := Sort(ms, MillisLess);
    SortNeverDescends(ms, MillisLess);
  }

  lemma NoMillis(rs: seq<Record>)
    ensures forall v: nat :: |Part(Elems(rs[..0]), MillisOf, v)| == 0
  {
    assert forall v: nat :: Part(Elems(rs[..0]), MillisOf, v) == {};
  }

  /** What grouping a list by a key gives. */
  predicate Grouped<K>(groups: map<K, seq<Record>>, s: set<Record>, key: Record -> K) {
    groups.Keys == Keys(s, key)
    && forall k :: k in groups ==> NoRepeats(groups[k]) && Elems(groups[k]) == Part(s, key, k)
  }

  lemma GroupStep<K>(groups: map<K, seq<Record>>, s: set<Record>, r: Record, key: Record -> K)
    requires Grouped(groups, s, key) && r !in s
    ensures Grouped(groups[key(r) := (if key(r) in groups then groups[key(r)] else []) + [r]], s + {r}, key)
  {
    hide NoRepeats, Part;
    var k := key(r);
    var was := if k in groups then groups[k] else [];
    KeysStep(s, r, key);
    OwnGroup(was, s, r, key);
    forall j
      ensures Part(s + {r}, key, j) == if key(r) == j then Part(s, key, j) + {r} else Part(s, key, j)
    {
      PartStep(s, r, key, j);
      assert Part(s, key, j) + {} == Part(s, key, j);
    }
    var groups' := groups[k := was + [r]];
    assert groups'.Keys == Keys(s + {r}, key);
    forall j | j in groups'
      ensures NoRepeats(groups'[j]) && Elems(groups'[j]) == Part(s + {r}, key, j)
    {
      if j != k {
        assert groups'[j] == groups[j];
        assert Elems(groups[j]) == Part(s, key, j);
        assert Part(s + {r}, key, j) == Part(s, key, j);
      } else {
        assert Elems(was + [r]) == Part(s, key, k) + {r};
        assert Part(s + {r}, key, k) == Part(s, key, k) + {r};
      }
    }
  }

  lemma OwnGroup<K>(was: seq<Record>, s: set<Record>, r: Record, key: Record -> K)
    requires NoRepeats(was) && Elems(was) == Part(s, key, key(r)) && r !in s
    ensures NoRepeats(was + [r]) && Elems(was + [r]) == Part(s, key, key(r)) + {r}
  {
    assert r !in was by {
      assert r !in Elems(was);
    }
    assert Elems(was + [r]) == Elems(was) + {r};
  }

  method GroupBy<K(==)>(rs: seq<Record>, key: Record -> K) returns (groups: map<K, seq<Record>>)
    requires NoRepeats(rs)
    ensures Grouped(groups, Elems(rs), key)
  {
    hide Elems, NoRepeats, Grouped;
    groups := map[];
    NoGroups(rs, key);
    for i := 0 to |rs|
      invariant Grouped(groups, Elems(rs[..i]), key)
    {
      ElemsStep(rs, i);
      GroupStep(groups, Elems(rs[..i]), rs[i], key);
      var k := key(rs[i]);
      groups := groups[k := (if k in groups then groups[k] else []) + [rs[i]]];
    }
    assert rs[..|rs|] == rs;
  }

  lemma NoGroups<K>(rs: seq<Record>, key: Record -> K)
    ensures Grouped(map[], Elems(rs[..0]), key)
  {
  }

  method DurationByDay(rs: seq<Record>) returns (out: seq<Durations>)
    requires NoRepeats(rs)
    ensures DurationsOk(out, Elems(rs))
  {
    hide Elems, NoRepeats, Successes, Percentile, NearestRank, Part;
    var good := KeepSuccesses(rs);
    var groups := GroupBy(good, Day);
    out := [];
    var rest := groups.Keys;
    while rest != {}
      invariant rest <= groups.Keys && Apart(out, DurationsLess)
      invariant forall d :: d in out ==> d.day in groups && d.day !in rest && DurationFigures(d, Elems(good))
      invariant forall k :: k in groups && k !in rest ==> HasDay(out, k)
      decreases rest
    {
      var day := Pick(rest);
      var ds := SortedMillis(groups[day]);
      var point := Durations(day, |ds|, Sum(ds), Percentile(ds, 90), Percentile(ds, 95), Percentile(ds, 99));
      PercentileIsNearest(ds, 90);
      PercentileIsNearest(ds, 95);
      PercentileIsNearest(ds, 99);
      GroupFigures(groups, Elems(good), day, ds, point);
      HasDayStep(out, point);
      out := out + [point];
      rest := rest - {day};
    }
    OrdersAreStrict();
    SortAscends(out, DurationsLess);
    DurationsSorted(Elems(good), groups, out, Sort(out, DurationsLess));
    out := Sort(out, DurationsLess);
  }

  predicate HasDay(ds: seq<Durations>, day: int) {
    exists d :: d in ds && d.day == day
  }

  lemma HasDayStep(ds: seq<Durations>, d: Durations)
    ensures forall day :: HasDay(ds, day) || day == d.day ==> HasDay(ds + [d], day)
  {
    assert d in ds + [d];
    forall day | HasDay(ds, day)
      ensures HasDay(ds + [d], day)
    {
      var e :| e in ds && e.day == day;
      assert e in ds + [d];
    }
  }

  lemma GroupFigures(groups: map<int, seq<Record>>, s: set<Record>, day: int, ds: seq<nat>, point: Durations)
    requires Grouped(groups, s, Day) && day in groups && DurationsOf(Elems(groups[day]), ds) && |ds| == |groups[day]|
    requires point.day == day && FiguresFrom(point, ds)
    ensures DurationFigures(point, s)
  {
    hide FiguresFrom, DurationsOf;
    var r :| r in s && Day(r) == day;
    assert r in Part(s, Day, day);
    assert r in groups[day];
  }

  lemma DurationsSorted(s: set<Record>, groups: map<int, seq<Record>>, ds: seq<Durations>, sorted: seq<Durations>)
    requires groups.Keys == Keys(s, Day) && (forall d :: d in ds ==> DurationFigures(d, s))
      && forall k :: k in groups ==> HasDay(ds, k)
    requires Ascends(sorted, DurationsLess) && forall d :: d in sorted <==> d in ds
    ensures Ascends(sorted, DurationsLess) && (forall d :: d in sorted ==> DurationFigures(d, s))
    ensures forall r :: r in s ==> exists d :: d in sorted && d.day == Day(r)
  {
    hide DurationFigures;
    forall r | r in s
      ensures exists d :: d in sorted && d.day == Day(r)
    {
      assert Day(r) in groups;
      var d :| d in ds && d.day == Day(r);
    }
  }

  // Histogram: one counter for each bucket.

  method Histogram(rs: seq<Record>) returns (h: seq<nat>)
    requires NoRepeats(rs)
    ensures HistogramOk(h, Elems(rs))
  {
    hide Elems, NoRepeats, Part;
    var hist := new nat[6](_ => 0);
    EmptyHistogram(rs);
    for i := 0 to |rs|
      invariant forall b: nat :: b < 6 ==> hist[b] == |Part(Successes(Elems(rs[..i])), BucketOf, b)|
    {
      ElemsStep(rs, i);
      HistogramStep(Elems(rs[..i]), rs[i]);
      if rs[i].success {
        var b := Position(rs[i].ms);
        BucketIsUnique(rs[i], b);
        hist[b] := hist[b] + 1;
      }
    }
    assert rs[..|rs|] == rs;
    h := hist[..];
  }

  /** The first edge above a duration, or the number of edges. */
  method Position(ms: nat) returns (b: nat)
    ensures IsBucket(ms, b)
  {
    b := 0;
    while b < |EDGES| && EDGES[b] <= ms
      invariant b <= |EDGES| && (b > 0 ==> EDGES[b - 1] <= ms)
    {
      b := b + 1;
    }
  }

  lemma EmptyHistogram(rs: seq<Record>)
    ensures forall b: nat :: |Part(Successes(Elems(rs[..0])), BucketOf, b)| == 0
  {
    assert forall b: nat :: Part(Successes(Elems(rs[..0])), BucketOf, b) == {};
  }

  lemma HistogramStep(s: set<Record>, r: Record)
    requires r !in s
    ensures forall b: nat :: |Part(Successes(s + {r}), BucketOf, b)| ==
                             |Part(Successes(s), BucketOf, b)| + (if r.success && BucketOf(r) == b then 1 else 0)
  {
    FailuresStep(s, r);
    forall b: nat
      ensures |Part(Successes(s + {r}), BucketOf, b)| ==
              |Part(Successes(s), BucketOf, b)| + (if r.success && BucketOf(r) == b then 1 else 0)
    {
      if r.success {
        PartStep(Successes(s), r, BucketOf, b);
      } else {
        assert Successes(s + {r}) == Successes(s);
      }
    }
  }

  // Templates: a group for each name, and in it a counter for each tag.

  method TagCounts(rs: seq<Record>) returns (out: seq<TagCount>)
    requires NoRepeats(rs)
    ensures TagsOk(out, Elems(rs))
  {
    hide Elems, NoRepeats, Part;
    var tags: map<string, nat> := map[];
    NoTags(rs);
    for i := 0 to |rs|
      invariant tags == TagMap(Elems(rs[..i]))
    {
      ElemsStep(rs, i);
      TagStep(Elems(rs[..i]), rs[i]);
      var tag := rs[i].tag;
      tags := tags[tag := (if tag in tags then tags[tag] else 0) + 1];
    }
    assert rs[..|rs|] == rs;
    out := [];
    var rest := tags.Keys;
    while rest != {}
      invariant rest <= tags.Keys
      invariant forall i, j :: 0 <= i < j < |out| ==> out[i].tag != out[j].tag
      invariant forall t :: t in out ==> t.tag in tags && t.tag !in rest && t.renders == tags[t.tag]
      invariant forall k :: k in tags && k !in rest ==> TagCount(k, tags[k]) in out
      decreases rest
    {
      var tag :| tag in rest;
      out := out + [TagCount(tag, tags[tag])];
      rest := rest - {tag};
    }
    OrdersAreStrict();
    LexIsStrict();
    SortAscends(out, TagLess);
    TagsSorted(Elems(rs), out, Sort(out, TagLess));
    out := Sort(out, TagLess);
  }

  function TagMap(s: set<Record>): map<string, nat> {
    map k | k in Keys(s, TagOf) :: |Part(s, TagOf, k)|
  }

  lemma NoTags(rs: seq<Record>)
    ensures TagMap(Elems(rs[..0])) == map[]
  {
  }

  lemma TagStep(s: set<Record>, r: Record)
    requires r !in s
    ensures TagMap(s + {r}) == TagMap(s)[r.tag := (if r.tag in TagMap(s) then TagMap(s)[r.tag] else 0) + 1]
  {
    hide Part;
    KeysStep(s, r, TagOf);
    forall k
      ensures |Part(s + {r}, TagOf, k)| == |Part(s, TagOf, k)| + if TagOf(r) == k then 1 else 0
    {
      PartStep(s, r, TagOf, k);
    }
  }

  lemma TagsSorted(s: set<Record>, ts: seq<TagCount>, sorted: seq<TagCount>)
    requires forall t :: t in ts ==> t.tag in TagMap(s) && t.renders == TagMap(s)[t.tag]
    requires forall k :: k in TagMap(s) ==> TagCount(k, TagMap(s)[k]) in ts
    requires Ascends(sorted, TagLess) && forall t :: t in sorted <==> t in ts
    ensures TagsOk(sorted, s)
  {
    forall t | t in sorted
      ensures TagFigures(t, s)
    {
      var r :| r in s && r.tag == t.tag;
      assert r in Part(s, TagOf, t.tag);
    }
    forall r | r in s
      ensures exists t :: t in sorted && t.tag == r.tag
    {
      assert TagOf(r) in TagMap(s);
    }
  }

  method TemplateRollups(rs: seq<Record>) returns (out: seq<Template>)
    requires NoRepeats(rs)
    ensures TemplatesOk(out, Elems(rs))
  {
    hide Elems, NoRepeats, Part, TagsOk;
    var groups := GroupBy(rs, TemplateOf);
    out := [];
    var rest := groups.Keys;
    while rest != {}
      invariant rest <= groups.Keys
      invariant forall i, j :: 0 <= i < j < |out| ==> out[i].name != out[j].name
      invariant forall t :: t in out ==> t.name in groups && t.name !in rest && TemplateFigures(t, Elems(rs))
      invariant forall k :: k in groups && k !in rest ==> HasName(out, k)
      decreases rest
    {
      var name :| name in rest;
      var byTag := TagCounts(groups[name]);
      var t := Template(name, |groups[name]|, byTag);
      GroupTemplate(groups, Elems(rs), t);
      HasNameStep(out, t);
      out := out + [t];
      rest := rest - {name};
    }
    OrdersAreStrict();
    LexIsStrict();
    SortAscends(out, TemplateLess);
    TemplatesSorted(Elems(rs), groups, out, Sort(out, TemplateLess));
    out := Sort(out, TemplateLess);
  }

  predicate HasName(ts: seq<Template>, name: string) {
    exists t :: t in ts && t.name == name
  }

  lemma HasNameStep(ts: seq<Template>, t: Template)
    ensures forall name :: HasName(ts, name) || name == t.name ==> HasName(ts + [t], name)
  {
    assert t in ts + [t];
    forall name | HasName(ts, name)
      ensures HasName(ts + [t], name)
    {
      var u :| u in ts && u.name == name;
      assert u in ts + [t];
    }
  }

  lemma GroupTemplate(groups: map<string, seq<Record>>, s: set<Record>, t: Template)
    requires Grouped(groups, s, TemplateOf) && t.name in groups && t.total == |groups[t.name]|
    requires TagsOk(t.byTag, Elems(groups[t.name]))
    ensures TemplateFigures(t, s)
  {
    hide TagsOk;
    Counted(groups[t.name]);
    var r :| r in s && r.template == t.name;
    assert r in Part(s, TemplateOf, t.name);
    assert |Part(s, TemplateOf, t.name)| > 0;
  }

  lemma {:induction false} Counted(rs: seq<Record>)
    requires NoRepeats(rs)
    ensures |Elems(rs)| == |rs|
  {
    if rs != [] {
      var n := |rs| - 1;
      Counted(rs[..n]);
      ElemsStep(rs, n);
      assert rs[..n + 1] == rs;
    }
  }

  lemma TemplatesSorted(s: set<Record>, groups: map<string, seq<Record>>, ts: seq<Template>, sorted: seq<Template>)
    requires groups.Keys == Keys(s, TemplateOf) && (forall t :: t in ts ==> TemplateFigures(t, s))
      && forall k :: k in groups ==> HasName(ts, k)
    requires Ascends(sorted, TemplateLess) && forall t :: t in sorted <==> t in ts
    ensures TemplatesOk(sorted, s)
  {
    hide TemplateFigures;
    forall r | r in s
      ensures exists t :: t in sorted && t.name == r.template
    {
      assert TemplateOf(r) in groups;
      var t :| t in ts && t.name == r.template;
    }
  }

  // Totals over the last day.

  method TotalsOf(rs: seq<Record>, now: int) returns (t: Totals)
    requires NoRepeats(rs)
    ensures TotalsOk(t, Elems(rs), now)
  {
    var window: seq<Record> := [];
    for i := 0 to |rs|
      invariant NoRepeats(window) && forall r :: r in window <==> r in rs[..i] && r.at >= now - DAY_MS
    {
      ElemsStep(rs, i);
      assert rs[..i + 1] == rs[..i] + [rs[i]];
      if rs[i].at >= now - DAY_MS {
        window := window + [rs[i]];
      }
    }
    assert rs[..|rs|] == rs;
    assert Elems(window) == Since(Elems(rs), now - DAY_MS);
    var good := KeepSuccesses(window);
    var ds := SortedMillis(good);
    Counted(window);
    Counted(good);
    PercentileIsNearest(ds, 90);
    t := Totals(|window|, |good|, Percentile(ds, 90));
  }

  /**
   `compute_summary`: every figure is the one its definition gives for the newest record of each
   render id.
   */
  method ComputeSummary(records: seq<Record>, now: int) returns (y: Summary)
    ensures Summarizes(y, records, now)
  {
    hide VolumeOk, DurationsOk, HistogramOk, TemplatesOk, TotalsOk, Newest, Elems;
    var rs := Dedup(records);
    var volume := VolumeByDay(rs);
    var durations := DurationByDay(rs);
    var histogram := Histogram(rs);
    var templates := TemplateRollups(rs);
    var totals := TotalsOf(rs, now);
    y := Summary(volume, durations, histogram, templates, totals);
    assert Describes(y, Elems(rs), now);
  }
}
