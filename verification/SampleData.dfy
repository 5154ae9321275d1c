/**
 Sample data for a template's form (crates/papermake-server/src/routes/ui/infer.rs): the fields a
 source mentions are scanned out of it, and a JSON object is built with a string at every path.
 Object members are keyed, as in the sorted maps of the original, so equal maps print alike.
 */
module SampleData {
  import opened Prelude
  import opened References
  import opened Strings

  datatype Json = Text | Object(members: map<string, Json>)

  type Path = seq<string>

  // ----- insertion of one path -----

  /** The members after a path was inserted. */
  function Insert(m: map<string, Json>, p: Path): map<string, Json>
    decreases |p|
  {
    if p == [] then m
    else if |p| == 1 then if p[0] in m then m else m[p[0] := Text]
    else m[p[0] := Object(Insert(Child(m, p[0]), p[1..]))]
  }

  /** The members below a key: none if there is a string or nothing. */
  function Child(m: map<string, Json>, key: string): map<string, Json> {
    if key in m && m[key].Object? then m[key].members else map[]
  }

  /** What is at a path. */
  function Lookup(m: map<string, Json>, p: Path): Option<Json>
    decreases |p|
  {
    if p == [] then Some(Object(m))
    else if p[0] !in m then None
    else if |p| == 1 then Some(m[p[0]])
    else if m[p[0]].Object? then Lookup(m[p[0]].members, p[1..])
    else None
  }

  /** `insert_json_path`. */
  method InsertJsonPath(m: map<string, Json>, parts: Path) returns (r: map<string, Json>)
    ensures r == Insert(m, parts)
    decreases |parts|
  {
    r := m;
    if parts == [] {
      return;
    }
    var head, tail := parts[0], parts[1..];
    if tail == [] {
      if head !in r {
        r := r[head := Text];
      }
      return;
    }
    var entry := if head in r then r[head] else Object(map[]);
    if !entry.Object? {
      entry := Object(map[]);
    }
    var child := InsertJsonPath(entry.members, tail);
    r := r[head := Object(child)];
  }

  // ----- insertion is idempotent and commutes -----

  lemma {:induction false} InsertTwice(m: map<string, Json>, p: Path)
    ensures Insert(Insert(m, p), p) == Insert(m, p)
    decreases |p|
  {
    if |p| > 1 {
      var m' := Insert(m, p);
      assert Child(m', p[0]) == Insert(Child(m, p[0]), p[1..]);
      InsertTwice(Child(m, p[0]), p[1..]);
    }
  }

  lemma {:induction false} InsertCommutes(m: map<string, Json>, p: Path, q: Path)
    ensures Insert(Insert(m, p), q) == Insert(Insert(m, q), p)
    decreases |p|
  {
    if p != [] && q != [] {
      if p[0] != q[0] {
        assert Child(Insert(m, p), q[0]) == Child(m, q[0]);
        assert Child(Insert(m, q), p[0]) == Child(m, p[0]);
      } else if |p| > 1 && |q| > 1 {
        assert Child(Insert(m, p), q[0]) == Insert(Child(m, p[0]), p[1..]);
        assert Child(Insert(m, q), p[0]) == Insert(Child(m, p[0]), q[1..]);
        InsertCommutes(Child(m, p[0]), p[1..], q[1..]);
      } else if |p| > 1 {
        assert Child(Insert(m, q), p[0]) == Child(m, p[0]);
      } else if |q| > 1 {
        assert Child(Insert(m, p), q[0]) == Child(m, q[0]);
      }
    }
  }

  // ----- insertion of many paths -----

  function InsertAll(m: map<string, Json>, ps: seq<Path>): map<string, Json> {
    if ps == [] then m else Insert(InsertAll(m, ps[..|ps| - 1]), ps[|ps| - 1])
  }

  lemma {:induction false} InsertLast(m: map<string, Json>, p: Path, ps: seq<Path>)
    ensures InsertAll(Insert(m, p), ps) == Insert(InsertAll(m, ps), p)
  {
    if ps != [] {
      var n := |ps| - 1;
      InsertLast(m, p, ps[..n]);
      InsertCommutes(InsertAll(m, ps[..n]), p, ps[n]);
    }
  }

  lemma {:induction false} InsertAllCommutes(m: map<string, Json>, a: seq<Path>, b: seq<Path>)
    ensures InsertAll(InsertAll(m, a), b) == InsertAll(InsertAll(m, b), a)
  {
    if a != [] {
      var n := |a| - 1;
      InsertAllCommutes(m, a[..n], b);
      InsertLast(InsertAll(m, a[..n]), a[n], b);
    }
  }

  /** A path that was inserted is not inserted again. */
  lemma {:induction false} Absorbed(m: map<string, Json>, ps: seq<Path>, p: Path)
    requires p in ps
    ensures Insert(InsertAll(m, ps), p) == InsertAll(m, ps)
  {
    var n := |ps| - 1;
    if ps[n] == p {
      InsertTwice(InsertAll(m, ps[..n]), p);
    } else {
      assert ps == ps[..n] + [ps[n]];
      Absorbed(m, ps[..n], p);
      InsertCommutes(InsertAll(m, ps[..n]), ps[n], p);
    }
  }

  lemma {:induction false} AllAbsorbed(m: map<string, Json>, a: seq<Path>, b: seq<Path>)
    requires forall p :: p in b ==> p in a
    ensures InsertAll(InsertAll(m, a), b) == InsertAll(m, a)
  {
    if b != [] {
      var n := |b| - 1;
      assert b == b[..n] + [b[n]];
      AllAbsorbed(m, a, b[..n]);
      Absorbed(m, a, b[n]);
    }
  }

  /** The object depends only on the set of paths: neither their order nor repetitions matter. */
  lemma OnlyTheSetMatters(m: map<string, Json>, a: seq<Path>, b: seq<Path>)
    requires forall p :: p in a <==> p in b
    ensures InsertAll(m, a) == InsertAll(m, b)
  {
    AllAbsorbed(m, a, b);
    AllAbsorbed(m, b, a);
    InsertAllCommutes(m, a, b);
  }

  // ----- what the object contains -----

  predicate HasPath(m: map<string, Json>, p: Path) {
    Lookup(m, p).Some?
  }

  predicate IsText(m: map<string, Json>, p: Path) {
    Lookup(m, p) == Some(Text)
  }

  /** Inserting `f` adds exactly its prefixes. */
  lemma {:induction false} InsertAddsPrefixes(m: map<string, Json>, f: Path, p: Path)
    requires p != []
    ensures HasPath(Insert(m, f), p) <==> HasPath(m, p) || p <= f
    decreases |f|
  {
    if f != [] && p[0] == f[0] && |p| > 1 {
      if |f| > 1 {
        InsertAddsPrefixes(Child(m, f[0]), f[1..], p[1..]);
        PrefixTail(p, f);
      }
    }
  }

  lemma PrefixTail(p: Path, f: Path)
    requires p != [] && f != [] && p[0] == f[0]
    ensures p <= f <==> p[1..] <= f[1..]
    ensures p < f <==> p[1..] < f[1..]
  {
    assert p == [p[0]] + p[1..] && f == [f[0]] + f[1..];
  }

  /** Inserting `f` makes a string at `f` if nothing was there, and an object at each proper prefix. */
  lemma {:induction false} InsertPlacesText(m: map<string, Json>, f: Path, p: Path)
    requires p != []
    ensures IsText(Insert(m, f), p) <==> (IsText(m, p) && !(p < f)) || (p == f && !HasPath(m, p))
    decreases |f|
  {
    if f != [] && p[0] == f[0] {
      PrefixTail(p, f);
      if |p| > 1 && |f| > 1 {
        InsertPlacesText(Child(m, f[0]), f[1..], p[1..]);
        assert p == f <==> p[1..] == f[1..];
      }
    }
  }

  predicate Covers(ps: seq<Path>, p: Path) {
    exists f :: f in ps && p <= f
  }

  predicate Extended(ps: seq<Path>, p: Path) {
    exists f :: f in ps && p < f
  }

  lemma CoversStep(ps: seq<Path>, f: Path, p: Path)
    ensures Covers(ps + [f], p) <==> Covers(ps, p) || p <= f
    ensures Extended(ps + [f], p) <==> Extended(ps, p) || p < f
  {
    assert f in ps + [f];
    if Covers(ps, p) {
      var g :| g in ps && p <= g;
      assert g in ps + [f];
    }
    if Extended(ps, p) {
      var g :| g in ps && p < g;
      assert g in ps + [f];
    }
  }

  /**
   The object's paths are exactly the non-empty prefixes of the inserted paths, and a node is a
   string exactly when no inserted path goes on below it.
   */
  lemma {:induction false} PathsAreThePrefixes(ps: seq<Path>, p: Path)
    requires p != []
    ensures HasPath(InsertAll(map[], ps), p) <==> Covers(ps, p)
    ensures IsText(InsertAll(map[], ps), p) <==> Covers(ps, p) && !Extended(ps, p)
  {
    if ps != [] {
      var n := |ps| - 1;
      var m, f := InsertAll(map[], ps[..n]), ps[n];
      PathsAreThePrefixes(ps[..n], p);
      InsertAddsPrefixes(m, f, p);
      InsertPlacesText(m, f, p);
      CoversStep(ps[..n], f, p);
      assert ps == ps[..n] + [f];
      assert p <= f && !(p < f) ==> p == f;
    }
  }

  // ----- fields -----

  function NonEmpty(parts: seq<string>): Path {
    if parts == [] then []
    else
      var n := |parts| - 1;
      NonEmpty(parts[..n]) + if parts[n] == "" then [] else [parts[n]]
  }

  function PathOf(field: string): Path {
    NonEmpty(Split(field, '.'))
  }

  /** Parts of a field: none is empty or has a dot. */
  predicate Parts(parts: Path) {
    parts != [] && forall i :: 0 <= i < |parts| ==> parts[i] != "" && '.' !in parts[i]
  }

  /** The path of a field that joins such parts with dots is these parts. */
  lemma {:induction false} PathOfParts(parts: Path)
    requires Parts(parts)
    ensures Split(Join(parts, '.'), '.') == parts && PathOf(Join(parts, '.')) == parts
  {
    SplitJoin(parts, '.');
    AllNonEmpty(parts);
  }

  lemma {:induction false} SplitJoin(parts: seq<string>, c: char)
    requires parts != [] && forall i :: 0 <= i < |parts| ==> c !in parts[i]
    ensures Split(Join(parts, c), c) == parts
  {
    hide Split;
    var n := |parts| - 1;
    if n == 0 {
      OnePart(parts[0], c);
    } else {
      SplitJoin(parts[..n], c);
      LastSplit(Join(parts[..n], c), c, parts[n]);
      assert Join(parts, c) == Join(parts[..n], c) + [c] + parts[n];
    }
  }

  lemma OnePart(s: string, c: char)
    requires c !in s
    ensures Split(s, c) == [s]
  {
  }

  lemma LastSplit(a: string, c: char, b: string)
    requires c !in b
    ensures Split(a + [c] + b, c) == Split(a, c) + [b]
  {
    RFindSplit(a, c, b);
    var s := a + [c] + b;
    assert s[..|a|] == a && s[|a| + 1..] == b;
  }

  lemma {:induction false} AllNonEmpty(parts: seq<string>)
    requires forall i :: 0 <= i < |parts| ==> parts[i] != ""
    ensures NonEmpty(parts) == parts
  {
    if parts != [] {
      AllNonEmpty(parts[..|parts| - 1]);
    }
  }

  /** Between dots that follow each other nothing is lost or added. */
  lemma {:induction false} EmptyPartsGo(a: seq<string>, b: seq<string>)
    ensures NonEmpty(a + [""] + b) == NonEmpty(a + b)
  {
    if b == [] {
      assert (a + [""] + b)[..|a|] == a && a + b == a;
    } else {
      var n := |b| - 1;
      EmptyPartsGo(a, b[..n]);
      assert (a + [""] + b)[..|a| + 1 + n] == a + [""] + b[..n];
      assert (a + b)[..|a| + n] == a + b[..n];
    }
  }

  function PathsOf(fields: seq<string>): seq<Path> {
    seq(|fields|, i requires 0 <= i < |fields| => PathOf(fields[i]))
  }

  /** `sample_data_json`, up to printing. */
  method SampleJson(fields: seq<string>) returns (root: map<string, Json>)
    ensures root == InsertAll(map[], PathsOf(fields))
  {
    root := map[];
    for i := 0 to |fields|
      invariant root == InsertAll(map[], PathsOf(fields)[..i])
    {
      assert PathsOf(fields)[..i + 1][..i] == PathsOf(fields)[..i];
      root := InsertJsonPath(root, PathOf(fields[i]));
    }
    assert PathsOf(fields)[..|fields|] == PathsOf(fields);
  }

  /** The sample depends only on which fields there are. */
  lemma SampleDependsOnFieldSet(a: seq<string>, b: seq<string>)
    requires forall f :: f in a <==> f in b
    ensures InsertAll(map[], PathsOf(a)) == InsertAll(map[], PathsOf(b))
  {
    forall p
      ensures p in PathsOf(a) <==> p in PathsOf(b)
    {
      if p in PathsOf(a) {
        PathAmong(a, b, p);
      }
      if p in PathsOf(b) {
        PathAmong(b, a, p);
      }
    }
    OnlyTheSetMatters(map[], PathsOf(a), PathsOf(b));
  }

  lemma PathAmong(a: seq<string>, b: seq<string>, p: Path)
    requires (forall f :: f in a ==> f in b) && p in PathsOf(a)
    ensures p in PathsOf(b)
  {
    var i :| 0 <= i < |a| && PathsOf(a)[i] == p;
    assert a[i] in b;
    var j :| 0 <= j < |b| && b[j] == a[i];
    assert PathsOf(b)[j] == p;
  }

  /** Every field resolves in the sample. */
  lemma FieldsResolve(fields: seq<string>, field: string)
    requires field in fields
    ensures HasPath(InsertAll(map[], PathsOf(fields)), PathOf(field))
  {
    var i :| 0 <= i < |fields| && fields[i] == field;
    assert PathsOf(fields)[i] == PathOf(field);
    if PathOf(field) != [] {
      assert PathOf(field) in PathsOf(fields) && PathOf(field) <= PathOf(field);
      PathsAreThePrefixes(PathsOf(fields), PathOf(field));
    }
  }

  // ----- inferring fields from a source -----

  predicate IdentStart(c: char) {
    c == '_' || 'a' <= c <= 'z' || 'A' <= c <= 'Z'
  }

  predicate IdentChar(c: char) {
    IdentStart(c) || '0' <= c <= '9'
  }

  const LOWER := "abcdefghijklmnopqrstuvwxyz"
  const UPPER := "ABCDEFGHIJKLMNOPQRSTUVWXYZ"
  const DIGITS := "0123456789"

  /** Characters that follow each other from `first` on. */
  predicate InARow(s: string, first: char) {
    forall i :: 0 <= i < |s| ==> s[i] as int == first as int + i
  }

  lemma RowIff(s: string, first: char, c: char)
    requires InARow(s, first)
    ensures c in s <==> first as int <= c as int < first as int + |s|
  {
    if first as int <= c as int < first as int + |s| {
      assert s[c as int - first as int] == c;
    }
  }

  /** Identifiers are made of letters, underscores and, after the first place, digits. */
  lemma IdentIff(c: char)
    ensures IdentStart(c) <==> c in LOWER || c in UPPER || c == '_'
    ensures IdentChar(c) <==> c in LOWER || c in UPPER || c == '_' || c in DIGITS
  {
    RowIff(LOWER, 'a', c);
    RowIff(UPPER, 'A', c);
    RowIff(DIGITS, '0', c);
  }

  /** `id` is the longest identifier at the front of `s`. */
  predicate IsIdentifierOf(s: string, id: string) {
    id != "" && id <= s && IdentStart(id[0])
    && (forall i :: 0 <= i < |id| ==> IdentChar(id[i]))
    && (|id| < |s| ==> !IdentChar(s[|id|]))
  }

  /** `parse_identifier`. */
  method ParseIdentifier(s: string) returns (r: Option<string>)
    ensures r.Some? <==> s != "" && IdentStart(s[0])
    ensures r.Some? ==> IsIdentifierOf(s, r.value)
  {
    if s == "" || !IdentStart(s[0]) {
      return None;
    }
    var end := 1;
    while end < |s| && IdentChar(s[end])
      invariant 1 <= end <= |s| && forall i :: 0 <= i < end ==> IdentChar(s[i])
    {
      end := end + 1;
    }
    return Some(s[..end]);
  }

  /** Identifiers joined by dots. */
  function Dotted(parts: seq<string>): string
    requires parts != []
  {
    if |parts| == 1 then parts[0] else Dotted(parts[..|parts| - 1]) + "." + parts[|parts| - 1]
  }

  predicate Identifiers(parts: seq<string>) {
    parts != [] && forall i :: 0 <= i < |parts| ==>
      parts[i] != "" && IdentStart(parts[i][0]) && forall j :: 0 <= j < |parts[i]| ==> IdentChar(parts[i][j])
  }

  /** `parts` are the identifiers of the longest dotted path at the front of `s`. */
  predicate IsDottedPath(s: string, parts: seq<string>)
  {
    Identifiers(parts) && Dotted(parts) <= s
    && var rest := s[|Dotted(parts)|..];
       (rest != "" ==> !IdentChar(rest[0])) && !(|rest| > 1 && rest[0] == '.' && IdentStart(rest[1]))
  }

  /** `parse_data_path` on what follows "data.": the dotted path, unless it starts with `at`. */
  method ParseDataPath(s: string) returns (r: Option<(string, nat)>)
    ensures r.Some? ==>
      exists parts :: IsDottedPath(s, parts) && parts[0] != "at" && r.value == (Dotted(parts), |Dotted(parts)|)
    ensures r == None ==> s == "" || !IdentStart(s[0]) || IsIdentifierOf(s, "at")
  {
    var first := ParseIdentifier(s);
    if first == None || first.value == "at" {
      return None;
    }
    var parts := [first.value];
    var offset := |first.value|;
    while offset < |s| && s[offset] == '.'
      invariant Identifiers(parts) && parts[0] == first.value && offset <= |s| && s[..offset] == Dotted(parts)
      invariant offset < |s| ==> !IdentChar(s[offset])
    {
      var part := ParseIdentifier(s[offset + 1..]);
      if part == None {
        break;
      }
      var next := offset + 1 + |part.value|;
      assert s[..next] == s[..offset] + "." + part.value by {
        assert s[offset + 1..][..|part.value|] == part.value;
      }
      assert parts == (parts + [part.value])[..|parts|];
      parts, offset := parts + [part.value], next;
    }
    assert Dotted(parts) == s[..offset];
    assert IsDottedPath(s, parts);
    return Some((Dotted(parts), offset));
  }

  /** The text up to an unescaped quote, with backslashes taken off, and where it ends. */
  function Quoted(s: string, quote: char): Option<(string, nat)>
    decreases |s|
  {
    if s == "" then None
    else if s[0] == '\\' then
      if |s| == 1 then None
      else
        match Quoted(s[2..], quote)
        case Some((text, n)) => Some(([s[1]] + text, n + 2))
        case None => None
    else if s[0] == quote then Some(("", 1))
    else
      match Quoted(s[1..], quote)
      case Some((text, n)) => Some(([s[0]] + text, n + 1))
      case None => None
  }

  lemma {:induction false} QuotedEnds(s: string, quote: char)
    requires Quoted(s, quote).Some?
    ensures 1 <= Quoted(s, quote).value.1 <= |s|
    decreases |s|
  {
    if s[0] == '\\' {
      QuotedEnds(s[2..], quote);
    } else if s[0] != quote {
      QuotedEnds(s[1..], quote);
    }
  }

  /** The scan for the closing quote, as a loop with its `escaped` flag. */
  method ParseQuoted(s: string, quote: char) returns (r: Option<(string, nat)>)
    requires quote != '\\'
    ensures r == Quoted(s, quote)
  {
    var value := "";
    var escaped := false;
    assert s[0..] == s;
    ContinuedStart(value, Quoted(s, quote));
    for i := 0 to |s|
      invariant !escaped ==> Quoted(s, quote) == Continued(value, i, Quoted(s[i..], quote))
      invariant escaped ==> Quoted(s, quote) == Continued(value, i, AfterEscape(s[i..], quote))
    {
      assert s[i..][1..] == s[i + 1..];
      ContinuedStep(value, s[i], i, Quoted(s[i + 1..], quote));
      if escaped {
        value := value + [s[i]];
        escaped := false;
      } else if s[i] == '\\' {
        EscapeStep(value, i, s[i..], quote);
        escaped := true;
      } else if s[i] == quote {
        ContinuedStart(value, None);
        return Some((value, i + 1));
      } else {
        value := value + [s[i]];
      }
    }
    return None;
  }

  lemma ContinuedStart(value: string, r: Option<(string, nat)>)
    ensures Continued("", 0, r) == r
    ensures value + "" == value
  {
    if r.Some? {
      assert "" + r.value.0 == r.value.0;
    }
  }

  lemma ContinuedStep(value: string, c: char, i: nat, r: Option<(string, nat)>)
    ensures Continued(value + [c], i + 1, r) ==
            Continued(value, i, match r case Some((text, n)) => Some(([c] + text, n + 1)) case None => None)
  {
    if r.Some? {
      assert value + [c] + r.value.0 == value + ([c] + r.value.0);
    }
  }

  lemma EscapeStep(value: string, i: nat, s: string, quote: char)
    requires s != "" && s[0] == '\\'
    ensures Continued(value, i, Quoted(s, quote)) == Continued(value, i + 1, AfterEscape(s[1..], quote))
  {
    if |s| > 1 {
      assert s[1..][1..] == s[2..];
    }
  }

  function Continued(value: string, i: nat, r: Option<(string, nat)>): Option<(string, nat)> {
    match r
    case Some((text, n)) => Some((value + text, i + n))
    case None => None
  }

  function AfterEscape(s: string, quote: char): Option<(string, nat)> {
    if s == "" then None
    else
      match Quoted(s[1..], quote)
      case Some((text, n)) => Some(([s[0]] + text, n + 1))
      case None => None
  }

  /** `push_unique`. */
  function PushUnique(fields: seq<string>, field: string): seq<string> {
    if Blank(field) || field in fields then fields else fields + [field]
  }

  /** A quoted string after optional white space. */
  function StringArg(s: string): Option<(string, nat)>
    decreases |s|
  {
    if s == "" then None
    else if WhiteSpace(s[0]) then
      match StringArg(s[1..])
      case Some((text, n)) => Some((text, n + 1))
      case None => None
    else if s[0] != '"' && s[0] != '\'' then None
    else
      match Quoted(s[1..], s[0])
      case Some((text, n)) => Some((text, n + 1))
      case None => None
  }

  lemma {:induction false} StringArgEnds(s: string)
    requires StringArg(s).Some?
    ensures StringArg(s).value.1 <= |s|
    decreases |s|
  {
    if WhiteSpace(s[0]) {
      StringArgEnds(s[1..]);
    } else {
      QuotedEnds(s[1..], s[0]);
    }
  }

  /** `parse_first_string_arg` on what follows the prefix. */
  method ParseStringArg(s: string) returns (r: Option<(string, nat)>)
    ensures r == StringArg(s)
  {
    var offset := 0;
    assert s[0..] == s;
    while offset < |s| && WhiteSpace(s[offset])
      invariant offset <= |s|
      invariant StringArg(s) == Shifted(offset, StringArg(s[offset..]))
    {
      assert s[offset..][1..] == s[offset + 1..];
      offset := offset + 1;
    }
    if offset == |s| || (s[offset] != '"' && s[offset] != '\'') {
      return None;
    }
    assert s[offset..][1..] == s[offset + 1..];
    var text := ParseQuoted(s[offset + 1..], s[offset]);
    return Shifted(offset + 1, text);
  }

  function Shifted(k: nat, r: Option<(string, nat)>): Option<(string, nat)> {
    match r
    case Some((text, n)) => Some((text, n + k))
    case None => None
  }

  const AT_CALL := "data.at("
  const DATA := "data."
  const FIELD_CALL := "field("

  /** The source mentions this field at its front, in its first `n` characters. */
  ghost predicate MentionOf(s: string, field: string, n: nat) {
    (AT_CALL <= s && ArgOf(s[|AT_CALL|..], field, n - |AT_CALL|))
    || (!(AT_CALL <= s) && DATA <= s && PathAtFront(s[|DATA|..], field, n - |DATA|))
    || (FIELD_CALL <= s && ArgOf(s[|FIELD_CALL|..], field, n - |FIELD_CALL|))
  }

  /** A quoted string at the front, after white space, that says `text` and ends after `n` characters. */
  predicate ArgOf(s: string, text: string, n: int) {
    StringArg(s).Some? && StringArg(s).value.0 == text && StringArg(s).value.1 == n
  }

  /** A dotted path of `n` characters at the front that does not start with `at`. */
  ghost predicate PathAtFront(s: string, field: string, n: int) {
    exists parts :: IsDottedPath(s, parts) && parts[0] != "at" && Dotted(parts) == field && |field| == n
  }

  /** Text without quotes and backslashes is read up to the quote that follows it. */
  lemma {:induction false} QuotedPlain(text: string, quote: char, rest: string)
    requires quote != '\\' && '\\' !in text && quote !in text
    ensures Quoted(text + [quote] + rest, quote) == Some((text, |text| + 1))
  {
    var s := text + [quote] + rest;
    if text == "" {
      assert s[0] == quote;
    } else {
      QuotedPlain(text[1..], quote, rest);
      assert s[1..] == text[1..] + [quote] + rest && s[0] == text[0];
      assert [text[0]] + text[1..] == text;
    }
  }

  /** `data.at("key")` and `field("key")` mention the key, with either kind of quotes. */
  lemma CallsMention(key: string, quote: char, rest: string)
    requires quote == '"' || quote == '\''
    requires '\\' !in key && quote !in key
    ensures MentionOf("data.at(" + ([quote] + key + [quote] + rest), key, |key| + 10)
    ensures MentionOf("field(" + ([quote] + key + [quote] + rest), key, |key| + 8)
  {
    ArgMentions(key, quote, rest);
    var arg := [quote] + key + [quote] + rest;
    assert ("data.at(" + arg)[8..] == arg && ("field(" + arg)[6..] == arg;
    hide ArgOf;
  }

  lemma ArgMentions(key: string, quote: char, rest: string)
    requires quote == '"' || quote == '\''
    requires '\\' !in key && quote !in key
    ensures ArgOf([quote] + key + [quote] + rest, key, |key| + 2)
  {
    QuotedPlain(key, quote, rest);
    var arg := [quote] + key + [quote] + rest;
    assert arg[1..] == key + [quote] + rest;
    assert !WhiteSpace('"') && !WhiteSpace('\'') && arg[0] == quote;
  }

  /** `data.a.b` mentions `a.b`, unless `a` is the method. */
  lemma PathMentions(parts: seq<string>, rest: string)
    requires parts != [] && IsDottedPath(Dotted(parts) + rest, parts) && parts[0] != "at"
    ensures MentionOf("data." + (Dotted(parts) + rest), Dotted(parts), |Dotted(parts)| + 5)
  {
    var path := Dotted(parts) + rest;
    var s := "data." + path;
    assert s[5..] == path;
    if "data.at(" <= s {
      assert s[..8] == "data.at(";
      assert path[..3] == "at(" by { assert path[..3] == s[5..8]; }
      StartsWithAt(path, parts);
    }
    assert PathAtFront(path, Dotted(parts), |Dotted(parts)|);
  }

  lemma StartsWithAt(path: string, parts: seq<string>)
    requires IsDottedPath(path, parts) && "at(" <= path
    ensures parts[0] == "at"
  {
    FirstOfPath(path, parts);
    assert path[0] == 'a' && path[1] == 't' && path[2] == '(';
    assert IsIdentifierOf(path, "at");
    NoLonger(path, parts[0], "at");
    NoLonger(path, "at", parts[0]);
    assert parts[0] == path[..2];
  }

  ghost predicate MentionedAt(s: string, field: string) {
    exists n: nat :: MentionOf(s, field, n)
  }

  ghost predicate Mentioned(source: string, field: string) {
    exists i :: 0 <= i < |source| && MentionedAt(source[i..], field)
  }

  /** One attempt of the scan: a field mentioned here, and how much of the source it takes. */
  method MatchHere(s: string) returns (r: Option<(string, nat)>)
    requires s != ""
    ensures r.Some? ==> MentionOf(s, r.value.0, r.value.1) && 0 < r.value.1 <= |s|
    ensures r == None ==> forall f, n: nat :: !MentionOf(s, f, n)
  {
    r := None;
    Prefixes(s);
    if AT_CALL <= s {
      var arg := ParseStringArg(s[|AT_CALL|..]);
      if arg.Some? {
        StringArgEnds(s[|AT_CALL|..]);
        return Some((arg.value.0, |AT_CALL| + arg.value.1));
      }
    } else if DATA <= s {
      var path := ParseDataPath(s[|DATA|..]);
      if path == None {
        NoDataPath(s[|DATA|..]);
      } else {
        return Some((path.value.0, |DATA| + path.value.1));
      }
    } else if FIELD_CALL <= s {
      var arg := ParseStringArg(s[|FIELD_CALL|..]);
      if arg.Some? {
        StringArgEnds(s[|FIELD_CALL|..]);
        return Some((arg.value.0, |FIELD_CALL| + arg.value.1));
      }
    }
  }

  lemma {:induction false} DottedHead(parts: seq<string>)
    requires parts != []
    ensures parts[0] <= Dotted(parts)
    ensures |parts| > 1 ==> |parts[0]| < |Dotted(parts)| && Dotted(parts)[|parts[0]|] == '.'
    ensures |parts| == 1 ==> Dotted(parts) == parts[0]
  {
    if |parts| > 1 {
      DottedHead(parts[..|parts| - 1]);
      assert parts[..|parts| - 1][0] == parts[0];
    }
  }

  lemma NoLonger(s: string, a: string, b: string)
    requires IsIdentifierOf(s, a) && IsIdentifierOf(s, b)
    ensures |b| <= |a|
  {
    assert forall i :: 0 <= i < |b| ==> b[i] == s[i];
  }

  /** The first identifier of a dotted path is the longest one at the front. */
  lemma FirstOfPath(s: string, parts: seq<string>)
    requires IsDottedPath(s, parts)
    ensures IsIdentifierOf(s, parts[0])
  {
    DottedHead(parts);
    var d := Dotted(parts);
    assert s[..|d|] == d;
    assert parts[0] == d[..|parts[0]|] == s[..|parts[0]|];
    if |parts| > 1 {
      assert s[|parts[0]|] == '.';
    }
  }

  /** Where `parse_data_path` finds nothing there is no dotted path that does not start with `at`. */
  lemma NoDataPath(s: string)
    requires s == "" || !IdentStart(s[0]) || IsIdentifierOf(s, "at")
    ensures forall parts :: IsDottedPath(s, parts) ==> parts[0] == "at"
  {
    forall parts | IsDottedPath(s, parts)
      ensures parts[0] == "at"
    {
      FirstOfPath(s, parts);
      assert s[0] == parts[0][0];
      NoLonger(s, parts[0], "at");
      NoLonger(s, "at", parts[0]);
      assert parts[0] == s[..2];
    }
  }

  /** A dotted path: identifier characters and dots, each dot followed by the start of an identifier. */
  predicate DottedShape(d: string) {
    d != "" && IdentStart(d[0])
    && forall i :: 0 <= i < |d| ==> IdentChar(d[i]) || DotAt(d, i)
  }

  predicate DotAt(d: string, i: nat)
    requires i < |d|
  {
    d[i] == '.' && i + 1 < |d| && IdentStart(d[i + 1])
  }

  lemma {:induction false} DottedIsShaped(parts: seq<string>)
    requires Identifiers(parts)
    ensures DottedShape(Dotted(parts))
  {
    if |parts| > 1 {
      var n := |parts| - 1;
      DottedIsShaped(parts[..n]);
      var head, last := Dotted(parts[..n]), parts[n];
      var d := head + "." + last;
      forall i | 0 <= i < |d|
        ensures IdentChar(d[i]) || DotAt(d, i)
      {
        if i < |head| {
          assert d[i] == head[i] && (IdentChar(head[i]) || DotAt(head, i));
          if i + 1 < |head| {
            assert d[i + 1] == head[i + 1];
          }
        } else if i == |head| {
          assert d[i + 1] == last[0];
        } else {
          assert d[i] == last[i - |head| - 1];
        }
      }
    } else {
      assert Dotted(parts) == parts[0];
    }
  }

  lemma ShapeAt(d: string, i: nat)
    requires DottedShape(d) && i < |d|
    ensures IdentChar(d[i]) || DotAt(d, i)
  {
  }

  /** Nothing of a dotted path goes on after `x`, so no dotted path is longer. */
  lemma NoLongerShape(s: string, x: string, y: string)
    requires x <= s && y <= s && DottedShape(y)
    requires |x| < |s| ==> !IdentChar(s[|x|])
    requires |x| + 1 < |s| ==> !(s[|x|] == '.' && IdentStart(s[|x| + 1]))
    ensures |y| <= |x|
  {
    hide DottedShape;
    if |x| < |y| {
      assert s[|x|] == y[|x|];
      assert |x| + 1 < |y| ==> s[|x| + 1] == y[|x| + 1];
      ShapeAt(y, |x|);
    }
  }

  /** There is one longest dotted path. */
  lemma PathNotLonger(s: string, a: seq<string>, b: seq<string>)
    requires IsDottedPath(s, a) && IsDottedPath(s, b)
    ensures |Dotted(b)| <= |Dotted(a)|
  {
    DottedIsShaped(b);
    var x := Dotted(a);
    var rest := s[|x|..];
    if rest != "" {
      assert rest[0] == s[|x|];
      if |rest| > 1 {
        assert rest[1] == s[|x| + 1];
      }
    }
    NoLongerShape(s, x, Dotted(b));
  }

  lemma PathUnique(s: string, a: string, b: string, m: int, n: int)
    requires PathAtFront(s, a, m) && PathAtFront(s, b, n)
    ensures a == b && m == n
  {
    var p :| IsDottedPath(s, p) && p[0] != "at" && Dotted(p) == a && |a| == m;
    var q :| IsDottedPath(s, q) && q[0] != "at" && Dotted(q) == b && |b| == n;
    PathNotLonger(s, p, q);
    PathNotLonger(s, q, p);
    assert a == s[..|a|] && b == s[..|b|];
  }

  /** A source mentions at most one field at its front. */
  lemma MentionUnique(s: string, f: string, m: nat, g: string, n: nat)
    requires MentionOf(s, f, m) && MentionOf(s, g, n)
    ensures f == g && m == n
  {
    hide PathAtFront;
    Prefixes(s);
    if !(AT_CALL <= s) && DATA <= s {
      PathUnique(s[|DATA|..], f, g, m - |DATA|, n - |DATA|);
    }
  }

  /** A source does not start with both calls. */
  lemma Prefixes(s: string)
    ensures !(DATA <= s && FIELD_CALL <= s) && (AT_CALL <= s ==> DATA <= s)
  {
    if FIELD_CALL <= s {
      assert s[0] == FIELD_CALL[0];
    }
    if DATA <= s {
      assert s[0] == DATA[0];
    }
    if AT_CALL <= s {
      assert AT_CALL[..|DATA|] == DATA && s[..|AT_CALL|] == AT_CALL && s[..|DATA|] == AT_CALL[..|DATA|];
    }
  }

  /** A mention of a field in a source, and where it is. */
  datatype Mention = Mention(start: nat, len: nat, field: string)

  ghost predicate MentionIn(source: string, m: Mention) {
    m.start < m.start + m.len <= |source| && MentionOf(source[m.start..], m.field, m.len)
  }

  /** One of these mentions takes position `k`. */
  predicate Takes(mentions: seq<Mention>, k: int) {
    exists i :: 0 <= i < |mentions| && mentions[i].start <= k < mentions[i].start + mentions[i].len
  }

  /** From left to right, none inside another. */
  predicate Apart(mentions: seq<Mention>) {
    forall i, j :: 0 <= i < j < |mentions| ==> mentions[i].start + mentions[i].len <= mentions[j].start
  }

  /** Every mention that starts before `end` is one of these or starts inside one of them. */
  ghost predicate CompleteTo(source: string, mentions: seq<Mention>, end: int) {
    forall k, f, n: nat :: 0 <= k < end && k < |source| && MentionOf(source[k..], f, n) ==> Takes(mentions, k)
  }

  /** The mentions of a source, from left to right: none overlaps another and no other can be added. */
  ghost predicate IsScan(source: string, mentions: seq<Mention>) {
    Apart(mentions) && (forall i :: 0 <= i < |mentions| ==> MentionIn(source, mentions[i]))
    && CompleteTo(source, mentions, |source|)
  }

  /** The fields of some mentions, each once, in the order of their first mention. */
  function Collect(mentions: seq<Mention>): seq<string> {
    if mentions == [] then []
    else PushUnique(Collect(mentions[..|mentions| - 1]), mentions[|mentions| - 1].field)
  }

  /** The `i`th mentions of two scans that agree before it start at the same place. */
  lemma NoLater(source: string, a: seq<Mention>, b: seq<Mention>, i: nat)
    requires IsScan(source, a) && IsScan(source, b) && i < |a| && i <= |b| && a[..i] == b[..i]
    ensures i < |b| && b[i].start <= a[i].start
  {
    hide MentionOf, Apart, Takes;
    assert MentionIn(source, a[i]) && Takes(b, a[i].start);
    TakenLater(a, b, i);
  }

  lemma TakenLater(a: seq<Mention>, b: seq<Mention>, i: nat)
    requires Apart(a) && Apart(b) && i < |a| && i <= |b| && a[..i] == b[..i] && Takes(b, a[i].start)
    ensures i < |b| && b[i].start <= a[i].start
  {
    hide Apart;
    var j :| 0 <= j < |b| && b[j].start <= a[i].start < b[j].start + b[j].len;
    if j < i {
      ApartAt(a, j, i);
      SameBefore(a, b, i, j);
    } else if i < j {
      ApartAt(b, i, j);
    }
  }

  lemma ApartAt(mentions: seq<Mention>, i: nat, j: nat)
    requires Apart(mentions) && i < j < |mentions|
    ensures mentions[i].start + mentions[i].len <= mentions[j].start
  {
  }

  lemma SameBefore(a: seq<Mention>, b: seq<Mention>, i: nat, j: nat)
    requires j < i <= |a| && i <= |b| && a[..i] == b[..i]
    ensures a[j] == b[j]
  {
    assert a[..i][j] == b[..i][j];
  }

  lemma {:induction false} ScansAgree(source: string, a: seq<Mention>, b: seq<Mention>, i: nat)
    requires IsScan(source, a) && IsScan(source, b) && i <= |a| && i <= |b|
    ensures a[..i] == b[..i]
  {
    hide MentionOf, CompleteTo, Apart;
    if i > 0 {
      var n := i - 1;
      ScansAgree(source, a, b, n);
      NoLater(source, a, b, n);
      NoLater(source, b, a, n);
      assert MentionIn(source, a[n]) && MentionIn(source, b[n]);
      MentionUnique(source[a[n].start..], a[n].field, a[n].len, b[n].field, b[n].len);
      assert a[..i] == a[..n] + [a[n]] && b[..i] == b[..n] + [b[n]];
    }
  }

  /** A source has one scan, so its fields are determined. */
  lemma ScanUnique(source: string, a: seq<Mention>, b: seq<Mention>)
    requires IsScan(source, a) && IsScan(source, b)
    ensures a == b
  {
    hide IsScan;
    if |a| <= |b| {
      ScansAgree(source, a, b, |a|);
      if |a| < |b| {
        NoLater(source, b, a, |a|);
      }
    } else {
      ScansAgree(source, a, b, |b|);
      NoLater(source, a, b, |b|);
    }
  }

  /** What is collected: the fields that are mentioned and not blank, each once. */
  lemma {:induction false} Collected(mentions: seq<Mention>)
    ensures forall f :: f in Collect(mentions) <==> !Blank(f) && Names(mentions, f)
    ensures forall i, j :: 0 <= i < j < |Collect(mentions)| ==> Collect(mentions)[i] != Collect(mentions)[j]
  {
    hide Blank;
    if mentions != [] {
      var n := |mentions| - 1;
      Collected(mentions[..n]);
      forall f: string
        ensures Names(mentions, f) <==> f == mentions[n].field || Names(mentions[..n], f)
      {
        NamesOneMore(mentions, f);
      }
    }
  }

  /** The first of these mentions that is of this field. */
  predicate FirstIs(mentions: seq<Mention>, f: string, k: nat) {
    k < |mentions| && mentions[k].field == f && forall j :: 0 <= j < k ==> mentions[j].field != f
  }

  /** Fields come in the order of their first mention. */
  ghost predicate InOrder(mentions: seq<Mention>, fields: seq<string>) {
    forall i, j, k: nat, l: nat ::
      0 <= i < j < |fields| && FirstIs(mentions, fields[i], k) && FirstIs(mentions, fields[j], l) ==> k < l
  }

  lemma {:induction false} CollectedInOrder(mentions: seq<Mention>)
    ensures InOrder(mentions, Collect(mentions))
  {
    hide Blank, Names;
    if mentions != [] {
      var n := |mentions| - 1;
      CollectedInOrder(mentions[..n]);
      Collected(mentions[..n]);
      var fields := Collect(mentions);
      forall i, j, k: nat, l: nat | 0 <= i < j < |fields| && FirstIs(mentions, fields[i], k)
                                    && FirstIs(mentions, fields[j], l)
        ensures k < l
      {
        FirstBefore(mentions, fields[i], k);
        if j < |Collect(mentions[..n])| {
          FirstBefore(mentions, fields[j], l);
        } else {
          NotEarlier(mentions, l);
        }
      }
    }
  }

  /** What was collected before the last mention was first mentioned before it. */
  lemma FirstBefore(mentions: seq<Mention>, f: string, k: nat)
    requires mentions != [] && FirstIs(mentions, f, k) && f in Collect(mentions[..|mentions| - 1])
    ensures k < |mentions| - 1 && FirstIs(mentions[..|mentions| - 1], f, k)
  {
    hide Blank;
    var n := |mentions| - 1;
    Collected(mentions[..n]);
    var i :| 0 <= i < n && mentions[..n][i].field == f;
    assert mentions[i].field == f;
  }

  /** A field that the last mention adds was not mentioned before. */
  lemma NotEarlier(mentions: seq<Mention>, l: nat)
    requires mentions != [] && FirstIs(mentions, mentions[|mentions| - 1].field, l)
    requires mentions[|mentions| - 1].field !in Collect(mentions[..|mentions| - 1])
    requires !Blank(mentions[|mentions| - 1].field)
    ensures l == |mentions| - 1
  {
    hide Blank;
    var n := |mentions| - 1;
    Collected(mentions[..n]);
    forall j | 0 <= j < n
      ensures mentions[j].field != mentions[n].field
    {
      assert mentions[..n][j] == mentions[j];
    }
  }

  /** One of these mentions is of this field. */
  predicate Names(mentions: seq<Mention>, f: string) {
    exists i :: 0 <= i < |mentions| && mentions[i].field == f
  }

  lemma NamesOneMore(mentions: seq<Mention>, f: string)
    requires mentions != []
    ensures Names(mentions, f) <==> f == mentions[|mentions| - 1].field || Names(mentions[..|mentions| - 1], f)
  {
    var n := |mentions| - 1;
    if f == mentions[n].field {
      assert mentions[n].field == f;
    } else if i :| 0 <= i < |mentions| && mentions[i].field == f {
      assert mentions[..n][i].field == f;
    }
  }

  /**
   `infer_data_fields`: the fields of the source's one scan, in the order of their first mention. So
   each is mentioned, none is blank or there twice, and a mention is missed only inside another one.
   */
  method InferDataFields(source: string) returns (fields: seq<string>, ghost mentions: seq<Mention>)
    ensures IsScan(source, mentions) && fields == Collect(mentions)
    ensures forall f :: f in fields ==> !Blank(f) && Mentioned(source, f)
    ensures forall i, j :: 0 <= i < j < |fields| ==> fields[i] != fields[j]
    ensures InOrder(mentions, fields)
  {
    hide MentionOf, PushUnique, Apart, CompleteTo, FirstIs;
    fields, mentions := [], [];
    var i := 0;
    NothingScanned(source);
    while i < |source|
      invariant i <= |source| && fields == Collect(mentions)
      invariant ScannedTo(source, mentions, i)
    {
      var found := MatchHere(source[i..]);
      if found.Some? {
        var (field, len) := found.value;
        ScanNext(source, mentions, i, len, field);
        assert (mentions + [Mention(i, len, field)])[..|mentions|] == mentions;
        fields, mentions := PushUnique(fields, field), mentions + [Mention(i, len, field)];
        i := i + len;
      } else {
        ScanOn(source, mentions, i);
        i := i + 1;
      }
    }
    Collected(mentions);
    CollectedInOrder(mentions);
    AllMentioned(source, mentions);
  }

  /** A scan of the first `end` characters. */
  ghost predicate ScannedTo(source: string, mentions: seq<Mention>, end: nat) {
    Apart(mentions) && CompleteTo(source, mentions, end)
    && forall i :: 0 <= i < |mentions| ==>
         MentionIn(source, mentions[i]) && mentions[i].start + mentions[i].len <= end
  }

  lemma NothingScanned(source: string)
    ensures ScannedTo(source, [], 0)
  {
  }

  lemma TakesMore(mentions: seq<Mention>, m: Mention, k: int)
    ensures Takes(mentions + [m], k) <==> Takes(mentions, k) || m.start <= k < m.start + m.len
  {
    var more := mentions + [m];
    if Takes(mentions, k) {
      var i :| 0 <= i < |mentions| && mentions[i].start <= k < mentions[i].start + mentions[i].len;
      assert more[i] == mentions[i];
    }
    if m.start <= k < m.start + m.len {
      assert more[|mentions|] == m;
    }
  }

  lemma ScanNext(source: string, mentions: seq<Mention>, i: nat, len: nat, field: string)
    requires ScannedTo(source, mentions, i) && 0 < len && i + len <= |source| && MentionOf(source[i..], field, len)
    ensures ScannedTo(source, mentions + [Mention(i, len, field)], i + len)
  {
    hide MentionOf, Takes;
    var more := mentions + [Mention(i, len, field)];
    forall k, f, n: nat | 0 <= k < i + len && k < |source| && MentionOf(source[k..], f, n)
      ensures Takes(more, k)
    {
      TakesMore(mentions, Mention(i, len, field), k);
    }
    assert MentionIn(source, Mention(i, len, field));
  }

  lemma ScanOn(source: string, mentions: seq<Mention>, i: nat)
    requires ScannedTo(source, mentions, i) && i < |source| && forall f, n: nat :: !MentionOf(source[i..], f, n)
    ensures ScannedTo(source, mentions, i + 1)
  {
    hide MentionOf, Takes;
  }

  lemma AllMentioned(source: string, mentions: seq<Mention>)
    requires IsScan(source, mentions)
    ensures forall i :: 0 <= i < |mentions| ==> Mentioned(source, mentions[i].field)
  {
    hide MentionOf, CompleteTo, Apart;
    forall i | 0 <= i < |mentions|
      ensures Mentioned(source, mentions[i].field)
    {
      var m := mentions[i];
      assert MentionIn(source, m);
      assert MentionedAt(source[m.start..], m.field);
    }
  }

  /** What the form shows for a source: the inferred fields, and a sample in which each of them resolves. */
  method SampleFor(source: string) returns (fields: seq<string>, root: map<string, Json>)
    ensures exists mentions :: IsScan(source, mentions) && fields == Collect(mentions)
    ensures forall f :: f in fields ==> Mentioned(source, f) && HasPath(root, PathOf(f))
    ensures forall p :: p != [] ==> (HasPath(root, p) <==> Covers(PathsOf(fields), p))
    ensures forall parts :: Parts(parts) && Join(parts, '.') in fields ==> HasPath(root, parts)
  {
    hide IsScan, Join, PathOf, HasPath;
    ghost var mentions;
    fields, mentions := InferDataFields(source);
    root := SampleJson(fields);
    forall f | f in fields
      ensures HasPath(root, PathOf(f))
    {
      FieldsResolve(fields, f);
    }
    forall p: Path | p != []
      ensures HasPath(root, p) <==> Covers(PathsOf(fields), p)
    {
      PathsAreThePrefixes(PathsOf(fields), p);
    }
    forall parts | Parts(parts) && Join(parts, '.') in fields
      ensures HasPath(root, parts)
    {
      PathOfParts(parts);
    }
  }
}
