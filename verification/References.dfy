/**
 Template references `[namespace/]name[:tag][@hash]` (crates/papermake-registry/src/reference.rs)
 and the storage key that publish and resolve build from them. Strings are sequences of
 characters; lower-casing is a parameter, of which only what `LowersCase` says is used.
 */
module References {
  import opened Prelude

  datatype Reference = Reference(namespace: Option<string>, name: string, tag: Option<string>, hash: Option<string>)

  datatype RefError = InvalidFormat | InvalidHash | InvalidTag | InvalidNamespace

  predicate UpperCase(c: char) {
    'A' <= c <= 'Z'
  }

  predicate NoUpper(s: string) {
    forall i :: 0 <= i < |s| ==> !UpperCase(s[i])
  }

  /** ASCII text without upper-case letters. */
  predicate Plain(s: string) {
    forall i :: 0 <= i < |s| ==> s[i] < 128 as char && !UpperCase(s[i])
  }

  /**
   What Unicode lower-casing does to ASCII: it leaves no upper-case ASCII letter, whatever else it
   turns into what, keeps ASCII text without them as it is, and never empties a text.
   */
  ghost predicate LowersCase(lower: string -> string) {
    (forall s :: NoUpper(lower(s))) && (forall s :: Plain(s) ==> lower(s) == s)
    && (forall s :: s != "" ==> lower(s) != "")
  }

  /** The last position of `c`. */
  function RFind(s: string, c: char): (r: Option<nat>)
    ensures r.Some? ==> r.value < |s| && s[r.value] == c && c !in s[r.value + 1..]
    ensures r == None ==> c !in s
  {
    if s == [] then None
    else if s[|s| - 1] == c then Some(|s| - 1)
    else
      assert s == s[..|s| - 1] + [s[|s| - 1]];
      RFind(s[..|s| - 1], c)
  }

  lemma {:induction false} RFindSplit(a: string, c: char, b: string)
    requires c !in b
    ensures RFind(a + [c] + b, c) == Some(|a|)
    decreases |b|
  {
    var s := a + [c] + b;
    if b != [] {
      RFindSplit(a, c, b[..|b| - 1]);
      assert s[..|s| - 1] == a + [c] + b[..|b| - 1];
    }
  }

  // ----- validators -----

  predicate HexDigit(c: char) {
    '0' <= c <= '9' || 'a' <= c <= 'f' || 'A' <= c <= 'F'
  }

  predicate SegmentChar(c: char) {
    'a' <= c <= 'z' || '0' <= c <= '9' || c == '.' || c == '-' || c == '_'
  }

  predicate Special(c: char) {
    c == '.' || c == '-' || c == '_'
  }

  predicate AllSegmentChars(s: string) {
    forall i :: 0 <= i < |s| ==> SegmentChar(s[i])
  }

  const HASH_PREFIX := "sha256:"

  predicate ValidHash(hash: string) {
    HASH_PREFIX <= hash && |hash| == |HASH_PREFIX| + 64
    && forall i :: |HASH_PREFIX| <= i < |hash| ==> HexDigit(hash[i])
  }

  /** The rules for namespaces and names. */
  predicate ValidSegment(s: string) {
    1 <= |s| <= 255 && AllSegmentChars(s) && !Special(s[0]) && !Special(s[|s| - 1])
  }

  predicate ValidTag(tag: string) {
    1 <= |tag| <= 128 && AllSegmentChars(tag)
  }

  function ValidateRefParts(name: string, tag: string): Result<(), RefError> {
    match RFind(name, '/')
    case Some(pos) =>
      if !ValidSegment(name[..pos]) then Err(InvalidNamespace)
      else if !ValidSegment(name[pos + 1..]) then Err(InvalidFormat)
      else if !ValidTag(tag) then Err(InvalidTag)
      else Ok(())
    case None =>
      if !ValidSegment(name) then Err(InvalidFormat) else if !ValidTag(tag) then Err(InvalidTag) else Ok(())
  }

  // ----- the rules, character by character -----

  const LETTERS_AND_DIGITS := "abcdefghijklmnopqrstuvwxyz0123456789"

  /** Names start and end with a lower-case letter or digit, and may have dots, dashes and underscores between. */
  lemma SegmentIff(s: string)
    ensures ValidSegment(s) <==>
      s != "" && |s| < 256 && s[0] in LETTERS_AND_DIGITS && s[|s| - 1] in LETTERS_AND_DIGITS
      && forall c :: c in s ==> c in LETTERS_AND_DIGITS + ".-_"
  {
    AllCharsIff(s);
    if s != "" {
      CharIff(s[0]);
      CharIff(s[|s| - 1]);
    }
    hide SegmentChar, Special, AllSegmentChars;
    assert s != "" ==> s[0] in s && s[|s| - 1] in s;
  }

  lemma CharIff(c: char)
    ensures SegmentChar(c) <==> c in LETTERS_AND_DIGITS + ".-_"
    ensures SegmentChar(c) && !Special(c) <==> c in LETTERS_AND_DIGITS
  {
    LetterIff(c);
    assert Special(c) <==> c in ".-_";
  }

  lemma LetterIff(c: char)
    ensures 'a' <= c <= 'z' || '0' <= c <= '9' <==> c in LETTERS_AND_DIGITS
  {
    var d := LETTERS_AND_DIGITS;
    assert |d| == 36;
    assert forall i :: 0 <= i < 26 ==> d[i] as int == 'a' as int + i;
    assert forall i :: 26 <= i < 36 ==> d[i] as int == '0' as int + i - 26;
    if 'a' <= c <= 'z' {
      assert d[c as int - 'a' as int] == c;
    }
    if '0' <= c <= '9' {
      assert d[26 + c as int - '0' as int] == c;
    }
  }

  lemma AllCharsIff(s: string)
    ensures AllSegmentChars(s) <==> forall c :: c in s ==> c in LETTERS_AND_DIGITS + ".-_"
  {
    forall c | c in s
      ensures SegmentChar(c) <==> c in LETTERS_AND_DIGITS + ".-_"
    {
      CharIff(c);
    }
    assert forall i :: 0 <= i < |s| ==> s[i] in s;
    hide SegmentChar;
  }

  /** Tags are made of the same characters, in any place. */
  lemma TagIff(s: string)
    ensures ValidTag(s) <==> s != "" && |s| <= 128 && forall c :: c in s ==> c in LETTERS_AND_DIGITS + ".-_"
  {
    AllCharsIff(s);
    hide AllSegmentChars;
  }

  /** Hashes are "sha256:" and 64 hexadecimal digits. */
  lemma HashIff(hash: string)
    ensures ValidHash(hash) <==>
      |hash| == 71 && hash[..7] == "sha256:" && forall c :: c in hash[7..] ==> c in "0123456789abcdefABCDEF"
  {
    forall c: char
      ensures HexDigit(c) <==> c in "0123456789abcdefABCDEF"
    {
      HexIff(c);
    }
    hide HexDigit;
    if |hash| == 71 {
      assert "sha256:" <= hash <==> hash[..7] == "sha256:";
      assert forall i :: 7 <= i < 71 ==> hash[i] in hash[7..];
      forall c | c in hash[7..]
        ensures exists i :: 7 <= i < 71 && hash[i] == c
      {
        var j :| 0 <= j < 64 && hash[7..][j] == c;
        assert hash[7 + j] == c;
      }
    }
  }

  lemma HexIff(c: char)
    ensures HexDigit(c) <==> c in "0123456789abcdefABCDEF"
  {
    var d := "0123456789abcdefABCDEF";
    assert forall i :: 0 <= i < 10 ==> d[i] as int == '0' as int + i;
    assert forall i :: 10 <= i < 16 ==> d[i] as int == 'a' as int + i - 10;
    assert forall i :: 16 <= i < 22 ==> d[i] as int == 'A' as int + i - 16;
    if '0' <= c <= '9' {
      assert d[c as int - '0' as int] == c;
    }
    if 'a' <= c <= 'f' {
      assert d[10 + c as int - 'a' as int] == c;
    }
    if 'A' <= c <= 'F' {
      assert d[16 + c as int - 'A' as int] == c;
    }
  }

  // ----- parsing -----

  function Parse(lower: string -> string, reference: string): Result<Reference, RefError> {
    if reference == "" then Err(InvalidFormat) else ParseLowered(lower(reference))
  }

  function ParseLowered(s: string): Result<Reference, RefError> {
    if "@" <= s then Err(InvalidFormat)
    else
      match RFind(s, '@')
      case Some(at) =>
        if s[at + 1..] == "" || !ValidHash(s[at + 1..]) then Err(InvalidHash) else ParseMain(s[..at], Some(s[at + 1..]))
      case None => ParseMain(s, None)
  }

  function ParseMain(main: string, hash: Option<string>): Result<Reference, RefError> {
    match RFind(main, ':')
    case Some(colon) =>
      if main[colon + 1..] == "" then Err(InvalidTag) else ParseTagged(main[..colon], main[colon + 1..], hash)
    case None => ParseTagged(main, "latest", hash)
  }

  function ParseTagged(path: string, tag: string, hash: Option<string>): Result<Reference, RefError> {
    if !ValidTag(tag) then Err(InvalidTag)
    else
      match RFind(path, '/')
      case Some(slash) =>
        if !ValidSegment(path[..slash]) then Err(InvalidNamespace)
        else if !ValidSegment(path[slash + 1..]) then Err(InvalidFormat)
        else Ok(Reference(Some(path[..slash]), path[slash + 1..], Some(tag), hash))
      case None =>
        if !ValidSegment(path) then Err(InvalidFormat) else Ok(Reference(None, path, Some(tag), hash))
  }

  function FullName(r: Reference): string {
    match r.namespace
    case Some(ns) => ns + "/" + r.name
    case None => r.name
  }

  function TagOrDefault(r: Reference): string {
    if r.tag.Some? then r.tag.value else "latest"
  }

  function AsString(r: Reference): string {
    FullName(r) + (if r.tag.Some? then ":" + r.tag.value else "") + (if r.hash.Some? then "@" + r.hash.value else "")
  }

  /** `s` is cut at its last `c`, or has none. */
  predicate CutAt(s: string, c: char, before: string, after: Option<string>) {
    match after
    case Some(b) => s == before + [c] + b && c !in b
    case None => s == before && c !in s
  }

  lemma CutFinds(s: string, c: char, before: string, after: Option<string>)
    requires CutAt(s, c, before, after)
    ensures after.Some? ==> RFind(s, c) == Some(|before|) && s[..|before|] == before && s[|before| + 1..] == after.value
    ensures after == None ==> RFind(s, c) == None
  {
    if after.Some? {
      RFindSplit(before, c, after.value);
    }
  }

  lemma PathByParts(path: string, tag: string, hash: Option<string>, start: string, rest: Option<string>)
    requires CutAt(path, '/', start, rest)
    ensures ParseTagged(path, tag, hash) ==
            if !ValidTag(tag) then Err(InvalidTag)
            else if rest.Some? && !ValidSegment(start) then Err(InvalidNamespace)
            else if !ValidSegment(if rest.Some? then rest.value else start) then Err(InvalidFormat)
            else Ok(Reference(if rest.Some? then Some(start) else None, if rest.Some? then rest.value else start,
                              Some(tag), hash))
  {
    hide ValidSegment, ValidTag;
    CutFinds(path, '/', start, rest);
    hide CutAt;
  }

  lemma MainByParts(main: string, hash: Option<string>, path: string, tag: Option<string>)
    requires CutAt(main, ':', path, tag)
    ensures ParseMain(main, hash) == ParseTagged(path, if tag.Some? then tag.value else "latest", hash)
  {
    hide ValidSegment;
    CutFinds(main, ':', path, tag);
    hide CutAt;
  }

  lemma HashByParts(s: string, main: string, hash: Option<string>)
    requires CutAt(s, '@', main, hash)
    ensures ParseLowered(s) ==
            if s != "" && s[0] == '@' then Err(InvalidFormat)
            else if hash.Some? && !ValidHash(hash.value) then Err(InvalidHash)
            else ParseMain(main, hash)
  {
    hide ParseMain;
    CutFinds(s, '@', main, hash);
    assert s != "" ==> ("@" <= s <==> s[0] == '@');
    hide CutAt;
  }

  /**
   A reference is cut at its last at-sign, then at its last colon, then at its last slash, and judged in
   this order: hash, tag, namespace, name. Without a tag it means "latest".
   */
  lemma ParseByParts(
    s: string, main: string, hash: Option<string>, path: string, tag: Option<string>, start: string,
    rest: Option<string>)
    requires CutAt(s, '@', main, hash) && CutAt(main, ':', path, tag) && CutAt(path, '/', start, rest)
    ensures ParseLowered(s) ==
            if s != "" && s[0] == '@' then Err(InvalidFormat)
            else if hash.Some? && !ValidHash(hash.value) then Err(InvalidHash)
            else if tag.Some? && !ValidTag(tag.value) then Err(InvalidTag)
            else if rest.Some? && !ValidSegment(start) then Err(InvalidNamespace)
            else if !ValidSegment(if rest.Some? then rest.value else start) then Err(InvalidFormat)
            else Ok(Reference(if rest.Some? then Some(start) else None, if rest.Some? then rest.value else start,
                              Some(if tag.Some? then tag.value else "latest"), hash))
  {
    hide ValidSegment, ValidTag, ValidHash, ParseLowered, ParseMain, ParseTagged, CutAt;
    HashByParts(s, main, hash);
    MainByParts(main, hash, path, tag);
    PathByParts(path, if tag.Some? then tag.value else "latest", hash, start, rest);
    LatestIsValid();
  }

  /** Parts to publish under are judged in the order namespace, name, tag. */
  lemma PartsByParts(name: string, tag: string, start: string, rest: Option<string>)
    requires CutAt(name, '/', start, rest)
    ensures ValidateRefParts(name, tag) ==
            if rest.Some? && !ValidSegment(start) then Err(InvalidNamespace)
            else if !ValidSegment(if rest.Some? then rest.value else start) then Err(InvalidFormat)
            else if !ValidTag(tag) then Err(InvalidTag)
            else Ok(())
  {
    CutFinds(name, '/', start, rest);
  }

  /** What the validators accept, with the hash in lower case. */
  predicate ValidReference(r: Reference) {
    (r.namespace.Some? ==> ValidSegment(r.namespace.value)) && ValidSegment(r.name)
    && (r.tag.Some? ==> ValidTag(r.tag.value))
    && (r.hash.Some? ==> ValidHash(r.hash.value) && NoUpper(r.hash.value))
  }

  // ----- round trips -----

  lemma SegmentCharsPlain(s: string)
    requires AllSegmentChars(s)
    ensures '@' !in s && ':' !in s && '/' !in s && Plain(s)
  {
  }

  lemma SegmentPlain(s: string)
    requires ValidSegment(s)
    ensures s != "" && '@' !in s && ':' !in s && '/' !in s && Plain(s)
  {
    SegmentCharsPlain(s);
  }

  /** The last slash is the one before a segment. */
  lemma SlashSplits(ns: string, name: string)
    requires '/' !in name
    ensures
      var path := ns + "/" + name;
      RFind(path, '/') == Some(|ns|) && path[..|ns|] == ns && path[|ns| + 1..] == name
  {
    RFindSplit(ns, '/', name);
    assert ns + ['/'] + name == ns + "/" + name;
  }

  lemma NoSlash(s: string)
    requires '/' !in s
    ensures RFind(s, '/') == None
  {
  }

  lemma FullNameParses(r: Reference, tag: string)
    requires ValidReference(r) && ValidTag(tag)
    ensures ParseTagged(FullName(r), tag, r.hash) == Ok(r.(tag := Some(tag)))
  {
    hide ValidSegment, ValidTag, ValidHash, NoUpper, Plain, RFind;
    SegmentPlain(r.name);
    match r.namespace
    case Some(ns) => SlashSplits(ns, r.name);
    case None => NoSlash(r.name);
  }

  /** What comes before the hash, and how it parses. */
  function Main(r: Reference): string {
    FullName(r) + (if r.tag.Some? then ":" + r.tag.value else "")
  }

  lemma FullNamePlain(r: Reference)
    requires ValidReference(r)
    ensures FullName(r) != "" && FullName(r)[0] != '@' && '@' !in FullName(r) && ':' !in FullName(r)
    ensures Plain(FullName(r))
  {
    SegmentCharsPlain(r.name);
    if r.namespace.Some? {
      SegmentCharsPlain(r.namespace.value);
    }
  }

  lemma TagSplits(name: string, tag: string, hash: Option<string>)
    requires tag != "" && ':' !in tag
    ensures ParseMain(name + ":" + tag, hash) == ParseTagged(name, tag, hash)
  {
    hide ParseTagged;
    RFindSplit(name, ':', tag);
    var s := name + ":" + tag;
    assert s == name + [':'] + tag && s[..|name|] == name && s[|name| + 1..] == tag;
  }

  lemma MainParses(r: Reference)
    requires ValidReference(r)
    ensures ParseMain(Main(r), r.hash) == Ok(r.(tag := Some(TagOrDefault(r))))
  {
    FullNamePlain(r);
    LatestIsValid();
    FullNameParses(r, TagOrDefault(r));
    hide ParseTagged, FullName, ValidSegment;
    if r.tag.Some? {
      SegmentCharsPlain(r.tag.value);
      TagSplits(FullName(r), r.tag.value, r.hash);
      assert Main(r) == FullName(r) + ":" + r.tag.value;
    } else {
      assert Main(r) == FullName(r);
    }
  }

  lemma LatestIsValid()
    ensures ValidTag("latest")
  {
  }

  lemma MainPlain(r: Reference)
    requires ValidReference(r)
    ensures PlainMain(Main(r)) && Plain(Main(r))
  {
    FullNamePlain(r);
    if r.tag.Some? {
      SegmentCharsPlain(r.tag.value);
    }
    hide FullName, ValidReference;
  }

  /** Text before a hash. */
  predicate PlainMain(main: string) {
    main != "" && main[0] != '@' && '@' !in main
  }

  lemma HashSplits(main: string, hash: string)
    requires PlainMain(main) && ValidHash(hash)
    ensures ParseLowered(main + "@" + hash) == ParseMain(main, Some(hash))
  {
    HashPlain(hash);
    hide ParseMain, ValidHash;
    var s := main + "@" + hash;
    RFindSplit(main, '@', hash);
    assert s[0] == main[0];
    assert s == main + ['@'] + hash && s[..|main|] == main && s[|main| + 1..] == hash;
  }

  lemma NoHashSplits(main: string)
    requires PlainMain(main)
    ensures ParseLowered(main) == ParseMain(main, None)
  {
    hide ParseMain;
  }

  lemma PrintedParses(r: Reference)
    requires ValidReference(r)
    ensures ParseLowered(AsString(r)) == Ok(r.(tag := Some(TagOrDefault(r))))
    ensures Plain(AsString(r)) && AsString(r) != ""
  {
    hide ParseMain, ValidSegment, ValidTag, ValidHash, FullName, ParseLowered, Plain;
    MainParses(r);
    MainPlain(r);
    if r.hash.Some? {
      HashSplits(Main(r), r.hash.value);
      HashPlain(r.hash.value);
      PlainAppend(Main(r), r.hash.value);
      assert AsString(r) == Main(r) + "@" + r.hash.value;
    } else {
      NoHashSplits(Main(r));
      assert AsString(r) == Main(r);
    }
  }

  lemma PlainAppend(a: string, b: string)
    requires Plain(a) && Plain(b)
    ensures Plain(a + "@" + b)
  {
  }

  /** Parsing a printed valid reference gives it back, with the default tag made explicit. */
  lemma ParsePrinted(lower: string -> string, r: Reference)
    requires LowersCase(lower) && ValidReference(r)
    ensures Parse(lower, AsString(r)) == Ok(r.(tag := Some(TagOrDefault(r))))
  {
    PrintedParses(r);
    hide AsString, ValidReference, ParseLowered, Plain;
    assert lower(AsString(r)) == AsString(r);
  }

  lemma HashPlain(hash: string)
    requires ValidHash(hash)
    ensures hash != "" && '@' !in hash && (NoUpper(hash) ==> Plain(hash))
  {
    assert hash[..|HASH_PREFIX|] == HASH_PREFIX;
    forall i | 0 <= i < |hash|
      ensures hash[i] != '@' && hash[i] < 128 as char
    {
      if i < |HASH_PREFIX| {
        assert hash[i] == HASH_PREFIX[i];
      }
    }
  }

  /** Lower-cased text with ":latest" put where the tag is missing. */
  function Normalized(s: string): string {
    match RFind(s, '@')
    case Some(at) => if ':' in s[..at] then s else s[..at] + ":latest" + s[at..]
    case None => if ':' in s then s else s + ":latest"
  }

  lemma PrintTagged(path: string, tag: string, hash: Option<string>)
    requires ParseTagged(path, tag, hash).Ok?
    ensures
      var r := ParseTagged(path, tag, hash).value;
      FullName(r) == path && r.tag == Some(tag) && r.hash == hash
      && ValidSegment(r.name) && (r.namespace.Some? ==> ValidSegment(r.namespace.value)) && ValidTag(tag)
  {
    if RFind(path, '/').Some? {
      var slash := RFind(path, '/').value;
      assert path == path[..slash] + ['/'] + path[slash + 1..];
    }
  }

  lemma PrintMain(main: string, hash: Option<string>)
    requires ParseMain(main, hash).Ok?
    ensures
      var r := ParseMain(main, hash).value;
      Main(r) == (if ':' in main then main else main + ":latest") && r.hash == hash
      && ValidSegment(r.name) && (r.namespace.Some? ==> ValidSegment(r.namespace.value)) && r.tag.Some?
      && ValidTag(r.tag.value)
  {
    hide ParseTagged, FullName, ValidSegment, ValidTag;
    if RFind(main, ':').Some? {
      var colon := RFind(main, ':').value;
      PrintTagged(main[..colon], main[colon + 1..], hash);
      assert main == main[..colon] + ":" + main[colon + 1..];
    } else {
      PrintTagged(main, "latest", hash);
    }
  }

  /** A parsed reference is valid and prints as its normalized source. */
  lemma PrintParsed(lower: string -> string, reference: string)
    requires LowersCase(lower) && Parse(lower, reference).Ok?
    ensures
      var r := Parse(lower, reference).value;
      ValidReference(r) && r.tag.Some? && AsString(r) == Normalized(lower(reference))
  {
    hide ParseMain, FullName, ValidSegment, ValidTag, ValidHash;
    var s := lower(reference);
    assert NoUpper(s);
    if RFind(s, '@').Some? {
      var at := RFind(s, '@').value;
      PrintMain(s[..at], Some(s[at + 1..]));
      assert s[at..] == "@" + s[at + 1..] && s == s[..at] + s[at..];
      var r := Parse(lower, reference).value;
      assert AsString(r) == Main(r) + s[at..];
    } else {
      PrintMain(s, None);
      var r := Parse(lower, reference).value;
      assert AsString(r) == Main(r);
    }
  }

  /**
   A name and tag are accepted for publishing exactly when `name:tag` is a reference that resolves
   to that very name and tag: nothing can be published that cannot be found.
   */
  lemma PublishableIffResolvable(lower: string -> string, name: string, tag: string)
    requires LowersCase(lower)
    ensures
      ValidateRefParts(name, tag).Ok? <==>
      (Parse(lower, name + ":" + tag).Ok? &&
       var r := Parse(lower, name + ":" + tag).value;
       FullName(r) == name && TagOrDefault(r) == tag && r.hash == None)
  {
    hide ValidSegment, ValidTag, ValidHash, NoUpper, Parse, LowersCase;
    if ValidateRefParts(name, tag).Ok? {
      var r := if RFind(name, '/').Some? then
                 Reference(Some(name[..RFind(name, '/').value]), name[RFind(name, '/').value + 1..], Some(tag), None)
               else Reference(None, name, Some(tag), None);
      if RFind(name, '/').Some? {
        var pos := RFind(name, '/').value;
        assert name == name[..pos] + "/" + name[pos + 1..];
      }
      assert AsString(r) == name + ":" + tag;
      ParsePrinted(lower, r);
    }
    if Parse(lower, name + ":" + tag).Ok? {
      var r := Parse(lower, name + ":" + tag).value;
      PrintParsed(lower, name + ":" + tag);
      if FullName(r) == name && TagOrDefault(r) == tag {
        ParsedPartsValid(r);
      }
    }
  }

  /** The parts of a parsed reference are publishable. */
  lemma ParsedPartsValid(r: Reference)
    requires ValidReference(r) && r.tag.Some?
    ensures ValidateRefParts(FullName(r), TagOrDefault(r)) == Ok(())
  {
    hide ValidSegment, ValidTag, ValidHash, NoUpper, Plain, RFind;
    SegmentPlain(r.name);
    match r.namespace
    case Some(ns) => SlashSplits(ns, r.name);
    case None => NoSlash(r.name);
  }

  // ----- the ref key -----

  function RefKey(name: string, tag: string): string {
    "refs/" + name + "/" + tag
  }

  /** Different published versions have different keys, and the key determines the version. */
  lemma RefKeyInjective(name: string, tag: string, name': string, tag': string)
    requires ValidTag(tag) && ValidTag(tag') && RefKey(name, tag) == RefKey(name', tag')
    ensures name == name' && tag == tag'
  {
    SegmentCharsPlain(tag);
    SegmentCharsPlain(tag');
    var a, b := "refs/" + name, "refs/" + name';
    assert RefKey(name, tag) == a + ['/'] + tag && RefKey(name', tag') == b + ['/'] + tag';
    RFindSplit(a, '/', tag);
    RFindSplit(b, '/', tag');
    assert |a| == |b|;
    var s := RefKey(name, tag);
    assert s[5..|a|] == name && s[5..|b|] == name';
    assert s[|a| + 1..] == tag && s[|b| + 1..] == tag';
  }
}
