/** Lexicographic order, blank strings, and cutting strings at a separator. */
module Strings {
  import opened Prelude
  import opened References
  import opened Sorting

  /** Byte-wise lexicographic order. */
  predicate LexLe(a: string, b: string) {
    a == "" || (b != "" && (a[0] < b[0] || (a[0] == b[0] && LexLe(a[1..], b[1..]))))
  }

  lemma {:induction false} LexTotal(a: string, b: string)
    ensures LexLe(a, b) || LexLe(b, a)
    ensures LexLe(a, b) && LexLe(b, a) ==> a == b
    ensures a == b ==> LexLe(a, b)
  {
    if a != "" && b != "" {
      LexTotal(a[1..], b[1..]);
      assert a == [a[0]] + a[1..] && b == [b[0]] + b[1..];
    }
  }

  lemma {:induction false} LexTransitive(a: string, b: string, c: string)
    requires LexLe(a, b) && LexLe(b, c)
    ensures LexLe(a, c)
  {
    if a != "" && a[0] == b[0] && b[0] == c[0] {
      LexTransitive(a[1..], b[1..], c[1..]);
    }
  }

  predicate LexLess(a: string, b: string) {
    LexLe(a, b) && a != b
  }

  lemma LexIsStrict()
    ensures StrictOrder(LexLess)
    ensures forall a, b :: a != b ==> LexLess(a, b) || LexLess(b, a)
  {
    forall a, b, c | LexLess(a, b) && LexLess(b, c)
      ensures LexLess(a, c)
    {
      LexTransitive(a, b, c);
      LexTotal(a, b);
      LexTotal(b, c);
    }
    forall a, b | a != b
      ensures LexLess(a, b) || LexLess(b, a)
    {
      LexTotal(a, b);
    }
  }

  /** The strings agree before position `k`, and there `a` has the smaller character. */
  predicate DiffersAt(a: string, b: string, k: nat) {
    k < |a| && k < |b| && a[..k] == b[..k] && a[k] < b[k]
  }

  /** The first difference decides, and a proper beginning comes first. */
  lemma {:induction false} LexLessIff(a: string, b: string)
    ensures LexLess(a, b) <==> (a <= b && a != b) || exists k: nat :: DiffersAt(a, b, k)
  {
    if a != "" && b != "" {
      if a[0] == b[0] {
        LexLessIff(a[1..], b[1..]);
        assert a == [a[0]] + a[1..] && b == [b[0]] + b[1..];
        TailsDiffer(a, b);
      } else {
        HeadsDiffer(a, b);
      }
    }
  }

  lemma HeadsDiffer(a: string, b: string)
    requires a != "" && b != "" && a[0] != b[0]
    ensures (exists k: nat :: DiffersAt(a, b, k)) <==> a[0] < b[0]
    ensures !(a <= b)
  {
    forall k: nat | DiffersAt(a, b, k)
      ensures k == 0
    {
      SameHead(a, b, k);
    }
    if a[0] < b[0] {
      assert DiffersAt(a, b, 0);
    }
  }

  lemma SameHead(a: string, b: string, k: nat)
    requires DiffersAt(a, b, k)
    ensures k > 0 ==> a[0] == b[0]
  {
    if k > 0 {
      assert a[..k][0] == b[..k][0];
    }
  }

  lemma TailsDiffer(a: string, b: string)
    requires a != "" && b != "" && a[0] == b[0]
    ensures (exists k: nat :: DiffersAt(a, b, k)) <==> exists k: nat :: DiffersAt(a[1..], b[1..], k)
    ensures a <= b <==> a[1..] <= b[1..]
  {
    if k: nat :| DiffersAt(a, b, k) {
      assert a[1..][..k - 1] == a[..k][1..] && b[1..][..k - 1] == b[..k][1..];
      assert DiffersAt(a[1..], b[1..], k - 1);
    }
    if k: nat :| DiffersAt(a[1..], b[1..], k) {
      assert a[..k + 1] == [a[0]] + a[1..][..k] && b[..k + 1] == [b[0]] + b[1..][..k];
      assert DiffersAt(a, b, k + 1);
    }
    assert a == [a[0]] + a[1..] && b == [b[0]] + b[1..];
  }

  predicate WhiteSpace(c: char) {
    '\t' <= c <= '\r' || c == ' ' || c == '\U{0085}' || c == '\U{00A0}' || c == '\U{1680}'
    || '\U{2000}' <= c <= '\U{200A}' || c == '\U{2028}' || c == '\U{2029}' || c == '\U{202F}'
    || c == '\U{205F}' || c == '\U{3000}'
  }

  /** The code points of white space. */
  const SPACES := {0x9, 0xA, 0xB, 0xC, 0xD, 0x20, 0x85, 0xA0, 0x1680, 0x2000, 0x2001, 0x2002, 0x2003, 0x2004, 0x2005,
                   0x2006, 0x2007, 0x2008, 0x2009, 0x200A, 0x2028, 0x2029, 0x202F, 0x205F, 0x3000}

  lemma WhiteSpaceIff(c: char)
    ensures WhiteSpace(c) <==> c as int in SPACES
  {
    assert '\t' as int == 9 && '\r' as int == 13;
  }

  /** Nothing is left after trimming. */
  predicate Blank(s: string) {
    forall i :: 0 <= i < |s| ==> WhiteSpace(s[i])
  }

  // ----- paths -----

  /** The parts between separators. */
  function Split(s: string, c: char): (parts: seq<string>)
    ensures |parts| >= 1
    decreases |s|
  {
    match RFind(s, c)
    case Some(i) => Split(s[..i], c) + [s[i + 1..]]
    case None => [s]
  }

  function Join(parts: seq<string>, c: char): string
    requires |parts| >= 1
  {
    if |parts| == 1 then parts[0] else Join(parts[..|parts| - 1], c) + [c] + parts[|parts| - 1]
  }

  lemma {:induction false} JoinSplit(s: string, c: char)
    ensures Join(Split(s, c), c) == s
    decreases |s|
  {
    if RFind(s, c).Some? {
      var i := RFind(s, c).value;
      JoinSplit(s[..i], c);
      var parts := Split(s, c);
      assert parts[..|parts| - 1] == Split(s[..i], c);
      assert s == s[..i] + [c] + s[i + 1..];
    }
  }
}
