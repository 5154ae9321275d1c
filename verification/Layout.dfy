/**
 Storage keys and their parsers (crates/papermake-registry/src/render_storage/layout.rs): pending
 markers, and the date partitions of the raw and expiry objects.
 */
module Layout {
  import opened Prelude
  import opened References

  // ----- decimal numbers -----

  function DigitOf(d: nat): char
    requires d < 10
  {
    '0' + d as char
  }

  predicate IsDigit(c: char) {
    '0' <= c <= '9'
  }

  function ValueOf(c: char): nat
    requires IsDigit(c)
  {
    (c - '0') as nat
  }

  function Decimal(n: nat): (s: string)
    ensures s != "" && forall i :: 0 <= i < |s| ==> IsDigit(s[i])
  {
    if n < 10 then [DigitOf(n)] else Decimal(n / 10) + [DigitOf(n % 10)]
  }

  /** Fill up with zeros on the left. */
  function Padded(s: string, width: nat): (r: string)
    ensures |r| >= |s|
    decreases width - |s|
  {
    if |s| >= width then s else Padded("0" + s, width)
  }

  /** The value of a string of digits. */
  function Digits(s: string): Option<nat> {
    if s == "" then None
    else if !IsDigit(s[|s| - 1]) then None
    else if |s| == 1 then Some(ValueOf(s[0]))
    else
      match Digits(s[..|s| - 1])
      case Some(n) => Some(10 * n + ValueOf(s[|s| - 1]))
      case None => None
  }

  /** `str::parse` for an unsigned type: an optional plus sign, digits, and no more than `max`. */
  function ParseNat(s: string, max: nat): Option<nat> {
    var digits := if s != "" && s[0] == '+' then s[1..] else s;
    match Digits(digits)
    case Some(n) => if n <= max then Some(n) else None
    case None => None
  }

  lemma {:induction false} DigitsOfDecimal(n: nat)
    ensures Digits(Decimal(n)) == Some(n)
  {
    if n >= 10 {
      DigitsOfDecimal(n / 10);
      var s := Decimal(n);
      assert s[..|s| - 1] == Decimal(n / 10);
    }
  }

  lemma {:induction false} LeadingZero(s: string)
    requires Digits(s).Some?
    ensures Digits("0" + s) == Digits(s)
  {
    var t := "0" + s;
    if |s| == 1 {
      assert t[..1] == "0" && t[1] == s[0];
    } else {
      LeadingZero(s[..|s| - 1]);
      assert t[..|t| - 1] == "0" + s[..|s| - 1];
    }
  }

  lemma {:induction false} PaddedKeepsValue(s: string, width: nat)
    requires Digits(s).Some? && forall i :: 0 <= i < |s| ==> IsDigit(s[i])
    ensures Digits(Padded(s, width)) == Digits(s)
    ensures forall i :: 0 <= i < |Padded(s, width)| ==> IsDigit(Padded(s, width)[i])
    decreases width - |s|
  {
    if |s| < width {
      LeadingZero(s);
      PaddedKeepsValue("0" + s, width);
    }
  }

  lemma PrintedParses(n: nat, width: nat, max: nat)
    requires n <= max
    ensures ParseNat(Padded(Decimal(n), width), max) == Some(n)
    ensures forall i :: 0 <= i < |Padded(Decimal(n), width)| ==> IsDigit(Padded(Decimal(n), width)[i])
    ensures Padded(Decimal(n), width) != ""
  {
    DigitsOfDecimal(n);
    PaddedKeepsValue(Decimal(n), width);
    assert IsDigit(Padded(Decimal(n), width)[0]);
  }

  // ----- finding characters and words -----

  /** What comes before the first `c`, and what comes after it. */
  function SplitOnce(s: string, c: char): (r: Option<(string, string)>)
    ensures r.Some? ==> s == r.value.0 + [c] + r.value.1 && c !in r.value.0
    ensures r == None ==> c !in s
  {
    if s == "" then None
    else if s[0] == c then Some(("", s[1..]))
    else
      match SplitOnce(s[1..], c)
      case Some((a, b)) => Some(([s[0]] + a, b))
      case None => None
  }

  lemma {:induction false} SplitOnceAt(a: string, c: char, b: string)
    requires c !in a
    ensures SplitOnce(a + [c] + b, c) == Some((a, b))
  {
    var s := a + [c] + b;
    if a == "" {
      assert s == [c] + b;
    } else {
      SplitOnceAt(a[1..], c, b);
      assert s[1..] == a[1..] + [c] + b;
      assert [a[0]] + a[1..] == a;
    }
  }

  // ----- pending markers -----

  const PENDING_PREFIX := "jobs/pending/"

  function PendingKey(job: string, index: nat): string {
    PENDING_PREFIX + job + "/" + Decimal(index)
  }

  function ParsePendingKey(key: string): Option<(string, nat)> {
    if !(PENDING_PREFIX <= key) then None
    else
      match SplitOnce(key[|PENDING_PREFIX|..], '/')
      case None => None
      case Some((job, index)) =>
        match ParseNat(index, USIZE_MAX)
        case Some(n) => Some((job, n))
        case None => None
  }

  /** A marker's key gives back its shard: a job id has no slash, an index fits its type. */
  lemma PendingKeyParses(job: string, index: nat)
    requires '/' !in job && index <= USIZE_MAX
    ensures ParsePendingKey(PendingKey(job, index)) == Some((job, index))
  {
    var key := PendingKey(job, index);
    PrintedParses(index, 0, USIZE_MAX);
    assert key == PENDING_PREFIX + (job + ['/'] + Decimal(index));
    assert key[|PENDING_PREFIX|..] == job + ['/'] + Decimal(index);
    SplitOnceAt(job, '/', Decimal(index));
  }

  /** A plus sign before the index is accepted too, and no other sign. */
  lemma SignedKeyParses(job: string, index: nat)
    requires '/' !in job && index <= USIZE_MAX
    ensures ParsePendingKey(PENDING_PREFIX + job + "/" + ("+" + Decimal(index))) == Some((job, index))
    ensures ParsePendingKey(PENDING_PREFIX + job + "/" + ("-" + Decimal(index))) == None
  {
    hide Decimal, Digits, ParsePendingKey;
    SignedNumber(index);
    KeySplits(job, "+" + Decimal(index));
    KeySplits(job, "-" + Decimal(index));
  }

  lemma SignedNumber(n: nat)
    requires n <= USIZE_MAX
    ensures ParseNat("+" + Decimal(n), USIZE_MAX) == Some(n) && ParseNat("-" + Decimal(n), USIZE_MAX) == None
  {
    hide Decimal, Digits;
    DigitsOfDecimal(n);
    var plus, minus := "+" + Decimal(n), "-" + Decimal(n);
    assert plus[1..] == Decimal(n) && minus[0] == '-';
    NotDigits(minus);
  }

  lemma KeySplits(job: string, text: string)
    requires '/' !in job
    ensures
      ParsePendingKey(PENDING_PREFIX + job + "/" + text) ==
      match ParseNat(text, USIZE_MAX) case Some(n) => Some((job, n)) case None => None
    ensures PENDING_PREFIX + job + "/" + text == PENDING_PREFIX + (job + ['/'] + text)
  {
    SplitOnceAt(job, '/', text);
    var key := PENDING_PREFIX + (job + ['/'] + text);
    assert key[|PENDING_PREFIX|..] == job + ['/'] + text;
    assert PENDING_PREFIX + job + "/" + text == key;
  }

  lemma {:induction false} NotDigits(s: string)
    requires s != "" && !IsDigit(s[0])
    ensures Digits(s) == None
  {
    if |s| > 1 {
      NotDigits(s[..|s| - 1]);
    }
  }

  /** Shards have markers of their own. */
  lemma PendingKeysDiffer(a: string, i: nat, b: string, j: nat)
    requires '/' !in a && '/' !in b && i <= USIZE_MAX && j <= USIZE_MAX && PendingKey(a, i) == PendingKey(b, j)
    ensures a == b && i == j
  {
    PendingKeyParses(a, i);
    PendingKeyParses(b, j);
  }

  /** Markers lie outside every job's own key prefix. */
  lemma MarkersOutsideJobs(a: string, i: nat, job: string)
    requires '/' !in job && job != "pending"
    ensures !("jobs/" + job + "/" <= PendingKey(a, i))
  {
    var prefix, key := "jobs/" + job + "/", PendingKey(a, i);
    if prefix <= key {
      assert key[5..] == "pending/" + (a + "/" + Decimal(i));
      assert prefix == key[..|prefix|];
      assert key[5..] == job + ['/'] + key[|prefix|..];
      SplitOnceAt(job, '/', key[|prefix|..]);
      assert key[5..] == "pending" + ['/'] + (a + "/" + Decimal(i));
      SplitOnceAt("pending", '/', a + "/" + Decimal(i));
    }
  }

  // ----- date partitions -----

  datatype Date = Date(year: int, month: nat, day: nat)

  predicate Leap(year: int) {
    year % 4 == 0 && (year % 100 != 0 || year % 400 == 0)
  }

  /** How many of the years before this one, from year zero, are leap years. */
  function LeapsBefore(year: nat): nat {
    if year == 0 then 0 else LeapsBefore(year - 1) + if Leap(year - 1) then 1 else 0
  }

  /** One in four, but for the centuries, but for every fourth of these. */
  lemma {:induction false} LeapsCounted(year: nat)
    ensures LeapsBefore(year) == (year + 3) / 4 - (year + 99) / 100 + (year + 399) / 400
  {
    hide Leap;
    if year > 0 {
      LeapsCounted(year - 1);
      Ceilings(year - 1);
      LeapIf(year - 1);
    }
  }

  /** How many multiples of 4, 100 and 400 there are below a year. */
  lemma Ceilings(y: nat)
    ensures (y + 4) / 4 == (y + 3) / 4 + if y % 4 == 0 then 1 else 0
    ensures (y + 100) / 100 == (y + 99) / 100 + if y % 100 == 0 then 1 else 0
    ensures (y + 400) / 400 == (y + 399) / 400 + if y % 400 == 0 then 1 else 0
  {
    Fours(y);
    Hundreds(y);
    FourHundreds(y);
  }

  lemma Fours(y: nat)
    ensures (y + 4) / 4 == (y + 3) / 4 + if y % 4 == 0 then 1 else 0
  {
  }

  lemma Hundreds(y: nat)
    ensures (y + 100) / 100 == (y + 99) / 100 + if y % 100 == 0 then 1 else 0
  {
  }

  lemma FourHundreds(y: nat)
    ensures (y + 400) / 400 == (y + 399) / 400 + if y % 400 == 0 then 1 else 0
  {
  }

  lemma LeapIf(y: nat)
    ensures (if Leap(y) then 1 else 0) ==
            (if y % 4 == 0 then 1 else 0) - (if y % 100 == 0 then 1 else 0) + if y % 400 == 0 then 1 else 0
  {
    if y % 100 == 0 {
      FourTimes(25 * (y / 100));
      assert y == 4 * (25 * (y / 100));
    }
    if y % 400 == 0 {
      HundredTimes(4 * (y / 400));
      assert y == 100 * (4 * (y / 400));
    }
  }

  lemma FourTimes(k: nat)
    ensures (4 * k) % 4 == 0
  {
  }

  lemma HundredTimes(k: nat)
    ensures (100 * k) % 100 == 0
  {
  }

  function DaysBefore(year: int, month: nat): nat {
    if month <= 1 then 0 else DaysBefore(year, month - 1) + DaysIn(year, month - 1)
  }

  /** The months make a year of 365 days, or 366 in a leap year. */
  lemma MonthsMakeYear(year: int)
    ensures DaysBefore(year, 13) == if Leap(year) then 366 else 365
    ensures DaysBefore(year, 3) == if Leap(year) then 60 else 59
  {
    assert DaysBefore(year, 2) == 31;
    assert DaysBefore(year, 5) == DaysBefore(year, 3) + 61;
    assert DaysBefore(year, 7) == DaysBefore(year, 5) + 61;
    assert DaysBefore(year, 9) == DaysBefore(year, 7) + 62;
    assert DaysBefore(year, 11) == DaysBefore(year, 9) + 61;
  }

  function DaysIn(year: int, month: nat): nat {
    if month == 2 then if Leap(year) then 29 else 28
    else if month == 4 || month == 6 || month == 9 || month == 11 then 30
    else 31
  }

  predicate ValidDate(d: Date) {
    -9999 <= d.year <= 9999 && 1 <= d.month <= 12 && 1 <= d.day <= DaysIn(d.year, d.month)
  }

  /** `{:04}`, where a minus sign counts towards the width. */
  function YearText(year: int): string {
    if year < 0 then "-" + Padded(Decimal(-year), 3) else Padded(Decimal(year), 4)
  }

  function DateText(d: Date): string {
    YearText(d.year) + "-" + Padded(Decimal(d.month), 2) + "-" + Padded(Decimal(d.day), 2)
  }

  const RAW_PREFIX := "analytics/raw/"
  const EXPIRY_PREFIX := "expiry/"

  function PartitionKey(prefix: string, d: Date, rest: string): string {
    prefix + "dt=" + DateText(d) + "/" + rest
  }

  /** The text after the first "dt=". */
  function AfterDt(s: string): Option<string> {
    if |s| < 3 then None else if s[0] == 'd' && s[1] == 't' && s[2] == '=' then Some(s[3..]) else AfterDt(s[1..])
  }

  /** The text before the first `c`: everything if there is none. */
  function Before(s: string, c: char): string {
    match SplitOnce(s, c)
    case Some((a, _)) => a
    case None => s
  }

  /** `i32::parse` of a text without a dash; the year's range is checked with the date. */
  function ParseYear(s: string): Option<int> {
    var n := ParseNat(s, 0x7FFF_FFFF);
    if n.Some? then Some(n.value) else None
  }

  function ParseDt(key: string): Option<Date> {
    match AfterDt(key)
    case None => None
    case Some(rest) => ParseDateText(Before(rest, '/'))
  }

  /** The first three parts between dashes, read as numbers that make a date. */
  function ParseDateText(s: string): Option<Date> {
    match SplitOnce(s, '-')
    case None => None
    case Some((y, tail)) =>
      match SplitOnce(tail, '-')
      case None => None
      case Some((m, last)) => DateFrom(ParseYear(y), ParseNat(m, 255), ParseNat(Before(last, '-'), 255))
  }

  function DateFrom(y: Option<int>, m: Option<nat>, d: Option<nat>): Option<Date> {
    if y.Some? && m.Some? && d.Some? && ValidDate(Date(y.value, m.value, d.value))
    then Some(Date(y.value, m.value, d.value)) else None
  }

  lemma {:induction false} DtFoundFirst(prefix: string, rest: string)
    requires '=' !in prefix
    ensures AfterDt(prefix + "dt=" + rest) == Some(rest)
  {
    var s := prefix + "dt=" + rest;
    if prefix == "" {
      assert s == "dt=" + rest && s[3..] == rest;
    } else {
      DtFoundFirst(prefix[1..], rest);
      assert s[1..] == prefix[1..] + "dt=" + rest;
      assert s[2] != '=' by {
        if |prefix| == 1 {
          assert s[2] == 't';
        } else if |prefix| == 2 {
          assert s[2] == 'd';
        } else {
          assert s[2] == prefix[2];
        }
      }
    }
  }

  lemma DigitsHaveNoDash(s: string)
    requires forall i :: 0 <= i < |s| ==> IsDigit(s[i])
    ensures '-' !in s && '/' !in s
  {
  }

  /** Three numbers between dashes are read as the date they make. */
  lemma PartsParse(y: string, m: string, day: string, d: Date)
    requires '-' !in y && '-' !in m && '-' !in day
    requires ParseYear(y) == Some(d.year) && ParseNat(m, 255) == Some(d.month) && ParseNat(day, 255) == Some(d.day)
    requires ValidDate(d)
    ensures ParseDateText(y + "-" + m + "-" + day) == Some(d)
  {
    hide ParseNat, ParseYear, ValidDate, SplitOnce;
    var tail := m + ['-'] + day;
    SplitOnceAt(m, '-', day);
    SplitOnceAt(y, '-', tail);
    assert y + "-" + m + "-" + day == y + ['-'] + tail;
    NoSeparator(day, '-');
  }

  lemma NoSeparator(s: string, c: char)
    requires c !in s
    ensures Before(s, c) == s
  {
  }

  lemma DateTextParses(d: Date)
    requires ValidDate(d)
    ensures ParseDateText(DateText(d)) == if d.year >= 0 then Some(d) else None
    ensures '/' !in DateText(d)
  {
    hide Padded, Decimal, ParseNat, Digits, SplitOnce, Before, ValidDate;
    var m, day := Padded(Decimal(d.month), 2), Padded(Decimal(d.day), 2);
    DateBounds(d);
    PrintedParses(d.month, 2, 255);
    PrintedParses(d.day, 2, 255);
    DigitsHaveNoDash(m);
    DigitsHaveNoDash(day);
    if d.year >= 0 {
      var y := Padded(Decimal(d.year), 4);
      PrintedParses(d.year, 4, 0x7FFF_FFFF);
      DigitsHaveNoDash(y);
      assert IsDigit(y[0]);
      PartsParse(y, m, day, d);
    } else {
      var y := Padded(Decimal(-d.year), 3);
      PrintedParses(-d.year, 3, 0x7FFF_FFFF);
      DigitsHaveNoDash(y);
      MinusFirst(y + "-" + m + "-" + day);
      assert DateText(d) == "-" + (y + "-" + m + "-" + day);
    }
  }

  lemma DateBounds(d: Date)
    requires ValidDate(d)
    ensures d.month <= 255 && d.day <= 255 && d.year <= 0x7FFF_FFFF && -d.year <= 0x7FFF_FFFF
  {
  }

  /** A text that begins with a dash has an empty year. */
  lemma MinusFirst(s: string)
    ensures ParseDateText("-" + s) == None
  {
    assert "-" + s == "" + ['-'] + s;
    SplitOnceAt("", '-', s);
  }

  /**
   The partition date of a raw or expiry key is read back exactly for dates that do not lie before
   year zero; the text of an earlier date, which begins with a minus sign, is not read at all.
   */
  lemma PartitionDateParses(prefix: string, d: Date, rest: string)
    requires ValidDate(d) && (prefix == RAW_PREFIX || prefix == EXPIRY_PREFIX)
    ensures ParseDt(PartitionKey(prefix, d, rest)) == Some(d) <==> d.year >= 0
    ensures d.year < 0 ==> ParseDt(PartitionKey(prefix, d, rest)) == None
  {
    DateTextParses(d);
    var after := DateText(d) + "/" + rest;
    assert PartitionKey(prefix, d, rest) == prefix + "dt=" + after;
    DtFoundFirst(prefix, after);
    assert after == DateText(d) + ['/'] + rest;
    SplitOnceAt(DateText(d), '/', rest);
  }
}
