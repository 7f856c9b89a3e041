/** `FixDateFormat`: the UTC timestamp of FIX messages. */
module FixDate {
  import opened Text
  import opened Fields

  /** The UTC components of a JavaScript `Date`; months count from 0. */
  datatype UtcTime = UtcTime(year: int, month: nat, day: nat, hours: nat, minutes: nat, seconds: nat, millis: nat)

  predicate InRange(t: UtcTime) {
    && t.month < 12 && 1 <= t.day <= 31 && t.hours < 24 && t.minutes < 60 && t.seconds < 60 && t.millis < 1000
  }

  /** `${year}${month}${day}-${hours}:${minutes}:${seconds}.${milliseconds}` */
  function FormatDateTime(t: UtcTime): string {
    PrintInt(t.year) + DatePart(t)
  }

  function DatePart(t: UtcTime): string {
    Padded(t.month + 1, 2) + DayPart(t)
  }

  function DayPart(t: UtcTime): string {
    Padded(t.day, 2) + ("-" + TimePart(t))
  }

  function TimePart(t: UtcTime): string {
    Padded(t.hours, 2)
    + (":" + (Padded(t.minutes, 2) + (":" + (Padded(t.seconds, 2) + ("." + Padded(t.millis, 3))))))
  }

  /** Chronological order of the components. */
  predicate Before(t: UtcTime, u: UtcTime) {
    t.year < u.year || (t.year == u.year && BeforeInYear(t, u))
  }

  predicate BeforeInYear(t: UtcTime, u: UtcTime) {
    t.month < u.month || (t.month == u.month && BeforeInMonth(t, u))
  }

  predicate BeforeInMonth(t: UtcTime, u: UtcTime) {
    t.day < u.day || (t.day == u.day && BeforeInDay(t, u))
  }

  predicate BeforeInDay(t: UtcTime, u: UtcTime) {
    t.hours < u.hours
    || (t.hours == u.hours &&
        (t.minutes < u.minutes
         || (t.minutes == u.minutes &&
             (t.seconds < u.seconds || (t.seconds == u.seconds && t.millis < u.millis)))))
  }

  predicate BeforeFrom(a: string, b: string, i: nat)
    requires i <= |a| && i <= |b|
    decreases |a| - i
  {
    i < |b| && (i == |a| || a[i] < b[i] || (a[i] == b[i] && BeforeFrom(a, b, i + 1)))
  }

  /** JavaScript's `<` on strings. */
  predicate TextBefore(a: string, b: string) {
    BeforeFrom(a, b, 0)
  }

  // --------------------------------------------------------------- widths

  lemma PaddedWidth(n: nat, width: nat)
    requires 0 < width && n < Pow10(width)
    ensures |Padded(n, width)| == width && AllDigits(Padded(n, width)) && Val(Padded(n, width)) == n
  {
    DigitsWidth(n, width);
    PaddedIsExact(n, width);
  }

  lemma Powers()
    ensures Pow10(2) == 100 && Pow10(3) == 1000 && Pow10(4) == 10000
  {
    assert Pow10(2) == 10 * Pow10(1) == 100;
    assert Pow10(4) == 10 * Pow10(3);
  }

  predicate FourCharacterYear(y: int) {
    1000 <= y <= 9999 || -999 <= y <= -100
  }

  lemma TwoDigits(n: nat)
    requires n < 100
    ensures |Padded(n, 2)| == 2
  {
    Powers();
    PaddedWidth(n, 2);
  }

  lemma ThreeDigits(n: nat)
    requires n < 1000
    ensures |Padded(n, 3)| == 3
  {
    Powers();
    PaddedWidth(n, 3);
  }

  lemma TimeLength(t: UtcTime)
    requires InRange(t)
    ensures |TimePart(t)| == 12
  {
    TwoDigits(t.hours);
    TwoDigits(t.minutes);
    TwoDigits(t.seconds);
    ThreeDigits(t.millis);
  }

  lemma DateLength(t: UtcTime)
    requires InRange(t)
    ensures |DatePart(t)| == 17
  {
    TwoDigits(t.month + 1);
    TwoDigits(t.day);
    TimeLength(t);
    TotalLength(Padded(t.month + 1, 2), Padded(t.day, 2), TimePart(t));
  }

  lemma TotalLength(month: string, day: string, time: string)
    requires |month| == 2 && |day| == 2 && |time| == 12
    ensures |month + (day + ("-" + time))| == 17
  {
  }

  lemma YearWidth(y: int)
    ensures |PrintInt(y)| == 4 <==> FourCharacterYear(y)
  {
    Powers();
    var n := if y < 0 then -y else y;
    DigitsWidth(n, 2);
    DigitsWidth(n, 3);
    DigitsWidth(n, 4);
  }

  /** The digits of n, perhaps after zeros. */
  predicate Shows(s: string, n: nat) {
    AllDigits(s) && Val(s) == n
  }

  predicate TimeLayout(s: string, t: UtcTime) {
    && |s| == 12 && Shows(s[..2], t.hours) && s[2] == ':' && Shows(s[3..5], t.minutes)
    && s[5] == ':' && Shows(s[6..8], t.seconds) && s[8] == '.' && Shows(s[9..], t.millis)
  }

  lemma TimeAt(h: string, m: string, s: string, f: string, x: string)
    requires |h| == 2 && |m| == 2 && |s| == 2 && |f| == 3
    requires x == h + (":" + (m + (":" + (s + ("." + f)))))
    ensures |x| == 12 && x[..2] == h && x[2] == ':' && x[3..5] == m && x[5] == ':' && x[6..8] == s && x[8] == '.' && x[9..] == f
  {
  }

  lemma TimeIs(t: UtcTime)
    requires InRange(t)
    ensures TimeLayout(TimePart(t), t)
  {
    Powers();
    PaddedWidth(t.hours, 2);
    PaddedWidth(t.minutes, 2);
    PaddedWidth(t.seconds, 2);
    PaddedWidth(t.millis, 3);
    TimeAt(Padded(t.hours, 2), Padded(t.minutes, 2), Padded(t.seconds, 2), Padded(t.millis, 3), TimePart(t));
  }

  /** s is y, then month and day, a hyphen and the time. */
  predicate DateLayout(s: string, y: string, t: UtcTime) {
    && |s| == |y| + 17 && s[..|y|] == y
    && Shows(s[|y|..|y| + 2], t.month + 1) && Shows(s[|y| + 2..|y| + 4], t.day) && s[|y| + 4] == '-'
    && TimeLayout(s[|y| + 5..], t)
  }

  lemma DateIs(y: string, m: string, d: string, time: string, s: string, t: UtcTime)
    requires |m| == 2 && |d| == 2 && s == y + (m + (d + ("-" + time)))
    requires Shows(m, t.month + 1) && Shows(d, t.day) && TimeLayout(time, t)
    ensures DateLayout(s, y, t)
  {
    var n := |y|;
    assert s[..n] == y;
    assert s[n..n + 2] == m;
    assert s[n + 2..n + 4] == d;
    assert s[n + 5..] == time;
  }

  /** The year is its decimal, after a sign if it is negative. */
  lemma YearIs(y: int)
    ensures y >= 0 ==> IsDecimal(PrintInt(y), y)
    ensures y < 0 ==> PrintInt(y) != "" && PrintInt(y)[0] == '-' && IsDecimal(PrintInt(y)[1..], -y)
  {
    var n := if y < 0 then -y else y;
    PrintedValues(n);
    assert PrintInt(y) == PrintValue(Whole(y));
  }

  lemma DayIs(t: UtcTime)
    requires InRange(t)
    ensures |Padded(t.month + 1, 2)| == 2 && Shows(Padded(t.month + 1, 2), t.month + 1)
    ensures |Padded(t.day, 2)| == 2 && Shows(Padded(t.day, 2), t.day)
  {
    Powers();
    PaddedWidth(t.month + 1, 2);
    PaddedWidth(t.day, 2);
  }

  /** THE LAYOUT. After the year come month and day of two digits each, a hyphen, and
      the time as `hh:mm:ss.mmm`; the month counts from 1. */
  lemma Layout(t: UtcTime, s: string, year: string)
    requires InRange(t) && s == FormatDateTime(t) && year == PrintInt(t.year)
    ensures DateLayout(s, year, t)
  {
    var m, d, time := Padded(t.month + 1, 2), Padded(t.day, 2), TimePart(t);
    DayIs(t);
    TimeIs(t);
    DateIs(year, m, d, time, s, t);
  }

  /** The timestamp has 21 characters exactly when the year prints as four. */
  lemma LengthIs21(t: UtcTime)
    requires InRange(t)
    ensures |FormatDateTime(t)| == 21 <==> FourCharacterYear(t.year)
  {
    DateLength(t);
    YearWidth(t.year);
  }

  // ---------------------------------------------------------------- order

  lemma {:induction false} Shifted(a: string, b: string, c: string, d: string, j: nat)
    requires |a| == |c| && j <= |b| && j <= |d|
    ensures BeforeFrom(a + b, c + d, |a| + j) <==> BeforeFrom(b, d, j)
    decreases |b| - j
  {
    if j < |b| && j < |d| {
      assert (a + b)[|a| + j] == b[j] && (c + d)[|a| + j] == d[j];
      Shifted(a, b, c, d, j + 1);
    }
  }

  predicate SameFrom(a: string, c: string, i: nat)
    requires |a| == |c|
  {
    forall k :: i <= k < |a| ==> a[k] == c[k]
  }

  lemma {:induction false} ConcatFrom(a: string, b: string, c: string, d: string, i: nat)
    requires |a| == |c| && i <= |a|
    ensures BeforeFrom(a + b, c + d, i) <==> BeforeFrom(a, c, i) || (SameFrom(a, c, i) && TextBefore(b, d))
    decreases |a| - i
  {
    if i == |a| {
      Shifted(a, b, c, d, 0);
    } else {
      assert (a + b)[i] == a[i] && (c + d)[i] == c[i];
      ConcatFrom(a, b, c, d, i + 1);
      assert SameFrom(a, c, i) <==> a[i] == c[i] && SameFrom(a, c, i + 1);
    }
  }

  lemma CompareConcat(a: string, b: string, c: string, d: string)
    requires |a| == |c|
    ensures TextBefore(a + b, c + d) <==> TextBefore(a, c) || (a == c && TextBefore(b, d))
  {
    ConcatFrom(a, b, c, d, 0);
  }

  lemma CompareChar(x: char, y: char)
    ensures TextBefore([x], [y]) <==> x < y
  {
    assert !BeforeFrom([x], [y], 1);
  }

  /** Digit strings of one width compare as the numbers they denote. */
  lemma {:induction false} CompareDigits(a: string, b: string)
    requires AllDigits(a) && AllDigits(b) && |a| == |b|
    ensures TextBefore(a, b) <==> Val(a) < Val(b)
    ensures a == b <==> Val(a) == Val(b)
  {
    if a != "" {
      var p, q, x, y := a[..|a| - 1], b[..|b| - 1], a[|a| - 1], b[|b| - 1];
      CompareDigits(p, q);
      assert a == p + [x] && b == q + [y];
      CompareConcat(p, [x], q, [y]);
      CompareChar(x, y);
      assert a == b <==> p == q && x == y;
    }
  }

  lemma CompareField(m: nat, n: nat, width: nat, r: string, s: string)
    requires 0 < width && m < Pow10(width) && n < Pow10(width)
    ensures TextBefore(Padded(m, width) + r, Padded(n, width) + s) <==> m < n || (m == n && TextBefore(r, s))
  {
    PaddedWidth(m, width);
    PaddedWidth(n, width);
    CompareDigits(Padded(m, width), Padded(n, width));
    CompareConcat(Padded(m, width), r, Padded(n, width), s);
  }

  lemma CompareTwo(m: nat, n: nat, r: string, s: string)
    requires m < 100 && n < 100
    ensures TextBefore(Padded(m, 2) + r, Padded(n, 2) + s) <==> m < n || (m == n && TextBefore(r, s))
  {
    Powers();
    CompareField(m, n, 2, r, s);
  }

  /** Two texts that begin with two-digit fields and go on with r and s. */
  lemma CompareLater(x: string, m: nat, r: string, y: string, n: nat, s: string, later: bool)
    requires m < 100 && n < 100 && x == Padded(m, 2) + r && y == Padded(n, 2) + s && (TextBefore(r, s) <==> later)
    ensures TextBefore(x, y) <==> m < n || (m == n && later)
  {
    CompareTwo(m, n, r, s);
  }

  lemma CompareSame(c: char, r: string, s: string)
    ensures TextBefore([c] + r, [c] + s) <==> TextBefore(r, s)
  {
    CompareConcat([c], r, [c], s);
    CompareChar(c, c);
  }

  lemma CompareTime(t: UtcTime, u: UtcTime)
    requires InRange(t) && InRange(u)
    ensures TextBefore(TimePart(t), TimePart(u)) <==> BeforeInDay(t, u)
  {
    Powers();
    var t3, u3 := "." + Padded(t.millis, 3), "." + Padded(u.millis, 3);
    var t2, u2 := Padded(t.seconds, 2) + t3, Padded(u.seconds, 2) + u3;
    var t1, u1 := Padded(t.minutes, 2) + (":" + t2), Padded(u.minutes, 2) + (":" + u2);
    CompareTwo(t.hours, u.hours, ":" + t1, ":" + u1);
    CompareSame(':', t1, u1);
    CompareTwo(t.minutes, u.minutes, ":" + t2, ":" + u2);
    CompareSame(':', t2, u2);
    CompareTwo(t.seconds, u.seconds, t3, u3);
    CompareSame('.', Padded(t.millis, 3), Padded(u.millis, 3));
    PaddedWidth(t.millis, 3);
    PaddedWidth(u.millis, 3);
    CompareDigits(Padded(t.millis, 3), Padded(u.millis, 3));
  }

  lemma CompareDay(t: UtcTime, u: UtcTime)
    requires InRange(t) && InRange(u)
    ensures TextBefore(DayPart(t), DayPart(u)) <==> BeforeInMonth(t, u)
  {
    var r, s := TimePart(t), TimePart(u);
    CompareTime(t, u);
    CompareSame('-', r, s);
    CompareLater(DayPart(t), t.day, "-" + r, DayPart(u), u.day, "-" + s, BeforeInDay(t, u));
  }

  /** What follows the month, and how it compares. */
  lemma MonthParts(t: UtcTime, u: UtcTime) returns (r: string, s: string)
    requires InRange(t) && InRange(u)
    ensures DatePart(t) == Padded(t.month + 1, 2) + r && DatePart(u) == Padded(u.month + 1, 2) + s
    ensures TextBefore(r, s) <==> BeforeInMonth(t, u)
  {
    r, s := DayPart(t), DayPart(u);
    CompareDay(t, u);
  }

  lemma CompareDate(t: UtcTime, u: UtcTime)
    requires InRange(t) && InRange(u)
    ensures TextBefore(DatePart(t), DatePart(u)) <==> BeforeInYear(t, u)
  {
    var r, s := MonthParts(t, u);
    CompareLater(DatePart(t), t.month + 1, r, DatePart(u), u.month + 1, s, BeforeInMonth(t, u));
  }

  // ------------------------------------------------- years of one width

  lemma YearLess(y: nat, z: nat)
    requires |Digits(y)| == |Digits(z)|
    ensures TextBefore(Digits(y), Digits(z)) <==> y < z
    ensures Digits(y) == Digits(z) <==> y == z
  {
    ValDigits(y);
    ValDigits(z);
    CompareDigits(Digits(y), Digits(z));
  }

  /** Non-negative years of one printed width: text order is order in time. */
  lemma SameWidth(t: UtcTime, u: UtcTime)
    requires InRange(t) && InRange(u) && t.year >= 0 && u.year >= 0
    requires |Digits(t.year)| == |Digits(u.year)|
    ensures TextBefore(FormatDateTime(t), FormatDateTime(u)) <==> Before(t, u)
  {
    YearLess(t.year, u.year);
    CompareDate(t, u);
    CompareConcat(Digits(t.year), DatePart(t), Digits(u.year), DatePart(u));
  }

  /** ORDER EMBEDDING. Years of the same number of digits, in particular of four:
      comparing two timestamps as text is comparing their components in time. */
  lemma OrderEmbedding(t: UtcTime, u: UtcTime, width: nat)
    requires InRange(t) && InRange(u) && t.year >= 0 && u.year >= 0
    requires 0 < width && |Digits(t.year)| == width && |Digits(u.year)| == width
    ensures TextBefore(FormatDateTime(t), FormatDateTime(u)) <==> Before(t, u)
    ensures TextBefore(FormatDateTime(u), FormatDateTime(t)) <==> Before(u, t)
  {
    SameWidth(t, u);
    SameWidth(u, t);
  }

  lemma FourDigits(y: nat)
    ensures |Digits(y)| == 4 <==> 1000 <= y <= 9999
  {
    Powers();
    DigitsWidth(y, 3);
    DigitsWidth(y, 4);
  }

  /** Distinct times print differently, in all years. */
  lemma FormatInjective(t: UtcTime, u: UtcTime)
    requires InRange(t) && InRange(u) && FormatDateTime(t) == FormatDateTime(u)
    ensures t == u
  {
    DateLength(t);
    DateLength(u);
    SameParts(PrintInt(t.year), DatePart(t), PrintInt(u.year), DatePart(u));
    ParsePrintedTag(Number(t.year));
    ParsePrintedTag(Number(u.year));
    CompareDate(t, u);
    CompareDate(u, t);
    NeverBeforeItself(DatePart(t));
  }

  lemma SameParts(a: string, b: string, c: string, d: string)
    requires a + b == c + d && |b| == |d|
    ensures a == c && b == d
  {
    assert a == (a + b)[..|a|] && c == (c + d)[..|c|];
    assert b == (a + b)[|a|..] && d == (c + d)[|c|..];
  }

  lemma {:induction false} NeverBeforeFrom(s: string, i: nat)
    requires i <= |s|
    ensures !BeforeFrom(s, s, i)
    decreases |s| - i
  {
    if i < |s| {
      NeverBeforeFrom(s, i + 1);
    }
  }

  lemma NeverBeforeItself(s: string)
    ensures !TextBefore(s, s)
  {
    NeverBeforeFrom(s, 0);
  }

  lemma {:induction false} TrichotomyFrom(a: string, b: string, i: nat)
    requires i <= |a| && i <= |b| && a != b && forall k :: 0 <= k < i ==> a[k] == b[k]
    ensures BeforeFrom(b, a, i) <==> !BeforeFrom(a, b, i)
    decreases |a| - i
  {
    if i < |a| && i < |b| && a[i] == b[i] {
      TrichotomyFrom(a, b, i + 1);
    }
  }

  lemma Trichotomy(a: string, b: string)
    requires a != b
    ensures TextBefore(b, a) <==> !TextBefore(a, b)
  {
    TrichotomyFrom(a, b, 0);
  }

  // ---------------------------------------------- years of different width

  /** The calendar day as the number YYYYMMDD. */
  function Day(t: UtcTime): nat
    requires t.year >= 0
  {
    t.year * 10000 + (t.month + 1) * 100 + t.day
  }

  lemma {:induction false} ValConcat(a: string, b: string)
    requires AllDigits(a) && AllDigits(b)
    ensures AllDigits(a + b) && Val(a + b) == Val(a) * Pow10(|b|) + Val(b)
  {
    if b == "" {
      assert a + b == a;
    } else {
      var p := b[..|b| - 1];
      assert (a + b)[..|a + b| - 1] == a + p;
      ValConcat(a, p);
      ShiftVal(Val(a), Pow10(|p|));
    }
  }

  lemma ShiftVal(n: nat, p: nat)
    ensures 10 * (n * p) == n * (10 * p)
  {
  }

  lemma ThreeParts(y: string, m: string, d: string)
    requires AllDigits(y) && AllDigits(m) && AllDigits(d) && |m| == 2 && |d| == 2
    ensures AllDigits(y + m + d) && Val(y + m + d) == Val(y) * 10000 + Val(m) * 100 + Val(d)
  {
    Powers();
    ValConcat(y, m);
    ValConcat(y + m, d);
  }

  lemma Grouped(y: string, m: string, d: string, r: string)
    ensures y + (m + (d + r)) == y + m + d + r
  {
    Assoc(m, d, r);
    Assoc(y, m + d, r);
    Assoc(y, m, d);
  }

  /** A timestamp is the digits of its day, a dash, and the time. */
  lemma DayParts(t: UtcTime) returns (a: string, r: string)
    requires InRange(t) && t.year >= 0
    ensures FormatDateTime(t) == a + ("-" + r)
    ensures AllDigits(a) && Val(a) == Day(t) && |a| == |Digits(t.year)| + 4
  {
    var y, m, d := Digits(t.year), Padded(t.month + 1, 2), Padded(t.day, 2);
    a, r := y + m + d, TimePart(t);
    ValDigits(t.year);
    TwoDigits(t.month + 1);
    TwoDigits(t.day);
    PaddedIsExact(t.month + 1, 2);
    PaddedIsExact(t.day, 2);
    ThreeParts(y, m, d);
    Grouped(y, m, d, "-" + r);
  }

  /** A number without its last k digits. */
  function DropDigits(n: nat, k: nat): nat {
    if k == 0 then n else DropDigits(n / 10, k - 1)
  }

  lemma {:induction false} TopDigits(s: string, k: nat)
    requires AllDigits(s) && k <= |s|
    ensures AllDigits(s[..k]) && Val(s[..k]) == DropDigits(Val(s), |s| - k)
    decreases |s|
  {
    if k == |s| {
      assert s[..k] == s;
    } else {
      var p := s[..|s| - 1];
      assert p[..k] == s[..k];
      TopDigits(p, k);
      assert Val(s) / 10 == Val(p);
    }
  }

  /** Whether the shorter text comes first: its day is at most the leading digits
      of the longer one's. */
  predicate ShorterFirst(t: UtcTime, u: UtcTime)
    requires t.year >= 0 && u.year >= 0 && |Digits(t.year)| < |Digits(u.year)|
  {
    Day(t) <= DropDigits(Day(u), |Digits(u.year)| - |Digits(t.year)|)
  }

  lemma DashFirst(r: string, q: string, s: string)
    requires AllDigits(q) && q != ""
    ensures TextBefore("-" + r, q + s)
  {
    assert ("-" + r)[0] == '-' && (q + s)[0] == q[0];
  }

  /** Years of different width: only the days are compared. */
  lemma DifferentWidth(t: UtcTime, u: UtcTime)
    requires InRange(t) && InRange(u) && t.year >= 0 && u.year >= 0
    requires |Digits(t.year)| < |Digits(u.year)|
    ensures TextBefore(FormatDateTime(t), FormatDateTime(u)) <==> ShorterFirst(t, u)
    ensures FormatDateTime(t) != FormatDateTime(u)
  {
    var a, r := DayParts(t);
    var b, s := DayParts(u);
    ComparePadded(FormatDateTime(t), a, r, FormatDateTime(u), b, s);
  }

  lemma ComparePadded(x: string, a: string, r: string, y: string, b: string, s: string)
    requires x == a + ("-" + r) && y == b + ("-" + s)
    requires AllDigits(a) && AllDigits(b) && |a| < |b|
    ensures TextBefore(x, y) <==> Val(a) <= DropDigits(Val(b), |b| - |a|)
    ensures x != y
  {
    LongerDigits(a, r, b, s);
    assert x[|a|] == '-' && y[|a|] == b[|a|];
  }

  lemma LongerDigits(a: string, r: string, b: string, s: string)
    requires AllDigits(a) && AllDigits(b) && |a| < |b|
    ensures TextBefore(a + ("-" + r), b + ("-" + s)) <==> Val(a) <= DropDigits(Val(b), |b| - |a|)
  {
    var p, q := b[..|a|], b[|a|..];
    TopDigits(b, |a|);
    assert b == p + q;
    Assoc(p, q, "-" + s);
    CompareConcat(a, "-" + r, p, q + ("-" + s));
    CompareDigits(a, p);
    DashFirst(r, q, "-" + s);
  }

  // ----------------------------------------------------- the exact condition

  /** The same time in the year of the opposite sign. */
  function Mirror(t: UtcTime): UtcTime {
    t.(year := -t.year)
  }

  /** Whether two non-negative years print in their order, for t before u. */
  predicate YearsInOrder(t: UtcTime, u: UtcTime)
    requires t.year >= 0 && u.year >= 0
  {
    if |Digits(t.year)| == |Digits(u.year)| then t.year <= u.year
    else if |Digits(t.year)| < |Digits(u.year)| then ShorterFirst(t, u)
    else !ShorterFirst(u, t)
  }

  lemma NonNegativeText(t: UtcTime, u: UtcTime)
    requires InRange(t) && InRange(u) && t.year >= 0 && u.year >= 0 && t.year != u.year
    ensures TextBefore(FormatDateTime(t), FormatDateTime(u)) <==> YearsInOrder(t, u)
  {
    if |Digits(t.year)| == |Digits(u.year)| {
      SameWidth(t, u);
    } else if |Digits(t.year)| < |Digits(u.year)| {
      DifferentWidth(t, u);
    } else {
      DifferentWidth(u, t);
      Trichotomy(FormatDateTime(u), FormatDateTime(t));
    }
  }

  lemma NegativeText(t: UtcTime, u: UtcTime)
    requires InRange(t) && InRange(u) && t.year < 0 && u.year < 0
    ensures TextBefore(FormatDateTime(t), FormatDateTime(u)) <==>
            TextBefore(FormatDateTime(Mirror(t)), FormatDateTime(Mirror(u)))
  {
    NegativeForm(t);
    NegativeForm(u);
    CompareSame('-', FormatDateTime(Mirror(t)), FormatDateTime(Mirror(u)));
  }

  lemma NegativeForm(t: UtcTime)
    requires t.year < 0
    ensures FormatDateTime(t) == ['-'] + FormatDateTime(Mirror(t))
  {
    SameDate(t);
    Assoc("-", Digits(-t.year), DatePart(t));
  }

  lemma SameDate(t: UtcTime)
    ensures DatePart(Mirror(t)) == DatePart(t)
  {
  }

  lemma SameYearText(t: UtcTime, u: UtcTime)
    requires InRange(t) && InRange(u) && t.year == u.year
    ensures TextBefore(FormatDateTime(t), FormatDateTime(u)) <==> Before(t, u)
  {
    CompareDate(t, u);
    CompareConcat(PrintInt(t.year), DatePart(t), PrintInt(u.year), DatePart(u));
    NeverBeforeItself(PrintInt(t.year));
  }

  lemma SignsText(t: UtcTime, u: UtcTime)
    requires t.year < 0 <= u.year
    ensures TextBefore(FormatDateTime(t), FormatDateTime(u)) && !TextBefore(FormatDateTime(u), FormatDateTime(t))
  {
    assert FormatDateTime(t)[0] == '-';
    assert FormatDateTime(u)[0] == Digits(u.year)[0] && IsDigit(Digits(u.year)[0]);
  }

  /** Whether text order and order in time agree on t and u. */
  predicate Agree(t: UtcTime, u: UtcTime) {
    if t.year == u.year || (t.year < 0) != (u.year < 0) then true
    else if t.year >= 0 then YearsInOrder(t, u) <==> t.year < u.year
    else YearsInOrder(Mirror(t), Mirror(u)) <==> t.year < u.year
  }

  /** WHEN THE ORDER HOLDS, for all years: always within a year and across the sign;
      between other years, exactly when the digits of the two days, cut to one
      length, come in the right order. */
  lemma OrderAgreesIff(t: UtcTime, u: UtcTime)
    requires InRange(t) && InRange(u)
    ensures (TextBefore(FormatDateTime(t), FormatDateTime(u)) <==> Before(t, u)) <==> Agree(t, u)
  {
    if t.year == u.year {
      SameYearText(t, u);
    } else if t.year < 0 && u.year < 0 {
      NegativeText(t, u);
      NonNegativeText(Mirror(t), Mirror(u));
    } else if t.year < 0 {
      SignsText(t, u);
    } else if u.year < 0 {
      SignsText(u, t);
    } else {
      NonNegativeText(t, u);
    }
  }

  /** Before the year 0 the order of years of one width is always reversed. */
  lemma NegativeYearsReversed(t: UtcTime, u: UtcTime)
    requires InRange(t) && InRange(u) && t.year < u.year < 0 && |Digits(-t.year)| == |Digits(-u.year)|
    ensures !Agree(t, u)
  {
  }

  /** A pair that comes out wrong: the last and the first day around year 10000. */
  lemma OrderBreaksAtYear10000(t: UtcTime, u: UtcTime)
    requires InRange(t) && InRange(u) && t.year == 9999 && u.year == 10000
    ensures Before(t, u) && !TextBefore(FormatDateTime(t), FormatDateTime(u))
  {
    FourDigits(9999);
    FourDigits(10000);
    Powers();
    DigitsWidth(10000, 5);
    assert Pow10(5) == 10 * Pow10(4) && Pow10(1) == 10;
    DigitsWidth(10000, 4);
    DifferentWidth(t, u);
  }
}
