/** core/expiry_calendar.py: weekly and monthly expiry dates by rule. A date is
    its proleptic Gregorian ordinal, day 1 being Monday, 1 January of year 1; a
    month is numbered from January of year 1. */
module Expiry {
  import opened Wrappers
  import opened Domain
  import opened Ordered

  // --- The calendar -------------------------------------------------------------

  predicate Leap(year: int) {
    year % 4 == 0 && (year % 100 != 0 || year % 400 == 0)
  }

  function DaysIn(year: int, month: int): (n: int)
    ensures 28 <= n <= 31
  {
    if month == 2 then if Leap(year) then 29 else 28
    else if month in {4, 6, 9, 11} then 30
    else 31
  }

  function YearOf(m: nat): int {
    m / 12 + 1
  }

  function MonthInYear(m: nat): int {
    m % 12 + 1
  }

  /** The ordinal of the first day of month `m`. */
  function FirstDay(m: nat): int {
    if m == 0 then 1 else FirstDay(m - 1) + DaysIn(YearOf(m - 1), MonthInYear(m - 1))
  }

  predicate InMonth(d: int, m: nat) {
    FirstDay(m) <= d < FirstDay(m + 1)
  }

  function MonthFrom(m: nat, d: int): (r: nat)
    requires FirstDay(m) <= d
    ensures m <= r && InMonth(d, r)
    decreases d - FirstDay(m)
  {
    if d < FirstDay(m + 1) then m else MonthFrom(m + 1, d)
  }

  function MonthOf(d: int): (m: nat)
    requires 1 <= d
    ensures InMonth(d, m)
  {
    MonthFrom(0, d)
  }

  function Weekday(d: int): int {
    (d + 6) % 7
  }

  // --- It is the Gregorian one ------------------------------------------------------

  lemma MonthLasts(y: nat, k: nat)
    requires k < 12
    ensures FirstDay(12 * y + k + 1) == FirstDay(12 * y + k) + DaysIn(y + 1, k + 1)
  {
    assert (12 * y + k) / 12 == y && (12 * y + k) % 12 == k;
  }

  function LeapDay(year: int): int {
    if year % 400 == 0 || (year % 4 == 0 && year % 100 != 0) then 1 else 0
  }

  /** Days of a year before its month `k`, January being 0. */
  function DaysBefore(k: nat, leap: int): int {
    if k == 0 then 0
    else if k == 1 then 31
    else leap + if k == 2 then 59 else if k == 3 then 90 else if k == 4 then 120 else if k == 5 then 151
                else if k == 6 then 181 else if k == 7 then 212 else if k == 8 then 243 else if k == 9 then 273
                else if k == 10 then 304 else if k == 11 then 334 else 365
  }

  lemma FebruaryIs(year: int)
    ensures DaysIn(year, 2) == 28 + LeapDay(year)
  {
  }

  lemma OtherMonthsAre(year: int, k: nat, leap: int)
    requires k < 12 && k != 1
    ensures DaysBefore(k + 1, leap) == DaysBefore(k, leap) + DaysIn(year, k + 1)
  {
  }

  lemma MonthsAddUp(year: int, k: nat)
    requires k < 12
    ensures DaysBefore(k + 1, LeapDay(year)) == DaysBefore(k, LeapDay(year)) + DaysIn(year, k + 1)
  {
    if k == 1 {
      FebruaryIs(year);
    } else {
      OtherMonthsAre(year, k, LeapDay(year));
    }
  }

  lemma {:induction false} MonthBegins(y: nat, k: nat)
    requires k <= 12
    ensures FirstDay(12 * y + k) == FirstDay(12 * y) + DaysBefore(k, LeapDay(y + 1))
  {
    if k > 0 {
      MonthBegins(y, k - 1);
      MonthLasts(y, k - 1);
      MonthsAddUp(y + 1, k - 1);
    }
  }

  lemma LeapDaysAdd(y: nat)
    ensures (y + 1) / 4 - (y + 1) / 100 + (y + 1) / 400 == y / 4 - y / 100 + y / 400 + LeapDay(y + 1)
  {
    EveryFour(y);
    EveryHundred(y);
    EveryFourHundred(y);
    LeapDayIs(y + 1);
  }

  function OneIf(c: bool): int {
    if c then 1 else 0
  }

  lemma LeapDayIs(n: nat)
    ensures LeapDay(n) == OneIf(n % 4 == 0) - OneIf(n % 100 == 0) + OneIf(n % 400 == 0)
  {
    if n % 400 == 0 {
      assert n == 100 * (4 * (n / 400));
    }
    if n % 100 == 0 {
      assert n == 4 * (25 * (n / 100));
    }
  }

  lemma EveryFour(y: nat)
    ensures (y + 1) / 4 == y / 4 + OneIf((y + 1) % 4 == 0)
  {
  }

  lemma EveryHundred(y: nat)
    ensures (y + 1) / 100 == y / 100 + OneIf((y + 1) % 100 == 0)
  {
  }

  lemma EveryFourHundred(y: nat)
    ensures (y + 1) / 400 == y / 400 + OneIf((y + 1) % 400 == 0)
  {
  }

  lemma {:induction false} YearBegins(y: nat)
    ensures FirstDay(12 * y) == 1 + 365 * y + y / 4 - y / 100 + y / 400
  {
    if y > 0 {
      YearBegins(y - 1);
      YearLasts(y - 1);
      LeapDaysAdd(y - 1);
    }
  }

  lemma YearLasts(y: nat)
    ensures FirstDay(12 * (y + 1)) == FirstDay(12 * y) + 365 + LeapDay(y + 1)
  {
    MonthBegins(y, 12);
  }

  /** Month `k` of the year after `y` others begins on the ordinal that counting
      365 days a year, a day every fourth, none every hundredth and one again
      every four hundredth gives; */
  lemma OrdinalsAreGregorian(y: nat, k: nat)
    requires k < 12
    ensures FirstDay(12 * y + k) == 1 + 365 * y + y / 4 - y / 100 + y / 400 + DaysBefore(k, LeapDay(y + 1))
  {
    YearBegins(y);
    MonthBegins(y, k);
  }

  /** and the days of the week follow each other from a Monday. */
  lemma WeekdaysFollow(d: int)
    ensures Weekday(1) == 0 && Weekday(d + 1) == if Weekday(d) == 6 then 0 else Weekday(d) + 1
  {
  }

  lemma {:induction false} MonthsFollow(m: nat, n: nat)
    requires m <= n
    ensures FirstDay(m) + 28 * (n - m) <= FirstDay(n)
    decreases n
  {
    if m < n {
      MonthsFollow(m, n - 1);
    }
  }

  lemma MonthIsUnique(d: int, m: nat, n: nat)
    requires InMonth(d, m) && InMonth(d, n)
    ensures m == n
  {
    if m < n {
      MonthsFollow(m + 1, n);
    } else if n < m {
      MonthsFollow(n + 1, m);
    }
  }

  function AddMonth(year: int, month: int): (int, int) {
    (year + month / 12, month % 12 + 1)
  }

  lemma AddMonthIsNext(m: nat)
    ensures AddMonth(YearOf(m), MonthInYear(m)) == (YearOf(m + 1), MonthInYear(m + 1))
  {
    assert m == 12 * (m / 12) + m % 12;
    if m % 12 == 11 {
      assert (m + 1) / 12 == m / 12 + 1 && (m + 1) % 12 == 0;
    } else {
      assert (m + 1) / 12 == m / 12 && (m + 1) % 12 == m % 12 + 1;
    }
  }

  function NextWeekday(start: int, weekday: int): int {
    start + (weekday - Weekday(start)) % 7
  }

  function LastWeekday(m: nat, weekday: int): int {
    var last := FirstDay(m + 1) - 1;
    last - (Weekday(last) - weekday) % 7
  }

  /** The date is on the weekday and a week later is another month. */
  ghost predicate LastOfItsMonth(d: int, weekday: int) {
    1 <= d && Weekday(d) == weekday && MonthOf(d + 7) != MonthOf(d)
  }

  lemma SameWeekday(d: int, e: int)
    requires Weekday(d) == Weekday(e) && d - 7 < e < d + 7
    ensures d == e
  {
  }

  lemma WeekdayShift(d: int, weekday: int)
    requires 0 <= weekday < 7
    ensures Weekday(d + (weekday - Weekday(d)) % 7) == weekday
    ensures Weekday(d - (Weekday(d) - weekday) % 7) == weekday
  {
  }

  lemma LastWeekdayInMonth(m: nat, weekday: int)
    requires 0 <= weekday < 7
    ensures InMonth(LastWeekday(m, weekday), m)
    ensures FirstDay(m + 1) - 7 <= LastWeekday(m, weekday)
    ensures Weekday(LastWeekday(m, weekday)) == weekday
  {
    WeekdayShift(FirstDay(m + 1) - 1, weekday);
  }

  /** The one date of the month with the property is the computed one. */
  lemma LastWeekdayIff(d: int, m: nat, weekday: int)
    requires 0 <= weekday < 7 && InMonth(d, m) && 1 <= d
    ensures LastOfItsMonth(d, weekday) <==> d == LastWeekday(m, weekday)
  {
    MonthIsUnique(d, m, MonthOf(d));
    LastWeekdayInMonth(m, weekday);
    if d + 7 < FirstDay(m + 1) {
      MonthIsUnique(d + 7, m, MonthOf(d + 7));
    } else if Weekday(d) == weekday {
      SameWeekday(d, LastWeekday(m, weekday));
    }
  }

  // --- Expiry rules ---------------------------------------------------------------

  ghost predicate IsWeekly(spec: InstrumentSpec, d: int) {
    spec.hasWeekly && spec.weeklyWeekday == Some(Weekday(d))
  }

  ghost predicate IsMonthly(spec: InstrumentSpec, d: int) {
    spec.hasMonthly && LastOfItsMonth(d, spec.monthlyWeekday)
  }

  ghost predicate IsExpiry(spec: InstrumentSpec, d: int) {
    IsWeekly(spec, d) || IsMonthly(spec, d)
  }

  ghost function Weeklies(spec: InstrumentSpec): int -> bool {
    d => IsWeekly(spec, d)
  }

  ghost function Monthlies(spec: InstrumentSpec): int -> bool {
    d => IsMonthly(spec, d)
  }

  ghost function Expiries(spec: InstrumentSpec): int -> bool {
    d => IsExpiry(spec, d)
  }

  /** The first `count` dates from `start` on with the property, in order and
      none left out. */
  ghost predicate FirstOf(p: int -> bool, start: int, count: nat, r: seq<int>) {
    && |r| == count
    && Increasing(r)
    && (forall k :: 0 <= k < |r| ==> start <= r[k] && p(r[k]))
    && (forall d, k :: 0 <= k < |r| && start <= d <= r[k] && p(d) ==> d in r)
  }

  // --- Weekly ------------------------------------------------------------------------

  function WeeklyExpiries(spec: InstrumentSpec, count: nat, start: int): seq<int> {
    if !spec.hasWeekly || spec.weeklyWeekday.None? then []
    else
      var first := NextWeekday(start, spec.weeklyWeekday.value);
      seq(count, i => first + 7 * i)
  }

  lemma WeekApart(d: int, n: int)
    ensures Weekday(d + 7 * n) == Weekday(d)
  {
  }

  /** A later day on the same weekday is whole weeks away. */
  lemma WholeWeeks(first: int, d: int) returns (n: nat)
    requires first - 7 < d && Weekday(d) == Weekday(first)
    ensures d == first + 7 * n
  {
    var weeks := (d - first) / 7;
    assert d - first == 7 * weeks + (d - first) % 7;
    WeekApart(first, weeks);
    SameWeekday(d, first + 7 * weeks);
    n := weeks;
  }

  lemma WeeklyIsFirst(spec: InstrumentSpec, count: nat, start: int)
    requires spec.Valid() && spec.hasWeekly && spec.weeklyWeekday.Some?
    ensures FirstOf(Weeklies(spec), start, count, WeeklyExpiries(spec, count, start))
  {
    var r, p, w := WeeklyExpiries(spec, count, start), Weeklies(spec), spec.weeklyWeekday.value;
    var first := NextWeekday(start, w);
    WeekdayShift(start, w);
    assert start <= first < start + 7;
    forall k | 0 <= k < count
      ensures start <= r[k] && p(r[k])
    {
      WeekApart(first, k);
    }
    forall d, k | 0 <= k < count && start <= d <= r[k] && p(d)
      ensures d in r
    {
      var n := WholeWeeks(first, d);
      assert r[n] == d;
    }
  }

  // --- Monthly -----------------------------------------------------------------------

  function Kept(weekday: int, start: int, from: nat, upTo: nat): seq<int>
    requires from <= upTo
    decreases upTo
  {
    if from == upTo then []
    else
      var candidate := LastWeekday(upTo - 1, weekday);
      Kept(weekday, start, from, upTo - 1) + if candidate >= start then [candidate] else []
  }

  function MonthlyRun(weekday: int, first: nat, count: nat): seq<int> {
    seq(count, i requires 0 <= i => LastWeekday(first + i, weekday))
  }

  function FirstMonth(weekday: int, start: int): nat
    requires 1 <= start
  {
    if LastWeekday(MonthOf(start), weekday) >= start then MonthOf(start) else MonthOf(start) + 1
  }

  lemma LaterMonthsAreKept(weekday: int, start: int, m: nat)
    requires 0 <= weekday < 7 && 1 <= start && MonthOf(start) < m
    ensures start < LastWeekday(m, weekday)
  {
    LastWeekdayInMonth(m, weekday);
    MonthsFollow(MonthOf(start) + 1, m);
  }

  /** What the loop keeps is an unbroken run of months. */
  lemma {:induction false} KeptIsRun(weekday: int, start: int, upTo: nat)
    requires 0 <= weekday < 7 && 1 <= start && FirstMonth(weekday, start) <= upTo
    ensures Kept(weekday, start, MonthOf(start), upTo) == MonthlyRun(weekday, FirstMonth(weekday, start), upTo - FirstMonth(weekday, start))
    decreases upTo
  {
    var from, first := MonthOf(start), FirstMonth(weekday, start);
    if upTo > first {
      KeptIsRun(weekday, start, upTo - 1);
      if upTo - 1 > from {
        LaterMonthsAreKept(weekday, start, upTo - 1);
      }
      assert MonthlyRun(weekday, first, upTo - first) == MonthlyRun(weekday, first, upTo - 1 - first) + [LastWeekday(upTo - 1, weekday)];
    } else if from < upTo {
      assert Kept(weekday, start, from, from) == [];
    }
  }

  lemma RunIncreases(weekday: int, m: nat, n: nat)
    requires 0 <= weekday < 7 && m < n
    ensures LastWeekday(m, weekday) < LastWeekday(n, weekday)
  {
    LastWeekdayInMonth(m, weekday);
    LastWeekdayInMonth(n, weekday);
    MonthsFollow(m + 1, n);
  }

  lemma MonthlyIsNotBeforeTheRun(weekday: int, start: int, d: int, m: nat)
    requires 0 <= weekday < 7 && 1 <= start <= d && LastOfItsMonth(d, weekday) && m == MonthOf(d)
    ensures FirstMonth(weekday, start) <= m && d == LastWeekday(m, weekday)
  {
    LastWeekdayIff(d, m, weekday);
    if m < MonthOf(start) {
      MonthsFollow(m + 1, MonthOf(start));
    }
  }

  lemma RunHoldsEveryMonthly(weekday: int, start: int, count: nat, d: int, k: nat)
    requires 0 <= weekday < 7 && 1 <= start <= d && k < count && LastOfItsMonth(d, weekday)
    requires d <= MonthlyRun(weekday, FirstMonth(weekday, start), count)[k]
    ensures d in MonthlyRun(weekday, FirstMonth(weekday, start), count)
  {
    var first, m := FirstMonth(weekday, start), MonthOf(d);
    MonthlyIsNotBeforeTheRun(weekday, start, d, m);
    if first + k < m {
      RunIncreases(weekday, first + k, m);
    }
    assert MonthlyRun(weekday, first, count)[m - first] == d;
  }

  function MonthlyOf(spec: InstrumentSpec, count: nat, start: int): seq<int>
    requires 1 <= start
  {
    if spec.hasMonthly then MonthlyRun(spec.monthlyWeekday, FirstMonth(spec.monthlyWeekday, start), count) else []
  }

  lemma RunMember(spec: InstrumentSpec, start: int, k: nat)
    requires spec.Valid() && spec.hasMonthly && 1 <= start
    ensures var d := LastWeekday(FirstMonth(spec.monthlyWeekday, start) + k, spec.monthlyWeekday);
            start <= d && IsMonthly(spec, d)
  {
    var w := spec.monthlyWeekday;
    var m := FirstMonth(w, start) + k;
    if m > MonthOf(start) {
      LaterMonthsAreKept(w, start, m);
    }
    LastWeekdayInMonth(m, w);
    LastWeekdayIff(LastWeekday(m, w), m, w);
  }

  lemma RunIsOrdered(weekday: int, first: nat, count: nat)
    requires 0 <= weekday < 7
    ensures Increasing(MonthlyRun(weekday, first, count))
  {
    var r := MonthlyRun(weekday, first, count);
    forall j, k | 0 <= j < k < count
      ensures r[j] < r[k]
    {
      RunIncreases(weekday, first + j, first + k);
    }
  }

  lemma RunIsFirst(spec: InstrumentSpec, count: nat, start: int)
    requires spec.Valid() && spec.hasMonthly && 1 <= start
    ensures FirstOf(Monthlies(spec), start, count, MonthlyOf(spec, count, start))
  {
    var r, p := MonthlyOf(spec, count, start), Monthlies(spec);
    RunIsOrdered(spec.monthlyWeekday, FirstMonth(spec.monthlyWeekday, start), count);
    forall k | 0 <= k < count
      ensures start <= r[k] && p(r[k])
    {
      RunMember(spec, start, k);
    }
    forall d, k | 0 <= k < count && start <= d <= r[k] && p(d)
      ensures d in r
    {
      RunHoldsEveryMonthly(spec.monthlyWeekday, start, count, d, k);
    }
  }

  ghost predicate IsMonth(year: int, month: int, m: nat) {
    year == YearOf(m) && month == MonthInYear(m)
  }

  lemma MonthAt(year: int, month: int, m: nat)
    requires IsMonth(year, month, m)
    ensures (year - 1) * 12 + month - 1 == m
  {
  }

  lemma NextMonthIs(year: int, month: int, m: nat)
    requires IsMonth(year, month, m)
    ensures IsMonth(AddMonth(year, month).0, AddMonth(year, month).1, m + 1)
  {
    AddMonthIsNext(m);
  }

  /** Terminates, because only the month of `start` can lie before it. */
  method MonthlyExpiries(spec: InstrumentSpec, count: nat, start: int) returns (out: seq<int>)
    requires spec.Valid() && 1 <= start
    ensures out == MonthlyOf(spec, count, start)
  {
    out := [];
    if !spec.hasMonthly {
      return;
    }
    ghost var from := MonthOf(start);
    ghost var c := from;
    var year, month := YearOf(MonthOf(start)), MonthInYear(MonthOf(start));
    while |out| < count
      invariant from <= c && IsMonth(year, month, c)
      invariant out == Kept(spec.monthlyWeekday, start, from, c) && |out| <= count && c - from - 1 <= |out|
      decreases from + count + 1 - c
    {
      MonthAt(year, month, c);
      var candidate := LastWeekday((year - 1) * 12 + month - 1, spec.monthlyWeekday);
      if candidate >= start {
        out := out + [candidate];
      } else if c > from {
        LaterMonthsAreKept(spec.monthlyWeekday, start, c);
      }
      NextMonthIs(year, month, c);
      var next := AddMonth(year, month);
      year, month := next.0, next.1;
      c := c + 1;
    }
    KeptReaches(spec.monthlyWeekday, start, c, count);
  }

  lemma KeptReaches(weekday: int, start: int, upTo: nat, count: nat)
    requires 0 <= weekday < 7 && 1 <= start && MonthOf(start) <= upTo
    requires |Kept(weekday, start, MonthOf(start), upTo)| == count
    ensures Kept(weekday, start, MonthOf(start), upTo) == MonthlyRun(weekday, FirstMonth(weekday, start), count)
  {
    if FirstMonth(weekday, start) <= upTo {
      KeptIsRun(weekday, start, upTo);
    }
  }

  // --- Merging -----------------------------------------------------------------------

  /** A sorted list holding all of another is at every place no later. */
  lemma {:induction false} Dominates(w: seq<int>, s: seq<int>)
    requires Increasing(w) && Increasing(s) && forall x :: x in w ==> x in s
    ensures |w| <= |s| && forall k :: 0 <= k < |w| ==> s[k] <= w[k]
  {
    if w != [] {
      var n := |w| - 1;
      var front := w[..n];
      assert forall x :: x in front ==> x in w;
      Dominates(front, s);
      assert w[n] in w && w[n] in s;
      var j :| 0 <= j < |s| && s[j] == w[n];
      if n > 0 {
        assert s[n - 1] <= front[n - 1] == w[n - 1] < s[j];
      }
      assert n <= j;
    }
  }

  /** Only one list is the first `count`. */
  lemma NotLater(p: int -> bool, start: int, count: nat, r: seq<int>, s: seq<int>, k: nat)
    requires FirstOf(p, start, count, r) && FirstOf(p, start, count, s) && k < count
    ensures r[k] <= s[k]
  {
    if s[k] < r[k] {
      var front := s[..k + 1];
      forall x | x in front
        ensures x in r
      {
        var j :| 0 <= j <= k && s[j] == x;
      }
      Dominates(front, r);
    }
  }

  lemma FirstsAreEqual(p: int -> bool, start: int, count: nat, r: seq<int>, s: seq<int>)
    requires FirstOf(p, start, count, r) && FirstOf(p, start, count, s)
    ensures r == s
  {
    forall k | 0 <= k < count
      ensures r[k] == s[k]
    {
      NotLater(p, start, count, r, s, k);
      NotLater(p, start, count, s, r, k);
    }
  }

  function Elements(s: seq<int>): (all: set<int>)
    ensures forall x :: x in all <==> x in s
  {
    set x | x in s
  }

  ghost predicate FirstOrNone(p: int -> bool, start: int, count: nat, r: seq<int>) {
    FirstOf(p, start, count, r) || (r == [] && forall d :: !p(d))
  }

  ghost predicate Either(p: int -> bool, q: int -> bool, both: int -> bool) {
    forall d :: both(d) == (p(d) || q(d))
  }

  lemma MergedHolds(p: int -> bool, start: int, count: nat, w: seq<int>, merged: seq<int>, d: int, k: nat)
    requires FirstOrNone(p, start, count, w) && Increasing(merged) && forall x :: x in w ==> x in merged
    requires k < count && k < |merged| && start <= d <= merged[k] && p(d)
    ensures d in merged[..k + 1]
  {
    Dominates(w, merged);
    assert merged[k] <= w[k];
    assert d in w;
    var j :| 0 <= j < |merged| && merged[j] == d;
    assert merged[..k + 1][j] == d;
  }

  /** Taking `count` of each kind is enough: sorted together, their first
      `count` are the first `count` of both kinds. */
  lemma MergeIsFirst(p: int -> bool, q: int -> bool, both: int -> bool, start: int, count: nat, w: seq<int>, m: seq<int>, merged: seq<int>)
    requires Either(p, q, both) && FirstOrNone(p, start, count, w) && FirstOrNone(q, start, count, m)
    requires FirstOf(p, start, count, w) || FirstOf(q, start, count, m)
    requires Increasing(merged) && forall x :: x in merged <==> x in w || x in m
    ensures count <= |merged| && FirstOf(both, start, count, merged[..count])
  {
    if FirstOf(p, start, count, w) {
      Dominates(w, merged);
    } else {
      Dominates(m, merged);
    }
    var r := merged[..count];
    forall k | 0 <= k < count
      ensures start <= r[k] && both(r[k])
    {
      assert r[k] in merged;
    }
    forall d, k | 0 <= k < count && start <= d <= r[k] && both(d)
      ensures d in r
    {
      if p(d) {
        MergedHolds(p, start, count, w, merged, d, k);
      } else {
        MergedHolds(q, start, count, m, merged, d, k);
      }
      assert merged[..k + 1] == r[..k + 1];
    }
  }

  // --- The services --------------------------------------------------------------------

  predicate HasCycle(spec: InstrumentSpec) {
    spec.hasMonthly || (spec.hasWeekly && spec.weeklyWeekday.Some?)
  }

  /** The first `count` expiries from `start` on; nothing without a cycle. */
  method ExpiriesOf(spec: InstrumentSpec, count: nat, start: int) returns (r: seq<int>)
    requires spec.Valid() && 1 <= start
    ensures HasCycle(spec) ==> FirstOf(Expiries(spec), start, count, r)
    ensures !HasCycle(spec) ==> r == []
  {
    var weekly := WeeklyExpiries(spec, count, start);
    var monthly := MonthlyExpiries(spec, count, start);
    var merged := Elements(weekly);
    merged := merged + Elements(monthly);
    var sorted := Ascending(merged);
    r := if count < |sorted| then sorted[..count] else sorted;
    if HasCycle(spec) {
      RulesGiveFirsts(spec, count, start);
      MergeIsFirst(Weeklies(spec), Monthlies(spec), Expiries(spec), start, count, weekly, monthly, sorted);
      assert sorted[..count] == r;
    }
  }

  lemma RulesGiveFirsts(spec: InstrumentSpec, count: nat, start: int)
    requires spec.Valid() && 1 <= start && HasCycle(spec)
    ensures FirstOrNone(Weeklies(spec), start, count, WeeklyExpiries(spec, count, start))
    ensures FirstOrNone(Monthlies(spec), start, count, MonthlyOf(spec, count, start))
    ensures FirstOf(Weeklies(spec), start, count, WeeklyExpiries(spec, count, start))
            || FirstOf(Monthlies(spec), start, count, MonthlyOf(spec, count, start))
  {
    if spec.hasWeekly && spec.weeklyWeekday.Some? {
      WeeklyIsFirst(spec, count, start);
    }
    if spec.hasMonthly {
      RunIsFirst(spec, count, start);
    }
  }

  /** Whose expiries those are: every Tuesday for NIFTY, a month's last Tuesday for
      BANKNIFTY, every Thursday for SENSEX; there is no fourth underlying. */
  lemma ExpiriesOfTheThree(underlying: string, d: int)
    requires 1 <= d
    ensures GetSpec(underlying).Ok? <==> underlying in {"NIFTY", "BANKNIFTY", "SENSEX"}
    ensures GetSpec(underlying).Ok? ==>
              (IsExpiry(GetSpec(underlying).value, d)
               <==> if underlying == "NIFTY" then Weekday(d) == 1
                    else if underlying == "BANKNIFTY" then Weekday(d) == 1 && MonthOf(d + 7) != MonthOf(d)
                    else Weekday(d) == 3)
    ensures GetSpec(underlying).Ok? ==>
              GetSpec(underlying).value.lotSize == if underlying == "NIFTY" then 65 else if underlying == "BANKNIFTY" then 30 else 20
  {
  }

  method NextExpiries(underlying: string, count: nat, start: int) returns (r: Outcome<seq<int>>)
    requires 1 <= start
    ensures match GetSpec(underlying)
            case Raise(error) => r == Raise(error)
            case Ok(spec) => r.Ok? && FirstOf(Expiries(spec), start, count, r.value)
  {
    var spec :- GetSpec(underlying);
    var dates := ExpiriesOf(spec, count, start);
    r := Ok(dates);
  }

  method NearestExpiry(underlying: string, start: int) returns (r: Outcome<int>)
    requires 1 <= start
    ensures match GetSpec(underlying)
            case Raise(error) => r == Raise(error)
            case Ok(spec) =>
              && r.Ok? && start <= r.value && IsExpiry(spec, r.value)
              && forall d :: start <= d < r.value ==> !Expiries(spec)(d)
  {
    var found :- NextExpiries(underlying, 1, start);
    r := Ok(found[0]);
    ghost var spec := GetSpec(underlying).value;
    assert Expiries(spec)(found[0]);
  }

  method IsExpiryDay(underlying: string, today: int) returns (r: Outcome<bool>)
    requires 1 <= today
    ensures match GetSpec(underlying)
            case Raise(error) => r == Raise(error)
            case Ok(spec) => r == Ok(IsExpiry(spec, today))
  {
    var nearest :- NearestExpiry(underlying, today);
    r := Ok(nearest == today);
    ghost var spec := GetSpec(underlying).value;
    assert Expiries(spec)(today) == IsExpiry(spec, today);
  }

  /** Where both weekdays agree every monthly is a weekly, so the merged
      calendar is the weekly one and nothing appears twice. */
  lemma SameWeekdayMeansWeekly(spec: InstrumentSpec, count: nat, start: int, r: seq<int>)
    requires spec.Valid() && spec.hasWeekly && spec.weeklyWeekday == Some(spec.monthlyWeekday)
    requires FirstOf(Expiries(spec), start, count, r)
    ensures r == WeeklyExpiries(spec, count, start)
  {
    WeeklyIsFirst(spec, count, start);
    forall d
      ensures Expiries(spec)(d) == Weeklies(spec)(d)
    {
    }
    FirstsAreEqual(Expiries(spec), start, count, r, WeeklyExpiries(spec, count, start));
  }
}
