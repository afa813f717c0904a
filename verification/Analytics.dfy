/** analytics_service.py: results of closed trades. Amounts are paise, instants
    whole seconds UTC. */
module Analytics {
  import opened Ordered
  import Rounding

  datatype TradeUnit = TradeUnit(closedAt: int, net: int, name: string)

  const IST_OFFSET := 19800

  /** The India date of an instant, as a day number. */
  function DayOf(instant: int): int {
    (instant + IST_OFFSET) / 86400
  }

  /** Which begins at half past six in the evening, UTC, of the day before. */
  lemma DayOfIsIndias(instant: int)
    ensures 86400 * DayOf(instant) - 19800 <= instant < 86400 * (DayOf(instant) + 1) - 19800
  {
  }

  function Max(x: int, y: int): int {
    if x < y then y else x
  }

  // --- Drawdown --------------------------------------------------------------------

  /** The highest of nought and the first `n` values. */
  function PeakOf(values: seq<int>, n: nat): int
    requires n <= |values|
  {
    if n == 0 then 0 else Max(PeakOf(values, n - 1), values[n - 1])
  }

  /** The depth under the running peak at each of the first `n` points. */
  function Depths(values: seq<int>, n: nat): (depths: seq<int>)
    requires n <= |values|
    ensures |depths| == n
    ensures forall i :: 0 <= i < n ==> depths[i] == values[i] - PeakOf(values, i + 1)
  {
    if n == 0 then [] else Depths(values, n - 1) + [values[n - 1] - PeakOf(values, n)]
  }

  /** The deepest of the first `n` points. */
  function DeepestOf(values: seq<int>, n: nat): int
    requires n <= |values|
  {
    if n == 0 then 0 else Max(DeepestOf(values, n - 1), PeakOf(values, n) - values[n - 1])
  }

  function WorstFall(values: seq<int>): int {
    DeepestOf(values, |values|)
  }

  /** Running peak: the depth under it at every point, and the greatest. */
  method Drawdown(values: seq<int>) returns (points: seq<int>, largest: int)
    ensures points == Depths(values, |values|)
    ensures largest == WorstFall(values)
  {
    var peak := 0;
    points, largest := [], 0;
    for n := 0 to |values|
      invariant peak == PeakOf(values, n) && points == Depths(values, n) && largest == DeepestOf(values, n)
    {
      peak := Max(peak, values[n]);
      var current := values[n] - peak;
      points := points + [current];
      largest := Max(largest, if current < 0 then -current else current);
    }
  }

  /** The equity at point `n`, which starts from nought. */
  function At(values: seq<int>, n: nat): int
    requires n <= |values|
  {
    if n == 0 then 0 else values[n - 1]
  }

  ghost predicate Falls(values: seq<int>, i: nat, j: nat, fall: int) {
    i <= j <= |values| && At(values, i) - At(values, j) == fall
  }

  lemma {:induction false} PeakIsHighest(values: seq<int>, n: nat) returns (i: nat)
    requires n <= |values|
    ensures i <= n && PeakOf(values, n) == At(values, i)
    ensures forall j :: 0 <= j <= n ==> At(values, j) <= PeakOf(values, n)
  {
    if n == 0 {
      i := 0;
    } else {
      i := PeakIsHighest(values, n - 1);
      if PeakOf(values, n - 1) < values[n - 1] {
        i := n;
      }
    }
  }

  lemma {:induction false} DeepestIsAFall(values: seq<int>, n: nat) returns (i: nat, j: nat)
    requires n <= |values|
    ensures j <= n && Falls(values, i, j, DeepestOf(values, n))
    ensures forall k: nat, l: nat :: k <= l <= n ==> At(values, k) - At(values, l) <= DeepestOf(values, n)
  {
    if n == 0 {
      i, j := 0, 0;
    } else {
      i, j := DeepestIsAFall(values, n - 1);
      var top := PeakIsHighest(values, n);
      if DeepestOf(values, n - 1) < PeakOf(values, n) - values[n - 1] {
        i, j := top, n;
      }
    }
  }

  /** The running peak gives the quadratic definition: no earlier point, the
      start at nought included, is further above a later one, and some pair is
      exactly that far. */
  lemma DrawdownIsQuadratic(values: seq<int>)
    ensures forall i: nat, j: nat :: i <= j <= |values| ==> At(values, i) - At(values, j) <= WorstFall(values)
    ensures exists i: nat, j: nat :: Falls(values, i, j, WorstFall(values))
  {
    var i, j := DeepestIsAFall(values, |values|);
    assert Falls(values, i, j, WorstFall(values));
  }

  lemma FallIsBounded(values: seq<int>, i: nat, j: nat)
    requires i <= j <= |values|
    ensures At(values, i) - At(values, j) <= WorstFall(values)
  {
    DrawdownIsQuadratic(values);
  }

  // --- The summary -------------------------------------------------------------------

  function Total(units: seq<TradeUnit>): int {
    if units == [] then 0 else Total(units[..|units| - 1]) + units[|units| - 1].net
  }

  function Profit(units: seq<TradeUnit>): int {
    if units == [] then 0 else Profit(units[..|units| - 1]) + Max(units[|units| - 1].net, 0)
  }

  function Loss(units: seq<TradeUnit>): int {
    if units == [] then 0 else Loss(units[..|units| - 1]) + Max(-units[|units| - 1].net, 0)
  }

  /** Net P&L after each trade. */
  function Cumulative(units: seq<TradeUnit>): (c: seq<int>)
    ensures |c| == |units|
  {
    if units == [] then [] else Cumulative(units[..|units| - 1]) + [Total(units)]
  }

  datatype Summary = Summary(
    trades: int,
    wins: int,
    losses: int,
    breakeven: int,
    net: int,
    grossProfit: int,
    grossLoss: int,
    maxDrawdown: int)

  method Summarise(units: seq<TradeUnit>) returns (s: Summary)
    ensures s.trades == |units| == s.wins + s.losses + s.breakeven
    ensures 0 <= s.wins && 0 <= s.losses && 0 <= s.breakeven
    ensures s.net == Total(units) == s.grossProfit - s.grossLoss
    ensures s.grossProfit == Profit(units) && s.grossLoss == Loss(units)
    ensures s.maxDrawdown == WorstFall(Cumulative(units)) <= s.grossLoss
  {
    var wins, losses, breakeven, net, profit, loss, values := 0, 0, 0, 0, 0, 0, [];
    for n := 0 to |units|
      invariant n == wins + losses + breakeven && 0 <= wins && 0 <= losses && 0 <= breakeven
      invariant net == Total(units[..n]) == profit - loss
      invariant profit == Profit(units[..n]) && loss == Loss(units[..n])
      invariant values == Cumulative(units[..n])
    {
      assert units[..n + 1][..n] == units[..n];
      if units[n].net > 0 {
        wins, profit := wins + 1, profit + units[n].net;
      } else if units[n].net < 0 {
        losses, loss := losses + 1, loss - units[n].net;
      } else {
        breakeven := breakeven + 1;
      }
      net := net + units[n].net;
      values := values + [net];
    }
    assert units[..|units|] == units;
    var points, maxDrawdown := Drawdown(values);
    DrawdownWithinLosses(units);
    s := Summary(|units|, wins, losses, breakeven, net, profit, loss, maxDrawdown);
  }

  lemma {:induction false} CumulativeAt(units: seq<TradeUnit>, n: nat)
    requires n <= |units|
    ensures At(Cumulative(units), n) == Total(units[..n])
  {
    if n == |units| {
      assert units[..n] == units;
    } else {
      var front := units[..|units| - 1];
      CumulativeAt(front, n);
      assert front[..n] == units[..n];
    }
  }

  lemma {:induction false} FallWithinLosses(units: seq<TradeUnit>, i: nat, j: nat)
    requires i <= j <= |units|
    ensures Total(units[..i]) - Total(units[..j]) <= Loss(units[..j])
    decreases j
  {
    if i < j {
      FallWithinLosses(units, i, j - 1);
      assert units[..j][..j - 1] == units[..j - 1];
    } else {
      LossIsNotNegative(units[..j]);
    }
  }

  lemma {:induction false} LossIsNotNegative(units: seq<TradeUnit>)
    ensures 0 <= Loss(units)
  {
    if units != [] {
      LossIsNotNegative(units[..|units| - 1]);
    }
  }

  lemma {:induction false} LossGrows(units: seq<TradeUnit>, j: nat)
    requires j <= |units|
    ensures Loss(units[..j]) <= Loss(units)
  {
    if j == |units| {
      assert units[..j] == units;
    } else {
      var front := units[..|units| - 1];
      LossGrows(front, j);
      assert front[..j] == units[..j];
    }
  }

  /** No run of trades loses more than the losing trades did. */
  lemma DrawdownWithinLosses(units: seq<TradeUnit>)
    ensures WorstFall(Cumulative(units)) <= Loss(units)
  {
    var values := Cumulative(units);
    DrawdownIsQuadratic(values);
    var i: nat, j: nat :| Falls(values, i, j, WorstFall(values));
    CumulativeAt(units, i);
    CumulativeAt(units, j);
    FallWithinLosses(units, i, j);
    LossGrows(units, j);
  }

  // --- By day --------------------------------------------------------------------------

  /** The units `_summary` and `_daily_series` see are sorted by closing time. */
  ghost predicate ByClosing(units: seq<TradeUnit>) {
    forall i, j :: 0 <= i < j < |units| ==> units[i].closedAt <= units[j].closedAt
  }

  function NetOn(units: seq<TradeUnit>, day: int): int {
    if units == [] then 0
    else
      var last := units[|units| - 1];
      NetOn(units[..|units| - 1], day) + if DayOf(last.closedAt) == day then last.net else 0
  }

  function NetUpTo(units: seq<TradeUnit>, day: int): int {
    if units == [] then 0
    else
      var last := units[|units| - 1];
      NetUpTo(units[..|units| - 1], day) + if DayOf(last.closedAt) <= day then last.net else 0
  }

  function DaysOf(units: seq<TradeUnit>): set<int> {
    if units == [] then {} else DaysOf(units[..|units| - 1]) + {DayOf(units[|units| - 1].closedAt)}
  }

  lemma {:induction false} DayIsListed(units: seq<TradeUnit>, k: nat)
    requires k < |units|
    ensures DayOf(units[k].closedAt) in DaysOf(units)
  {
    if k < |units| - 1 {
      DayIsListed(units[..|units| - 1], k);
    }
  }

  /** The cumulative P&L of every day listed. */
  function DailyCumulative(units: seq<TradeUnit>, days: seq<int>): (c: seq<int>)
    ensures |c| == |days|
  {
    if days == [] then []
    else
      var earlier := DailyCumulative(units, days[..|days| - 1]);
      earlier + [At(earlier, |earlier|) + NetOn(units, days[|days| - 1])]
  }

  ghost predicate Covers(units: seq<TradeUnit>, days: seq<int>) {
    forall k :: 0 <= k < |units| ==> DayOf(units[k].closedAt) in days
  }

  function LookUp(pnl: map<int, int>, day: int): int {
    if day in pnl then pnl[day] else 0
  }

  ghost predicate Tallies(pnl: map<int, int>, units: seq<TradeUnit>) {
    pnl.Keys == DaysOf(units) && forall day :: LookUp(pnl, day) == NetOn(units, day)
  }

  lemma TallyOneMore(pnl: map<int, int>, units: seq<TradeUnit>, u: TradeUnit, more: map<int, int>)
    requires Tallies(pnl, units)
    requires more == pnl[DayOf(u.closedAt) := LookUp(pnl, DayOf(u.closedAt)) + u.net]
    ensures Tallies(more, units + [u])
  {
    assert (units + [u])[..|units|] == units;
    forall day
      ensures LookUp(more, day) == NetOn(units + [u], day)
    {
      assert LookUp(pnl, day) == NetOn(units, day);
    }
  }

  method PnlByDay(units: seq<TradeUnit>) returns (pnl: map<int, int>)
    ensures Tallies(pnl, units)
  {
    pnl := map[];
    for n := 0 to |units|
      invariant Tallies(pnl, units[..n])
    {
      var day := DayOf(units[n].closedAt);
      var more := pnl[day := (if day in pnl then pnl[day] else 0) + units[n].net];
      TallyOneMore(pnl, units[..n], units[n], more);
      assert units[..n + 1] == units[..n] + [units[n]];
      pnl := more;
    }
    assert units[..|units|] == units;
  }

  method Accumulate(pnl: map<int, int>, days: seq<int>, units: seq<TradeUnit>) returns (daily: seq<int>, cumulative: seq<int>)
    requires Tallies(pnl, units)
    ensures |daily| == |days| && forall k :: 0 <= k < |days| ==> daily[k] == NetOn(units, days[k])
    ensures cumulative == DailyCumulative(units, days)
  {
    var running := 0;
    daily, cumulative := [], [];
    for k := 0 to |days|
      invariant |daily| == k && forall i :: 0 <= i < k ==> daily[i] == NetOn(units, days[i])
      invariant cumulative == DailyCumulative(units, days[..k]) && running == At(cumulative, k)
    {
      assert days[..k + 1][..k] == days[..k];
      var today := LookUp(pnl, days[k]);
      running := running + today;
      daily := daily + [today];
      cumulative := cumulative + [running];
    }
    assert days[..|days|] == days;
  }

  /** One row a day on which something closed, or was scored or violated. */
  method DailySeries(units: seq<TradeUnit>, otherDays: set<int>)
    returns (days: seq<int>, daily: seq<int>, cumulative: seq<int>, drawdowns: seq<int>)
    ensures days == Ascending(DaysOf(units) + otherDays) && Increasing(days) && Covers(units, days)
    ensures |daily| == |days| && forall k :: 0 <= k < |days| ==> daily[k] == NetOn(units, days[k])
    ensures cumulative == DailyCumulative(units, days)
    ensures drawdowns == Depths(cumulative, |cumulative|)
  {
    var pnl := PnlByDay(units);
    days := Ascending(pnl.Keys + otherDays);
    forall k | 0 <= k < |units|
      ensures DayOf(units[k].closedAt) in days
    {
      DayIsListed(units, k);
    }
    daily, cumulative := Accumulate(pnl, days, units);
    var largest;
    drawdowns, largest := Drawdown(cumulative);
  }

  /** The `n` units closed by the end of a day are the first `n`. */
  ghost predicate ClosedBy(units: seq<TradeUnit>, day: int, n: nat) {
    && n <= |units|
    && (forall k :: 0 <= k < n ==> DayOf(units[k].closedAt) <= day)
    && (forall k :: n <= k < |units| ==> day < DayOf(units[k].closedAt))
  }

  lemma {:induction false} DaySplits(units: seq<TradeUnit>, day: int) returns (n: nat)
    requires ByClosing(units)
    ensures ClosedBy(units, day, n)
  {
    if units == [] {
      n := 0;
    } else {
      var last := |units| - 1;
      n := DaySplits(units[..last], day);
      if DayOf(units[last].closedAt) <= day {
        assert forall k :: 0 <= k < |units| ==> DayOf(units[k].closedAt) <= day;
        n := |units|;
      }
    }
  }

  lemma {:induction false} NetUpToIsTotal(units: seq<TradeUnit>, day: int, n: nat)
    requires ClosedBy(units, day, n)
    ensures NetUpTo(units, day) == Total(units[..n])
  {
    if units != [] {
      var last := |units| - 1;
      var front := units[..last];
      if n == |units| {
        NetUpToIsTotal(front, day, last);
        assert units[..n] == units && front[..last] == front;
      } else {
        NetUpToIsTotal(front, day, n);
        assert front[..n] == units[..n];
      }
    }
  }

  /** A day's P&L is what it adds, if every unit since the day before is on it. */
  lemma {:induction false} DayAdds(units: seq<TradeUnit>, before: int, day: int)
    requires before < day
    requires forall k :: 0 <= k < |units| ==> DayOf(units[k].closedAt) <= before || day <= DayOf(units[k].closedAt)
    ensures NetUpTo(units, day) == NetUpTo(units, before) + NetOn(units, day)
  {
    if units != [] {
      DayAdds(units[..|units| - 1], before, day);
    }
  }

  lemma {:induction false} FirstDayAdds(units: seq<TradeUnit>, day: int)
    requires forall k :: 0 <= k < |units| ==> day <= DayOf(units[k].closedAt)
    ensures NetUpTo(units, day) == NetOn(units, day)
  {
    if units != [] {
      FirstDayAdds(units[..|units| - 1], day);
    }
  }

  lemma NoDayBetween(units: seq<TradeUnit>, days: seq<int>, k: nat, u: nat)
    requires Covers(units, days) && Increasing(days) && k < |days| && u < |units|
    ensures days[k] <= DayOf(units[u].closedAt) || (0 < k && DayOf(units[u].closedAt) <= days[k - 1])
  {
    var j :| 0 <= j < |days| && days[j] == DayOf(units[u].closedAt);
  }

  lemma {:induction false} DailyIsNetUpTo(units: seq<TradeUnit>, days: seq<int>, k: nat)
    requires Covers(units, days) && Increasing(days) && k < |days|
    ensures DailyCumulative(units, days[..k + 1])[k] == NetUpTo(units, days[k])
  {
    assert days[..k + 1][..k] == days[..k];
    forall u | 0 <= u < |units|
      ensures days[k] <= DayOf(units[u].closedAt) || (0 < k && DayOf(units[u].closedAt) <= days[k - 1])
    {
      NoDayBetween(units, days, k, u);
    }
    if k == 0 {
      FirstDayAdds(units, days[0]);
    } else {
      DailyIsNetUpTo(units, days, k - 1);
      DayAdds(units, days[k - 1], days[k]);
    }
  }

  lemma {:induction false} DailyPrefix(units: seq<TradeUnit>, days: seq<int>, k: nat)
    requires k < |days|
    ensures DailyCumulative(units, days)[k] == DailyCumulative(units, days[..k + 1])[k]
  {
    if k + 1 == |days| {
      assert days[..k + 1] == days;
    } else {
      var front := days[..|days| - 1];
      DailyPrefix(units, front, k);
      assert front[..k + 1] == days[..k + 1];
    }
  }

  /** After each day the daily series stands where the trades stood after the
      last one closed by then. */
  lemma DailyIsATradePoint(units: seq<TradeUnit>, days: seq<int>, k: nat) returns (n: nat)
    requires ByClosing(units) && Covers(units, days) && Increasing(days) && k < |days|
    ensures ClosedBy(units, days[k], n)
    ensures DailyCumulative(units, days)[k] == At(Cumulative(units), n)
  {
    n := DaySplits(units, days[k]);
    DailyPrefix(units, days, k);
    DailyIsNetUpTo(units, days, k);
    NetUpToIsTotal(units, days[k], n);
    CumulativeAt(units, n);
  }

  lemma TradePointBefore(units: seq<TradeUnit>, days: seq<int>, i: nat) returns (n: nat)
    requires ByClosing(units) && Covers(units, days) && Increasing(days) && i <= |days|
    ensures n <= |units| && At(DailyCumulative(units, days), i) == At(Cumulative(units), n)
    ensures i == 0 ==> n == 0
    ensures i > 0 ==> ClosedBy(units, days[i - 1], n)
  {
    if i == 0 {
      n := 0;
    } else {
      n := DailyIsATradePoint(units, days, i - 1);
    }
  }

  lemma LaterDayLaterPoint(units: seq<TradeUnit>, day: int, later: int, n: nat, m: nat)
    requires day <= later && ClosedBy(units, day, n) && ClosedBy(units, later, m)
    ensures n <= m
  {
    if n > 0 {
      assert DayOf(units[n - 1].closedAt) <= day;
    }
  }

  /** Seen day by day the worst drawdown is never more than trade by trade. */
  lemma DailyDrawdownIsNoWorse(units: seq<TradeUnit>, days: seq<int>)
    requires ByClosing(units) && Covers(units, days) && Increasing(days)
    ensures WorstFall(DailyCumulative(units, days)) <= WorstFall(Cumulative(units))
  {
    var daily := DailyCumulative(units, days);
    DrawdownIsQuadratic(daily);
    var i: nat, j: nat :| Falls(daily, i, j, WorstFall(daily));
    var n := TradePointBefore(units, days, i);
    var m := TradePointBefore(units, days, j);
    if 0 < i {
      LaterDayLaterPoint(units, days[i - 1], days[j - 1], n, m);
    }
    FallIsBounded(Cumulative(units), n, m);
  }

  /** The last daily figure is the summary's net. */
  lemma DailyEndsAtNet(units: seq<TradeUnit>, days: seq<int>)
    requires ByClosing(units) && Covers(units, days) && Increasing(days) && days != []
    ensures DailyCumulative(units, days)[|days| - 1] == Total(units)
  {
    var last := |days| - 1;
    forall u | 0 <= u < |units|
      ensures DayOf(units[u].closedAt) <= days[last]
    {
      NoDayAfterTheLast(units, days, u);
    }
    var n := DailyIsATradePoint(units, days, last);
    assert n == |units|;
    CumulativeAt(units, n);
    assert units[..|units|] == units;
  }

  lemma NoDayAfterTheLast(units: seq<TradeUnit>, days: seq<int>, u: nat)
    requires Covers(units, days) && Increasing(days) && days != [] && u < |units|
    ensures DayOf(units[u].closedAt) <= days[|days| - 1]
  {
    var j :| 0 <= j < |days| && days[j] == DayOf(units[u].closedAt);
  }

  // --- By group --------------------------------------------------------------------------

  function SumOver(units: seq<TradeUnit>, worth: TradeUnit -> int): int {
    if units == [] then 0 else SumOver(units[..|units| - 1], worth) + worth(units[|units| - 1])
  }

  function GroupSum(units: seq<TradeUnit>, name: string, worth: TradeUnit -> int): int {
    if units == [] then 0
    else
      var last := units[|units| - 1];
      GroupSum(units[..|units| - 1], name, worth) + if last.name == name then worth(last) else 0
  }

  function SumOfGroups(units: seq<TradeUnit>, names: seq<string>, worth: TradeUnit -> int): int {
    if names == [] then 0 else SumOfGroups(units, names[..|names| - 1], worth) + GroupSum(units, names[|names| - 1], worth)
  }

  function Trade(): TradeUnit -> int {
    (u: TradeUnit) => 1
  }

  function Win(): TradeUnit -> int {
    (u: TradeUnit) => if u.net > 0 then 1 else 0
  }

  function Net(): TradeUnit -> int {
    (u: TradeUnit) => u.net
  }

  lemma {:induction false} NetsMakeTheTotal(units: seq<TradeUnit>)
    ensures SumOver(units, Net()) == Total(units)
  {
    if units != [] {
      NetsMakeTheTotal(units[..|units| - 1]);
    }
  }

  lemma {:induction false} TradesMakeTheCount(units: seq<TradeUnit>)
    ensures SumOver(units, Trade()) == |units|
  {
    if units != [] {
      TradesMakeTheCount(units[..|units| - 1]);
    }
  }

  ghost predicate Distinct(names: seq<string>) {
    forall i, j :: 0 <= i < j < |names| ==> names[i] != names[j]
  }

  lemma GroupGains(units: seq<TradeUnit>, u: TradeUnit, name: string, worth: TradeUnit -> int)
    ensures GroupSum(units + [u], name, worth) == GroupSum(units, name, worth) + if u.name == name then worth(u) else 0
  {
    assert (units + [u])[..|units|] == units;
  }

  /** One more unit counts once, where its name is listed. */
  lemma {:induction false} GroupsGain(units: seq<TradeUnit>, u: TradeUnit, names: seq<string>, worth: TradeUnit -> int)
    requires Distinct(names)
    ensures SumOfGroups(units + [u], names, worth) == SumOfGroups(units, names, worth) + if u.name in names then worth(u) else 0
  {
    if names != [] {
      var front, last := names[..|names| - 1], names[|names| - 1];
      GroupsGain(units, u, front, worth);
      GroupGains(units, u, last, worth);
      assert names == front + [last] && last !in front;
    }
  }

  lemma {:induction false} NoUnitsNoGroups(names: seq<string>, worth: TradeUnit -> int)
    ensures SumOfGroups([], names, worth) == 0
  {
    if names != [] {
      NoUnitsNoGroups(names[..|names| - 1], worth);
    }
  }

  /** Whatever is added up, however it is grouped and however the rows are
      ordered, the groups together make the whole. */
  lemma {:induction false} GroupsSumToWhole(units: seq<TradeUnit>, names: seq<string>, worth: TradeUnit -> int)
    requires Distinct(names) && forall k :: 0 <= k < |units| ==> units[k].name in names
    ensures SumOfGroups(units, names, worth) == SumOver(units, worth)
  {
    if units == [] {
      NoUnitsNoGroups(names, worth);
    } else {
      var front, last := units[..|units| - 1], units[|units| - 1];
      GroupsSumToWhole(front, names, worth);
      assert units == front + [last];
      GroupsGain(front, last, names, worth);
    }
  }

  datatype Group = Group(trades: int, wins: int, net: int)

  const NO_TRADES := Group(0, 0, 0)

  function GroupOf(units: seq<TradeUnit>, name: string): Group {
    Group(GroupSum(units, name, Trade()), GroupSum(units, name, Win()), GroupSum(units, name, Net()))
  }

  function Joined(g: Group, u: TradeUnit): Group {
    Group(g.trades + 1, g.wins + (if u.net > 0 then 1 else 0), g.net + u.net)
  }

  lemma OneMoreJoins(units: seq<TradeUnit>, n: nat, name: string)
    requires n < |units|
    ensures GroupOf(units[..n + 1], name)
            == if units[n].name == name then Joined(GroupOf(units[..n], name), units[n]) else GroupOf(units[..n], name)
  {
    assert units[..n + 1][..n] == units[..n];
  }

  ghost predicate Grouped(groups: map<string, Group>, units: seq<TradeUnit>) {
    forall name :: (if name in groups then groups[name] else NO_TRADES) == GroupOf(units, name)
  }

  // --- The order of the rows ---------------------------------------------------------------

  datatype Row = Row(name: string, group: Group, average: int)

  function Average(g: Group): int
    requires g.trades > 0
  {
    Rounding.HalfUp(g.net as real / g.trades as real)
  }

  function Times(x: real, n: int): real {
    x * n as real
  }

  /** The paisa nearest to `net` shared among so many, ties away from nothing. */
  ghost predicate NearestShare(average: int, net: int, trades: int) {
    if 0 <= net then Times(average as real - 0.5, trades) <= net as real < Times(average as real + 0.5, trades)
    else Times(average as real - 0.5, trades) < net as real <= Times(average as real + 0.5, trades)
  }

  lemma TimesKeepsOrder(x: real, y: real, n: int)
    requires n > 0
    ensures x <= y ==> Times(x, n) <= Times(y, n)
    ensures x < y ==> Times(x, n) < Times(y, n)
  {
    if x < y {
      assert 0.0 < (y - x) * n as real;
    }
  }

  lemma SharesOut(x: real, n: int, net: int, trades: int)
    requires trades > 0 && x == net as real / trades as real && n == Rounding.HalfUp(x)
    ensures NearestShare(n, net, trades)
  {
    assert Times(x, trades) == net as real;
    assert 0.0 <= x <==> 0 <= net;
    TimesKeepsOrder(n as real - 0.5, x, trades);
    TimesKeepsOrder(x, n as real + 0.5, trades);
  }

  lemma AverageIsNearest(g: Group)
    requires g.trades > 0
    ensures NearestShare(Average(g), g.net, g.trades)
  {
    SharesOut(g.net as real / g.trades as real, Average(g), g.net, g.trades);
  }

  ghost predicate IsRowOf(units: seq<TradeUnit>, r: Row) {
    r.group == GroupOf(units, r.name) && r.group.trades > 0 && NearestShare(r.average, r.group.net, r.group.trades)
  }

  ghost predicate RowsOf(units: seq<TradeUnit>, rows: seq<Row>) {
    forall k :: 0 <= k < |rows| ==> IsRowOf(units, rows[k])
  }

  ghost predicate Appears(units: seq<TradeUnit>, name: string) {
    exists k :: 0 <= k < |units| && units[k].name == name
  }

  ghost predicate SeenBefore(units: seq<TradeUnit>, name: string, other: string) {
    exists k :: 0 <= k < |units| && units[k].name == name && forall m :: 0 <= m <= k ==> units[m].name != other
  }

  ghost predicate InOrderSeen(units: seq<TradeUnit>, names: seq<string>) {
    forall i, j :: 0 <= i < j < |names| ==> SeenBefore(units, names[i], names[j])
  }

  predicate Below(r: Row, other: Row) {
    r.group.net < other.group.net || (r.group.net == other.group.net && r.group.trades < other.group.trades)
  }

  /** Better result first, then more trades, then the label met first. */
  ghost predicate Outranks(units: seq<TradeUnit>, r: Row, other: Row) {
    || other.group.net < r.group.net
    || (other.group.net == r.group.net && other.group.trades < r.group.trades)
    || (other.group.net == r.group.net && other.group.trades == r.group.trades && SeenBefore(units, r.name, other.name))
  }

  ghost predicate InOrder(units: seq<TradeUnit>, rows: seq<Row>) {
    forall i, j :: 0 <= i < j < |rows| ==> Outranks(units, rows[i], rows[j])
  }

  /** Behind every row that is not below it. */
  function Insert(rows: seq<Row>, r: Row): (result: seq<Row>)
    ensures multiset(result) == multiset(rows) + multiset{r}
  {
    if rows == [] || !Below(rows[|rows| - 1], r) then rows + [r]
    else
      assert rows == rows[..|rows| - 1] + [rows[|rows| - 1]];
      Insert(rows[..|rows| - 1], r) + [rows[|rows| - 1]]
  }

  /** sorted(rows, key, reverse=True), which is stable. */
  function Ranked(rows: seq<Row>): (result: seq<Row>)
    ensures multiset(result) == multiset(rows)
  {
    if rows == [] then []
    else
      assert rows == rows[..|rows| - 1] + [rows[|rows| - 1]];
      Insert(Ranked(rows[..|rows| - 1]), rows[|rows| - 1])
  }

  lemma SameMembers(rows: seq<Row>, others: seq<Row>)
    requires multiset(rows) == multiset(others)
    ensures |rows| == |others| && forall r :: r in rows <==> r in others
  {
    assert |multiset(rows)| == |multiset(others)|;
    assert forall r :: r in rows <==> r in multiset(rows);
    assert forall r :: r in others <==> r in multiset(others);
  }

  lemma NotBelowTheLast(units: seq<TradeUnit>, rows: seq<Row>, r: Row)
    requires InOrder(units, rows) && forall s :: s in rows ==> SeenBefore(units, s.name, r.name)
    requires rows == [] || !Below(rows[|rows| - 1], r)
    ensures InOrder(units, rows + [r])
  {
    forall k | 0 <= k < |rows|
      ensures Outranks(units, rows[k], r)
    {
      assert k < |rows| - 1 ==> Outranks(units, rows[k], rows[|rows| - 1]);
      assert rows[k] in rows;
    }
  }

  lemma OneBehind(units: seq<TradeUnit>, rows: seq<Row>, last: Row)
    requires InOrder(units, rows) && forall s :: s in rows ==> Outranks(units, s, last)
    ensures InOrder(units, rows + [last])
  {
  }

  lemma {:induction false} InsertKeepsOrder(units: seq<TradeUnit>, rows: seq<Row>, r: Row)
    requires InOrder(units, rows) && forall s :: s in rows ==> SeenBefore(units, s.name, r.name)
    ensures InOrder(units, Insert(rows, r))
  {
    if rows != [] && Below(rows[|rows| - 1], r) {
      var front, last := rows[..|rows| - 1], rows[|rows| - 1];
      InsertKeepsOrder(units, front, r);
      forall s | s in Insert(front, r)
        ensures Outranks(units, s, last)
      {
        assert s in multiset(front) + multiset{r};
      }
      OneBehind(units, Insert(front, r), last);
    } else {
      NotBelowTheLast(units, rows, r);
    }
  }

  function Labels(rows: seq<Row>): (names: seq<string>)
    ensures |names| == |rows| && forall k :: 0 <= k < |rows| ==> names[k] == rows[k].name
  {
    if rows == [] then [] else Labels(rows[..|rows| - 1]) + [rows[|rows| - 1].name]
  }

  lemma {:induction false} RankedIsInOrder(units: seq<TradeUnit>, rows: seq<Row>)
    requires InOrderSeen(units, Labels(rows))
    ensures InOrder(units, Ranked(rows))
  {
    if rows != [] {
      var front, last := rows[..|rows| - 1], rows[|rows| - 1];
      assert forall i :: 0 <= i < |rows| ==> Labels(rows)[i] == rows[i].name;
      RankedIsInOrder(units, front);
      SameMembers(Ranked(front), front);
      assert forall s :: s in front ==> SeenBefore(units, s.name, last.name);
      InsertKeepsOrder(units, Ranked(front), last);
    }
  }

  /** Rows in order are rows of different labels. */
  lemma OrderedRowsDiffer(units: seq<TradeUnit>, rows: seq<Row>)
    requires InOrder(units, rows) && RowsOf(units, rows)
    ensures Distinct(Labels(rows))
  {
    forall i, j | 0 <= i < j < |rows|
      ensures Labels(rows)[i] != Labels(rows)[j]
    {
      assert Outranks(units, rows[i], rows[j]);
    }
  }

  ghost predicate NamesOf(units: seq<TradeUnit>, names: seq<string>) {
    forall name :: name in names <==> Appears(units, name)
  }

  lemma AppearsInMore(units: seq<TradeUnit>, n: nat, name: string)
    requires n < |units|
    ensures Appears(units[..n + 1], name) <==> Appears(units[..n], name) || units[n].name == name
  {
    if Appears(units[..n], name) {
      var k :| 0 <= k < n && units[..n][k].name == name;
      assert units[..n + 1][k].name == name;
    }
    if units[n].name == name {
      assert units[..n + 1][n].name == name;
    }
  }

  lemma NewNameComesLast(units: seq<TradeUnit>, names: seq<string>, n: nat, name: string)
    requires n < |units| && InOrderSeen(units, names) && NamesOf(units[..n], names) && name !in names && units[n].name == name
    ensures InOrderSeen(units, names + [name])
  {
    forall m | 0 <= m < n
      ensures units[m].name != name
    {
      assert units[..n][m].name == units[m].name;
    }
    forall i | 0 <= i < |names|
      ensures SeenBefore(units, names[i], name)
    {
      assert Appears(units[..n], names[i]);
      var k :| 0 <= k < n && units[..n][k].name == names[i];
      assert units[k].name == names[i];
    }
  }

  lemma OneMoreUnit(units: seq<TradeUnit>, n: nat, names: seq<string>, groups: map<string, Group>)
    requires n < |units| && NamesOf(units[..n], names) && Grouped(groups, units[..n])
    ensures var u := units[n];
            && NamesOf(units[..n + 1], if u.name in names then names else names + [u.name])
            && Grouped(groups[u.name := Joined(if u.name in groups then groups[u.name] else NO_TRADES, u)], units[..n + 1])
  {
    forall name
      ensures GroupOf(units[..n + 1], name)
              == if units[n].name == name then Joined(GroupOf(units[..n], name), units[n]) else GroupOf(units[..n], name)
      ensures Appears(units[..n + 1], name) <==> Appears(units[..n], name) || units[n].name == name
    {
      OneMoreJoins(units, n, name);
      AppearsInMore(units, n, name);
    }
  }

  /** The labels in order of first appearance, with their figures. */
  method Gather(units: seq<TradeUnit>) returns (names: seq<string>, groups: map<string, Group>)
    ensures InOrderSeen(units, names) && NamesOf(units, names)
    ensures forall name :: name in groups <==> name in names
    ensures forall name :: name in groups ==> groups[name] == GroupOf(units, name) && groups[name].trades > 0
  {
    names, groups := [], map[];
    for n := 0 to |units|
      invariant InOrderSeen(units, names) && NamesOf(units[..n], names)
      invariant forall name :: name in groups <==> name in names
      invariant Grouped(groups, units[..n]) && forall name :: name in groups ==> groups[name].trades > 0
    {
      OneMoreUnit(units, n, names, groups);
      var name := units[n].name;
      if name !in groups {
        NewNameComesLast(units, names, n, name);
        names := names + [name];
        groups := groups[name := NO_TRADES];
      }
      groups := groups[name := Joined(groups[name], units[n])];
    }
    assert units[..|units|] == units;
  }

  lemma RowsMakeTheWhole(units: seq<TradeUnit>, names: seq<string>)
    requires Distinct(names) && NamesOf(units, names)
    ensures SumOfGroups(units, names, Trade()) == |units| && SumOfGroups(units, names, Net()) == Total(units)
  {
    forall k | 0 <= k < |units|
      ensures units[k].name in names
    {
      assert Appears(units, units[k].name);
    }
    GroupsSumToWhole(units, names, Trade());
    GroupsSumToWhole(units, names, Net());
    TradesMakeTheCount(units);
    NetsMakeTheTotal(units);
  }

  lemma SameLabels(rows: seq<Row>, others: seq<Row>)
    requires forall r :: r in rows ==> r in others
    ensures forall name :: name in Labels(rows) ==> name in Labels(others)
  {
    forall name | name in Labels(rows)
      ensures name in Labels(others)
    {
      var j :| 0 <= j < |rows| && Labels(rows)[j] == name;
      assert rows[j] in others;
      var k :| 0 <= k < |others| && others[k] == rows[j];
      assert Labels(others)[k] == name;
    }
  }

  lemma RankedRows(units: seq<TradeUnit>, rows: seq<Row>)
    requires RowsOf(units, rows) && InOrderSeen(units, Labels(rows)) && NamesOf(units, Labels(rows))
    ensures RowsOf(units, Ranked(rows)) && InOrder(units, Ranked(rows))
    ensures NamesOf(units, Labels(Ranked(rows))) && Distinct(Labels(Ranked(rows)))
  {
    RankedIsInOrder(units, rows);
    SameMembers(Ranked(rows), rows);
    SameLabels(rows, Ranked(rows));
    SameLabels(Ranked(rows), rows);
    assert forall k :: 0 <= k < |Ranked(rows)| ==> Ranked(rows)[k] in rows;
    OrderedRowsDiffer(units, Ranked(rows));
  }

  ghost predicate Begun(units: seq<TradeUnit>, rows: seq<Row>, names: seq<string>, n: nat) {
    n <= |names| && Labels(rows) == names[..n] && RowsOf(units, rows)
  }

  lemma OneMoreRow(units: seq<TradeUnit>, rows: seq<Row>, names: seq<string>, n: nat, r: Row)
    requires n < |names| && Begun(units, rows, names, n) && r.name == names[n]
    requires IsRowOf(units, r)
    ensures Begun(units, rows + [r], names, n + 1)
  {
    assert (rows + [r])[..|rows|] == rows;
    assert names[..n + 1] == names[..n] + [names[n]];
  }

  method RowsByLabel(units: seq<TradeUnit>) returns (rows: seq<Row>)
    ensures RowsOf(units, rows) && InOrderSeen(units, Labels(rows)) && NamesOf(units, Labels(rows))
  {
    var names, groups := Gather(units);
    rows := [];
    for n := 0 to |names|
      invariant Begun(units, rows, names, n)
    {
      assert names[n] in groups;
      var group := groups[names[n]];
      var row := Row(names[n], group, Average(group));
      AverageIsNearest(group);
      OneMoreRow(units, rows, names, n, row);
      rows := rows + [row];
    }
    assert names[..|names|] == names;
  }

  /** One row a label, best result first. */
  method GroupPerformance(units: seq<TradeUnit>) returns (rows: seq<Row>)
    ensures RowsOf(units, rows) && NamesOf(units, Labels(rows))
    ensures Distinct(Labels(rows)) && InOrder(units, rows)
    ensures SumOfGroups(units, Labels(rows), Trade()) == |units|
    ensures SumOfGroups(units, Labels(rows), Net()) == Total(units)
  {
    rows := RowsByLabel(units);
    RankedRows(units, rows);
    rows := Ranked(rows);
    RowsMakeTheWhole(units, Labels(rows));
  }
}
