/** options/math.py, max pain: the price at which option writers pay least.
    Prices and open interest are reals. */
module MaxPain {
  import opened Wrappers

  datatype Side = CE | PE

  datatype ChainRow = ChainRow(strike: real, side: Side, oi: real)

  function Above(x: real): real {
    if x > 0.0 then x else 0.0
  }

  function RowPain(row: ChainRow, price: real): real {
    row.oi * Above(if row.side == CE then price - row.strike else row.strike - price)
  }

  function Pain(rows: seq<ChainRow>, price: real): real {
    if rows == [] then 0.0 else Pain(rows[..|rows| - 1], price) + RowPain(rows[|rows| - 1], price)
  }

  /** What one side of the chain pays at `price`. */
  function SidePain(rows: seq<ChainRow>, side: Side, price: real): real {
    if rows == [] then 0.0
    else
      var last := rows[|rows| - 1];
      SidePain(rows[..|rows| - 1], side, price) + if last.side == side then RowPain(last, price) else 0.0
  }

  lemma {:induction false} SidesMakePain(rows: seq<ChainRow>, price: real)
    ensures SidePain(rows, CE, price) + SidePain(rows, PE, price) == Pain(rows, price)
  {
    if rows != [] {
      SidesMakePain(rows[..|rows| - 1], price);
    }
  }

  ghost predicate FirstMinimiser(rows: seq<ChainRow>, strikes: seq<real>, n: nat, i: nat) {
    && i < n <= |strikes|
    && (forall j :: 0 <= j < n ==> Pain(rows, strikes[i]) <= Pain(rows, strikes[j]))
    && (forall j :: 0 <= j < i ==> Pain(rows, strikes[i]) < Pain(rows, strikes[j]))
  }

  // --- Every price, not only the listed ones -------------------------------------

  ghost predicate Listed(rows: seq<ChainRow>, strikes: seq<real>) {
    forall k :: 0 <= k < |rows| ==> rows[k].strike in strikes
  }

  ghost predicate NonNegativeOi(rows: seq<ChainRow>) {
    forall k :: 0 <= k < |rows| ==> 0.0 <= rows[k].oi
  }

  /** No row's strike lies strictly between. */
  ghost predicate Clear(rows: seq<ChainRow>, low: real, high: real) {
    forall k :: 0 <= k < |rows| ==> rows[k].strike <= low || high <= rows[k].strike
  }

  // --- The open interest on either side of a price -----------------------------------

  function Under(k: real): real -> bool {
    (strike: real) => strike < k
  }

  function UpTo(k: real): real -> bool {
    (strike: real) => strike <= k
  }

  function StartingAt(k: real): real -> bool {
    (strike: real) => k <= strike
  }

  function Over(k: real): real -> bool {
    (strike: real) => k < strike
  }

  /** The open interest of one side whose strikes lie there. */
  function OiOf(rows: seq<ChainRow>, side: Side, there: real -> bool): real {
    if rows == [] then 0.0
    else
      var last := rows[|rows| - 1];
      OiOf(rows[..|rows| - 1], side, there) + if last.side == side && there(last.strike) then last.oi else 0.0
  }

  /** Calls below are no more than puts from here up, and puts above no more
      than calls from here down. */
  ghost predicate Balanced(rows: seq<ChainRow>, k: real) {
    && OiOf(rows, CE, Under(k)) <= OiOf(rows, PE, StartingAt(k))
    && OiOf(rows, PE, Over(k)) <= OiOf(rows, CE, UpTo(k))
  }

  /** Going up by `step` costs at least as much more as this, and exactly that
      before the next strike. */
  function UpSlope(rows: seq<ChainRow>, k: real): real {
    OiOf(rows, CE, UpTo(k)) - OiOf(rows, PE, Over(k))
  }

  function DownSlope(rows: seq<ChainRow>, k: real): real {
    OiOf(rows, PE, StartingAt(k)) - OiOf(rows, CE, Under(k))
  }

  function Change(slope: real, step: real): real {
    slope * step
  }

  lemma ChangesAdd(slope: real, more: real, step: real)
    ensures Change(slope + more, step) == Change(slope, step) + Change(more, step)
  {
  }

  function RowUpSlope(row: ChainRow, k: real): real {
    if row.side == CE && row.strike <= k then row.oi else if row.side == PE && k < row.strike then -row.oi else 0.0
  }

  function RowDownSlope(row: ChainRow, k: real): real {
    if row.side == PE && k <= row.strike then row.oi else if row.side == CE && row.strike < k then -row.oi else 0.0
  }

  lemma SlopesAdd(rows: seq<ChainRow>, k: real)
    requires rows != []
    ensures UpSlope(rows, k) == UpSlope(rows[..|rows| - 1], k) + RowUpSlope(rows[|rows| - 1], k)
    ensures DownSlope(rows, k) == DownSlope(rows[..|rows| - 1], k) + RowDownSlope(rows[|rows| - 1], k)
  {
  }

  lemma ScaledSum(oi: real, a: real, b: real, c: real)
    requires c == a + b
    ensures oi * c == oi * a + oi * b && (-oi) * -b == oi * b
  {
  }

  lemma ScaleUp(x: real, y: real, c: real)
    requires x <= y && 0.0 <= c
    ensures c * x <= c * y
  {
    assert 0.0 <= (y - x) * c;
  }

  lemma RowUpTo(row: ChainRow, k: real, x: real)
    requires k <= x && (row.strike <= k || x <= row.strike)
    ensures RowPain(row, x) == RowPain(row, k) + Change(RowUpSlope(row, k), x - k)
  {
    if row.side == CE && row.strike <= k {
      assert RowPain(row, k) == row.oi * (k - row.strike) && RowPain(row, x) == row.oi * (x - row.strike);
      ScaledSum(row.oi, k - row.strike, x - k, x - row.strike);
    } else if row.side == PE && k < row.strike {
      assert RowPain(row, k) == row.oi * (row.strike - k) && RowPain(row, x) == row.oi * (row.strike - x);
      ScaledSum(row.oi, row.strike - k, k - x, row.strike - x);
    } else {
      assert RowPain(row, k) == 0.0 && RowPain(row, x) == 0.0;
    }
  }

  lemma RowDownTo(row: ChainRow, k: real, x: real)
    requires x <= k && (row.strike <= x || k <= row.strike)
    ensures RowPain(row, x) == RowPain(row, k) + Change(RowDownSlope(row, k), k - x)
  {
    if row.side == PE && k <= row.strike {
      assert RowPain(row, k) == row.oi * (row.strike - k) && RowPain(row, x) == row.oi * (row.strike - x);
      ScaledSum(row.oi, row.strike - k, k - x, row.strike - x);
    } else if row.side == CE && row.strike < k {
      assert RowPain(row, k) == row.oi * (k - row.strike) && RowPain(row, x) == row.oi * (x - row.strike);
      ScaledSum(row.oi, k - row.strike, x - k, x - row.strike);
    } else {
      assert RowPain(row, k) == 0.0 && RowPain(row, x) == 0.0;
    }
  }

  lemma RowGoingUp(row: ChainRow, k: real, x: real)
    requires k <= x && 0.0 <= row.oi
    ensures RowPain(row, k) + Change(RowUpSlope(row, k), x - k) <= RowPain(row, x)
  {
    if row.strike <= k || x <= row.strike {
      RowUpTo(row, k, x);
    } else if row.side == PE {
      ScaledSum(row.oi, row.strike - k, k - x, row.strike - x);
      ScaleUp(row.strike - x, 0.0, row.oi);
    } else {
      ScaleUp(0.0, x - row.strike, row.oi);
    }
  }

  lemma RowGoingDown(row: ChainRow, k: real, x: real)
    requires x <= k && 0.0 <= row.oi
    ensures RowPain(row, k) + Change(RowDownSlope(row, k), k - x) <= RowPain(row, x)
  {
    if row.strike <= x || k <= row.strike {
      RowDownTo(row, k, x);
    } else if row.side == CE {
      ScaledSum(row.oi, k - row.strike, x - k, x - row.strike);
      ScaleUp(x - row.strike, 0.0, row.oi);
    } else {
      ScaleUp(0.0, row.strike - x, row.oi);
    }
  }

  /** Up to the next strike pain changes by the slope, */
  lemma {:induction false} UpToTheNext(rows: seq<ChainRow>, k: real, x: real)
    requires k <= x && Clear(rows, k, x)
    ensures Pain(rows, x) == Pain(rows, k) + Change(UpSlope(rows, k), x - k)
  {
    if rows != [] {
      var front, row := rows[..|rows| - 1], rows[|rows| - 1];
      UpToTheNext(front, k, x);
      RowUpTo(row, k, x);
      SlopesAdd(rows, k);
      ChangesAdd(UpSlope(front, k), RowUpSlope(row, k), x - k);
    }
  }

  lemma {:induction false} DownToTheNext(rows: seq<ChainRow>, k: real, x: real)
    requires x <= k && Clear(rows, x, k)
    ensures Pain(rows, x) == Pain(rows, k) + Change(DownSlope(rows, k), k - x)
  {
    if rows != [] {
      var front, row := rows[..|rows| - 1], rows[|rows| - 1];
      DownToTheNext(front, k, x);
      RowDownTo(row, k, x);
      SlopesAdd(rows, k);
      ChangesAdd(DownSlope(front, k), RowDownSlope(row, k), k - x);
    }
  }

  /** and beyond it by no less. */
  lemma {:induction false} GoingUp(rows: seq<ChainRow>, k: real, x: real)
    requires NonNegativeOi(rows) && k <= x
    ensures Pain(rows, k) + Change(UpSlope(rows, k), x - k) <= Pain(rows, x)
  {
    if rows != [] {
      var front, row := rows[..|rows| - 1], rows[|rows| - 1];
      GoingUp(front, k, x);
      RowGoingUp(row, k, x);
      SlopesAdd(rows, k);
      ChangesAdd(UpSlope(front, k), RowUpSlope(row, k), x - k);
    }
  }

  lemma {:induction false} GoingDown(rows: seq<ChainRow>, k: real, x: real)
    requires NonNegativeOi(rows) && x <= k
    ensures Pain(rows, k) + Change(DownSlope(rows, k), k - x) <= Pain(rows, x)
  {
    if rows != [] {
      var front, row := rows[..|rows| - 1], rows[|rows| - 1];
      GoingDown(front, k, x);
      RowGoingDown(row, k, x);
      SlopesAdd(rows, k);
      ChangesAdd(DownSlope(front, k), RowDownSlope(row, k), k - x);
    }
  }

  /** The point (`x`, `y`) lies on the line through the other two. */
  ghost predicate OnTheLine(x: real, y: real, low: real, start: real, high: real, end: real) {
    y * (high - low) == start * (high - x) + end * (x - low)
  }

  lemma OneSlope(start: real, mid: real, end: real, slope: real, low: real, price: real, high: real)
    requires mid == start + Change(slope, price - low) && end == start + Change(slope, high - low)
    ensures OnTheLine(price, mid, low, start, high, end)
  {
    var part, whole := price - low, high - low;
    assert (slope * part) * whole == (slope * whole) * part;
    assert whole - part == high - price;
  }

  /** Between neighbouring strikes pain is a straight line. */
  lemma PainIsAffine(rows: seq<ChainRow>, low: real, price: real, high: real)
    requires low <= price <= high && Clear(rows, low, high)
    ensures OnTheLine(price, Pain(rows, price), low, Pain(rows, low), high, Pain(rows, high))
  {
    UpToTheNext(rows, low, price);
    UpToTheNext(rows, low, high);
    OneSlope(Pain(rows, low), Pain(rows, price), Pain(rows, high), UpSlope(rows, low), low, price, high);
  }

  // --- The best of all prices -------------------------------------------------------

  /** The next strike up, or any price up there where there is none. */
  lemma {:induction false} NextUp(rows: seq<ChainRow>, k: real) returns (x: real, j: Option<nat>)
    ensures k < x && Clear(rows, k, x)
    ensures j.Some? ==> j.value < |rows| && rows[j.value].strike == x
    ensures j.None? ==> forall i :: 0 <= i < |rows| ==> rows[i].strike <= k
  {
    x, j := k + 1.0, None;
    if rows != [] {
      var n := |rows| - 1;
      x, j := NextUp(rows[..n], k);
      if k < rows[n].strike && (j.None? || rows[n].strike < x) {
        x, j := rows[n].strike, Some(n);
      }
    }
  }

  lemma {:induction false} NextDown(rows: seq<ChainRow>, k: real) returns (x: real, j: Option<nat>)
    ensures x < k && Clear(rows, x, k)
    ensures j.Some? ==> j.value < |rows| && rows[j.value].strike == x
    ensures j.None? ==> forall i :: 0 <= i < |rows| ==> k <= rows[i].strike
  {
    x, j := k - 1.0, None;
    if rows != [] {
      var n := |rows| - 1;
      x, j := NextDown(rows[..n], k);
      if rows[n].strike < k && (j.None? || x < rows[n].strike) {
        x, j := rows[n].strike, Some(n);
      }
    }
  }

  lemma SignOfChange(slope: real, step: real)
    requires 0.0 < step
    ensures 0.0 <= Change(slope, step) <==> 0.0 <= slope
  {
    if 0.0 <= slope {
      assert 0.0 <= slope * step;
    } else {
      assert 0.0 < (-slope) * step;
    }
  }

  lemma {:induction false} OiIsNotNegative(rows: seq<ChainRow>, side: Side, there: real -> bool)
    requires NonNegativeOi(rows)
    ensures 0.0 <= OiOf(rows, side, there)
  {
    if rows != [] {
      OiIsNotNegative(rows[..|rows| - 1], side, there);
    }
  }

  lemma {:induction false} NoneThere(rows: seq<ChainRow>, side: Side, there: real -> bool)
    requires forall j :: 0 <= j < |rows| ==> !there(rows[j].strike)
    ensures OiOf(rows, side, there) == 0.0
  {
    if rows != [] {
      NoneThere(rows[..|rows| - 1], side, there);
    }
  }

  /** It costs no less at any price a row is struck at. */
  ghost predicate LeastOfStruck(rows: seq<ChainRow>, k: real) {
    forall j :: 0 <= j < |rows| ==> Pain(rows, k) <= Pain(rows, rows[j].strike)
  }

  lemma LeastIsBalanced(rows: seq<ChainRow>, k: real)
    requires NonNegativeOi(rows) && LeastOfStruck(rows, k)
    ensures Balanced(rows, k)
  {
    var up, above := NextUp(rows, k);
    var down, below := NextDown(rows, k);
    UpToTheNext(rows, k, up);
    DownToTheNext(rows, k, down);
    SignOfChange(UpSlope(rows, k), up - k);
    SignOfChange(DownSlope(rows, k), k - down);
    if above.None? {
      NoneThere(rows, PE, Over(k));
      OiIsNotNegative(rows, CE, UpTo(k));
    }
    if below.None? {
      NoneThere(rows, CE, Under(k));
      OiIsNotNegative(rows, PE, StartingAt(k));
    }
  }

  lemma BalancedIsLeast(rows: seq<ChainRow>, k: real, x: real)
    requires NonNegativeOi(rows) && Balanced(rows, k)
    ensures Pain(rows, k) <= Pain(rows, x)
  {
    if k < x {
      GoingUp(rows, k, x);
      SignOfChange(UpSlope(rows, k), x - k);
    } else if x < k {
      GoingDown(rows, k, x);
      SignOfChange(DownSlope(rows, k), k - x);
    }
  }

  lemma FoundIsLeastOfStruck(rows: seq<ChainRow>, strikes: seq<real>, i: nat)
    requires Listed(rows, strikes) && FirstMinimiser(rows, strikes, |strikes|, i)
    ensures LeastOfStruck(rows, strikes[i])
  {
    forall j | 0 <= j < |rows|
      ensures Pain(rows, strikes[i]) <= Pain(rows, rows[j].strike)
    {
      var n :| 0 <= n < |strikes| && strikes[n] == rows[j].strike;
    }
  }

  /** With non-negative open interest and a list that holds every row's strike,
      as its callers build it, the strike found is the best of all prices. */
  lemma BestOfAllPrices(rows: seq<ChainRow>, strikes: seq<real>, i: nat, price: real)
    requires NonNegativeOi(rows) && Listed(rows, strikes) && FirstMinimiser(rows, strikes, |strikes|, i)
    ensures Pain(rows, strikes[i]) <= Pain(rows, price)
  {
    FoundIsLeastOfStruck(rows, strikes, i);
    LeastIsBalanced(rows, strikes[i]);
    BalancedIsLeast(rows, strikes[i], price);
  }

  ghost predicate FirstBalanced(rows: seq<ChainRow>, strikes: seq<real>, i: nat) {
    i < |strikes| && Balanced(rows, strikes[i]) && forall j :: 0 <= j < i ==> !Balanced(rows, strikes[j])
  }

  /** In open interest: it is the first one listed at which the calls struck
      below are no more than the puts at or above, and the puts above no more
      than the calls at or below. */
  lemma FirstBalancedStrikeIff(rows: seq<ChainRow>, strikes: seq<real>, i: nat)
    requires NonNegativeOi(rows) && Listed(rows, strikes) && i < |strikes|
    ensures FirstMinimiser(rows, strikes, |strikes|, i)
            <==> FirstBalanced(rows, strikes, i)
  {
    if FirstMinimiser(rows, strikes, |strikes|, i) {
      FoundIsLeastOfStruck(rows, strikes, i);
      LeastIsBalanced(rows, strikes[i]);
      forall j | 0 <= j < i
        ensures !Balanced(rows, strikes[j])
      {
        if Balanced(rows, strikes[j]) {
          BalancedIsLeast(rows, strikes[j], strikes[i]);
        }
      }
    } else if Balanced(rows, strikes[i]) {
      var j :| 0 <= j < |strikes| && (Pain(rows, strikes[j]) < Pain(rows, strikes[i])
                                      || (j < i && Pain(rows, strikes[j]) <= Pain(rows, strikes[i])));
      BalancedIsLeast(rows, strikes[i], strikes[j]);
      forall n | 0 <= n < |rows|
        ensures Pain(rows, strikes[j]) <= Pain(rows, rows[n].strike)
      {
        BalancedIsLeast(rows, strikes[i], rows[n].strike);
      }
      LeastIsBalanced(rows, strikes[j]);
    }
  }

  /** The first of the listed strikes with the least pain, and nought for none; on
      the lists its callers build, the first that balances. */
  method FindMaxPain(rows: seq<ChainRow>, strikes: seq<real>) returns (best: real, ghost index: nat)
    ensures strikes == [] ==> best == 0.0
    ensures strikes != [] ==> FirstMinimiser(rows, strikes, |strikes|, index) && best == strikes[index]
    ensures strikes != [] && NonNegativeOi(rows) && Listed(rows, strikes) ==> FirstBalanced(rows, strikes, index)
  {
    index := 0;
    if strikes == [] {
      return 0.0, 0;
    }
    best := strikes[0];
    var bestPain: Option<real> := None;
    for n := 0 to |strikes|
      invariant n == 0 ==> bestPain.None?
      invariant n > 0 ==> FirstMinimiser(rows, strikes, n, index) && best == strikes[index] && bestPain == Some(Pain(rows, best))
    {
      var pain := SidePain(rows, CE, strikes[n]) + SidePain(rows, PE, strikes[n]);
      SidesMakePain(rows, strikes[n]);
      if bestPain.None? || pain < bestPain.value {
        bestPain, best, index := Some(pain), strikes[n], n;
      }
    }
    if NonNegativeOi(rows) && Listed(rows, strikes) {
      FirstBalancedStrikeIff(rows, strikes, index);
    }
  }
}
