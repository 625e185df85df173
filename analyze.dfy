/** The analytics over a downloaded options chain: put/call ratios per
    expiration, the max-pain strike, the unusual-activity filter, the overall
    totals of the summary sheet, and the required-column check that guards it
    all. The table is the sequence of its rows. */
module Analyze {
  import opened Wrappers
  import opened Chain
  import Sorting

  // ---------------------------------------------------------------------
  // Orders
  // ---------------------------------------------------------------------

  /** Python's string comparison: lexicographic by character code. ISO dates
      compare in calendar order this way. */
  predicate StringLess(a: string, b: string) {
    if a == [] then b != []
    else b != [] && (a[0] < b[0] || (a[0] == b[0] && StringLess(a[1..], b[1..])))
  }

  lemma {:induction false} StringLessIrreflexive(a: string)
    ensures !StringLess(a, a)
  {
    if a != [] {
      StringLessIrreflexive(a[1..]);
    }
  }

  lemma {:induction false} StringLessTransitive(a: string, b: string, c: string)
    requires StringLess(a, b) && StringLess(b, c)
    ensures StringLess(a, c)
  {
    if a != [] && a[0] == b[0] && b[0] == c[0] {
      StringLessTransitive(a[1..], b[1..], c[1..]);
    }
  }

  lemma {:induction false} StringLessConnected(a: string, b: string)
    requires a != b
    ensures StringLess(a, b) || StringLess(b, a)
  {
    if a != [] && b != [] && a[0] == b[0] {
      assert a == [a[0]] + a[1..] && b == [b[0]] + b[1..];
      StringLessConnected(a[1..], b[1..]);
    }
  }

  /** String comparison orders dates strictly and totally. */
  lemma StringLessIsStrictTotalOrder()
    ensures Sorting.StrictTotalOrder(StringLess)
  {
    forall a: string ensures !StringLess(a, a) {
      StringLessIrreflexive(a);
    }
    forall a: string, b: string, c: string | StringLess(a, b) && StringLess(b, c) ensures StringLess(a, c) {
      StringLessTransitive(a, b, c);
    }
    forall a: string, b: string | a != b ensures StringLess(a, b) || StringLess(b, a) {
      StringLessConnected(a, b);
    }
  }

  predicate RealLess(a: real, b: real) {
    a < b
  }

  // ---------------------------------------------------------------------
  // Selections and sums
  // ---------------------------------------------------------------------

  /** The boolean masks the analytics index the table with. */
  datatype Mask =
    | AtDate(d: Date)                    // df['expiration_date'] == d
    | OfKind(t: OptionType)              // df['option_type'] == t
    | Traded                             // df['volume'] > 0
    | Flagged(threshold: Option<real>)   // the unusual-activity test

  predicate Matches(m: Mask, r: OptionRecord) {
    match m
    case AtDate(d) => r.expirationDate == d
    case OfKind(t) => r.optionType == t
    case Traded => r.volume > 0
    case Flagged(threshold) => IsUnusual(r, threshold)
  }

  /** `df[mask]`: the rows the mask selects, in table order. */
  function Select(rows: seq<OptionRecord>, m: Mask): (r: seq<OptionRecord>)
    ensures |r| <= |rows|
    ensures forall x :: x in r <==> x in rows && Matches(m, x)
  {
    if rows == [] then []
    else
      var init, last := rows[..|rows| - 1], rows[|rows| - 1];
      assert rows == init + [last];
      Select(init, m) + (if Matches(m, last) then [last] else [])
  }

  lemma SelectSnoc(rows: seq<OptionRecord>, x: OptionRecord, m: Mask)
    ensures Select(rows + [x], m) == Select(rows, m) + (if Matches(m, x) then [x] else [])
  {
    assert (rows + [x])[..|rows|] == rows;
  }

  /** A selection takes each row at most as often as the table holds it. */
  lemma {:induction false} SelectSubMultiset(rows: seq<OptionRecord>, m: Mask)
    ensures multiset(Select(rows, m)) <= multiset(rows)
  {
    if rows != [] {
      var init := rows[..|rows| - 1];
      assert rows == init + [rows[|rows| - 1]];
      SelectSubMultiset(init, m);
    }
  }

  /** A selection holds each row the mask accepts exactly as often as the
      table does, and no other row. */
  lemma {:induction false} SelectMultiplicity(rows: seq<OptionRecord>, m: Mask)
    ensures forall x :: multiset(Select(rows, m))[x] == if Matches(m, x) then multiset(rows)[x] else 0
  {
    if rows != [] {
      var init, last := rows[..|rows| - 1], rows[|rows| - 1];
      assert rows == init + [last];
      SelectMultiplicity(init, m);
      SelectSnoc(init, last, m);
    }
  }

  /** The positions of the rows the mask accepts, in increasing order. */
  function SelectIndices(rows: seq<OptionRecord>, m: Mask): (idx: seq<nat>)
    ensures forall k :: 0 <= k < |idx| ==> idx[k] < |rows|
  {
    if rows == [] then []
    else
      var n := |rows| - 1;
      SelectIndices(rows[..n], m) + (if Matches(m, rows[n]) then [n] else [])
  }

  /** The accepted positions increase, and a position is among them exactly
      when the mask accepts its row. */
  lemma {:induction false} SelectIndicesShape(rows: seq<OptionRecord>, m: Mask)
    ensures forall k, l :: 0 <= k < l < |SelectIndices(rows, m)| ==> SelectIndices(rows, m)[k] < SelectIndices(rows, m)[l]
    ensures forall i :: 0 <= i < |rows| ==> (i in SelectIndices(rows, m) <==> Matches(m, rows[i]))
  {
    if rows != [] {
      var n := |rows| - 1;
      var init := rows[..n];
      SelectIndicesShape(init, m);
      var idx, idx0 := SelectIndices(rows, m), SelectIndices(init, m);
      var extra := if Matches(m, rows[n]) then [n] else [];
      assert idx == idx0 + extra;
      assert forall k :: 0 <= k < |idx0| ==> idx0[k] < n;
      forall k, l | 0 <= k < l < |idx| ensures idx[k] < idx[l] {
        if l < |idx0| {
          assert idx[k] == idx0[k] && idx[l] == idx0[l];
        } else {
          assert idx[k] == idx0[k] && idx[l] == n;
        }
      }
      forall i | 0 <= i < |rows| ensures i in idx <==> Matches(m, rows[i]) {
        if i < n {
          assert rows[i] == init[i];
          assert i !in extra;
        } else {
          assert i !in idx0;
        }
      }
    }
  }

  /** A selection is the table read at the accepted positions. */
  lemma {:induction false} SelectReadsIndices(rows: seq<OptionRecord>, m: Mask)
    ensures |SelectIndices(rows, m)| == |Select(rows, m)|
    ensures forall k :: 0 <= k < |Select(rows, m)| ==> Select(rows, m)[k] == rows[SelectIndices(rows, m)[k]]
  {
    if rows != [] {
      var n := |rows| - 1;
      var init, last := rows[..n], rows[n];
      assert rows == init + [last];
      SelectReadsIndices(init, m);
      SelectSnoc(init, last, m);
      var r, idx := Select(rows, m), SelectIndices(rows, m);
      var r0, idx0 := Select(init, m), SelectIndices(init, m);
      assert idx == idx0 + (if Matches(m, last) then [n] else []);
      forall k | 0 <= k < |r| ensures r[k] == rows[idx[k]] {
        if k < |r0| {
          assert r[k] == r0[k] && idx[k] == idx0[k];
          assert init[idx0[k]] == rows[idx0[k]];
        }
      }
    }
  }

  /** A selection is the table read at the accepted positions, in increasing
      order: it keeps the table's order, and a position is taken exactly
      when the mask accepts its row. */
  lemma SelectInTableOrder(rows: seq<OptionRecord>, m: Mask)
    ensures |SelectIndices(rows, m)| == |Select(rows, m)|
    ensures forall k :: 0 <= k < |Select(rows, m)| ==> Select(rows, m)[k] == rows[SelectIndices(rows, m)[k]]
    ensures forall k, l :: 0 <= k < l < |SelectIndices(rows, m)| ==> SelectIndices(rows, m)[k] < SelectIndices(rows, m)[l]
    ensures forall i :: 0 <= i < |rows| ==> (i in SelectIndices(rows, m) <==> Matches(m, rows[i]))
  {
    SelectReadsIndices(rows, m);
    SelectIndicesShape(rows, m);
  }

  function AtExpiration(rows: seq<OptionRecord>, d: Date): seq<OptionRecord> {
    Select(rows, AtDate(d))
  }

  function OfType(rows: seq<OptionRecord>, t: OptionType): seq<OptionRecord> {
    Select(rows, OfKind(t))
  }

  /** The two summed columns. */
  datatype Quantity = Volume | OpenInterest

  function Amount(r: OptionRecord, q: Quantity): nat {
    match q
    case Volume => r.volume
    case OpenInterest => r.openInterest
  }

  /** `rows[column].sum()`. */
  function Sum(rows: seq<OptionRecord>, q: Quantity): nat {
    if rows == [] then 0 else Sum(rows[..|rows| - 1], q) + Amount(rows[|rows| - 1], q)
  }

  lemma SumSnoc(rows: seq<OptionRecord>, x: OptionRecord, q: Quantity)
    ensures Sum(rows + [x], q) == Sum(rows, q) + Amount(x, q)
  {
    assert (rows + [x])[..|rows|] == rows;
  }

  /** Every row is a call or a put, so the two selections split the table:
      their sizes and their sums add up to the whole. */
  lemma {:induction false} TypesSplitTable(rows: seq<OptionRecord>, q: Quantity)
    ensures |OfType(rows, Call)| + |OfType(rows, Put)| == |rows|
    ensures Sum(OfType(rows, Call), q) + Sum(OfType(rows, Put), q) == Sum(rows, q)
  {
    if rows != [] {
      var init, last := rows[..|rows| - 1], rows[|rows| - 1];
      assert rows == init + [last];
      TypesSplitTable(init, q);
      SelectSnoc(init, last, OfKind(Call));
      SelectSnoc(init, last, OfKind(Put));
      SumSnoc(init, last, q);
      if last.optionType == Call {
        assert OfType(rows, Call) == OfType(init, Call) + [last];
        assert OfType(rows, Put) == OfType(init, Put);
        SumSnoc(OfType(init, Call), last, q);
      } else {
        assert OfType(rows, Call) == OfType(init, Call);
        assert OfType(rows, Put) == OfType(init, Put) + [last];
        SumSnoc(OfType(init, Put), last, q);
      }
    }
  }

  // ---------------------------------------------------------------------
  // Put/call ratios by expiration
  // ---------------------------------------------------------------------

  /** `num / den if den > 0 else 0`. */
  function Ratio(num: nat, den: nat): (r: real)
    ensures den > 0 ==> r * den as real == num as real
    ensures den == 0 ==> r == 0.0
    ensures r >= 0.0
  {
    if den > 0 then num as real / den as real else 0.0
  }

  /** One row of the put/call table. */
  datatype RatioRow = RatioRow(
    expirationDate: Date,
    callVolume: nat,
    putVolume: nat,
    volumeRatio: real,
    callOI: nat,
    putOI: nat,
    oiRatio: real)

  /** The sum of `q` over the rows of type `t` at expiration `d`. */
  function Cell(rows: seq<OptionRecord>, d: Date, t: OptionType, q: Quantity): nat {
    Sum(OfType(AtExpiration(rows, d), t), q)
  }

  /** What the put/call table holds for expiration `d`. */
  function RatioRowFor(rows: seq<OptionRecord>, d: Date): RatioRow {
    var callVolume, putVolume := Cell(rows, d, Call, Volume), Cell(rows, d, Put, Volume);
    var callOI, putOI := Cell(rows, d, Call, OpenInterest), Cell(rows, d, Put, OpenInterest);
    RatioRow(d, callVolume, putVolume, Ratio(putVolume, callVolume), callOI, putOI, Ratio(putOI, callOI))
  }

  /** The `expiration_date` column. */
  function DateColumn(rows: seq<OptionRecord>): (c: seq<Date>)
    ensures forall d :: d in c <==> d in DatesOf(rows)
  {
    var c := seq(|rows|, i requires 0 <= i < |rows| => rows[i].expirationDate);
    assert forall d :: d in DatesOf(rows) ==> d in c by {
      forall d | d in DatesOf(rows) ensures d in c {
        var r :| r in rows && r.expirationDate == d;
        var i :| 0 <= i < |rows| && rows[i] == r;
        assert c[i] == d;
      }
    }
    c
  }

  /** `sorted(df['expiration_date'].unique())`. */
  function ExpirationDates(rows: seq<OptionRecord>): (ds: seq<Date>)
    ensures Sorting.Ordered(ds, StringLess)
    ensures forall d :: d in ds <==> d in DatesOf(rows)
  {
    StringLessIsStrictTotalOrder();
    Sorting.SortedDistinct(DateColumn(rows), StringLess)
  }

  /** The put/call table: one row per distinct expiration, in ascending order. */
  method CalculatePutCallRatios(rows: seq<OptionRecord>) returns (ratios: seq<RatioRow>)
    ensures |ratios| == |ExpirationDates(rows)|
    ensures forall k :: 0 <= k < |ratios| ==> ratios[k] == RatioRowFor(rows, ExpirationDates(rows)[k])
    ensures forall d :: d in DatesOf(rows) <==> exists k :: 0 <= k < |ratios| && ratios[k].expirationDate == d
    ensures forall k, l :: 0 <= k < l < |ratios| ==> StringLess(ratios[k].expirationDate, ratios[l].expirationDate)
  {
    var dates := ExpirationDates(rows);
    ratios := [];
    for i := 0 to |dates|
      invariant |ratios| == i
      invariant RatioRowsUpTo(rows, dates, ratios)
    {
      var expDate := dates[i];
      var expData := AtExpiration(rows, expDate);
      var calls := OfType(expData, Call);
      var puts := OfType(expData, Put);

      var callVolume := Sum(calls, Volume);
      var putVolume := Sum(puts, Volume);
      var volumeRatio := Ratio(putVolume, callVolume);

      var callOI := Sum(calls, OpenInterest);
      var putOI := Sum(puts, OpenInterest);
      var oiRatio := Ratio(putOI, callOI);

      var row := RatioRow(expDate, callVolume, putVolume, volumeRatio, callOI, putOI, oiRatio);
      assert row == RatioRowFor(rows, expDate);
      RatioRowsSnoc(rows, dates, ratios, row);
      ratios := ratios + [row];
    }
    RatioTableShape(rows, ratios);
  }

  /** `ratios` holds the rows of the first `|ratios|` expirations of `dates`. */
  ghost predicate RatioRowsUpTo(rows: seq<OptionRecord>, dates: seq<Date>, ratios: seq<RatioRow>) {
    |ratios| <= |dates| && forall k :: 0 <= k < |ratios| ==> ratios[k] == RatioRowFor(rows, dates[k])
  }

  /** Appending the next expiration's row keeps the loop invariant. */
  lemma RatioRowsSnoc(rows: seq<OptionRecord>, dates: seq<Date>, ratios: seq<RatioRow>, row: RatioRow)
    requires RatioRowsUpTo(rows, dates, ratios) && |ratios| < |dates|
    requires row == RatioRowFor(rows, dates[|ratios|])
    ensures RatioRowsUpTo(rows, dates, ratios + [row])
  {
    var after := ratios + [row];
    forall k | 0 <= k < |after| ensures after[k] == RatioRowFor(rows, dates[k]) {
      if k < |ratios| { assert after[k] == ratios[k]; }
    }
  }

  /** A table holding the row of each expiration, in order, has exactly one
      row per distinct expiration, ascending. */
  lemma RatioTableShape(rows: seq<OptionRecord>, ratios: seq<RatioRow>)
    requires |ratios| == |ExpirationDates(rows)|
    requires forall k :: 0 <= k < |ratios| ==> ratios[k] == RatioRowFor(rows, ExpirationDates(rows)[k])
    ensures forall d :: d in DatesOf(rows) <==> exists k :: 0 <= k < |ratios| && ratios[k].expirationDate == d
    ensures forall k, l :: 0 <= k < l < |ratios| ==> StringLess(ratios[k].expirationDate, ratios[l].expirationDate)
  {
    var dates := ExpirationDates(rows);
    assert forall k :: 0 <= k < |ratios| ==> ratios[k].expirationDate == dates[k];
    forall d | d in DatesOf(rows) ensures exists k :: 0 <= k < |ratios| && ratios[k].expirationDate == d {
      var k :| 0 <= k < |dates| && dates[k] == d;
      assert ratios[k].expirationDate == d;
    }
  }

  // ---------------------------------------------------------------------
  // Per-expiration totals against the overall totals
  // ---------------------------------------------------------------------

  /** No date occurs twice. */
  predicate Distinct(dates: seq<Date>) {
    forall i, j :: 0 <= i < j < |dates| ==> dates[i] != dates[j]
  }

  lemma ExpirationDatesDistinct(rows: seq<OptionRecord>)
    ensures Distinct(ExpirationDates(rows))
  {
    var ds := ExpirationDates(rows);
    forall i, j | 0 <= i < j < |ds| ensures ds[i] != ds[j] {
      StringLessIrreflexive(ds[i]);
    }
  }

  /** The sum of `q` over the rows of type `t`, taken expiration by expiration
      over `dates`. */
  function SumOverDates(rows: seq<OptionRecord>, dates: seq<Date>, t: OptionType, q: Quantity): nat {
    if dates == [] then 0
    else SumOverDates(rows, dates[..|dates| - 1], t, q) + Cell(rows, dates[|dates| - 1], t, q)
  }

  lemma {:induction false} SumOverDatesOfEmpty(dates: seq<Date>, t: OptionType, q: Quantity)
    ensures SumOverDates([], dates, t, q) == 0
  {
    if dates != [] {
      SumOverDatesOfEmpty(dates[..|dates| - 1], t, q);
    }
  }

  lemma CellSnoc(rows: seq<OptionRecord>, x: OptionRecord, d: Date, t: OptionType, q: Quantity)
    ensures Cell(rows + [x], d, t, q)
      == Cell(rows, d, t, q) + (if x.expirationDate == d && x.optionType == t then Amount(x, q) else 0)
  {
    SelectSnoc(rows, x, AtDate(d));
    var e := AtExpiration(rows, d);
    if x.expirationDate == d {
      assert AtExpiration(rows + [x], d) == e + [x];
      SelectSnoc(e, x, OfKind(t));
      if x.optionType == t {
        assert OfType(e + [x], t) == OfType(e, t) + [x];
        SumSnoc(OfType(e, t), x, q);
      } else {
        assert OfType(e + [x], t) == OfType(e, t);
      }
    } else {
      assert AtExpiration(rows + [x], d) == e;
    }
  }

  lemma {:induction false} SumOverDatesSnoc(rows: seq<OptionRecord>, x: OptionRecord, dates: seq<Date>, t: OptionType, q: Quantity)
    requires Distinct(dates)
    ensures SumOverDates(rows + [x], dates, t, q)
      == SumOverDates(rows, dates, t, q) + (if x.expirationDate in dates && x.optionType == t then Amount(x, q) else 0)
  {
    if dates != [] {
      var init, d := dates[..|dates| - 1], dates[|dates| - 1];
      assert dates == init + [d];
      assert Distinct(init);
      SumOverDatesSnoc(rows, x, init, t, q);
      CellSnoc(rows, x, d, t, q);
      assert SumOverDates(rows + [x], dates, t, q) == SumOverDates(rows + [x], init, t, q) + Cell(rows + [x], d, t, q);
      assert SumOverDates(rows, dates, t, q) == SumOverDates(rows, init, t, q) + Cell(rows, d, t, q);
      assert x.expirationDate in dates <==> x.expirationDate in init || x.expirationDate == d;
      if x.expirationDate == d {
        assert d !in init;
      }
    }
  }

  lemma SumOfTypeSnoc(rows: seq<OptionRecord>, x: OptionRecord, t: OptionType, q: Quantity)
    ensures Sum(OfType(rows + [x], t), q) == Sum(OfType(rows, t), q) + (if x.optionType == t then Amount(x, q) else 0)
  {
    SelectSnoc(rows, x, OfKind(t));
    if x.optionType == t {
      assert OfType(rows + [x], t) == OfType(rows, t) + [x];
      SumSnoc(OfType(rows, t), x, q);
    } else {
      assert OfType(rows + [x], t) == OfType(rows, t);
    }
  }

  /** Summing expiration by expiration over distinct dates that cover the
      table gives the table's total. */
  lemma {:induction false} PerExpirationTotals(rows: seq<OptionRecord>, dates: seq<Date>, t: OptionType, q: Quantity)
    requires Distinct(dates)
    requires forall d :: d in DatesOf(rows) ==> d in dates
    ensures SumOverDates(rows, dates, t, q) == Sum(OfType(rows, t), q)
  {
    if rows == [] {
      SumOverDatesOfEmpty(dates, t, q);
    } else {
      var init, x := rows[..|rows| - 1], rows[|rows| - 1];
      assert rows == init + [x];
      forall d | d in DatesOf(init) ensures d in dates {
        var r :| r in init && r.expirationDate == d;
        assert r in rows;
      }
      assert x in rows;
      assert x.expirationDate in dates;
      PerExpirationTotals(init, dates, t, q);
      SumOverDatesSnoc(init, x, dates, t, q);
      SumOfTypeSnoc(init, x, t, q);
    }
  }

  /** The entry of a put/call row for type `t` and quantity `q`. */
  function RatioCell(row: RatioRow, t: OptionType, q: Quantity): nat {
    match (t, q)
    case (Call, Volume) => row.callVolume
    case (Put, Volume) => row.putVolume
    case (Call, OpenInterest) => row.callOI
    case (Put, OpenInterest) => row.putOI
  }

  /** A column of the put/call table, summed. */
  function ColumnTotal(ratios: seq<RatioRow>, t: OptionType, q: Quantity): nat {
    if ratios == [] then 0
    else ColumnTotal(ratios[..|ratios| - 1], t, q) + RatioCell(ratios[|ratios| - 1], t, q)
  }

  lemma {:induction false} ColumnTotalIsSumOverDates(rows: seq<OptionRecord>, ratios: seq<RatioRow>, dates: seq<Date>, t: OptionType, q: Quantity)
    requires |ratios| == |dates|
    requires forall k :: 0 <= k < |ratios| ==> ratios[k] == RatioRowFor(rows, dates[k])
    ensures ColumnTotal(ratios, t, q) == SumOverDates(rows, dates, t, q)
  {
    if ratios != [] {
      var n := |ratios| - 1;
      ColumnTotalIsSumOverDates(rows, ratios[..n], dates[..n], t, q);
      assert RatioCell(ratios[n], t, q) == Cell(rows, dates[n], t, q);
    }
  }

  /** The put/call table adds up: each of its four count columns sums to the
      table-wide total of that type and quantity. */
  lemma RatioTableTotals(rows: seq<OptionRecord>, ratios: seq<RatioRow>, t: OptionType, q: Quantity)
    requires |ratios| == |ExpirationDates(rows)|
    requires forall k :: 0 <= k < |ratios| ==> ratios[k] == RatioRowFor(rows, ExpirationDates(rows)[k])
    ensures ColumnTotal(ratios, t, q) == Sum(OfType(rows, t), q)
  {
    var dates := ExpirationDates(rows);
    ExpirationDatesDistinct(rows);
    ColumnTotalIsSumOverDates(rows, ratios, dates, t, q);
    PerExpirationTotals(rows, dates, t, q);
  }

  // ---------------------------------------------------------------------
  // Overall statistics
  // ---------------------------------------------------------------------

  datatype OverallStats = OverallStats(
    totalCalls: nat,
    totalPuts: nat,
    totalCallVolume: nat,
    totalPutVolume: nat,
    totalCallOI: nat,
    totalPutOI: nat,
    volumeRatio: real,
    oiRatio: real)

  /** The OVERALL STATISTICS block of the summary sheet. */
  function OverallStatsOf(rows: seq<OptionRecord>): OverallStats {
    var calls, puts := OfType(rows, Call), OfType(rows, Put);
    var callVolume, putVolume := Sum(calls, Volume), Sum(puts, Volume);
    var callOI, putOI := Sum(calls, OpenInterest), Sum(puts, OpenInterest);
    OverallStats(|calls|, |puts|, callVolume, putVolume, callOI, putOI,
      Ratio(putVolume, callVolume), Ratio(putOI, callOI))
  }

  /** The overall counts split the table, and the put/call table's columns add
      up to the overall totals. */
  lemma OverallStatsConsistent(rows: seq<OptionRecord>, ratios: seq<RatioRow>)
    requires |ratios| == |ExpirationDates(rows)|
    requires forall k :: 0 <= k < |ratios| ==> ratios[k] == RatioRowFor(rows, ExpirationDates(rows)[k])
    ensures
      var s := OverallStatsOf(rows);
      && s.totalCalls + s.totalPuts == |rows|
      && s.totalCallVolume + s.totalPutVolume == Sum(rows, Volume)
      && s.totalCallOI + s.totalPutOI == Sum(rows, OpenInterest)
      && ColumnTotal(ratios, Call, Volume) == s.totalCallVolume
      && ColumnTotal(ratios, Put, Volume) == s.totalPutVolume
      && ColumnTotal(ratios, Call, OpenInterest) == s.totalCallOI
      && ColumnTotal(ratios, Put, OpenInterest) == s.totalPutOI
  {
    TypesSplitTable(rows, Volume);
    TypesSplitTable(rows, OpenInterest);
    RatioTableTotals(rows, ratios, Call, Volume);
    RatioTableTotals(rows, ratios, Put, Volume);
    RatioTableTotals(rows, ratios, Call, OpenInterest);
    RatioTableTotals(rows, ratios, Put, OpenInterest);
  }

  // ---------------------------------------------------------------------
  // Max pain
  // ---------------------------------------------------------------------

  /** What the calls of `calls` pay out if the underlying settles at `s`: for
      each call struck below `s`, `(s - strike) * open_interest * 100`. */
  function CallPain(calls: seq<OptionRecord>, s: real): real {
    if calls == [] then 0.0
    else
      CallPain(calls[..|calls| - 1], s) + CallPayout(calls[|calls| - 1], s)
  }

  /** What one call pays out at `s`: its intrinsic value times its open
      interest times the contract multiplier of 100. */
  function CallPayout(c: OptionRecord, s: real): real {
    if c.strikePrice < s then (s - c.strikePrice) * c.openInterest as real * 100.0 else 0.0
  }

  /** What the puts of `puts` pay out at `s`: for each put struck above `s`,
      `(strike - s) * open_interest * 100`. */
  function PutPain(puts: seq<OptionRecord>, s: real): real {
    if puts == [] then 0.0
    else
      PutPain(puts[..|puts| - 1], s) + PutPayout(puts[|puts| - 1], s)
  }

  /** What one put pays out at `s`. */
  function PutPayout(p: OptionRecord, s: real): real {
    if p.strikePrice > s then (p.strikePrice - s) * p.openInterest as real * 100.0 else 0.0
  }

  /** The total payout to option holders if expiration `rows` settles at `s`. */
  function Pain(rows: seq<OptionRecord>, s: real): real {
    CallPain(OfType(rows, Call), s) + PutPain(OfType(rows, Put), s)
  }

  /** The `strike_price` column. */
  function StrikeColumn(rows: seq<OptionRecord>): (c: seq<real>)
    ensures forall k :: k in c <==> exists r :: r in rows && r.strikePrice == k
  {
    var c := seq(|rows|, i requires 0 <= i < |rows| => rows[i].strikePrice);
    assert forall k :: (exists r :: r in rows && r.strikePrice == k) ==> k in c by {
      forall k | exists r :: r in rows && r.strikePrice == k ensures k in c {
        var r :| r in rows && r.strikePrice == k;
        var i :| 0 <= i < |rows| && rows[i] == r;
        assert c[i] == k;
      }
    }
    c
  }

  lemma RealLessIsStrictTotalOrder()
    ensures Sorting.StrictTotalOrder(RealLess)
  {
  }

  /** `sorted(exp_data['strike_price'].unique())`: the candidate strikes. */
  function StrikesOf(rows: seq<OptionRecord>): (ss: seq<real>)
    ensures Sorting.Ordered(ss, RealLess)
    ensures forall k :: k in ss <==> exists r :: r in rows && r.strikePrice == k
  {
    RealLessIsStrictTotalOrder();
    Sorting.SortedDistinct(StrikeColumn(rows), RealLess)
  }

  /** `s` is the max-pain strike of `rows`: a candidate strike whose pain is
      no greater than any candidate's, and strictly smaller than that of every
      lower candidate (ties go to the lowest strike). */
  predicate IsMaxPain(rows: seq<OptionRecord>, s: real) {
    && s in StrikesOf(rows)
    && (forall c :: c in StrikesOf(rows) ==> Pain(rows, s) <= Pain(rows, c))
    && (forall c :: c in StrikesOf(rows) && c < s ==> Pain(rows, s) < Pain(rows, c))
  }

  /** There is at most one max-pain strike. */
  lemma MaxPainUnique(rows: seq<OptionRecord>, a: real, b: real)
    requires IsMaxPain(rows, a) && IsMaxPain(rows, b)
    ensures a == b
  {
  }

  /** The max-pain strike of expiration `expDate`, or None when it has no rows. */
  method CalculateMaxPain(rows: seq<OptionRecord>, expDate: Date) returns (r: Option<real>)
    ensures r.None? <==> AtExpiration(rows, expDate) == []
    ensures r.Some? ==> IsMaxPain(AtExpiration(rows, expDate), r.value)
  {
    var expData := AtExpiration(rows, expDate);
    if |expData| == 0 {
      return None;
    }
    var strikes := StrikesOf(expData);
    assert expData[0].strikePrice in strikes;

    var maxPainStrike: Option<real> := None;
    var minTotalValue: Option<real> := None;  // None is the initial infinity
    ghost var best: nat := 0;

    for i := 0 to |strikes|
      invariant maxPainStrike.None? <==> i == 0
      invariant minTotalValue.None? <==> i == 0
      invariant i > 0 ==> best < i && maxPainStrike == Some(strikes[best])
      invariant i > 0 ==> minTotalValue == Some(Pain(expData, strikes[best]))
      invariant i > 0 ==> MinimumUpTo(expData, strikes, i, best)
    {
      var strike := strikes[i];
      var totalValue := TotalValueAt(expData, strike);

      if minTotalValue.None? || totalValue < minTotalValue.value {
        MinimumStep(expData, strikes, i, best, true);
        minTotalValue := Some(totalValue);
        maxPainStrike := Some(strike);
        best := i;
      } else {
        MinimumStep(expData, strikes, i, best, false);
      }
    }
    r := maxPainStrike;
    MaxPainOfRunningMinimum(expData, strikes, best);
  }

  /** The payout to holders at settlement price `strike`: the in-the-money
      calls, then the in-the-money puts, added up row by row. */
  method TotalValueAt(expData: seq<OptionRecord>, strike: real) returns (totalValue: real)
    ensures totalValue == Pain(expData, strike)
  {
    totalValue := 0.0;

    var calls := OfType(expData, Call);
    for j := 0 to |calls|
      invariant totalValue == CallPain(calls[..j], strike)
    {
      var call := calls[j];
      ghost var before := totalValue;
      if call.strikePrice < strike {
        var intrinsicValue := strike - call.strikePrice;
        totalValue := totalValue + intrinsicValue * call.openInterest as real * 100.0;
      }
      assert totalValue == before + CallPayout(call, strike);
      CallPainPrefix(calls, j, strike);
    }
    assert calls[..|calls|] == calls;

    var puts := OfType(expData, Put);
    for j := 0 to |puts|
      invariant totalValue == CallPain(calls, strike) + PutPain(puts[..j], strike)
    {
      var put := puts[j];
      ghost var before := totalValue;
      if put.strikePrice > strike {
        var intrinsicValue := put.strikePrice - strike;
        totalValue := totalValue + intrinsicValue * put.openInterest as real * 100.0;
      }
      assert totalValue == before + PutPayout(put, strike);
      PutPainPrefix(puts, j, strike);
    }
    assert puts[..|puts|] == puts;
    assert totalValue == CallPain(OfType(expData, Call), strike) + PutPain(OfType(expData, Put), strike);
  }

  lemma CallPainPrefix(calls: seq<OptionRecord>, j: nat, s: real)
    requires j < |calls|
    ensures CallPain(calls[..j + 1], s) == CallPain(calls[..j], s) + CallPayout(calls[j], s)
  {
    assert calls[..j + 1][..j] == calls[..j];
  }

  lemma PutPainPrefix(puts: seq<OptionRecord>, j: nat, s: real)
    requires j < |puts|
    ensures PutPain(puts[..j + 1], s) == PutPain(puts[..j], s) + PutPayout(puts[j], s)
  {
    assert puts[..j + 1][..j] == puts[..j];
  }

  /** The strike at index `best` has the least pain among the first `i`
      candidates, and strictly less than every candidate before it. */
  ghost predicate MinimumUpTo(rows: seq<OptionRecord>, strikes: seq<real>, i: nat, best: nat)
    requires best < i <= |strikes|
  {
    && (forall k :: 0 <= k < i ==> Pain(rows, strikes[best]) <= Pain(rows, strikes[k]))
    && (forall k :: 0 <= k < best ==> Pain(rows, strikes[best]) < Pain(rows, strikes[k]))
  }

  /** One iteration of the running minimum: a strictly smaller pain at index
      `i` takes over, anything else leaves `best` in place. */
  lemma MinimumStep(rows: seq<OptionRecord>, strikes: seq<real>, i: nat, best: nat, improves: bool)
    requires i < |strikes| && (i == 0 || best < i)
    requires i > 0 ==> MinimumUpTo(rows, strikes, i, best)
    requires improves <==> i == 0 || Pain(rows, strikes[i]) < Pain(rows, strikes[best])
    ensures improves ==> MinimumUpTo(rows, strikes, i + 1, i)
    ensures !improves ==> MinimumUpTo(rows, strikes, i + 1, best)
  {
  }

  /** The running minimum of the loop, with its first-strict-improvement rule,
      is the max-pain strike. */
  lemma MaxPainOfRunningMinimum(rows: seq<OptionRecord>, strikes: seq<real>, best: nat)
    requires strikes == StrikesOf(rows) && best < |strikes|
    requires MinimumUpTo(rows, strikes, |strikes|, best)
    ensures IsMaxPain(rows, strikes[best])
  {
    var s := strikes[best];
    assert s in strikes;
    forall c | c in strikes ensures Pain(rows, s) <= Pain(rows, c) {
      var k :| 0 <= k < |strikes| && strikes[k] == c;
      assert Pain(rows, strikes[best]) <= Pain(rows, strikes[k]);
    }
    forall c | c in strikes && c < s ensures Pain(rows, s) < Pain(rows, c) {
      var k :| 0 <= k < |strikes| && strikes[k] == c;
      assert k < best;
      assert Pain(rows, strikes[best]) < Pain(rows, strikes[k]);
    }
  }

  // ---------------------------------------------------------------------
  // Unusual activity
  // ---------------------------------------------------------------------

  /** `volume / open_interest if open_interest > 0 else 0`. */
  function VolumeOiRatio(r: OptionRecord): (x: real)
    ensures r.openInterest > 0 ==> x * r.openInterest as real == r.volume as real
    ensures r.openInterest == 0 ==> x == 0.0
  {
    Ratio(r.volume, r.openInterest)
  }

  /** Flagged: volume at or above the threshold, or volume at least half the
      open interest. A threshold of None stands for NaN (the sample standard
      deviation of a single row), which no comparison satisfies. */
  predicate IsUnusual(r: OptionRecord, threshold: Option<real>) {
    || (threshold.Some? && r.volume as real >= threshold.value)
    || VolumeOiRatio(r) >= 0.5
  }

  /** The volume-to-open-interest test in whole numbers: volume is at least
      half of a positive open interest. */
  lemma RatioTestInIntegers(r: OptionRecord)
    ensures VolumeOiRatio(r) >= 0.5 <==> r.openInterest > 0 && 2 * r.volume >= r.openInterest
  {
    var x, oi, v := VolumeOiRatio(r), r.openInterest as real, r.volume as real;
    if r.openInterest > 0 {
      HalfOfProduct(x, oi, v);
      assert (2 * r.volume) as real == 2.0 * v;
    }
  }

  /** For a positive `oi`, the quotient `x = v / oi` is at least one half
      exactly when `2 v >= oi`. */
  lemma HalfOfProduct(x: real, oi: real, v: real)
    requires oi > 0.0 && x * oi == v
    ensures x >= 0.5 <==> 2.0 * v >= oi
  {
    if x >= 0.5 {
      assert (x - 0.5) * oi >= 0.0;
    } else {
      assert (0.5 - x) * oi > 0.0;
    }
  }

  /** A higher threshold flags no row that a lower one does not. */
  lemma ThresholdMonotone(r: OptionRecord, low: real, high: real)
    requires low <= high
    ensures IsUnusual(r, Some(high)) ==> IsUnusual(r, Some(low))
    ensures IsUnusual(r, None) ==> IsUnusual(r, Some(low))
  {
  }

  /** One row of the unusual-activity table: the selected columns of a
      flagged option, with its volume-to-open-interest ratio. */
  datatype UnusualRow = UnusualRow(
    expirationDate: Date,
    strikePrice: real,
    optionType: OptionType,
    volume: nat,
    openInterest: nat,
    volumeOiRatio: real,
    lastTradePrice: string,
    impliedVolatility: string)

  function Annotate(r: OptionRecord): UnusualRow {
    UnusualRow(r.expirationDate, r.strikePrice, r.optionType, r.volume, r.openInterest,
               VolumeOiRatio(r), r.lastTradePrice, r.impliedVolatility)
  }

  function AnnotateAll(rows: seq<OptionRecord>): (us: seq<UnusualRow>)
    ensures |us| == |rows|
    ensures forall i :: 0 <= i < |rows| ==> us[i] == Annotate(rows[i])
  {
    seq(|rows|, i requires 0 <= i < |rows| => Annotate(rows[i]))
  }

  /** Descending volume: `a` may come before `b`. */
  predicate VolumeGe(a: UnusualRow, b: UnusualRow) {
    a.volume >= b.volume
  }

  lemma VolumeGeIsTotalPreorder()
    ensures Sorting.TotalPreorder(VolumeGe)
  {
  }

  /** The most rows the unusual-activity table keeps. */
  const TopRows := 50

  /** The traded rows that pass the unusual-activity test, in table order. */
  function FlaggedRows(rows: seq<OptionRecord>, threshold: Option<real>): seq<OptionRecord> {
    Select(Select(rows, Traded), Flagged(threshold))
  }

  /** The flagged rows sorted by descending volume, before the cut at `TopRows`. */
  function RankedRows(rows: seq<OptionRecord>, threshold: Option<real>): (us: seq<UnusualRow>)
    ensures Sorting.Ordered(us, VolumeGe)
    ensures multiset(us) == multiset(AnnotateAll(FlaggedRows(rows, threshold)))
    ensures |us| == |FlaggedRows(rows, threshold)|
  {
    VolumeGeIsTotalPreorder();
    Sorting.InsertionSort(AnnotateAll(FlaggedRows(rows, threshold)), VolumeGe)
  }

  /** The unusual-activity table: nothing when no row traded, otherwise the
      flagged traded rows by descending volume, at most `TopRows` of them. */
  function DetectUnusualActivity(rows: seq<OptionRecord>, threshold: Option<real>): (us: seq<UnusualRow>)
    ensures (forall x :: x in rows ==> x.volume == 0) ==> us == []
    ensures Sorting.Ordered(us, VolumeGe)
  {
    var active := Select(rows, Traded);
    if |active| == 0 then []
    else
      assert active[0] in rows && active[0].volume > 0;
      var ranked := RankedRows(rows, threshold);
      if |ranked| <= TopRows then ranked
      else
        Sorting.OrderedPrefix(ranked, TopRows, VolumeGe);
        ranked[..TopRows]
  }

  /** Every row of the table is a traded row of the input that the test flags. */
  lemma UnusualRowsAreFlagged(rows: seq<OptionRecord>, threshold: Option<real>)
    ensures forall u :: u in DetectUnusualActivity(rows, threshold) ==>
      exists x :: x in rows && x.volume > 0 && IsUnusual(x, threshold) && u == Annotate(x)
  {
    var us := DetectUnusualActivity(rows, threshold);
    var flagged := FlaggedRows(rows, threshold);
    var ranked := RankedRows(rows, threshold);
    forall u | u in us
      ensures exists x :: x in rows && x.volume > 0 && IsUnusual(x, threshold) && u == Annotate(x)
    {
      assert u in ranked;
      assert u in multiset(AnnotateAll(flagged));
      var i :| 0 <= i < |flagged| && AnnotateAll(flagged)[i] == u;
      assert flagged[i] in flagged;
    }
  }

  /** The table holds each annotated row at most as often as the flagged rows do. */
  lemma UnusualSubMultiset(rows: seq<OptionRecord>, threshold: Option<real>)
    ensures multiset(DetectUnusualActivity(rows, threshold)) <= multiset(AnnotateAll(FlaggedRows(rows, threshold)))
  {
    var ranked := RankedRows(rows, threshold);
    if |Select(rows, Traded)| > 0 && |ranked| > TopRows {
      assert ranked == ranked[..TopRows] + ranked[TopRows..];
    }
  }

  /** The table keeps `min(50, flagged)` rows. */
  lemma UnusualSize(rows: seq<OptionRecord>, threshold: Option<real>)
    ensures var n := |FlaggedRows(rows, threshold)|;
      |DetectUnusualActivity(rows, threshold)| == if n <= TopRows then n else TopRows
  {
    if |Select(rows, Traded)| == 0 {
      assert Select(Select(rows, Traded), Flagged(threshold)) == [];
    }
  }

  /** A flagged row left out of the table lost its place to `TopRows` rows
      with at least its volume. */
  lemma UnusualKeepsTopVolumes(rows: seq<OptionRecord>, threshold: Option<real>, x: OptionRecord)
    requires x in FlaggedRows(rows, threshold)
    ensures var us := DetectUnusualActivity(rows, threshold);
      Annotate(x) in us || (|us| == TopRows && forall u :: u in us ==> u.volume >= x.volume)
  {
    var flagged := FlaggedRows(rows, threshold);
    var ranked := RankedRows(rows, threshold);
    var i :| 0 <= i < |flagged| && flagged[i] == x;
    assert AnnotateAll(flagged)[i] == Annotate(x);
    assert Annotate(x) in multiset(ranked);
    var j :| 0 <= j < |ranked| && ranked[j] == Annotate(x);
    assert x in Select(rows, Traded);
    if j >= TopRows {
      forall u | u in ranked[..TopRows] ensures u.volume >= x.volume {
        var k :| 0 <= k < TopRows && ranked[..TopRows][k] == u;
        assert VolumeGe(ranked[k], ranked[j]);
      }
    } else {
      if |ranked| > TopRows {
        assert ranked[..TopRows][j] == Annotate(x);
      }
    }
  }

  /** One expiration with two strikes: calls struck at 100 with open interest
      `callOI` and puts struck at 110 with open interest `putOI`. */
  function SampleChain(callOI: nat, putOI: nat): seq<OptionRecord> {
    [ OptionRecord("NVDA", "2024-01-19", 100.0, Call, "", "", "", "", 0, callOI, "", "", "", "", "", "", "", "", ""),
      OptionRecord("NVDA", "2024-01-19", 110.0, Put, "", "", "", "", 0, putOI, "", "", "", "", "", "", "", "", "") ]
  }

  lemma SampleSides(callOI: nat, putOI: nat)
    ensures OfType(SampleChain(callOI, putOI), Call) == [SampleChain(callOI, putOI)[0]]
    ensures OfType(SampleChain(callOI, putOI), Put) == [SampleChain(callOI, putOI)[1]]
  {
    var rows := SampleChain(callOI, putOI);
    assert rows == [rows[0]] + [rows[1]];
    assert [] + [rows[0]] == [rows[0]];
    SelectSnoc([], rows[0], OfKind(Call));
    SelectSnoc([rows[0]], rows[1], OfKind(Call));
    SelectSnoc([], rows[0], OfKind(Put));
    SelectSnoc([rows[0]], rows[1], OfKind(Put));
  }

  lemma SampleStrikes(callOI: nat, putOI: nat)
    ensures forall c :: c in StrikesOf(SampleChain(callOI, putOI)) <==> c == 100.0 || c == 110.0
  {
    var rows := SampleChain(callOI, putOI);
    assert rows[0] in rows && rows[1] in rows;
  }

  lemma SamplePain(callOI: nat, putOI: nat)
    ensures forall c :: c in StrikesOf(SampleChain(callOI, putOI)) <==> c == 100.0 || c == 110.0
    ensures Pain(SampleChain(callOI, putOI), 100.0) == 1000.0 * putOI as real
    ensures Pain(SampleChain(callOI, putOI), 110.0) == 1000.0 * callOI as real
  {
    var rows := SampleChain(callOI, putOI);
    SampleSides(callOI, putOI);
    SampleStrikes(callOI, putOI);
    assert [rows[0]][..0] == [] && [rows[1]][..0] == [];
    assert rows[0].strikePrice == 100.0 && rows[0].openInterest == callOI;
    assert rows[1].strikePrice == 110.0 && rows[1].openInterest == putOI;
    assert CallPain([rows[0]], 100.0) == 0.0;
    assert PutPain([rows[1]], 100.0) == PutPayout(rows[1], 100.0) == 10.0 * putOI as real * 100.0;
    assert CallPain([rows[0]], 110.0) == CallPayout(rows[0], 110.0) == 10.0 * callOI as real * 100.0;
    assert PutPain([rows[1]], 110.0) == 0.0;
  }

  /** With calls at 100 (open interest 10) and puts at 110 (open interest 5)
      holders collect 5000 at 100 and 10000 at 110: max pain is 100. */
  lemma SampleMaxPain()
    ensures IsMaxPain(SampleChain(10, 5), 100.0)
    ensures !IsMaxPain(SampleChain(10, 5), 110.0)
  {
    SamplePain(10, 5);
  }

  /** With equal open interest both strikes cost holders 10000; the lower
      strike wins the tie. */
  lemma SampleTieGoesToLowerStrike()
    ensures IsMaxPain(SampleChain(10, 10), 100.0)
    ensures !IsMaxPain(SampleChain(10, 10), 110.0)
  {
    SamplePain(10, 10);
  }

  // ---------------------------------------------------------------------
  // Required columns
  // ---------------------------------------------------------------------

  /** The columns every analysis reads. */
  const RequiredColumns: seq<string> := ["expiration_date", "strike_price", "option_type", "volume", "open_interest"]

  /** `a` is `b` with some elements left out, the rest in `b`'s order. */
  predicate Subsequence(a: seq<string>, b: seq<string>) {
    if a == [] then true
    else if b == [] then false
    else (a[0] == b[0] && Subsequence(a[1..], b[1..])) || Subsequence(a, b[1..])
  }

  /** The entries of `required` that are not among `columns`. */
  function Absent(required: seq<string>, columns: seq<string>): (missing: seq<string>)
    ensures forall c :: c in missing <==> c in required && c !in columns
    ensures Subsequence(missing, required)
  {
    if required == [] then []
    else
      var rest := Absent(required[1..], columns);
      assert forall c :: c in required <==> c == required[0] || c in required[1..] by {
        assert required == [required[0]] + required[1..];
      }
      if required[0] in columns then
        assert Subsequence(rest, required) by {
          if rest != [] { assert required[1..] != []; }
        }
        rest
      else
        assert ([required[0]] + rest)[1..] == rest;
        [required[0]] + rest
  }

  lemma AbsentOfPresent(required: seq<string>, columns: seq<string>)
    requires forall i :: 0 <= i < |required| ==> required[i] in columns
    ensures Absent(required, columns) == []
  {
    assert forall c :: c in required ==> c in columns;
  }

  /** The required columns missing from `columns`, in the required order. */
  function MissingColumns(columns: seq<string>): (missing: seq<string>)
    ensures forall c :: c in missing <==> c in RequiredColumns && c !in columns
    ensures Subsequence(missing, RequiredColumns)
  {
    Absent(RequiredColumns, columns)
  }

  lemma RequiredColumnInHeader(i: nat)
    requires i < |RequiredColumns|
    ensures RequiredColumns[i] in Chain.Columns
  {
    var positions := [1, 2, 3, 8, 9];
    assert Chain.Columns[positions[i]] == RequiredColumns[i];
  }

  /** A file the downloader writes carries every required column. */
  lemma DownloadedHeaderIsComplete()
    ensures MissingColumns(Chain.Columns) == []
  {
    forall i | 0 <= i < |RequiredColumns| ensures RequiredColumns[i] in Chain.Columns {
      RequiredColumnInHeader(i);
    }
    AbsentOfPresent(RequiredColumns, Chain.Columns);
  }

  /** The columns the unusual-activity table selects beyond the required
      ones and the ratio it adds itself. */
  const SelectedColumns: seq<string> := ["last_trade_price", "implied_volatility"]

  /** The selected columns missing from `columns`, in the selection's order:
      when any is missing and some option traded, selecting them raises. */
  function MissingSelectedColumns(columns: seq<string>): (missing: seq<string>)
    ensures forall c :: c in missing <==> c in SelectedColumns && c !in columns
    ensures Subsequence(missing, SelectedColumns)
  {
    Absent(SelectedColumns, columns)
  }

  /** A file the downloader writes carries both selected columns too. */
  lemma DownloadedHeaderHasSelectedColumns()
    ensures MissingSelectedColumns(Chain.Columns) == []
  {
    assert Chain.Columns[7] == SelectedColumns[0];
    assert Chain.Columns[10] == SelectedColumns[1];
    AbsentOfPresent(SelectedColumns, Chain.Columns);
  }

  // ---------------------------------------------------------------------
  // Max pain by expiration
  // ---------------------------------------------------------------------

  /** One row of the max-pain table. */
  datatype MaxPainRow = MaxPainRow(expirationDate: Date, maxPainStrike: real)

  /** Expiration `d` has a max-pain strike that is not the falsy 0. */
  ghost predicate HasMaxPain(rows: seq<OptionRecord>, d: Date) {
    exists s :: IsMaxPain(AtExpiration(rows, d), s) && s != 0.0
  }

  /** The dates of `dates` whose max-pain strike the table reports, in order. */
  ghost function ReportedDates(rows: seq<OptionRecord>, dates: seq<Date>): seq<Date> {
    if dates == [] then []
    else
      var last := dates[|dates| - 1];
      ReportedDates(rows, dates[..|dates| - 1]) + (if HasMaxPain(rows, last) then [last] else [])
  }

  lemma {:induction false} ReportedDatesMembers(rows: seq<OptionRecord>, dates: seq<Date>)
    ensures forall d :: d in ReportedDates(rows, dates) <==> d in dates && HasMaxPain(rows, d)
  {
    if dates != [] {
      var init := dates[..|dates| - 1];
      assert dates == init + [dates[|dates| - 1]];
      ReportedDatesMembers(rows, init);
    }
  }

  lemma {:induction false} ReportedDatesAscend(rows: seq<OptionRecord>, dates: seq<Date>)
    requires Sorting.Ordered(dates, StringLess)
    ensures Sorting.Ordered(ReportedDates(rows, dates), StringLess)
  {
    if dates != [] {
      var init, last := dates[..|dates| - 1], dates[|dates| - 1];
      ReportedDatesAscend(rows, init);
      ReportedDatesMembers(rows, init);
      var prev := ReportedDates(rows, init);
      forall d | d in prev ensures StringLess(d, last) {
        var j :| 0 <= j < |init| && init[j] == d;
      }
    }
  }

  /** The `expiration_date` column of the max-pain table. */
  function MaxPainDates(table: seq<MaxPainRow>): (ds: seq<Date>)
    ensures |ds| == |table|
    ensures forall k :: 0 <= k < |table| ==> ds[k] == table[k].expirationDate
  {
    seq(|table|, k requires 0 <= k < |table| => table[k].expirationDate)
  }

  /** Every entry of `table` holds a nonzero max-pain strike of its expiration. */
  ghost predicate HoldsMaxPains(rows: seq<OptionRecord>, table: seq<MaxPainRow>) {
    forall k :: 0 <= k < |table| ==>
      table[k].maxPainStrike != 0.0 && IsMaxPain(AtExpiration(rows, table[k].expirationDate), table[k].maxPainStrike)
  }

  /** One entry per expiration whose max-pain strike is present and not 0,
      in ascending expiration order, each holding that strike. */
  method MaxPainTable(rows: seq<OptionRecord>) returns (table: seq<MaxPainRow>)
    ensures MaxPainDates(table) == ReportedDates(rows, ExpirationDates(rows))
    ensures HoldsMaxPains(rows, table)
  {
    var dates := ExpirationDates(rows);
    table := [];
    for i := 0 to |dates|
      invariant MaxPainDates(table) == ReportedDates(rows, dates[..i])
      invariant HoldsMaxPains(rows, table)
    {
      var expDate := dates[i];
      var maxPain := CalculateMaxPain(rows, expDate);
      ghost var before := table;
      if maxPain.Some? && maxPain.value != 0.0 {
        table := table + [MaxPainRow(expDate, maxPain.value)];
      }
      MaxPainTableStep(rows, dates, i, before, maxPain, table);
    }
    assert dates[..|dates|] == dates;
  }

  /** One iteration of the table loop keeps both of its invariants. */
  lemma MaxPainTableStep(rows: seq<OptionRecord>, dates: seq<Date>, i: nat, before: seq<MaxPainRow>, maxPain: Option<real>, after: seq<MaxPainRow>)
    requires i < |dates|
    requires MaxPainDates(before) == ReportedDates(rows, dates[..i]) && HoldsMaxPains(rows, before)
    requires maxPain.Some? ==> IsMaxPain(AtExpiration(rows, dates[i]), maxPain.value)
    requires maxPain.None? <==> AtExpiration(rows, dates[i]) == []
    requires after == if maxPain.Some? && maxPain.value != 0.0 then before + [MaxPainRow(dates[i], maxPain.value)] else before
    ensures MaxPainDates(after) == ReportedDates(rows, dates[..i + 1])
    ensures HoldsMaxPains(rows, after)
  {
    ReportedStep(rows, dates[i], maxPain);
    ReportedDatesStep(rows, dates, i, before, maxPain.GetOr(0.0), after);
    if maxPain.Some? && maxPain.value != 0.0 {
      HoldsMaxPainsSnoc(rows, before, MaxPainRow(dates[i], maxPain.value));
    }
  }

  lemma ReportedDatesStep(rows: seq<OptionRecord>, dates: seq<Date>, i: nat, before: seq<MaxPainRow>, strike: real, after: seq<MaxPainRow>)
    requires i < |dates| && MaxPainDates(before) == ReportedDates(rows, dates[..i])
    requires after == if HasMaxPain(rows, dates[i]) then before + [MaxPainRow(dates[i], strike)] else before
    ensures MaxPainDates(after) == ReportedDates(rows, dates[..i + 1])
  {
    assert dates[..i + 1][..i] == dates[..i];
    if HasMaxPain(rows, dates[i]) {
      assert MaxPainDates(after) == MaxPainDates(before) + [dates[i]];
    }
  }

  lemma HoldsMaxPainsSnoc(rows: seq<OptionRecord>, table: seq<MaxPainRow>, x: MaxPainRow)
    requires HoldsMaxPains(rows, table)
    requires x.maxPainStrike != 0.0 && IsMaxPain(AtExpiration(rows, x.expirationDate), x.maxPainStrike)
    ensures HoldsMaxPains(rows, table + [x])
  {
    var t := table + [x];
    forall k | 0 <= k < |t|
      ensures t[k].maxPainStrike != 0.0 && IsMaxPain(AtExpiration(rows, t[k].expirationDate), t[k].maxPainStrike)
    {
      if k < |table| { assert t[k] == table[k]; }
    }
  }

  /** What one result of the max-pain search contributes to the table. */
  lemma ReportedStep(rows: seq<OptionRecord>, d: Date, maxPain: Option<real>)
    requires maxPain.Some? ==> IsMaxPain(AtExpiration(rows, d), maxPain.value)
    requires maxPain.None? <==> AtExpiration(rows, d) == []
    ensures HasMaxPain(rows, d) <==> maxPain.Some? && maxPain.value != 0.0
  {
    if maxPain.Some? && maxPain.value == 0.0 {
      forall s | IsMaxPain(AtExpiration(rows, d), s) ensures s == 0.0 {
        MaxPainUnique(AtExpiration(rows, d), s, 0.0);
      }
    }
  }

  /** The max-pain table lists exactly the expirations with a nonzero
      max-pain strike, each once, in ascending order. */
  lemma MaxPainTableShape(rows: seq<OptionRecord>, table: seq<MaxPainRow>)
    requires MaxPainDates(table) == ReportedDates(rows, ExpirationDates(rows))
    ensures forall d :: (exists k :: 0 <= k < |table| && table[k].expirationDate == d) <==> d in DatesOf(rows) && HasMaxPain(rows, d)
    ensures forall k, l :: 0 <= k < l < |table| ==> StringLess(table[k].expirationDate, table[l].expirationDate)
  {
    var dates := ExpirationDates(rows);
    ReportedDatesMembers(rows, dates);
    ReportedDatesAscend(rows, dates);
    var ds := MaxPainDates(table);
    forall d ensures (exists k :: 0 <= k < |table| && table[k].expirationDate == d) <==> d in ds {
      if d in ds {
        var k :| 0 <= k < |ds| && ds[k] == d;
        assert table[k].expirationDate == d;
      }
    }
    forall k, l | 0 <= k < l < |table| ensures StringLess(table[k].expirationDate, table[l].expirationDate) {
      assert StringLess(ds[k], ds[l]);
    }
  }

  // ---------------------------------------------------------------------
  // The summary sheet and the report
  // ---------------------------------------------------------------------

  /** The blocks of the summary sheet; the unusual-activity block is present
      only when it has rows. */
  datatype Summary = Summary(
    overall: OverallStats,
    ratios: seq<RatioRow>,
    maxPain: seq<MaxPainRow>,
    unusual: Option<seq<UnusualRow>>)

  /** `s` is the summary sheet of `rows`: every block holds what its
      analysis defines. */
  ghost predicate SummaryOf(rows: seq<OptionRecord>, threshold: Option<real>, s: Summary) {
    && s.overall == OverallStatsOf(rows)
    && |s.ratios| == |ExpirationDates(rows)|
    && (forall k :: 0 <= k < |s.ratios| ==> s.ratios[k] == RatioRowFor(rows, ExpirationDates(rows)[k]))
    && MaxPainDates(s.maxPain) == ReportedDates(rows, ExpirationDates(rows))
    && HoldsMaxPains(rows, s.maxPain)
    && s.unusual == (if DetectUnusualActivity(rows, threshold) == [] then None else Some(DetectUnusualActivity(rows, threshold)))
  }

  /** Builds the summary sheet; its put/call columns add up to its overall totals. */
  method CreateSummarySheet(rows: seq<OptionRecord>, threshold: Option<real>) returns (summary: Summary)
    ensures SummaryOf(rows, threshold, summary)
    ensures summary.overall.totalCalls + summary.overall.totalPuts == |rows|
    ensures ColumnTotal(summary.ratios, Call, Volume) == summary.overall.totalCallVolume
    ensures ColumnTotal(summary.ratios, Put, Volume) == summary.overall.totalPutVolume
    ensures ColumnTotal(summary.ratios, Call, OpenInterest) == summary.overall.totalCallOI
    ensures ColumnTotal(summary.ratios, Put, OpenInterest) == summary.overall.totalPutOI
  {
    var overall := OverallStatsOf(rows);
    var pcRatios := CalculatePutCallRatios(rows);
    var maxPainData := MaxPainTable(rows);
    var unusual := DetectUnusualActivity(rows, threshold);
    var unusualBlock: Option<seq<UnusualRow>> := None;
    if |unusual| > 0 {
      unusualBlock := Some(unusual);
    }
    summary := Summary(overall, pcRatios, maxPainData, unusualBlock);
    OverallStatsConsistent(rows, pcRatios);
  }

  /** What the CSV reader yields: the header's column names and the rows. */
  datatype CsvTable = CsvTable(columns: seq<string>, rows: seq<OptionRecord>)

  datatype AnalysisError =
    | Unreadable                                 // reading the CSV raised
    | MissingRequired(columns: seq<string>)      // required columns absent
    | SelectionRaised(columns: seq<string>)      // the unusual-activity selection raised KeyError

  /** The workbook: the summary sheet, then the calls and the puts sheets. */
  datatype Report = Report(summary: Summary, calls: seq<OptionRecord>, puts: seq<OptionRecord>)

  /** The analysis run: `input` is None when the CSV could not be read. When
      some option traded, building the summary selects `SelectedColumns`,
      which the column check does not guard, and a missing one raises. */
  method AnalyzeOptionsChain(input: Option<CsvTable>, threshold: Option<real>) returns (result: Result<Report, AnalysisError>)
    ensures input.None? ==> result == Failure(Unreadable)
    ensures input.Some? && MissingColumns(input.value.columns) != [] ==>
      result == Failure(MissingRequired(MissingColumns(input.value.columns)))
    ensures (input.Some? && MissingColumns(input.value.columns) == [] &&
             Select(input.value.rows, Traded) != [] && MissingSelectedColumns(input.value.columns) != []) ==>
      result == Failure(SelectionRaised(MissingSelectedColumns(input.value.columns)))
    ensures (input.Some? && MissingColumns(input.value.columns) == [] &&
             (Select(input.value.rows, Traded) == [] || MissingSelectedColumns(input.value.columns) == [])) ==>
      && result.Success?
      && SummaryOf(input.value.rows, threshold, result.value.summary)
      && result.value.calls == OfType(input.value.rows, Call)
      && result.value.puts == OfType(input.value.rows, Put)
    ensures result.Success? ==> |result.value.calls| + |result.value.puts| == |input.value.rows|
  {
    if input.None? {
      return Failure(Unreadable);
    }
    var df := input.value.rows;
    var missingCols := MissingColumns(input.value.columns);
    if |missingCols| > 0 {
      return Failure(MissingRequired(missingCols));
    }
    var callsDf := OfType(df, Call);
    var putsDf := OfType(df, Put);
    var missingSelected := MissingSelectedColumns(input.value.columns);
    if |Select(df, Traded)| > 0 && |missingSelected| > 0 {
      return Failure(SelectionRaised(missingSelected));
    }
    var summaryData := CreateSummarySheet(df, threshold);
    result := Success(Report(summaryData, callsDf, putsDf));
  }
}
