/**
 * The structural part of the forecasting pipeline: the month grid every product
 * is reindexed onto, one forecast record per kept product and forecast month
 * (with the last-value fallback), and the `forecasted_products` list the
 * frontend consumes.  Fitted predictions and gap fills are opaque values.
 */
module Forecasting {
  import opened Wrappers
  import opened Calendar
  import opened ProductOrder
  import opened Pairs

  /** One row of the training CSV, its date already truncated to the month. */
  datatype Observation = Observation(month: Month, product: ProductCode, sales: Option<real>)

  datatype ForecastError =
    | EmptyTrainingData
    | DuplicateMonth(product: ProductCode, month: Month)
    | BadMonth(text: string)
    | NoForecasts

  // ---------------------------------------------------------------------------
  // Month enumeration
  // ---------------------------------------------------------------------------

  /** `pd.date_range(first, last, freq='MS')`: every month start from first to last inclusive. */
  function MonthRange(first: Month, last: Month): (ms: seq<Month>)
    ensures |ms| == if last < first then 0 else last - first + 1
    ensures forall i :: 0 <= i < |ms| ==> ms[i] == first + i
    decreases last - first
  {
    if last < first then [] else [first] + MonthRange(first + 1, last)
  }

  /** The range holds exactly the months between its bounds, ascending. */
  lemma {:induction false} MonthRangeMembers(first: Month, last: Month, m: Month)
    ensures m in MonthRange(first, last) <==> first <= m <= last
  {
    var ms := MonthRange(first, last);
    if first <= m <= last {
      assert ms[m - first] == m;
    }
  }

  /** `d.strftime("%Y-%m-%d")` for a month start. */
  function DateKey(m: Month): string
  {
    MonthText(m) + "-01"
  }

  // ---------------------------------------------------------------------------
  // The training rows
  // ---------------------------------------------------------------------------

  function Codes(rows: seq<Observation>): (cs: seq<ProductCode>)
    ensures |cs| == |rows| && forall i :: 0 <= i < |rows| ==> cs[i] == rows[i].product
  {
    seq(|rows|, i requires 0 <= i < |rows| => rows[i].product)
  }

  /** `df['date'].min()`. */
  function Earliest(rows: seq<Observation>): (m: Month)
    requires rows != []
    ensures forall i :: 0 <= i < |rows| ==> m <= rows[i].month
    decreases |rows|
  {
    if |rows| == 1 then rows[0].month
    else
      var rest := Earliest(rows[1..]);
      assert forall i :: 1 <= i < |rows| ==> rows[i] == rows[1..][i - 1];
      if rows[0].month <= rest then rows[0].month else rest
  }

  /** `df['date'].max()`. */
  function Latest(rows: seq<Observation>): (m: Month)
    requires rows != []
    ensures forall i :: 0 <= i < |rows| ==> rows[i].month <= m
    decreases |rows|
  {
    if |rows| == 1 then rows[0].month
    else
      var rest := Latest(rows[1..]);
      assert forall i :: 1 <= i < |rows| ==> rows[i] == rows[1..][i - 1];
      if rows[0].month >= rest then rows[0].month else rest
  }

  /** The grid's first and last months are months some row has: the grid is no wider than the data. */
  lemma {:induction false} BoundsAttained(rows: seq<Observation>)
    requires rows != []
    ensures exists i :: 0 <= i < |rows| && rows[i].month == Earliest(rows)
    ensures exists i :: 0 <= i < |rows| && rows[i].month == Latest(rows)
    decreases |rows|
  {
    if |rows| == 1 {
      assert rows[0].month == Earliest(rows) == Latest(rows);
    } else {
      BoundsAttained(rows[1..]);
      var a :| 0 <= a < |rows[1..]| && rows[1..][a].month == Earliest(rows[1..]);
      var b :| 0 <= b < |rows[1..]| && rows[1..][b].month == Latest(rows[1..]);
      assert rows[a + 1] == rows[1..][a] && rows[b + 1] == rows[1..][b];
      assert Earliest(rows) == rows[0].month || Earliest(rows) == rows[a + 1].month;
      assert Latest(rows) == rows[0].month || Latest(rows) == rows[b + 1].month;
    }
  }

  /** A month that two rows of the product share, which makes `reindex` raise. */
  function DuplicateIn(rows: seq<Observation>, p: ProductCode): Option<Month>
    decreases |rows|
  {
    if rows == [] then None
    else if rows[0].product == p && exists j :: 1 <= j < |rows| && rows[j].product == p && rows[j].month == rows[0].month
    then Some(rows[0].month)
    else DuplicateIn(rows[1..], p)
  }

  /** No two rows of the product share a month. */
  ghost predicate UniqueMonths(rows: seq<Observation>, p: ProductCode)
  {
    forall i, j :: 0 <= i < j < |rows| && rows[i].product == p && rows[j].product == p ==> rows[i].month != rows[j].month
  }

  /** DuplicateIn finds a shared month exactly when there is one, and the month it reports is shared. */
  lemma {:induction false} DuplicateInSpec(rows: seq<Observation>, p: ProductCode)
    ensures DuplicateIn(rows, p).None? <==> UniqueMonths(rows, p)
    ensures DuplicateIn(rows, p).Some? ==>
      exists i, j :: 0 <= i < j < |rows| && rows[i].product == p && rows[j].product == p &&
                     rows[i].month == DuplicateIn(rows, p).value && rows[j].month == DuplicateIn(rows, p).value
    decreases |rows|
  {
    if rows != [] {
      DuplicateInSpec(rows[1..], p);
      assert forall i :: 1 <= i < |rows| ==> rows[i] == rows[1..][i - 1];
      if !(rows[0].product == p && exists j :: 1 <= j < |rows| && rows[j].product == p && rows[j].month == rows[0].month) {
        if DuplicateIn(rows[1..], p).Some? {
          var i, j :| 0 <= i < j < |rows[1..]| && rows[1..][i].product == p && rows[1..][j].product == p &&
                      rows[1..][i].month == DuplicateIn(rows[1..], p).value && rows[1..][j].month == DuplicateIn(rows[1..], p).value;
          assert rows[i + 1].month == rows[j + 1].month;
        }
        if UniqueMonths(rows[1..], p) {
          forall i, j | 0 <= i < j < |rows| && rows[i].product == p && rows[j].product == p
            ensures rows[i].month != rows[j].month
          {
            if i > 0 {
              assert rows[1..][i - 1] == rows[i] && rows[1..][j - 1] == rows[j];
            }
          }
        }
      }
    }
  }

  /** The sales a product has in a month before filling: the row's value, or None for a gap or NaN. */
  function SalesAt(rows: seq<Observation>, p: ProductCode, m: Month): Option<real>
    decreases |rows|
  {
    if rows == [] then None
    else if rows[0].product == p && rows[0].month == m then rows[0].sales
    else SalesAt(rows[1..], p, m)
  }

  /** A sales value on the grid comes from a row of that product and month. */
  lemma {:induction false} SalesAtRow(rows: seq<Observation>, p: ProductCode, m: Month)
    requires SalesAt(rows, p, m).Some?
    ensures exists i :: 0 <= i < |rows| && rows[i].product == p && rows[i].month == m && rows[i].sales.Some?
    decreases |rows|
  {
    if !(rows[0].product == p && rows[0].month == m) {
      SalesAtRow(rows[1..], p, m);
      var i :| 0 <= i < |rows[1..]| && rows[1..][i].product == p && rows[1..][i].month == m && rows[1..][i].sales.Some?;
      assert rows[i + 1] == rows[1..][i];
    }
  }

  lemma {:induction false} SalesAtUnique(rows: seq<Observation>, p: ProductCode, i: int)
    requires 0 <= i < |rows| && rows[i].product == p
    requires DuplicateIn(rows, p).None?
    ensures SalesAt(rows, p, rows[i].month) == rows[i].sales
    decreases |rows|
  {
    if i > 0 {
      assert rows[1..][i - 1] == rows[i];
      SalesAtUnique(rows[1..], p, i - 1);
    }
  }

  /** Some row of the product carries a sales value. */
  ghost predicate HasObservedSales(rows: seq<Observation>, p: ProductCode)
  {
    exists i :: 0 <= i < |rows| && rows[i].product == p && rows[i].sales.Some?
  }

  // ---------------------------------------------------------------------------
  // preprocess_panel
  // ---------------------------------------------------------------------------

  /** A product's sales on the global grid. */
  datatype Series = Series(product: ProductCode, sales: seq<Option<real>>)

  /** The processed frame: every product reindexed onto the same month grid. */
  datatype Panel = Panel(grid: seq<Month>, series: seq<Series>)

  /**
   * The rolling-mean, month-average, interpolate, ffill and bfill chain: observed
   * values stay, and a series with at least one observed value has every gap
   * filled (with the opaque value `gapFill` gives); a series with none stays empty.
   */
  function FillGaps(p: ProductCode, grid: seq<Month>, observed: seq<Option<real>>, gapFill: (ProductCode, Month) -> real): (filled: seq<Option<real>>)
    requires |observed| == |grid|
    ensures |filled| == |grid|
    ensures forall i :: 0 <= i < |grid| && observed[i].Some? ==> filled[i] == observed[i]
    ensures (exists i :: 0 <= i < |grid| && observed[i].Some?) ==> forall i :: 0 <= i < |grid| ==> filled[i].Some?
    ensures (forall i :: 0 <= i < |grid| ==> observed[i].None?) ==> forall i :: 0 <= i < |grid| ==> filled[i].None?
  {
    if exists i :: 0 <= i < |grid| && observed[i].Some? then
      seq(|grid|, i requires 0 <= i < |grid| => if observed[i].Some? then observed[i] else Some(gapFill(p, grid[i])))
    else observed
  }

  /** One product's group, reindexed onto the grid and filled. */
  function ProductSeries(rows: seq<Observation>, p: ProductCode, grid: seq<Month>, gapFill: (ProductCode, Month) -> real): Series
  {
    Series(p, FillGaps(p, grid, seq(|grid|, i requires 0 <= i < |grid| => SalesAt(rows, p, grid[i])), gapFill))
  }

  /** The first of the products (in order) whose group repeats a month. */
  function FirstDuplicate(rows: seq<Observation>, ps: seq<ProductCode>): (r: Option<(ProductCode, Month)>)
    ensures r.Some? ==> r.value.0 in ps && DuplicateIn(rows, r.value.0) == Some(r.value.1)
    ensures r.None? ==> forall p :: p in ps ==> DuplicateIn(rows, p).None?
    decreases |ps|
  {
    if ps == [] then None
    else
      var front := ps[..|ps| - 1];
      var p := ps[|ps| - 1];
      assert ps == front + [p];
      var r := FirstDuplicate(rows, front);
      if r.Some? then r
      else match DuplicateIn(rows, p)
        case Some(m) => Some((p, m))
        case None => None
  }

  /** The products of the training rows in the order `groupby(sort=False)` meets them once `load_data` has sorted by code. */
  function Products(rows: seq<Observation>): seq<ProductCode>
  {
    SortedCodes(Codes(rows))
  }

  function SeriesOfProducts(rows: seq<Observation>, ps: seq<ProductCode>, grid: seq<Month>, gapFill: (ProductCode, Month) -> real): (ss: seq<Series>)
    ensures |ss| == |ps| && forall j :: 0 <= j < |ps| ==> ss[j] == ProductSeries(rows, ps[j], grid, gapFill)
  {
    seq(|ps|, j requires 0 <= j < |ps| => ProductSeries(rows, ps[j], grid, gapFill))
  }

  /** What `preprocess_panel` returns for the training rows, or the error it raises. */
  function ProcessedPanel(rows: seq<Observation>, gapFill: (ProductCode, Month) -> real): (r: Result<Panel, ForecastError>)
    ensures r == Failure(EmptyTrainingData) <==> rows == []
    ensures r.Success? ==>
      r.value.grid == MonthRange(Earliest(rows), Latest(rows)) &&
      |r.value.series| == |Products(rows)| &&
      forall j :: 0 <= j < |r.value.series| ==>
        r.value.series[j].product == Products(rows)[j] && |r.value.series[j].sales| == |r.value.grid|
  {
    if rows == [] then Failure(EmptyTrainingData)
    else
      var grid := MonthRange(Earliest(rows), Latest(rows));
      var ps := Products(rows);
      match FirstDuplicate(rows, ps)
      case Some((p, m)) => Failure(DuplicateMonth(p, m))
      case None => Success(Panel(grid, SeriesOfProducts(rows, ps, grid, gapFill)))
  }

  /** No two rows of one product share a month. */
  ghost predicate MonthsUnique(rows: seq<Observation>)
  {
    forall i, j :: 0 <= i < j < |rows| && rows[i].product == rows[j].product ==> rows[i].month != rows[j].month
  }

  /** Preprocessing fails on no rows and on a product month given twice, and only then. */
  lemma {:induction false} ProcessedPanelErrors(rows: seq<Observation>, gapFill: (ProductCode, Month) -> real)
    ensures ProcessedPanel(rows, gapFill).Success? <==> rows != [] && MonthsUnique(rows)
    ensures var r := ProcessedPanel(rows, gapFill);
      r.Failure? && r.error.DuplicateMonth? ==>
        exists i, j :: 0 <= i < j < |rows| && rows[i].product == r.error.product && rows[j].product == r.error.product &&
                       rows[i].month == r.error.month && rows[j].month == r.error.month
  {
    if rows != [] {
      var ps := Products(rows);
      var dup := FirstDuplicate(rows, ps);
      if dup.None? {
        forall i, j | 0 <= i < j < |rows| && rows[i].product == rows[j].product ensures rows[i].month != rows[j].month {
          assert Codes(rows)[i] == rows[i].product;
          assert rows[i].product in ps;
          DuplicateInSpec(rows, rows[i].product);
        }
      } else {
        DuplicateInSpec(rows, dup.value.0);
        if MonthsUnique(rows) {
          assert UniqueMonths(rows, dup.value.0);
        }
      }
    }
  }

  /** `preprocess_panel`: appends one reindexed, filled frame per product. */
  method PreprocessPanel(rows: seq<Observation>, gapFill: (ProductCode, Month) -> real) returns (r: Result<Panel, ForecastError>)
    ensures r == ProcessedPanel(rows, gapFill)
  {
    if rows == [] {
      return Failure(EmptyTrainingData);
    }
    var grid := MonthRange(Earliest(rows), Latest(rows));
    var ps := Products(rows);
    var processed: seq<Series> := [];
    var j := 0;
    while j < |ps|
      invariant 0 <= j <= |ps|
      invariant FirstDuplicate(rows, ps[..j]).None?
      invariant processed == SeriesOfProducts(rows, ps[..j], grid, gapFill)
    {
      var p := ps[j];
      var dup := DuplicateIn(rows, p);
      if dup.Some? {
        FirstDuplicateAt(rows, ps, j);
        return Failure(DuplicateMonth(p, dup.value));
      }
      SeriesStep(rows, ps, j, grid, gapFill);
      processed := processed + [ProductSeries(rows, p, grid, gapFill)];
      j := j + 1;
    }
    assert ps[..j] == ps;
    r := Success(Panel(grid, processed));
  }

  /** One more product without a repeated month extends both the clean prefix and its series. */
  lemma {:induction false} SeriesStep(rows: seq<Observation>, ps: seq<ProductCode>, j: int, grid: seq<Month>, gapFill: (ProductCode, Month) -> real)
    requires 0 <= j < |ps|
    requires FirstDuplicate(rows, ps[..j]).None? && DuplicateIn(rows, ps[j]).None?
    ensures FirstDuplicate(rows, ps[..j + 1]).None?
    ensures SeriesOfProducts(rows, ps[..j + 1], grid, gapFill) ==
      SeriesOfProducts(rows, ps[..j], grid, gapFill) + [ProductSeries(rows, ps[j], grid, gapFill)]
  {
    assert ps[..j + 1][..j] == ps[..j];
  }

  /** The first product whose group repeats a month decides the error. */
  lemma {:induction false} FirstDuplicateAt(rows: seq<Observation>, ps: seq<ProductCode>, j: int)
    requires 0 <= j < |ps|
    requires FirstDuplicate(rows, ps[..j]).None? && DuplicateIn(rows, ps[j]).Some?
    ensures FirstDuplicate(rows, ps) == Some((ps[j], DuplicateIn(rows, ps[j]).value))
  {
    assert ps[..j + 1][..j] == ps[..j];
    assert FirstDuplicate(rows, ps[..j + 1]) == Some((ps[j], DuplicateIn(rows, ps[j]).value));
    FirstDuplicateExtends(rows, ps[..j + 1], ps[j + 1..]);
    assert ps[..j + 1] + ps[j + 1..] == ps;
  }

  /** Once a prefix of the products has a duplicate, the whole list reports that one. */
  lemma {:induction false} FirstDuplicateExtends(rows: seq<Observation>, front: seq<ProductCode>, back: seq<ProductCode>)
    requires FirstDuplicate(rows, front).Some?
    ensures FirstDuplicate(rows, front + back) == FirstDuplicate(rows, front)
    decreases |back|
  {
    if back != [] {
      var all := front + back;
      assert all[..|all| - 1] == front + back[..|back| - 1];
      FirstDuplicateExtends(rows, front, back[..|back| - 1]);
    } else {
      assert front + back == front;
    }
  }

  /** The sales of a product on the grid before filling. */
  function Observed(rows: seq<Observation>, p: ProductCode, grid: seq<Month>): (o: seq<Option<real>>)
    ensures |o| == |grid| && forall k :: 0 <= k < |grid| ==> o[k] == SalesAt(rows, p, grid[k])
  {
    seq(|grid|, k requires 0 <= k < |grid| => SalesAt(rows, p, grid[k]))
  }

  /** On the global grid, every row of a product sits at its month's place. */
  lemma {:induction false} ObservedRows(rows: seq<Observation>, p: ProductCode)
    requires rows != [] && DuplicateIn(rows, p).None?
    ensures var grid := MonthRange(Earliest(rows), Latest(rows));
      forall i :: 0 <= i < |rows| && rows[i].product == p ==>
        0 <= rows[i].month - Earliest(rows) < |grid| && Observed(rows, p, grid)[rows[i].month - Earliest(rows)] == rows[i].sales
  {
    forall i | 0 <= i < |rows| && rows[i].product == p
      ensures var grid := MonthRange(Earliest(rows), Latest(rows));
        0 <= rows[i].month - Earliest(rows) < |grid| && Observed(rows, p, grid)[rows[i].month - Earliest(rows)] == rows[i].sales
    {
      ObservedAtRow(rows, p, i);
    }
  }

  /** The observed series has a value exactly when some row of the product carries one. */
  lemma {:induction false} ObservedSome(rows: seq<Observation>, p: ProductCode)
    requires rows != [] && DuplicateIn(rows, p).None?
    ensures var o := Observed(rows, p, MonthRange(Earliest(rows), Latest(rows)));
      HasObservedSales(rows, p) <==> exists k :: 0 <= k < |o| && o[k].Some?
  {
    var grid := MonthRange(Earliest(rows), Latest(rows));
    var o := Observed(rows, p, grid);
    if HasObservedSales(rows, p) {
      var i :| 0 <= i < |rows| && rows[i].product == p && rows[i].sales.Some?;
      ObservedAtRow(rows, p, i);
    }
    if exists k :: 0 <= k < |o| && o[k].Some? {
      var k :| 0 <= k < |o| && o[k].Some?;
      SalesAtRow(rows, p, grid[k]);
    }
  }

  /** A row of the product lands at its month's place on the global grid. */
  lemma {:induction false} ObservedAtRow(rows: seq<Observation>, p: ProductCode, i: int)
    requires rows != [] && DuplicateIn(rows, p).None?
    requires 0 <= i < |rows| && rows[i].product == p
    ensures var o := Observed(rows, p, MonthRange(Earliest(rows), Latest(rows)));
      0 <= rows[i].month - Earliest(rows) < |o| && o[rows[i].month - Earliest(rows)] == rows[i].sales
  {
    var grid := MonthRange(Earliest(rows), Latest(rows));
    var k := rows[i].month - Earliest(rows);
    SalesAtUnique(rows, p, i);
    assert grid[k] == rows[i].month;
  }

  /** After preprocessing, a product's series is filled exactly when one of its rows carries a sales value, and empty otherwise. */
  lemma {:induction false} ProcessedSales(rows: seq<Observation>, gapFill: (ProductCode, Month) -> real, j: int)
    requires ProcessedPanel(rows, gapFill).Success?
    requires 0 <= j < |ProcessedPanel(rows, gapFill).value.series|
    ensures var s := ProcessedPanel(rows, gapFill).value.series[j];
      HasObservedSales(rows, s.product) ==> forall k :: 0 <= k < |s.sales| ==> s.sales[k].Some?
    ensures var s := ProcessedPanel(rows, gapFill).value.series[j];
      !HasObservedSales(rows, s.product) ==> forall k :: 0 <= k < |s.sales| ==> s.sales[k].None?
  {
    var s := ProcessedPanel(rows, gapFill).value.series[j];
    ProcessedSeries(rows, gapFill, j);
    FilledEverywhere(rows, s, gapFill);
  }

  /** After preprocessing, a row's sales value sits in its product's series at the row's month. */
  lemma {:induction false} ProcessedKeepsRows(rows: seq<Observation>, gapFill: (ProductCode, Month) -> real, j: int, i: int)
    requires ProcessedPanel(rows, gapFill).Success?
    requires 0 <= j < |ProcessedPanel(rows, gapFill).value.series|
    requires 0 <= i < |rows| && rows[i].product == ProcessedPanel(rows, gapFill).value.series[j].product
    ensures var s := ProcessedPanel(rows, gapFill).value.series[j];
      0 <= rows[i].month - Earliest(rows) < |s.sales| &&
      (rows[i].sales.Some? ==> s.sales[rows[i].month - Earliest(rows)] == rows[i].sales)
  {
    var s := ProcessedPanel(rows, gapFill).value.series[j];
    ProcessedSeries(rows, gapFill, j);
    SeriesKeepsRow(rows, s, gapFill, i);
  }

  /** A row's sales value sits in its product's series on the global grid, at the row's month. */
  lemma {:induction false} SeriesKeepsRow(rows: seq<Observation>, s: Series, gapFill: (ProductCode, Month) -> real, i: int)
    requires rows != [] && DuplicateIn(rows, s.product).None?
    requires s == ProductSeries(rows, s.product, MonthRange(Earliest(rows), Latest(rows)), gapFill)
    requires 0 <= i < |rows| && rows[i].product == s.product
    ensures 0 <= rows[i].month - Earliest(rows) < |s.sales| &&
      (rows[i].sales.Some? ==> s.sales[rows[i].month - Earliest(rows)] == rows[i].sales)
  {
    var first, last := Earliest(rows), Latest(rows);
    assert first <= rows[i].month <= last;
    FilledKeepsRow(rows, s, gapFill, i, first, last);
  }

  /** The j-th series of a processed panel is its product's group, and that group repeats no month. */
  lemma {:induction false} ProcessedSeries(rows: seq<Observation>, gapFill: (ProductCode, Month) -> real, j: int)
    requires ProcessedPanel(rows, gapFill).Success?
    requires 0 <= j < |ProcessedPanel(rows, gapFill).value.series|
    ensures var s := ProcessedPanel(rows, gapFill).value.series[j];
      rows != [] && DuplicateIn(rows, s.product).None? &&
      s == ProductSeries(rows, s.product, MonthRange(Earliest(rows), Latest(rows)), gapFill)
  {
    assert FirstDuplicate(rows, Products(rows)).None?;
  }

  /** A product's group with no repeated month, reindexed onto the global grid and filled, is full or empty with its group. */
  lemma {:induction false} FilledEverywhere(rows: seq<Observation>, s: Series, gapFill: (ProductCode, Month) -> real)
    requires rows != [] && DuplicateIn(rows, s.product).None?
    requires s == ProductSeries(rows, s.product, MonthRange(Earliest(rows), Latest(rows)), gapFill)
    ensures HasObservedSales(rows, s.product) ==> forall k :: 0 <= k < |s.sales| ==> s.sales[k].Some?
    ensures !HasObservedSales(rows, s.product) ==> forall k :: 0 <= k < |s.sales| ==> s.sales[k].None?
  {
    var grid := MonthRange(Earliest(rows), Latest(rows));
    assert s.sales == FillGaps(s.product, grid, Observed(rows, s.product, grid), gapFill);
    ObservedSome(rows, s.product);
  }

  /** ... and keeps a row's observed value at that row's month, for any grid that covers the row. */
  lemma {:induction false} FilledKeepsRow(rows: seq<Observation>, s: Series, gapFill: (ProductCode, Month) -> real, i: int,
                       first: Month, last: Month)
    requires DuplicateIn(rows, s.product).None?
    requires s == ProductSeries(rows, s.product, MonthRange(first, last), gapFill)
    requires 0 <= i < |rows| && rows[i].product == s.product && first <= rows[i].month <= last
    ensures 0 <= rows[i].month - first < |s.sales|
    ensures rows[i].sales.Some? ==> s.sales[rows[i].month - first] == rows[i].sales
  {
    var grid := MonthRange(first, last);
    var o := Observed(rows, s.product, grid);
    var k := rows[i].month - first;
    SalesAtUnique(rows, s.product, i);
    assert grid[k] == rows[i].month;
    assert o[k] == rows[i].sales;
    assert s.sales == FillGaps(s.product, grid, o, gapFill);
  }

  /** A row of the merged frame `preprocess_panel` returns. */
  datatype PanelRow = PanelRow(month: Month, product: ProductCode, sales: Option<real>)

  /** Every series of the panel covers the whole grid. */
  predicate Rectangular(panel: Panel)
  {
    forall j :: 0 <= j < |panel.series| ==> |panel.series[j].sales| == |panel.grid|
  }

  /** The rows of the k-th grid month, one per product in panel order. */
  function MonthRows(panel: Panel, k: int): (rs: seq<PanelRow>)
    requires Rectangular(panel) && 0 <= k < |panel.grid|
    ensures |rs| == |panel.series|
    ensures forall j :: 0 <= j < |rs| ==>
      rs[j] == PanelRow(panel.grid[k], panel.series[j].product, panel.series[j].sales[k])
  {
    seq(|panel.series|, j requires 0 <= j < |panel.series| =>
      PanelRow(panel.grid[k], panel.series[j].product, panel.series[j].sales[k]))
  }

  /** `pd.concat(processed)` sorted by date then product: the first n grid months, month by month. */
  function MergedRows(panel: Panel, n: nat): (rs: seq<PanelRow>)
    requires Rectangular(panel) && n <= |panel.grid|
    ensures |rs| == n * |panel.series|
    decreases n
  {
    if n == 0 then [] else MergedRows(panel, n - 1) + MonthRows(panel, n - 1)
  }

  /** The (date, product_code) order of the merged frame. */
  predicate RowBefore(a: PanelRow, b: PanelRow)
  {
    a.month < b.month || (a.month == b.month && Less(a.product, b.product))
  }

  predicate RowsSorted(rs: seq<PanelRow>)
  {
    forall a, b :: 0 <= a < b < |rs| ==> RowBefore(rs[a], rs[b])
  }

  lemma {:induction false} MonthRowsSorted(panel: Panel, k: int)
    requires Rectangular(panel) && 0 <= k < |panel.grid|
    requires StrictlyAscending(PanelProducts(panel))
    ensures RowsSorted(MonthRows(panel, k))
  {
    var block := MonthRows(panel, k);
    forall a, b | 0 <= a < b < |block| ensures RowBefore(block[a], block[b]) {
      assert PanelProducts(panel)[a] == block[a].product;
      assert PanelProducts(panel)[b] == block[b].product;
    }
  }

  lemma {:induction false} SortedConcat(front: seq<PanelRow>, block: seq<PanelRow>, m: Month)
    requires RowsSorted(front) && RowsSorted(block)
    requires forall a :: 0 <= a < |front| ==> front[a].month < m
    requires forall b :: 0 <= b < |block| ==> block[b].month == m
    ensures RowsSorted(front + block)
  {
    var rs := front + block;
    forall a, b | 0 <= a < b < |rs| ensures RowBefore(rs[a], rs[b]) {
      if b < |front| {
        assert rs[a] == front[a] && rs[b] == front[b];
      } else if a >= |front| {
        assert rs[a] == block[a - |front|] && rs[b] == block[b - |front|];
      } else {
        assert rs[a] == front[a] && rs[b] == block[b - |front|];
      }
    }
  }

  /**
   * With an ascending grid and ascending product codes, the merged frame is
   * strictly sorted by (date, product_code) and holds no month past the n-th.
   */
  lemma {:induction false} MergedRowsSorted(panel: Panel, n: nat)
    requires Rectangular(panel) && n <= |panel.grid|
    requires forall a, b :: 0 <= a < b < |panel.grid| ==> panel.grid[a] < panel.grid[b]
    requires StrictlyAscending(PanelProducts(panel))
    ensures RowsSorted(MergedRows(panel, n))
    ensures n > 0 ==> forall a :: 0 <= a < |MergedRows(panel, n)| ==> MergedRows(panel, n)[a].month <= panel.grid[n - 1]
    decreases n
  {
    if n > 0 {
      MergedRowsSorted(panel, n - 1);
      var front := MergedRows(panel, n - 1);
      var block := MonthRows(panel, n - 1);
      MonthRowsSorted(panel, n - 1);
      assert forall a :: 0 <= a < |front| ==> front[a].month < panel.grid[n - 1] by {
        if n > 1 {
          assert panel.grid[n - 2] < panel.grid[n - 1];
        }
      }
      SortedConcat(front, block, panel.grid[n - 1]);
      var rs := front + block;
      forall a | 0 <= a < |rs| ensures rs[a].month <= panel.grid[n - 1] {
        if a < |front| { assert rs[a] == front[a]; } else { assert rs[a] == block[a - |front|]; }
      }
    }
  }

  /** The preprocessed frame is sorted by (date, product_code), as `preprocess_panel` sorts it before returning. */
  lemma {:induction false} ProcessedRowsSorted(rows: seq<Observation>, gapFill: (ProductCode, Month) -> real)
    requires ProcessedPanel(rows, gapFill).Success?
    ensures var panel := ProcessedPanel(rows, gapFill).value;
      Rectangular(panel) && RowsSorted(MergedRows(panel, |panel.grid|)) &&
      |MergedRows(panel, |panel.grid|)| == |panel.grid| * |Products(rows)|
  {
    var panel := ProcessedPanel(rows, gapFill).value;
    assert PanelProducts(panel) == Products(rows);
    MergedRowsSorted(panel, |panel.grid|);
  }

  // ---------------------------------------------------------------------------
  // forecast_panel
  // ---------------------------------------------------------------------------

  /** A forecast value; NaN where Prophet has no prediction for the month. */
  datatype Forecast = Value(x: real) | NotANumber

  datatype ForecastRecord = ForecastRecord(month: Month, product: ProductCode, forecast: Forecast)

  /**
   * The fitted models, as opaque values.  `prophet(p)` is the `yhat` series
   * Prophet predicts for p, indexed by month, or None when fitting raised;
   * `smoothing(p)` is Holt-Winters' i-th forecast step, or None when it raised.
   */
  datatype Fits = Fits(useProphet: bool,
                       prophet: ProductCode -> Option<map<Month, Forecast>>,
                       smoothing: ProductCode -> Option<nat -> Forecast>)

  /** How many sales values a series has (`dropna().shape[0]`). */
  function CountNonNull(sales: seq<Option<real>>): (n: nat)
    ensures n <= |sales|
    ensures n == 0 <==> forall k :: 0 <= k < |sales| ==> sales[k].None?
    decreases |sales|
  {
    if sales == [] then 0
    else
      var front := sales[..|sales| - 1];
      assert forall k :: 0 <= k < |front| ==> front[k] == sales[k];
      CountNonNull(front) + (if sales[|sales| - 1].Some? then 1 else 0)
  }

  /** `dropna().iloc[-1]`: the last sales value of the series. */
  function LastNonNull(sales: seq<Option<real>>): (v: Option<real>)
    ensures v.None? <==> forall k :: 0 <= k < |sales| ==> sales[k].None?
    ensures v.Some? ==> exists k :: 0 <= k < |sales| && sales[k] == v &&
                                   forall k' :: k < k' < |sales| ==> sales[k'].None?
    decreases |sales|
  {
    if sales == [] then None
    else if sales[|sales| - 1].Some? then sales[|sales| - 1]
    else
      var front := sales[..|sales| - 1];
      assert forall k :: 0 <= k < |front| ==> front[k] == sales[k];
      var v := LastNonNull(front);
      LastAfterNull(sales, v);
      v
  }

  /** A value that only nulls follow in all but the last entry is still followed only by nulls when the last entry is null. */
  lemma {:induction false} LastAfterNull(sales: seq<Option<real>>, v: Option<real>)
    requires sales != [] && sales[|sales| - 1].None?
    requires v.Some? ==> exists k :: 0 <= k < |sales| - 1 && sales[k] == v && forall k' :: k < k' < |sales| - 1 ==> sales[k'].None?
    ensures v.Some? ==> exists k :: 0 <= k < |sales| && sales[k] == v && forall k' :: k < k' < |sales| ==> sales[k'].None?
  {
    if v.Some? {
      var k :| 0 <= k < |sales| - 1 && sales[k] == v && forall k' :: k < k' < |sales| - 1 ==> sales[k'].None?;
      assert forall k' :: k < k' < |sales| ==> sales[k'].None?;
    }
  }

  /** The fallback: the last sales value, or 0.0 when there is none. */
  function FallbackValue(sales: seq<Option<real>>): real
  {
    match LastNonNull(sales)
    case Some(v) => v
    case None => 0.0
  }

  /** Which branch produces a product's forecasts. */
  datatype Plan = Constant(v: real) | Predicted(yhat: map<Month, Forecast>) | Smoothed(step: nat -> Forecast)

  /** The branch taken for one product: Prophet, Holt-Winters, or the last-value fallback. */
  function PlanFor(fits: Fits, p: ProductCode, sales: seq<Option<real>>): (plan: Plan)
    ensures plan.Constant? && CountNonNull(sales) > 0 ==> LastNonNull(sales) == Some(plan.v)
    ensures plan.Constant? && CountNonNull(sales) == 0 ==> plan.v == 0.0
    ensures plan.Constant? <==>
      (if fits.useProphet then fits.prophet(p).None?
       else CountNonNull(sales) < 12 || fits.smoothing(p).None?)
  {
    if fits.useProphet then
      match fits.prophet(p)
      case Some(yhat) => Predicted(yhat)
      case None => Constant(FallbackValue(sales))
    else if CountNonNull(sales) < 12 then Constant(FallbackValue(sales))
    else
      match fits.smoothing(p)
      case Some(step) => Smoothed(step)
      case None => Constant(FallbackValue(sales))
  }

  /** The forecast of the i-th forecast month under a plan (`preds.get(fm, nan)`, `fc[i]`, or the constant). */
  function ForecastAt(plan: Plan, months: seq<Month>, i: int): Forecast
    requires 0 <= i < |months|
  {
    match plan
    case Constant(v) => Value(v)
    case Predicted(yhat) => if months[i] in yhat then yhat[months[i]] else NotANumber
    case Smoothed(step) => step(i)
  }

  function ProductRecords(p: ProductCode, plan: Plan, months: seq<Month>): (rs: seq<ForecastRecord>)
    ensures |rs| == |months|
    ensures forall i :: 0 <= i < |months| ==> rs[i] == ForecastRecord(months[i], p, ForecastAt(plan, months, i))
  {
    seq(|months|, i requires 0 <= i < |months| => ForecastRecord(months[i], p, ForecastAt(plan, months, i)))
  }

  /** The series of a product in the panel. */
  function SeriesOf(panel: Panel, p: ProductCode): seq<Option<real>>
    decreases |panel.series|
  {
    if panel.series == [] then []
    else if panel.series[0].product == p then panel.series[0].sales
    else SeriesOf(Panel(panel.grid, panel.series[1..]), p)
  }

  function PanelProducts(panel: Panel): (ps: seq<ProductCode>)
    ensures |ps| == |panel.series| && forall j :: 0 <= j < |ps| ==> ps[j] == panel.series[j].product
  {
    seq(|panel.series|, j requires 0 <= j < |panel.series| => panel.series[j].product)
  }

  /** A product is forecast unless its series has no sales value at all. */
  predicate Kept(panel: Panel, p: ProductCode)
  {
    CountNonNull(SeriesOf(panel, p)) > 0
  }

  /** The products `forecast_panel` produces records for, in `groupby` order. */
  function KeptProducts(panel: Panel, ps: seq<ProductCode>): (ks: seq<ProductCode>)
    ensures forall p :: p in ks <==> p in ps && Kept(panel, p)
    ensures StrictlyAscending(ps) ==> StrictlyAscending(ks)
    decreases |ps|
  {
    if ps == [] then []
    else
      var front := ps[..|ps| - 1];
      var p := ps[|ps| - 1];
      assert ps == front + [p];
      var ks := KeptProducts(panel, front);
      if Kept(panel, p) then
        assert StrictlyAscending(ps) ==> StrictlyAscending(ks + [p]) by {
          if StrictlyAscending(ps) {
            forall i | 0 <= i < |ks| ensures Less(ks[i], p) {
              assert ks[i] in front;
              var k :| 0 <= k < |front| && front[k] == ks[i];
              assert ps[k] == ks[i];
            }
          }
        }
        ks + [p]
      else ks
  }

  /** The records the loops of `forecast_panel` append, product by product in the order given. */
  function RecordsFor(panel: Panel, ps: seq<ProductCode>, months: seq<Month>, fits: Fits): seq<ForecastRecord>
    decreases |ps|
  {
    if ps == [] then []
    else
      var p := ps[|ps| - 1];
      RecordsFor(panel, ps[..|ps| - 1], months, fits) +
      (if Kept(panel, p) then ProductRecords(p, PlanFor(fits, p, SeriesOf(panel, p)), months) else [])
  }

  lemma {:induction false} RecordsForStep(panel: Panel, ps: seq<ProductCode>, j: int, months: seq<Month>, fits: Fits)
    requires 0 <= j < |ps|
    ensures RecordsFor(panel, ps[..j + 1], months, fits) == RecordsFor(panel, ps[..j], months, fits) +
      (if Kept(panel, ps[j]) then ProductRecords(ps[j], PlanFor(fits, ps[j], SeriesOf(panel, ps[j])), months) else [])
  {
    assert ps[..j + 1][..j] == ps[..j];
  }

  /** The product order of `groupby('product_code')`. */
  function GroupOrder(panel: Panel): seq<ProductCode>
  {
    SortedCodes(PanelProducts(panel))
  }

  /** What `forecast_panel` returns: the records, or the error sorting an empty frame raises. */
  function PanelForecasts(panel: Panel, months: seq<Month>, fits: Fits): Result<seq<ForecastRecord>, ForecastError>
  {
    var rs := RecordsFor(panel, GroupOrder(panel), months, fits);
    if rs == [] then Failure(NoForecasts) else Success(rs)
  }

  /** `forecast_panel`: for each kept product, appends one record per forecast month. */
  method ForecastPanel(panel: Panel, months: seq<Month>, fits: Fits) returns (r: Result<seq<ForecastRecord>, ForecastError>)
    ensures r == PanelForecasts(panel, months, fits)
  {
    var order := GroupOrder(panel);
    var forecasts: seq<ForecastRecord> := [];
    var j := 0;
    while j < |order|
      invariant 0 <= j <= |order|
      invariant forecasts == RecordsFor(panel, order[..j], months, fits)
    {
      var p := order[j];
      RecordsForStep(panel, order, j, months, fits);
      var sales := SeriesOf(panel, p);
      if CountNonNull(sales) > 0 {
        var plan := PlanFor(fits, p, sales);
        forecasts := AppendProductRecords(forecasts, p, plan, months);
      }
      j := j + 1;
    }
    assert order[..j] == order;
    if forecasts == [] {
      return Failure(NoForecasts);
    }
    r := Success(forecasts);
  }

  /** The inner loop of `forecast_panel`: one record per forecast month, appended in month order. */
  method AppendProductRecords(forecasts: seq<ForecastRecord>, p: ProductCode, plan: Plan, months: seq<Month>)
    returns (out: seq<ForecastRecord>)
    ensures out == forecasts + ProductRecords(p, plan, months)
  {
    out := forecasts;
    var i := 0;
    while i < |months|
      invariant 0 <= i <= |months|
      invariant out == forecasts + ProductRecords(p, plan, months)[..i]
    {
      out := out + [ForecastRecord(months[i], p, ForecastAt(plan, months, i))];
      i := i + 1;
    }
    assert ProductRecords(p, plan, months)[..i] == ProductRecords(p, plan, months);
  }

  // ---------------------------------------------------------------------------
  // Selecting one month's records
  // ---------------------------------------------------------------------------

  /** `forecasts[forecasts['date'] == d]` read as `{product: forecast}` in row order. */
  function Select(rs: seq<ForecastRecord>, m: Month): seq<(ProductCode, Forecast)>
    decreases |rs|
  {
    if rs == [] then []
    else
      var last := rs[|rs| - 1];
      Select(rs[..|rs| - 1], m) + (if last.month == m then [(last.product, last.forecast)] else [])
  }

  lemma {:induction false} SelectAppend(a: seq<ForecastRecord>, b: seq<ForecastRecord>, m: Month)
    ensures Select(a + b, m) == Select(a, m) + Select(b, m)
    decreases |b|
  {
    if b == [] {
      assert a + b == a;
    } else {
      var ab := a + b;
      assert ab[..|ab| - 1] == a + b[..|b| - 1];
      assert ab[|ab| - 1] == b[|b| - 1];
      SelectAppend(a, b[..|b| - 1], m);
    }
  }

  lemma {:induction false} SelectProductRecordsPrefix(p: ProductCode, plan: Plan, months: seq<Month>, n: nat, i: int)
    requires n <= |months| && 0 <= i < |months|
    requires forall a, b :: 0 <= a < b < |months| ==> months[a] < months[b]
    ensures Select(ProductRecords(p, plan, months)[..n], months[i]) ==
      if i < n then [(p, ForecastAt(plan, months, i))] else []
    decreases n
  {
    var rs := ProductRecords(p, plan, months);
    if n > 0 {
      assert rs[..n][..n - 1] == rs[..n - 1];
      SelectProductRecordsPrefix(p, plan, months, n - 1, i);
      assert rs[..n][n - 1] == ForecastRecord(months[n - 1], p, ForecastAt(plan, months, n - 1));
      assert months[n - 1] == months[i] <==> n - 1 == i;
    }
  }

  /** A product's records hold exactly one record of each forecast month. */
  lemma {:induction false} SelectProductRecords(p: ProductCode, plan: Plan, months: seq<Month>, i: int)
    requires 0 <= i < |months|
    requires forall a, b :: 0 <= a < b < |months| ==> months[a] < months[b]
    ensures Select(ProductRecords(p, plan, months), months[i]) == [(p, ForecastAt(plan, months, i))]
  {
    var rs := ProductRecords(p, plan, months);
    assert rs[..|months|] == rs;
    SelectProductRecordsPrefix(p, plan, months, |months|, i);
  }

  /** The forecast a kept product gets for the i-th forecast month. */
  function ForecastOf(panel: Panel, fits: Fits, p: ProductCode, months: seq<Month>, i: int): Forecast
    requires 0 <= i < |months|
  {
    ForecastAt(PlanFor(fits, p, SeriesOf(panel, p)), months, i)
  }

  /** Every forecast month selects one record per kept product, in product order. */
  lemma {:induction false} SelectRecords(panel: Panel, ps: seq<ProductCode>, months: seq<Month>, fits: Fits, i: int)
    requires 0 <= i < |months|
    requires forall a, b :: 0 <= a < b < |months| ==> months[a] < months[b]
    ensures Keys(Select(RecordsFor(panel, ps, months, fits), months[i])) == KeptProducts(panel, ps)
    decreases |ps|
  {
    if ps != [] {
      var front := ps[..|ps| - 1];
      var p := ps[|ps| - 1];
      SelectRecords(panel, front, months, fits, i);
      var head := RecordsFor(panel, front, months, fits);
      var tail := if Kept(panel, p) then ProductRecords(p, PlanFor(fits, p, SeriesOf(panel, p)), months) else [];
      assert RecordsFor(panel, ps, months, fits) == head + tail;
      SelectAppend(head, tail, months[i]);
      var selFront := Select(head, months[i]);
      if Kept(panel, p) {
        SelectProductRecords(p, PlanFor(fits, p, SeriesOf(panel, p)), months, i);
        assert Keys(selFront + [(p, ForecastOf(panel, fits, p, months, i))]) == Keys(selFront) + [p];
        assert KeptProducts(panel, ps) == KeptProducts(panel, front) + [p];
      } else {
        assert Select(tail, months[i]) == [];
        assert selFront + [] == selFront;
        assert KeptProducts(panel, ps) == KeptProducts(panel, front);
      }
    }
  }

  /** Each product a forecast month selects carries that product's forecast for the month. */
  lemma {:induction false} SelectedForecasts(panel: Panel, ps: seq<ProductCode>, months: seq<Month>, fits: Fits, i: int)
    requires 0 <= i < |months|
    requires forall a, b :: 0 <= a < b < |months| ==> months[a] < months[b]
    ensures var sel := Select(RecordsFor(panel, ps, months, fits), months[i]);
      forall k :: 0 <= k < |sel| ==> sel[k].1 == ForecastOf(panel, fits, sel[k].0, months, i)
    decreases |ps|
  {
    if ps != [] {
      var front := ps[..|ps| - 1];
      var p := ps[|ps| - 1];
      SelectedForecasts(panel, front, months, fits, i);
      assert forall k :: 0 <= k < |Select(RecordsFor(panel, front, months, fits), months[i])| ==>
        Select(RecordsFor(panel, front, months, fits), months[i])[k].1 == ForecastOf(panel, fits, Select(RecordsFor(panel, front, months, fits), months[i])[k].0, months, i);
      var head := RecordsFor(panel, front, months, fits);
      var tail := if Kept(panel, p) then ProductRecords(p, PlanFor(fits, p, SeriesOf(panel, p)), months) else [];
      assert RecordsFor(panel, ps, months, fits) == head + tail;
      SelectAppend(head, tail, months[i]);
      var selFront := Select(head, months[i]);
      if Kept(panel, p) {
        SelectProductRecords(p, PlanFor(fits, p, SeriesOf(panel, p)), months, i);
        var sel := selFront + [(p, ForecastOf(panel, fits, p, months, i))];
        assert Select(RecordsFor(panel, ps, months, fits), months[i]) == sel;
        forall k | 0 <= k < |sel| ensures sel[k].1 == ForecastOf(panel, fits, sel[k].0, months, i) {
          if k < |selFront| {
            assert sel[k] == selFront[k];
          } else {
            assert sel[k] == (p, ForecastOf(panel, fits, p, months, i));
          }
        }
      } else {
        assert Select(tail, months[i]) == [];
        assert selFront + [] == selFront;
      }
    }
  }

  // ---------------------------------------------------------------------------
  // run_forecast
  // ---------------------------------------------------------------------------

  /** The JSON object `run_forecast` returns. Metric values are not modelled, only their keys. */
  datatype ForecastOutput = ForecastOutput(
    forecastedProducts: seq<(string, seq<(ProductCode, Forecast)>)>,
    metrics: seq<ProductCode>,
    aggregatedMetrics: seq<string>)

  /** The keys of `agg_metrics` when there are metrics. */
  const AggregateKeys: seq<string> := ["mape_mean", "smape_mean", "rmse_mean", "accuracy_mean"]

  /** `{d_str: {...}}` for every forecast month, in month order. */
  function ForecastEntries(rs: seq<ForecastRecord>, months: seq<Month>): (es: seq<(string, seq<(ProductCode, Forecast)>)>)
    ensures |es| == |months|
    ensures forall i :: 0 <= i < |months| ==> es[i] == (DateKey(months[i]), Select(rs, months[i]))
  {
    seq(|months|, i requires 0 <= i < |months| => (DateKey(months[i]), Select(rs, months[i])))
  }

  /** `metrics` has one key per forecast product when non-empty test actuals exist, none otherwise; `aggregated_metrics` follows. */
  function MetricKeys(rs: seq<ForecastRecord>, hasTestActuals: bool): seq<ProductCode>
  {
    if hasTestActuals then SortedCodes(seq(|rs|, i requires 0 <= i < |rs| => rs[i].product)) else []
  }

  /** What `run_forecast` returns for the training rows, the two month strings and the test actuals. */
  function ForecastResult(rows: seq<Observation>, startText: string, endText: string, testActuals: seq<Observation>,
                          fits: Fits, gapFill: (ProductCode, Month) -> real): Result<ForecastOutput, ForecastError>
  {
    match ProcessedPanel(rows, gapFill)
    case Failure(e) => Failure(e)
    case Success(panel) =>
      match (ParseMonth(startText), ParseMonth(endText))
      case (None, _) => Failure(BadMonth(startText))
      case (_, None) => Failure(BadMonth(endText))
      case (Some(first), Some(last)) =>
        var months := MonthRange(first, last);
        match PanelForecasts(panel, months, fits)
        case Failure(e) => Failure(e)
        case Success(rs) =>
          var metrics := MetricKeys(rs, testActuals != []);
          Success(ForecastOutput(ForecastEntries(rs, months), metrics, if metrics == [] then [] else AggregateKeys))
  }

  /** `run_forecast`: preprocesses, forecasts, then appends one entry per forecast month. */
  method RunForecast(rows: seq<Observation>, startText: string, endText: string, testActuals: seq<Observation>,
                     fits: Fits, gapFill: (ProductCode, Month) -> real) returns (r: Result<ForecastOutput, ForecastError>)
    ensures r == ForecastResult(rows, startText, endText, testActuals, fits, gapFill)
  {
    var processed := PreprocessPanel(rows, gapFill);
    if processed.Failure? {
      return Failure(processed.error);
    }
    var first := ParseMonth(startText);
    if first.None? {
      return Failure(BadMonth(startText));
    }
    var last := ParseMonth(endText);
    if last.None? {
      return Failure(BadMonth(endText));
    }
    var months := MonthRange(first.value, last.value);
    var forecasts := ForecastPanel(processed.value, months, fits);
    if forecasts.Failure? {
      return Failure(forecasts.error);
    }
    var rs := forecasts.value;
    var forecastedProducts := CollectEntries(rs, months);
    var metrics := MetricKeys(rs, testActuals != []);
    var aggregated := if metrics == [] then [] else AggregateKeys;
    r := Success(ForecastOutput(forecastedProducts, metrics, aggregated));
  }

  /** The month loop of `run_forecast`: one `{d_str: {...}}` entry per forecast month, appended in order. */
  method CollectEntries(rs: seq<ForecastRecord>, months: seq<Month>) returns (es: seq<(string, seq<(ProductCode, Forecast)>)>)
    ensures es == ForecastEntries(rs, months)
  {
    ghost var spec := ForecastEntries(rs, months);
    es := [];
    var i := 0;
    while i < |months|
      invariant 0 <= i <= |months|
      invariant es == spec[..i]
    {
      TakeOneMore(spec, i);
      es := es + [(DateKey(months[i]), Select(rs, months[i]))];
      i := i + 1;
    }
    assert spec[..i] == spec;
  }

  lemma {:induction false} TakeOneMore<T>(s: seq<T>, i: int)
    requires 0 <= i < |s|
    ensures s[..i + 1] == s[..i] + [s[i]]
  {
  }

  /** No record is produced exactly when there is no forecast month or no product with sales. */
  lemma {:induction false} RecordsForEmpty(panel: Panel, ps: seq<ProductCode>, months: seq<Month>, fits: Fits)
    ensures RecordsFor(panel, ps, months, fits) == [] <==> months == [] || KeptProducts(panel, ps) == []
    decreases |ps|
  {
    if ps != [] {
      var front := ps[..|ps| - 1];
      RecordsForEmpty(panel, front, months, fits);
    }
  }

  /** The series the panel holds for its j-th product, when products are distinct. */
  lemma {:induction false} SeriesOfIndex(panel: Panel, j: int)
    requires 0 <= j < |panel.series|
    requires forall a, b :: 0 <= a < b < |panel.series| ==> panel.series[a].product != panel.series[b].product
    ensures SeriesOf(panel, panel.series[j].product) == panel.series[j].sales
    decreases |panel.series|
  {
    if j > 0 {
      var rest := Panel(panel.grid, panel.series[1..]);
      assert rest.series[j - 1] == panel.series[j];
      SeriesOfIndex(rest, j - 1);
    }
  }

  /** The products the backend forecasts are exactly the training products with at least one sales value. */
  lemma {:induction false} KeptAreSold(rows: seq<Observation>, gapFill: (ProductCode, Month) -> real, p: ProductCode)
    requires ProcessedPanel(rows, gapFill).Success?
    ensures var panel := ProcessedPanel(rows, gapFill).value;
      p in KeptProducts(panel, GroupOrder(panel)) <==> p in Codes(rows) && HasObservedSales(rows, p)
  {
    var panel := ProcessedPanel(rows, gapFill).value;
    var ps := Products(rows);
    assert PanelProducts(panel) == ps;
    if p in ps {
      var j :| 0 <= j < |ps| && ps[j] == p;
      forall a, b | 0 <= a < b < |panel.series| ensures panel.series[a].product != panel.series[b].product {
        AscendingDistinct(ps, a, b);
      }
      SeriesOfIndex(panel, j);
      ProcessedSales(rows, gapFill, j);
      var sales := panel.series[j].sales;
      assert |sales| > 0 by { assert Earliest(rows) <= rows[0].month <= Latest(rows); }
      if HasObservedSales(rows, p) {
        assert sales[0].Some?;
      } else {
        assert CountNonNull(sales) == 0;
      }
    }
  }

  /**
   * A successful `run_forecast` has one entry per month from the start month to
   * the end month; `EntriesDated` gives each entry's date.
   */
  lemma {:induction false} RunForecastMonths(rows: seq<Observation>, startText: string, endText: string, testActuals: seq<Observation>,
                          fits: Fits, gapFill: (ProductCode, Month) -> real)
    requires ForecastResult(rows, startText, endText, testActuals, fits, gapFill).Success?
    ensures ProcessedPanel(rows, gapFill).Success? && ParseMonth(startText).Some? && ParseMonth(endText).Some?
    ensures var panel := ProcessedPanel(rows, gapFill).value;
      var first := ParseMonth(startText).value;
      var last := ParseMonth(endText).value;
      var out := ForecastResult(rows, startText, endText, testActuals, fits, gapFill).value;
      first <= last && |out.forecastedProducts| == last - first + 1 &&
      out.forecastedProducts == ForecastEntries(RecordsFor(panel, GroupOrder(panel), MonthRange(first, last), fits), MonthRange(first, last))
  {
    var panel := ProcessedPanel(rows, gapFill).value;
    var months := MonthRange(ParseMonth(startText).value, ParseMonth(endText).value);
    ForecastResultParts(rows, startText, endText, testActuals, fits, gapFill);
    RecordsForEmpty(panel, GroupOrder(panel), months, fits);
  }

  /** The i-th entry over a month range is keyed by the date of the i-th month after the first. */
  lemma {:induction false} EntriesDated(rs: seq<ForecastRecord>, first: Month, last: Month)
    ensures var es := ForecastEntries(rs, MonthRange(first, last));
      forall i :: 0 <= i < |es| ==> es[i].0 == DateKey(first + i)
  {
    var months := MonthRange(first, last);
    var es := ForecastEntries(rs, months);
    forall i | 0 <= i < |es| ensures es[i].0 == DateKey(first + i) {
      assert months[i] == first + i;
      assert es[i].0 == DateKey(months[i]);
    }
  }

  /**
   * Every entry of a successful `run_forecast` lists the same products: the kept
   * products, of which there is at least one.
   */
  lemma {:induction false} RunForecastProducts(rows: seq<Observation>, startText: string, endText: string, testActuals: seq<Observation>,
                            fits: Fits, gapFill: (ProductCode, Month) -> real)
    requires ForecastResult(rows, startText, endText, testActuals, fits, gapFill).Success?
    ensures ProcessedPanel(rows, gapFill).Success?
    ensures var panel := ProcessedPanel(rows, gapFill).value;
      var out := ForecastResult(rows, startText, endText, testActuals, fits, gapFill).value;
      out.forecastedProducts != [] && KeptProducts(panel, GroupOrder(panel)) != [] &&
      forall i :: 0 <= i < |out.forecastedProducts| ==>
        Keys(out.forecastedProducts[i].1) == KeptProducts(panel, GroupOrder(panel))
  {
    var panel := ProcessedPanel(rows, gapFill).value;
    var months := MonthRange(ParseMonth(startText).value, ParseMonth(endText).value);
    ForecastResultParts(rows, startText, endText, testActuals, fits, gapFill);
    RecordsForEmpty(panel, GroupOrder(panel), months, fits);
    EntriesFollowKept(panel, ParseMonth(startText).value, ParseMonth(endText).value, fits);
  }

  /** `metrics` (and with it `aggregated_metrics`) has keys exactly when there are test actuals. */
  lemma {:induction false} RunForecastMetrics(rows: seq<Observation>, startText: string, endText: string, testActuals: seq<Observation>,
                           fits: Fits, gapFill: (ProductCode, Month) -> real)
    requires ForecastResult(rows, startText, endText, testActuals, fits, gapFill).Success?
    ensures var out := ForecastResult(rows, startText, endText, testActuals, fits, gapFill).value;
      (out.metrics != [] <==> testActuals != []) &&
      out.aggregatedMetrics == (if testActuals != [] then AggregateKeys else [])
  {
    var panel := ProcessedPanel(rows, gapFill).value;
    var months := MonthRange(ParseMonth(startText).value, ParseMonth(endText).value);
    ForecastResultParts(rows, startText, endText, testActuals, fits, gapFill);
    MetricKeysPresent(RecordsFor(panel, GroupOrder(panel), months, fits), testActuals != []);
  }

  /** Each month's entry lists the kept products. */
  lemma {:induction false} EntriesFollowKept(panel: Panel, first: Month, last: Month, fits: Fits)
    ensures var es := ForecastEntries(RecordsFor(panel, GroupOrder(panel), MonthRange(first, last), fits), MonthRange(first, last));
      forall i :: 0 <= i < |es| ==> Keys(es[i].1) == KeptProducts(panel, GroupOrder(panel))
  {
    var months := MonthRange(first, last);
    var rs := RecordsFor(panel, GroupOrder(panel), months, fits);
    var es := ForecastEntries(rs, months);
    forall i | 0 <= i < |es| ensures Keys(es[i].1) == KeptProducts(panel, GroupOrder(panel)) {
      assert es[i].1 == Select(rs, months[i]);
      SelectRecords(panel, GroupOrder(panel), months, fits, i);
    }
  }

  /** With at least one record, `metrics` has keys exactly when there are test actuals. */
  lemma {:induction false} MetricKeysPresent(rs: seq<ForecastRecord>, hasTestActuals: bool)
    requires rs != []
    ensures MetricKeys(rs, hasTestActuals) != [] <==> hasTestActuals
  {
    if hasTestActuals {
      var codes := seq(|rs|, i requires 0 <= i < |rs| => rs[i].product);
      assert codes[0] in SortedCodes(codes);
    }
  }

  /** A successful result is built from the records of the parsed month range, which are not empty. */
  lemma {:induction false} ForecastResultParts(rows: seq<Observation>, startText: string, endText: string, testActuals: seq<Observation>,
                            fits: Fits, gapFill: (ProductCode, Month) -> real)
    requires ForecastResult(rows, startText, endText, testActuals, fits, gapFill).Success?
    ensures ProcessedPanel(rows, gapFill).Success? && ParseMonth(startText).Some? && ParseMonth(endText).Some?
    ensures var panel := ProcessedPanel(rows, gapFill).value;
      var months := MonthRange(ParseMonth(startText).value, ParseMonth(endText).value);
      var rs := RecordsFor(panel, GroupOrder(panel), months, fits);
      var metrics := MetricKeys(rs, testActuals != []);
      rs != [] &&
      ForecastResult(rows, startText, endText, testActuals, fits, gapFill).value ==
        ForecastOutput(ForecastEntries(rs, months), metrics, if metrics == [] then [] else AggregateKeys)
  {
  }
}
