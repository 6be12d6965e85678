/**
 * The forecast request end to end: what `/forecast` sends back for a
 * `run_forecast` result, what the page does with it, and what ForecastDisplay
 * then shows.
 */
module Pipeline {
  import opened Wrappers
  import opened Calendar
  import opened ProductOrder
  import opened Pairs
  import F = Forecasting
  import D = ForecastDisplay
  import DashboardPage

  /** A forecast as a JSON cell. */
  function CellOf(f: F.Forecast): (c: D.Cell)
    ensures c.Num? <==> f.Value?
    ensures f.Value? ==> c.x == f.x
  {
    match f
    case Value(x) => D.Num(x)
    case NotANumber => D.NaN
  }

  /** One `{d_str: {product: forecast, ...}}` object of `forecasted_products`, as the browser reads it. */
  function EntryOf(e: (string, seq<(ProductCode, F.Forecast)>)): (entry: D.Entry)
    ensures entry.date == e.0
    ensures Keys(entry.values) == Keys(e.1)
    ensures forall i :: 0 <= i < |e.1| ==> entry.values[i].1 == CellOf(e.1[i].1)
  {
    D.Entry(e.0, seq(|e.1|, i requires 0 <= i < |e.1| => (e.1[i].0, CellOf(e.1[i].1))))
  }

  /** Every forecast in the output is a number. */
  predicate AllNumbers(out: F.ForecastOutput)
  {
    forall i, j :: 0 <= i < |out.forecastedProducts| && 0 <= j < |out.forecastedProducts[i].1| ==>
      out.forecastedProducts[i].1[j].1.Value?
  }

  /**
   * How the endpoint's answer reaches `response.json()`.  An exception in
   * `run_forecast` is not caught, so the server answers with a plain-text
   * error; a NaN forecast cannot be written as JSON and fails the same way.
   * Either way `response.json()` throws.  Otherwise the body holds
   * `forecasted_products` and no `meta`.
   */
  function Serve(r: Result<F.ForecastOutput, F.ForecastError>): (outcome: DashboardPage.FetchOutcome)
    ensures outcome.Threw? <==> r.Failure? || !AllNumbers(r.value)
    ensures outcome.Parsed? ==>
      outcome.body.Some? && outcome.body.value.meta.None? &&
      outcome.body.value.forecastedProducts.Some? &&
      |outcome.body.value.forecastedProducts.value| == |r.value.forecastedProducts|
  {
    if r.Failure? || !AllNumbers(r.value) then DashboardPage.Threw
    else
      var es := r.value.forecastedProducts;
      DashboardPage.Parsed(Some(D.ForecastDocument(Some(seq(|es|, i requires 0 <= i < |es| => EntryOf(es[i]))), None)))
  }

  /** The forecast a served entry carries for a product is the backend's value for it. */
  lemma {:induction false} ServedValues(r: Result<F.ForecastOutput, F.ForecastError>, i: int, j: int)
    requires Serve(r).Parsed?
    requires 0 <= i < |r.value.forecastedProducts| && 0 <= j < |r.value.forecastedProducts[i].1|
    ensures var entry := Serve(r).body.value.forecastedProducts.value[i];
      entry.date == r.value.forecastedProducts[i].0 &&
      entry.values[j].0 == r.value.forecastedProducts[i].1[j].0 &&
      entry.values[j].1 == D.Num(r.value.forecastedProducts[i].1[j].1.x)
  {
    var entry := Serve(r).body.value.forecastedProducts.value[i];
    assert entry == EntryOf(r.value.forecastedProducts[i]);
    assert Keys(entry.values)[j] == Keys(r.value.forecastedProducts[i].1)[j];
  }

  /**
   * Whenever the page receives a forecast, ForecastDisplay fails: the body has
   * entries but no `meta`, so reading `meta.method` throws a TypeError.
   */
  lemma {:induction false} ServedForecastFailsToRender(rows: seq<F.Observation>, startText: string, endText: string,
                                    testActuals: seq<F.Observation>, fits: F.Fits,
                                    gapFill: (ProductCode, Month) -> real, startMonth: string, endMonth: string)
    requires Serve(F.ForecastResult(rows, startText, endText, testActuals, fits, gapFill)).Parsed?
    ensures D.Render(Serve(F.ForecastResult(rows, startText, endText, testActuals, fits, gapFill)).body,
                     startMonth, endMonth) == D.TypeError
  {
    F.RunForecastProducts(rows, startText, endText, testActuals, fits, gapFill);
  }

  /**
   * Every served entry lists the same products, in the same order: the kept
   * products of the training data.  So the bars of the last month name the same
   * products as the legend taken from the first.
   */
  lemma {:induction false} ServedEntriesAgree(rows: seq<F.Observation>, startText: string, endText: string,
                           testActuals: seq<F.Observation>, fits: F.Fits, gapFill: (ProductCode, Month) -> real)
    requires Serve(F.ForecastResult(rows, startText, endText, testActuals, fits, gapFill)).Parsed?
    ensures F.ProcessedPanel(rows, gapFill).Success?
    ensures var panel := F.ProcessedPanel(rows, gapFill).value;
      var es := Serve(F.ForecastResult(rows, startText, endText, testActuals, fits, gapFill)).body.value.forecastedProducts.value;
      es != [] &&
      (forall i :: 0 <= i < |es| ==> Keys(es[i].values) == F.KeptProducts(panel, F.GroupOrder(panel))) &&
      D.ProductNames(es) == F.KeptProducts(panel, F.GroupOrder(panel))
    ensures var es := Serve(F.ForecastResult(rows, startText, endText, testActuals, fits, gapFill)).body.value.forecastedProducts.value;
      var bars := D.BarChartData(es);
      seq(|bars|, i requires 0 <= i < |bars| => bars[i].product) == D.ProductNames(es)
  {
    var r := F.ForecastResult(rows, startText, endText, testActuals, fits, gapFill);
    F.RunForecastProducts(rows, startText, endText, testActuals, fits, gapFill);
    var panel := F.ProcessedPanel(rows, gapFill).value;
    var es := Serve(r).body.value.forecastedProducts.value;
    forall i | 0 <= i < |es| ensures Keys(es[i].values) == F.KeptProducts(panel, F.GroupOrder(panel)) {
      assert es[i] == EntryOf(r.value.forecastedProducts[i]);
    }
    D.BarsFollowProductNames(es);
  }

  /**
   * Pressing Generate with the training rows the backend reads from the file:
   * the page sends its start and end month, the backend answers, and the page
   * either alerts or takes the answer.  A taken answer is always shown, and
   * always fails to render.
   */
  method SubmitForecast(page: DashboardPage.Dashboard, rows: seq<F.Observation>, testActuals: seq<F.Observation>,
                        fits: F.Fits, gapFill: (ProductCode, Month) -> real) returns (alerted: bool)
    modifies page
    ensures !old(page.ReadyToSubmit()) ==>
      !alerted && page.forecastData == old(page.forecastData) && page.showForecast == old(page.showForecast) &&
      page.isGenerating == old(page.isGenerating)
    ensures old(page.ReadyToSubmit()) ==> !page.isGenerating
    ensures old(page.ReadyToSubmit()) ==>
      (alerted <==> Serve(F.ForecastResult(rows, old(page.startMonth), old(page.endMonth), testActuals, fits, gapFill)).Threw?)
    ensures old(page.ReadyToSubmit()) && alerted ==>
      page.forecastData == old(page.forecastData) && page.showForecast == old(page.showForecast)
    ensures old(page.ReadyToSubmit()) && !alerted ==>
      page.showForecast && D.Render(page.DisplayedForecast(), page.startMonth, page.endMonth) == D.TypeError
    ensures page.startMonth == old(page.startMonth) && page.endMonth == old(page.endMonth)
    ensures page.uploadedFile == old(page.uploadedFile)
  {
    var request := page.BeginGenerateForecast();
    if request.None? {
      return false;
    }
    var result := F.RunForecast(rows, request.value.startMonth, request.value.endMonth, testActuals, fits, gapFill);
    var outcome := Serve(result);
    alerted := page.FinishGenerateForecast(outcome);
    if !alerted {
      ServedForecastFailsToRender(rows, request.value.startMonth, request.value.endMonth, testActuals, fits, gapFill,
                                  page.startMonth, page.endMonth);
    }
  }
}
