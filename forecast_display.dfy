/**
 * ForecastDisplay: turns the backend's list of `{ "<date>": { "<product>": value } }`
 * entries into the inputs of the trend chart, the latest-month bar chart, the
 * per-product totals and the per-month cards, and decides what the component renders.
 */
module ForecastDisplay {
  import opened Wrappers
  import opened Decimal
  import opened Calendar
  import opened Pairs

  // ---------------------------------------------------------------------------
  // JSON values and JavaScript objects
  // ---------------------------------------------------------------------------

  /** A forecast cell as the parsed response holds it. */
  datatype Cell = Null | NaN | Num(x: real)

  /** A JavaScript object: its key/value pairs in key enumeration order. */
  type Object<V> = seq<(string, V)>

  /** Every object JSON.parse builds has each key once. */
  predicate DistinctKeys<V>(o: Object<V>)
  {
    forall i, j :: 0 <= i < j < |o| ==> o[i].0 != o[j].0
  }

  /** `o[k]`: the value stored under k, None for undefined. */
  function Lookup<V>(o: Object<V>, k: string): (r: Option<V>)
    ensures r.Some? <==> k in Keys(o)
    ensures r.Some? ==> (k, r.value) in o
    decreases |o|
  {
    if o == [] then None
    else if o[0].0 == k then Some(o[0].1)
    else
      assert Keys(o) == [o[0].0] + Keys(o[1..]);
      Lookup(o[1..], k)
  }

  /** `o[k] = v`: an existing key keeps its place and takes the new value; a new key goes last. */
  function Assign<V>(o: Object<V>, k: string, v: V): Object<V>
  {
    if k in Keys(o) then seq(|o|, i requires 0 <= i < |o| => if o[i].0 == k then (k, v) else o[i])
    else o + [(k, v)]
  }

  lemma {:induction false} LookupAppend<V>(o: Object<V>, k: string, v: V, k': string)
    ensures Lookup(o + [(k, v)], k') == if Lookup(o, k').Some? then Lookup(o, k') else if k' == k then Some(v) else None
    decreases |o|
  {
    if o != [] {
      assert (o + [(k, v)])[1..] == o[1..] + [(k, v)];
      LookupAppend(o[1..], k, v, k');
    }
  }

  lemma {:induction false} LookupReplace<V>(o: Object<V>, k: string, v: V, k': string)
    ensures var o' := seq(|o|, i requires 0 <= i < |o| => if o[i].0 == k then (k, v) else o[i]);
            Lookup(o', k') == if k' == k then (if k in Keys(o) then Some(v) else None) else Lookup(o, k')
    decreases |o|
  {
    var o' := seq(|o|, i requires 0 <= i < |o| => if o[i].0 == k then (k, v) else o[i]);
    if o != [] {
      var tail := seq(|o| - 1, i requires 0 <= i < |o| - 1 => if o[1..][i].0 == k then (k, v) else o[1..][i]);
      assert o'[1..] == tail;
      assert Keys(o) == [o[0].0] + Keys(o[1..]);
      LookupReplace(o[1..], k, v, k');
    }
  }

  /** After `o[k] = v`, reading k gives v and every other key reads as before. */
  lemma {:induction false} AssignLookup<V>(o: Object<V>, k: string, v: V, k': string)
    ensures Lookup(Assign(o, k, v), k') == if k' == k then Some(v) else Lookup(o, k')
  {
    if k in Keys(o) {
      LookupReplace(o, k, v, k');
    } else {
      LookupAppend(o, k, v, k');
    }
  }

  // ---------------------------------------------------------------------------
  // Number(v).toFixed(0) and Number(s)
  // ---------------------------------------------------------------------------

  /** The integer n nearest to x >= 0, the larger one on a tie, as toFixed chooses it. */
  function RoundHalfUp(x: real): (n: nat)
    requires x >= 0.0
    ensures x - 0.5 < n as real <= x + 0.5
  {
    (x + 0.5).Floor
  }

  /** `Number(x).toFixed(0)`: a minus sign for negative x, then the rounded magnitude. */
  function ToFixed0(x: real): (s: string)
    ensures s != []
    ensures x >= 0.0 ==> IsDigits(s) && Value(s) == RoundHalfUp(x)
    ensures x < 0.0 ==> s[0] == '-' && IsDigits(s[1..]) && Value(s[1..]) == RoundHalfUp(-x)
  {
    if x < 0.0 then "-" + NatToString(RoundHalfUp(-x)) else NatToString(RoundHalfUp(x))
  }

  /** A JavaScript value as the guarded expressions and the totals reduce produce them. */
  datatype JsValue = Number(n: int) | Text(s: string)

  function ToJsString(v: JsValue): string
  {
    match v
    case Number(n) => IntToString(n)
    case Text(s) => s
  }

  /** JavaScript's binary `+`: addition of two numbers, concatenation as soon as one side is a string. */
  function Plus(a: JsValue, b: JsValue): JsValue
  {
    if a.Number? && b.Number? then Number(a.n + b.n) else Text(ToJsString(a) + ToJsString(b))
  }

  /**
   * `Number(s)` on strings of digits and minus signs: an optional leading minus
   * then digits; the empty string is 0; anything else is NaN (None).
   */
  function ToNumber(s: string): (r: Option<int>)
    ensures s != [] && IsDigit(s[0]) ==> (r.Some? <==> IsDigits(s)) && (r.Some? ==> r.value == Value(s))
  {
    if IsDigits(s) then Some(Value(s))
    else if s[0] == '-' && |s| > 1 && IsDigits(s[1..]) then Some(0 - Value(s[1..]))
    else None
  }

  /** `v > 0`: a string is first converted with Number, and NaN compares false. */
  predicate GreaterThanZero(v: JsValue)
  {
    match v
    case Number(n) => n > 0
    case Text(s) => ToNumber(s).Some? && ToNumber(s).value > 0
  }

  lemma {:induction false} ToFixed0Digits(x: real)
    ensures IsDigits(ToFixed0(x)) <==> x >= 0.0
    ensures x >= 0.0 ==> (HasNonZeroDigit(ToFixed0(x)) <==> x >= 0.5)
  {
    if x >= 0.0 {
      ValuePositive(ToFixed0(x));
    } else {
      assert !IsDigit(ToFixed0(x)[0]);
    }
  }

  // ---------------------------------------------------------------------------
  // The forecast response
  // ---------------------------------------------------------------------------

  /** One element `{ date: values }` of `forecasted_products`. */
  datatype Entry = Entry(date: string, values: Object<Cell>)

  datatype Meta = Meta(methodName: Option<string>, generatedOn: Option<string>, lastDatesPerProduct: Option<Object<string>>)

  /** The parsed response body; a missing key is None. */
  datatype ForecastDocument = ForecastDocument(forecastedProducts: Option<seq<Entry>>, meta: Option<Meta>)

  /** `value !== null && !isNaN(value)`. */
  predicate IsNumber(c: Cell) { c.Num? }

  /** `value !== null && !isNaN(value) ? Number(value).toFixed(0) : 0` for a value that may be undefined. */
  function Rounded(v: Option<Cell>): JsValue
  {
    if v.Some? && IsNumber(v.value) then Text(ToFixed0(v.value.x)) else Number(0)
  }

  /** `productNames`: the keys of the first entry's value object, in key order. */
  function ProductNames(es: seq<Entry>): seq<string>
    requires es != []
  {
    Keys(es[0].values)
  }

  // ---------------------------------------------------------------------------
  // Trend rows: { date: <label>, ...products }
  // ---------------------------------------------------------------------------

  /**
   * A field of a trend row: the entry's date as `toLocaleDateString` renders it
   * (the rendering itself is not modelled, only which date it renders), or a cell.
   */
  datatype Field = DateLabel(dateKey: string) | CellField(cell: Cell)

  /** Object spread `{ ...o, ...ps }`: each pair of ps assigned in order. */
  function SpreadInto(o: Object<Field>, ps: Object<Cell>): Object<Field>
    decreases |ps|
  {
    if ps == [] then o else SpreadInto(Assign(o, ps[0].0, CellField(ps[0].1)), ps[1..])
  }

  function TrendRow(e: Entry): Object<Field>
  {
    SpreadInto([("date", DateLabel(e.date))], e.values)
  }

  /** `lineChartData`: one row per entry, in entry order. */
  function LineChartData(es: seq<Entry>): (rows: seq<Object<Field>>)
    ensures |rows| == |es|
    ensures forall i :: 0 <= i < |es| ==> rows[i] == TrendRow(es[i])
  {
    seq(|es|, i requires 0 <= i < |es| => TrendRow(es[i]))
  }

  lemma {:induction false} SpreadLookup(o: Object<Field>, ps: Object<Cell>, k: string)
    requires DistinctKeys(ps)
    ensures Lookup(SpreadInto(o, ps), k) == match Lookup(ps, k) { case Some(c) => Some(CellField(c)) case None => Lookup(o, k) }
    decreases |ps|
  {
    if ps != [] {
      var o' := Assign(o, ps[0].0, CellField(ps[0].1));
      SpreadLookup(o', ps[1..], k);
      AssignLookup(o, ps[0].0, CellField(ps[0].1), k);
    }
  }

  /**
   * A trend row reads every product of its entry as that entry's cell, and reads
   * `date` as the entry's date label unless a product is itself named "date",
   * whose cell then replaces the label.
   */
  lemma {:induction false} TrendRowLookup(e: Entry, k: string)
    requires DistinctKeys(e.values)
    ensures Lookup(TrendRow(e), k) ==
      match Lookup(e.values, k) {
        case Some(c) => Some(CellField(c))
        case None => if k == "date" then Some(DateLabel(e.date)) else None
      }
  {
    SpreadLookup([("date", DateLabel(e.date))], e.values, k);
  }

  /** The cells of an object as trend-row fields, keys and order unchanged. */
  function AsFields(ps: Object<Cell>): (fs: Object<Field>)
    ensures |fs| == |ps| && forall i :: 0 <= i < |ps| ==> fs[i] == (ps[i].0, CellField(ps[i].1))
    decreases |ps|
  {
    if ps == [] then [] else [(ps[0].0, CellField(ps[0].1))] + AsFields(ps[1..])
  }

  /** The keys after the first of an object with distinct keys are new to anything holding the first. */
  lemma {:induction false} RestKeysFresh(o: Object<Field>, ps: Object<Cell>)
    requires ps != [] && DistinctKeys(ps)
    requires forall k :: k in Keys(ps) ==> k !in Keys(o)
    ensures forall k :: k in Keys(ps[1..]) ==> k !in Keys(o + [(ps[0].0, CellField(ps[0].1))])
  {
    var o' := o + [(ps[0].0, CellField(ps[0].1))];
    assert Keys(o') == Keys(o) + [ps[0].0];
    forall k | k in Keys(ps[1..]) ensures k !in Keys(o') {
      var j :| 0 <= j < |ps[1..]| && Keys(ps[1..])[j] == k;
      assert Keys(ps)[j + 1] == k;
      assert ps[j + 1].0 != ps[0].0;
    }
  }

  lemma {:induction false} SpreadAppends(o: Object<Field>, ps: Object<Cell>)
    requires DistinctKeys(ps)
    requires forall k :: k in Keys(ps) ==> k !in Keys(o)
    ensures SpreadInto(o, ps) == o + AsFields(ps)
    decreases |ps|
  {
    if ps != [] {
      var first := (ps[0].0, CellField(ps[0].1));
      var o' := o + [first];
      SpreadFirstFresh(o, ps);
      RestKeysFresh(o, ps);
      SpreadAppends(o', ps[1..]);
      AsFieldsCons(o, ps);
    }
  }

  /** Spreading a first key that is new to the object appends it. */
  lemma {:induction false} SpreadFirstFresh(o: Object<Field>, ps: Object<Cell>)
    requires ps != [] && ps[0].0 !in Keys(o)
    ensures SpreadInto(o, ps) == SpreadInto(o + [(ps[0].0, CellField(ps[0].1))], ps[1..])
  {
  }

  lemma {:induction false} AsFieldsCons(o: Object<Field>, ps: Object<Cell>)
    requires ps != []
    ensures (o + [(ps[0].0, CellField(ps[0].1))]) + AsFields(ps[1..]) == o + AsFields(ps)
  {
    assert AsFields(ps) == [(ps[0].0, CellField(ps[0].1))] + AsFields(ps[1..]);
  }

  /** When no product is named "date", a trend row is the date label followed by every product/value pair, in order. */
  lemma {:induction false} TrendRowShape(e: Entry)
    requires DistinctKeys(e.values)
    requires "date" !in Keys(e.values)
    ensures TrendRow(e) == [("date", DateLabel(e.date))] + AsFields(e.values)
  {
    SpreadAppends([("date", DateLabel(e.date))], e.values);
  }

  // ---------------------------------------------------------------------------
  // Latest-month bars
  // ---------------------------------------------------------------------------

  datatype Bar = Bar(product: string, value: JsValue)

  /** `barChartData`: one bar per key of the last entry, in its key order. */
  function BarChartData(es: seq<Entry>): (bars: seq<Bar>)
    requires es != []
    ensures var last := es[|es| - 1].values;
      |bars| == |last| &&
      forall i :: 0 <= i < |bars| ==>
        bars[i].product == last[i].0 &&
        (IsNumber(last[i].1) ==> bars[i].value == Text(ToFixed0(last[i].1.x))) &&
        (!IsNumber(last[i].1) ==> bars[i].value == Number(0))
  {
    var last := es[|es| - 1].values;
    seq(|last|, i requires 0 <= i < |last| => Bar(last[i].0, Rounded(Some(last[i].1))))
  }

  /** When the last entry has the first entry's keys, the bars follow productNames; otherwise the last entry's keys win. */
  lemma {:induction false} BarsFollowProductNames(es: seq<Entry>)
    requires es != []
    ensures var bars := BarChartData(es);
      var names := seq(|bars|, i requires 0 <= i < |bars| => bars[i].product);
      names == ProductNames(es) <==> Keys(es[|es| - 1].values) == Keys(es[0].values)
  {
    var bars := BarChartData(es);
    assert seq(|bars|, i requires 0 <= i < |bars| => bars[i].product) == Keys(es[|es| - 1].values);
  }

  // ---------------------------------------------------------------------------
  // Per-month cards
  // ---------------------------------------------------------------------------

  /** The label of a card cell: the rounded number, or "N/A" for null and NaN. */
  function CellLabel(c: Cell): (shown: string)
    ensures shown == "N/A" <==> !IsNumber(c)
    ensures IsNumber(c) && c.x >= 0.0 ==> IsDigits(shown) && Value(shown) == RoundHalfUp(c.x)
  {
    if IsNumber(c) then
      assert ToFixed0(c.x)[0] != 'N';
      ToFixed0(c.x)
    else "N/A"
  }

  /** A card: the entry's date (rendered as a long month name) and one labelled cell per product. */
  datatype Card = Card(dateKey: string, labels: seq<(string, string)>)

  function CardOf(e: Entry): Card
  {
    Card(e.date, seq(|e.values|, i requires 0 <= i < |e.values| => (e.values[i].0, CellLabel(e.values[i].1))))
  }

  /** Null is shown as "N/A" while zero is shown as "0": the two never look alike. */
  lemma NullIsNotZero()
    ensures CellLabel(Null) == "N/A" && CellLabel(Num(0.0)) == "0"
    ensures CellLabel(Null) != CellLabel(Num(0.0))
  {
    assert ToFixed0(0.0) == NatToString(0);
  }

  // ---------------------------------------------------------------------------
  // Per-product totals (pieChartData)
  // ---------------------------------------------------------------------------

  /** The number that `forecast[date][product]` holds in one entry, when it passes the guard. */
  function NumberAt(e: Entry, product: string): Option<real>
  {
    var c := Lookup(e.values, product);
    if c.Some? && c.value.Num? then Some(c.value.x) else None
  }

  /** The totals reduce of `pieChartData` as written, from the accumulator `sum` over `es`. */
  function TotalFrom(sum: JsValue, es: seq<Entry>, product: string): JsValue
    decreases |es|
  {
    if es == [] then sum else TotalFrom(Plus(sum, Rounded(Lookup(es[0].values, product))), es[1..], product)
  }

  /** A product's total as written: the reduce starts from the number 0 and adds toFixed strings. */
  function PieTotalAsWritten(es: seq<Entry>, product: string): JsValue
  {
    TotalFrom(Number(0), es, product)
  }

  datatype PieItem<T> = PieItem(name: string, value: T)

  function ItemNames<T>(items: seq<PieItem<T>>): (ns: seq<string>)
    ensures |ns| == |items| && forall i :: 0 <= i < |items| ==> ns[i] == items[i].name
  {
    seq(|items|, i requires 0 <= i < |items| => items[i].name)
  }

  /** `pieChartData` as written: totals per product name, keeping those whose total is `> 0`. */
  function PieChartDataAsWritten(es: seq<Entry>, names: seq<string>): (items: seq<PieItem<JsValue>>)
    ensures forall i :: 0 <= i < |items| ==> items[i].value == PieTotalAsWritten(es, items[i].name)
    ensures forall p :: p in ItemNames(items) <==> p in names && GreaterThanZero(PieTotalAsWritten(es, p))
    decreases |names|
  {
    if names == [] then []
    else
      var rest := PieChartDataAsWritten(es, names[1..]);
      var total := PieTotalAsWritten(es, names[0]);
      assert names == [names[0]] + names[1..];
      var item := PieItem(names[0], total);
      assert ItemNames([item] + rest) == [names[0]] + ItemNames(rest);
      if GreaterThanZero(total) then [item] + rest else rest
  }

  /** The names `keep` accepts, in their order: a filter built from the back, independent of the charts. */
  function KeepNames(names: seq<string>, keep: string -> bool): (kept: seq<string>)
    decreases |names|
  {
    if names == [] then []
    else
      var init := KeepNames(names[..|names| - 1], keep);
      if keep(names[|names| - 1]) then init + [names[|names| - 1]] else init
  }

  /** Filtering a name followed by more names keeps that name first when it is accepted. */
  lemma {:induction false} KeepNamesCons(n: string, rest: seq<string>, keep: string -> bool)
    ensures KeepNames([n] + rest, keep) == (if keep(n) then [n] else []) + KeepNames(rest, keep)
    decreases |rest|
  {
    if rest == [] {
      assert ([n] + rest)[..0] == [];
    } else {
      var last := rest[|rest| - 1];
      assert ([n] + rest)[..|rest|] == [n] + rest[..|rest| - 1];
      KeepNamesCons(n, rest[..|rest| - 1], keep);
    }
  }

  /** `pieChartData` as written keeps one item per accepted name, in the order of the names. */
  lemma {:induction false} PieItemsAsWrittenInOrder(es: seq<Entry>, names: seq<string>)
    ensures ItemNames(PieChartDataAsWritten(es, names)) ==
            KeepNames(names, p => GreaterThanZero(PieTotalAsWritten(es, p)))
    decreases |names|
  {
    if names != [] {
      var keep := p => GreaterThanZero(PieTotalAsWritten(es, p));
      var rest := PieChartDataAsWritten(es, names[1..]);
      var item := PieItem(names[0], PieTotalAsWritten(es, names[0]));
      PieItemsAsWrittenInOrder(es, names[1..]);
      KeepNamesCons(names[0], names[1..], keep);
      assert names == [names[0]] + names[1..];
      if keep(names[0]) {
        assert PieChartDataAsWritten(es, names) == [item] + rest;
        assert ItemNames([item] + rest) == [names[0]] + ItemNames(rest);
      } else {
        assert PieChartDataAsWritten(es, names) == rest;
      }
    }
  }

  ghost predicate AllNonNegative(es: seq<Entry>, product: string)
  {
    forall i :: 0 <= i < |es| && NumberAt(es[i], product).Some? ==> NumberAt(es[i], product).value >= 0.0
  }

  ghost predicate SomeAtLeastHalf(es: seq<Entry>, product: string)
  {
    exists i :: 0 <= i < |es| && NumberAt(es[i], product).Some? && NumberAt(es[i], product).value >= 0.5
  }

  lemma {:induction false} SplitFirst(es: seq<Entry>, product: string)
    requires es != []
    ensures AllNonNegative(es, product) <==>
      (NumberAt(es[0], product).Some? ==> NumberAt(es[0], product).value >= 0.0) && AllNonNegative(es[1..], product)
    ensures SomeAtLeastHalf(es, product) <==>
      (NumberAt(es[0], product).Some? && NumberAt(es[0], product).value >= 0.5) || SomeAtLeastHalf(es[1..], product)
  {
    if SomeAtLeastHalf(es, product) {
      var i :| 0 <= i < |es| && NumberAt(es[i], product).Some? && NumberAt(es[i], product).value >= 0.5;
      if i > 0 { assert es[1..][i - 1] == es[i]; }
    }
    if SomeAtLeastHalf(es[1..], product) {
      var i :| 0 <= i < |es[1..]| && NumberAt(es[1..][i], product).Some? && NumberAt(es[1..][i], product).value >= 0.5;
      assert es[i + 1] == es[1..][i];
    }
    if (NumberAt(es[0], product).Some? ==> NumberAt(es[0], product).value >= 0.0) && AllNonNegative(es[1..], product) {
      forall i | 0 <= i < |es| && NumberAt(es[i], product).Some? ensures NumberAt(es[i], product).value >= 0.0 {
        if i > 0 { assert es[1..][i - 1] == es[i]; }
      }
    }
  }

  /** The piece one cell appends once the running total is a string. */
  lemma {:induction false} PieceShape(c: Option<Cell>)
    ensures var piece := ToJsString(Rounded(c));
      (IsDigits(piece) <==> !(c.Some? && IsNumber(c.value) && c.value.x < 0.0)) &&
      (IsDigits(piece) ==> (HasNonZeroDigit(piece) <==> c.Some? && IsNumber(c.value) && c.value.x >= 0.5))
  {
    if c.Some? && IsNumber(c.value) {
      ToFixed0Digits(c.value.x);
    } else {
      assert ToJsString(Number(0)) == NatToString(0);
      NatToStringNonZero(0);
    }
  }

  /** Once the total is a string starting with a digit, it stays > 0 exactly when it has only digits and one is not 0. */
  lemma {:induction false} TextTotalPositive(s: string, es: seq<Entry>, product: string)
    requires s != [] && IsDigit(s[0])
    ensures GreaterThanZero(TotalFrom(Text(s), es, product)) <==>
      IsDigits(s) && AllNonNegative(es, product) && (HasNonZeroDigit(s) || SomeAtLeastHalf(es, product))
    decreases |es|
  {
    if es == [] {
      if IsDigits(s) { ValuePositive(s); }
    } else {
      var c := Lookup(es[0].values, product);
      var piece := ToJsString(Rounded(c));
      assert Plus(Text(s), Rounded(c)) == Text(s + piece);
      TextTotalPositive(s + piece, es[1..], product);
      DigitsAppend(s, piece);
      PieceShape(c);
      SplitFirst(es, product);
    }
  }

  /**
   * The as-written filter keeps a product exactly when none of its forecasts is
   * negative and at least one rounds to a non-zero number: a negative cell makes
   * the concatenated string NaN, and a string of zeros reads as 0.
   */
  lemma {:induction false} PieKeptAsWritten(es: seq<Entry>, product: string)
    ensures GreaterThanZero(PieTotalAsWritten(es, product)) <==>
      AllNonNegative(es, product) && SomeAtLeastHalf(es, product)
    decreases |es|
  {
    if es != [] {
      var c := Lookup(es[0].values, product);
      SplitFirst(es, product);
      if c.Some? && IsNumber(c.value) {
        var t := ToFixed0(c.value.x);
        assert Plus(Number(0), Rounded(c)) == Text("0" + t) by {
          assert ToJsString(Number(0)) == NatToString(0);
        }
        TextTotalPositive("0" + t, es[1..], product);
        DigitsAppend("0", t);
        ToFixed0Digits(c.value.x);
        assert !HasNonZeroDigit("0");
      } else {
        assert Plus(Number(0), Rounded(c)) == Number(0);
        PieKeptAsWritten(es[1..], product);
      }
    }
  }

  /** `Number(value.toFixed(0))`, or 0 when the guard fails: what each month was meant to add. */
  function RoundedNumber(v: Option<Cell>): int
  {
    if v.Some? && IsNumber(v.value) then
      (if v.value.x < 0.0 then 0 - RoundHalfUp(-v.value.x) else RoundHalfUp(v.value.x))
    else 0
  }

  /** The corrected total: the arithmetic sum of the rounded monthly forecasts. */
  function PieTotal(es: seq<Entry>, product: string): int
    decreases |es|
  {
    if es == [] then 0 else RoundedNumber(Lookup(es[0].values, product)) + PieTotal(es[1..], product)
  }

  /** The corrected `pieChartData`: per product name, in order, those whose total is positive. */
  function PieChartData(es: seq<Entry>, names: seq<string>): (items: seq<PieItem<int>>)
    ensures forall i :: 0 <= i < |items| ==> items[i].value == PieTotal(es, items[i].name)
    ensures forall p :: p in ItemNames(items) <==> p in names && PieTotal(es, p) > 0
    decreases |names|
  {
    if names == [] then []
    else
      var rest := PieChartData(es, names[1..]);
      var total := PieTotal(es, names[0]);
      assert names == [names[0]] + names[1..];
      var item := PieItem(names[0], total);
      assert ItemNames([item] + rest) == [names[0]] + ItemNames(rest);
      if total > 0 then [item] + rest else rest
  }

  /** The corrected `pieChartData` keeps one item per name with a positive total, in the order of the names. */
  lemma {:induction false} PieItemsInOrder(es: seq<Entry>, names: seq<string>)
    ensures ItemNames(PieChartData(es, names)) == KeepNames(names, p => PieTotal(es, p) > 0)
    decreases |names|
  {
    if names != [] {
      var keep := p => PieTotal(es, p) > 0;
      var rest := PieChartData(es, names[1..]);
      var item := PieItem(names[0], PieTotal(es, names[0]));
      PieItemsInOrder(es, names[1..]);
      KeepNamesCons(names[0], names[1..], keep);
      assert names == [names[0]] + names[1..];
      if keep(names[0]) {
        assert PieChartData(es, names) == [item] + rest;
        assert ItemNames([item] + rest) == [names[0]] + ItemNames(rest);
      } else {
        assert PieChartData(es, names) == rest;
      }
    }
  }

  /** The corrected total adds up: the total over two runs of months is the sum of their totals. */
  lemma {:induction false} PieTotalAdditive(a: seq<Entry>, b: seq<Entry>, product: string)
    ensures PieTotal(a + b, product) == PieTotal(a, product) + PieTotal(b, product)
    decreases |a|
  {
    if a != [] {
      assert (a + b)[0] == a[0];
      assert (a + b)[1..] == a[1..] + b;
      PieTotalAdditive(a[1..], b, product);
    } else {
      assert a + b == b;
    }
  }

  /** With no negative forecasts, the corrected total is positive exactly when some month rounds to at least 1. */
  lemma {:induction false} PieTotalPositive(es: seq<Entry>, product: string)
    requires AllNonNegative(es, product)
    ensures PieTotal(es, product) >= 0
    ensures PieTotal(es, product) > 0 <==> SomeAtLeastHalf(es, product)
    decreases |es|
  {
    if es != [] {
      SplitFirst(es, product);
      PieTotalPositive(es[1..], product);
    }
  }

  /** For non-negative forecasts the corrected and the as-written filters keep the same products. */
  lemma {:induction false} PieFiltersAgree(es: seq<Entry>, product: string)
    requires AllNonNegative(es, product)
    ensures GreaterThanZero(PieTotalAsWritten(es, product)) <==> PieTotal(es, product) > 0
  {
    PieKeptAsWritten(es, product);
    PieTotalPositive(es, product);
  }

  /** Two months of 12 and 5 total the string "0125" as written, where the sum is 17. */
  lemma PieTotalConcatenates()
    ensures var es := [Entry("2025-01-01", [("A", Num(12.0))]), Entry("2025-02-01", [("A", Num(5.0))])];
      PieTotalAsWritten(es, "A") == Text("0125") && PieTotal(es, "A") == 17
  {
    var es := [Entry("2025-01-01", [("A", Num(12.0))]), Entry("2025-02-01", [("A", Num(5.0))])];
    assert RoundHalfUp(12.0) == 12;
    assert RoundHalfUp(5.0) == 5;
    assert NatToString(12) == "12" by {
      assert NatToString(1) == "1";
      assert NatToString(12) == NatToString(1) + [DigitChar(2)];
    }
    assert NatToString(5) == "5";
    assert NatToString(0) == "0";
    assert es[1..][1..] == [];
    assert Plus(Number(0), Text("12")) == Text("012");
    assert Plus(Text("012"), Text("5")) == Text("0125");
  }

  // ---------------------------------------------------------------------------
  // What the component renders
  // ---------------------------------------------------------------------------

  /** The month a Period label shows: nothing for '', the month for "YYYY-MM", else Invalid Date. */
  datatype DisplayMonth = NoMonth | MonthLabel(month: Month) | InvalidDate

  /** `formatDisplayMonth`. */
  function FormatDisplayMonth(s: string): (d: DisplayMonth)
    ensures d == NoMonth <==> s == ""
  {
    if s == "" then NoMonth
    else match ParseMonth(s)
      case Some(m) => MonthLabel(m)
      case None => InvalidDate
  }

  /** A month selected in the picker is shown as that month. */
  lemma {:induction false} DisplayMonthOfText(m: Month)
    requires 1000 <= YearOf(m) <= 9999
    ensures FormatDisplayMonth(MonthText(m)) == MonthLabel(m)
  {
    ParseMonthText(m);
  }

  /** The summary panel: method, analysis date, product count and the optional Period tile. */
  datatype Summary = Summary(methodName: string, generatedOn: Option<string>, productCount: nat,
                             period: Option<(DisplayMonth, DisplayMonth)>)

  datatype View =
    | Nothing
    | NoForecastData
    | TypeError
    | Charts(summary: Summary, productNames: seq<string>, trend: seq<Object<Field>>,
             bars: seq<Bar>, cards: seq<Card>)

  /** `meta.method.toUpperCase()` and `Object.keys(meta.last_dates_per_product)` do not throw. */
  predicate MetaReadable(meta: Option<Meta>)
  {
    meta.Some? && meta.value.methodName.Some? && meta.value.lastDatesPerProduct.Some?
  }

  /** What ForecastDisplay renders for `forecastData`, `startMonth` and `endMonth`. */
  function Render(data: Option<ForecastDocument>, startMonth: string, endMonth: string): (v: View)
    ensures v == Nothing <==> data.None?
    ensures v == NoForecastData <==>
      data.Some? && (data.value.forecastedProducts.None? || data.value.forecastedProducts.value == [])
    ensures v == TypeError <==>
      data.Some? && data.value.forecastedProducts.Some? && data.value.forecastedProducts.value != [] &&
      !MetaReadable(data.value.meta)
    ensures v.Charts? ==>
      var es := data.value.forecastedProducts.value;
      v.productNames == Keys(es[0].values) &&
      v.summary.productCount == |data.value.meta.value.lastDatesPerProduct.value| &&
      (v.summary.period.Some? <==> startMonth != "" && endMonth != "") &&
      (v.summary.period.Some? ==>
         v.summary.period.value == (FormatDisplayMonth(startMonth), FormatDisplayMonth(endMonth))) &&
      v.trend == LineChartData(es) && v.bars == BarChartData(es) &&
      |v.cards| == |es| &&
      (forall i :: 0 <= i < |es| ==>
         v.cards[i].dateKey == es[i].date && Keys(v.cards[i].labels) == Keys(es[i].values) &&
         forall j :: 0 <= j < |es[i].values| ==> v.cards[i].labels[j].1 == CellLabel(es[i].values[j].1))
  {
    if data.None? then Nothing
    else if data.value.forecastedProducts.None? || data.value.forecastedProducts.value == [] then NoForecastData
    else if !MetaReadable(data.value.meta) then TypeError
    else
      var es := data.value.forecastedProducts.value;
      var meta := data.value.meta.value;
      var period := if startMonth != "" && endMonth != ""
        then Some((FormatDisplayMonth(startMonth), FormatDisplayMonth(endMonth))) else None;
      Charts(Summary(meta.methodName.value, meta.generatedOn, |Keys(meta.lastDatesPerProduct.value)|, period),
             ProductNames(es), LineChartData(es), BarChartData(es),
             seq(|es|, i requires 0 <= i < |es| => CardOf(es[i])))
  }
}
