/** renderGraph in src/App.tsx: from the published rows, the selected variables and the
    timestamp window to what the page shows, either a message or the chart's labels,
    tooltip messages and one dataset per plotted variable. */
module Chart {
  import opened Sequences
  import opened Values

  /** A bound of the timestamp window. `minimum` starts at 0 and `maximum` at Infinity; the
      Submit button stores `parseInt` of each box, which is NaN for a box it cannot read. */
  datatype Bound = Finite(r: real) | Infinity | NaN

  /** `bound + initialTimestamp`, where None stands for an initial timestamp of NaN. */
  function Shift(b: Bound, t0: Option<real>): Bound {
    match b
    case Finite(r) => if t0.Some? then Finite(r + t0.value) else NaN
    case Infinity => if t0.Some? then Infinity else NaN
    case NaN => NaN
  }

  /** `x >= b` on numbers: false whenever either side is NaN. */
  predicate AtLeast(x: Option<real>, b: Bound) {
    x.Some? && b.Finite? && x.value >= b.r
  }

  /** `x <= b` on numbers: false whenever either side is NaN. */
  predicate AtMost(x: Option<real>, b: Bound) {
    x.Some? && (b.Infinity? || (b.Finite? && x.value <= b.r))
  }

  /** `point["timestamp"]` as a number in a comparison or a subtraction. */
  function Timestamp(row: Row): Option<real> {
    ToNumber(Get(row, "timestamp"))
  }

  /** `data[0]["timestamp"]` as it enters `minimum + initialTimestamp`: a number, or NaN
      when the field is undefined. */
  function InitialTimestamp(row0: Row): Option<real> {
    match Get(row0, "timestamp")
    case Num(x) => Some(x)
    case _ => None
  }

  /** The test of the `data.filter` callback, against the shifted bounds. */
  predicate InWindow(row: Row, lo: Bound, hi: Bound) {
    AtLeast(Timestamp(row), lo) && AtMost(Timestamp(row), hi)
  }

  function WindowTest(lo: Bound, hi: Bound): Row -> bool {
    (row: Row) => InWindow(row, lo, hi)
  }

  /** `filteredData`: the rows whose timestamp lies between `minimum + t0` and
      `maximum + t0`, both ends included, in their original order. */
  function Visible(rows: seq<Row>, t0: Option<real>, minimum: Bound, maximum: Bound): seq<Row> {
    Filter(rows, WindowTest(Shift(minimum, t0), Shift(maximum, t0)))
  }

  /** The window as the user states it: the row's time since the first row lies within
      [minimum, maximum]. */
  predicate InRelativeWindow(row: Row, t0: Option<real>, minimum: Bound, maximum: Bound) {
    && t0.Some? && Timestamp(row).Some?
    && AtLeast(Some(Timestamp(row).value - t0.value), minimum)
    && AtMost(Some(Timestamp(row).value - t0.value), maximum)
  }

  /** Shifting the bounds by t0 is the same as measuring the row from t0. */
  lemma WindowIsRelative(row: Row, t0: Option<real>, minimum: Bound, maximum: Bound)
    ensures InWindow(row, Shift(minimum, t0), Shift(maximum, t0)) <==> InRelativeWindow(row, t0, minimum, maximum)
  {
  }

  /** A row is drawn exactly when it is one of the rows and lies in the relative window. */
  lemma VisibleMembers(rows: seq<Row>, t0: Option<real>, minimum: Bound, maximum: Bound, row: Row)
    ensures row in Visible(rows, t0, minimum, maximum) <==> row in rows && InRelativeWindow(row, t0, minimum, maximum)
  {
    FilterMembers(rows, WindowTest(Shift(minimum, t0), Shift(maximum, t0)), row);
    WindowIsRelative(row, t0, minimum, maximum);
  }

  /** Narrowing to the window twice draws the same rows as once. */
  lemma VisibleIdempotent(rows: seq<Row>, t0: Option<real>, minimum: Bound, maximum: Bound)
    ensures Visible(Visible(rows, t0, minimum, maximum), t0, minimum, maximum) == Visible(rows, t0, minimum, maximum)
  {
    FilterIdempotent(rows, WindowTest(Shift(minimum, t0), Shift(maximum, t0)));
  }

  /** The window keeps file order: the rows of a later stretch of the file come after those
      of an earlier one. */
  lemma VisibleAppend(a: seq<Row>, b: seq<Row>, t0: Option<real>, minimum: Bound, maximum: Bound)
    ensures Visible(a + b, t0, minimum, maximum) == Visible(a, t0, minimum, maximum) + Visible(b, t0, minimum, maximum)
  {
    FilterAppend(a, b, WindowTest(Shift(minimum, t0), Shift(maximum, t0)));
  }

  /** The initial window (0 to Infinity) draws every row when no row is timed before the
      first one. */
  lemma InitialWindowDrawsAll(rows: seq<Row>, t0: real)
    requires forall i :: 0 <= i < |rows| ==> Timestamp(rows[i]).Some? && Timestamp(rows[i]).value >= t0
    ensures Visible(rows, Some(t0), Finite(0.0), Infinity) == rows
  {
    FilterAll(rows, WindowTest(Shift(Finite(0.0), Some(t0)), Shift(Infinity, Some(t0))));
  }

  /** Every row has a numeric timestamp. */
  predicate Timed(rows: seq<Row>) {
    forall i :: 0 <= i < |rows| ==> Timestamp(rows[i]).Some?
  }

  /** `point["messages"] ? point["messages"] : null`. */
  function MessageOf(row: Row): Option<Value> {
    if Truthy(Get(row, "messages")) then Some(Get(row, "messages")) else None
  }

  /** `point["messages"] ? 10 : 0`: only points that carry a message are drawn as dots. */
  function RadiusOf(row: Row): nat {
    if Truthy(Get(row, "messages")) then 10 else 0
  }

  /** A key that names a variable rather than the timestamp or messages column. */
  predicate IsVariable(key: string) {
    key != "timestamp" && key != "messages"
  }

  /** A variable gets a dataset when its box is ticked. */
  predicate Plotted(key: string, selected: set<string>) {
    IsVariable(key) && key in selected
  }

  function PlottedTest(selected: set<string>): string -> bool {
    (key: string) => Plotted(key, selected)
  }

  /** The keys of the first visible row that get a dataset, in key order. */
  function PlottedKeys(row: Row, selected: set<string>): seq<string> {
    Filter(row.keys, PlottedTest(selected))
  }

  /** The hue `(index * 360) / count` of an `hsl(...)` colour. */
  function Hue(index: nat, count: nat): real
    requires count > 0
  {
    (index as real) * 360.0 / (count as real)
  }

  datatype Point = Point(x: real, y: Value, message: Option<Value>)

  datatype Dataset = Dataset(key: string, points: seq<Point>, borderHue: real, backgroundHue: real, pointRadius: seq<nat>)

  /** What renderGraph returns. */
  datatype View =
    | NoData            // "No data to display"
    | Fault             // `data[0].hasOwnProperty(...)` throws
    | MissingTimestamp  // the "timestamp" error box
    | EmptyRange        // the "no data in the given timestamp range" warning
    | Chart(labels: seq<real>, messages: seq<Option<Value>>, datasets: seq<Dataset>)

  /** `filteredData.map(...)` of the x coordinates: time since the first row. */
  function Labels(rows: seq<Row>, t0: real): seq<real>
    requires Timed(rows)
  {
    seq(|rows|, i requires 0 <= i < |rows| => Timestamp(rows[i]).value - t0)
  }

  /** The points of the dataset for `key`. */
  function Points(rows: seq<Row>, key: string, t0: real): seq<Point>
    requires Timed(rows)
  {
    seq(|rows|, i requires 0 <= i < |rows| => Point(Timestamp(rows[i]).value - t0, Get(rows[i], key), MessageOf(rows[i])))
  }

  /** One dataset per plotted key of the first visible row; dataset `i` takes border hue
      `i * 360 / selected.size` and background hue `i * 360 / (number of keys of the row)`. */
  function Datasets(rows: seq<Row>, selected: set<string>, t0: real): seq<Dataset>
    requires |rows| > 0 && Timed(rows)
  {
    var keys := PlottedKeys(rows[0], selected);
    seq(|keys|, i requires 0 <= i < |keys| =>
      Dataset(keys[i], Points(rows, keys[i], t0), Hue(i, |selected|), Hue(i, |rows[0].keys|), Map(rows, RadiusOf)))
  }

  /** The row's own `hasOwnProperty` field (a column of that name) hides the inherited
      method, so calling `row.hasOwnProperty(...)` calls a number, a string or `undefined`
      and throws. */
  predicate ShadowsHasOwnProperty(row: Row) {
    HasOwn(row, "hasOwnProperty")
  }

  /** Whether `data[0].hasOwnProperty("timestamp")` throws: `data[0]` is undefined for an
      empty list, or its `hasOwnProperty` is not a function. */
  predicate FirstRowFaults(rows: seq<Row>) {
    |rows| == 0 || ShadowsHasOwnProperty(rows[0])
  }

  /** renderGraph. */
  function Render(data: Option<seq<Row>>, selected: set<string>, minimum: Bound, maximum: Bound): View {
    if data.None? then NoData
    else if FirstRowFaults(data.value) then Fault
    else if !HasOwn(data.value[0], "timestamp") then MissingTimestamp
    else
      var t0 := InitialTimestamp(data.value[0]);
      var rows := Visible(data.value, t0, minimum, maximum);
      if |rows| == 0 then EmptyRange
      else
        assert InWindow(rows[0], Shift(minimum, t0), Shift(maximum, t0));
        Chart(Labels(rows, t0.value), Map(rows, MessageOf), Datasets(rows, selected, t0.value))
  }


  function DatasetKey(d: Dataset): string {
    d.key
  }

  /** renderGraph's five outcomes and exactly when each occurs: no data; a fault when the
      published list is empty or its first row has its own `hasOwnProperty`; a first row
      without "timestamp"; a window no row falls in; and otherwise a chart. A first
      timestamp that is not a number leaves every row outside. */
  lemma RenderOutcome(data: Option<seq<Row>>, selected: set<string>, minimum: Bound, maximum: Bound)
    ensures var view := Render(data, selected, minimum, maximum);
            && (view.NoData? <==> data.None?)
            && (view.Fault? <==> data.Some? && (data.value == [] || HasOwn(data.value[0], "hasOwnProperty")))
            && (view.MissingTimestamp? <==>
                  && data.Some? && |data.value| > 0 && !HasOwn(data.value[0], "hasOwnProperty")
                  && !HasOwn(data.value[0], "timestamp"))
            && (view.EmptyRange? <==>
                  && data.Some? && |data.value| > 0 && !HasOwn(data.value[0], "hasOwnProperty")
                  && HasOwn(data.value[0], "timestamp")
                  && forall i :: 0 <= i < |data.value| ==>
                       !InRelativeWindow(data.value[i], InitialTimestamp(data.value[0]), minimum, maximum))
  {
    if data.Some? && !FirstRowFaults(data.value) && HasOwn(data.value[0], "timestamp") {
      var t0 := InitialTimestamp(data.value[0]);
      var rows := Visible(data.value, t0, minimum, maximum);
      if |rows| > 0 {
        VisibleMembers(data.value, t0, minimum, maximum, rows[0]);
      } else {
        forall i | 0 <= i < |data.value|
          ensures !InRelativeWindow(data.value[i], t0, minimum, maximum)
        {
          VisibleMembers(data.value, t0, minimum, maximum, data.value[i]);
        }
      }
    }
  }

  /** The chart has one x label and one tooltip message per drawn row, and every label is
      the row's time since the first row, inside [minimum, maximum]. */
  lemma ChartLabels(data: Option<seq<Row>>, selected: set<string>, minimum: Bound, maximum: Bound, j: nat)
    requires Render(data, selected, minimum, maximum).Chart?
    requires j < |Render(data, selected, minimum, maximum).labels|
    ensures var view := Render(data, selected, minimum, maximum);
            var t0 := InitialTimestamp(data.value[0]);
            var rows := Visible(data.value, t0, minimum, maximum);
            && t0.Some? && |view.labels| == |view.messages| == |rows|
            && Timestamp(rows[j]).Some? && view.labels[j] == Timestamp(rows[j]).value - t0.value
            && AtLeast(Some(view.labels[j]), minimum) && AtMost(Some(view.labels[j]), maximum)
            && (view.messages[j].Some? <==> Truthy(Get(rows[j], "messages")))
            && (view.messages[j].Some? ==> view.messages[j].value == Get(rows[j], "messages"))
  {
    var t0 := InitialTimestamp(data.value[0]);
    var rows := Visible(data.value, t0, minimum, maximum);
    assert InWindow(rows[j], Shift(minimum, t0), Shift(maximum, t0));
    WindowIsRelative(rows[j], t0, minimum, maximum);
  }

  /** Every dataset has one point and one radius per label; point `j` sits at label `j`,
      carries the row's own value of the dataset's variable and the row's tooltip message,
      and is drawn as a dot (radius 10) exactly when that message is present. */
  lemma ChartPoints(data: Option<seq<Row>>, selected: set<string>, minimum: Bound, maximum: Bound, d: nat, j: nat)
    requires Render(data, selected, minimum, maximum).Chart?
    requires d < |Render(data, selected, minimum, maximum).datasets|
    requires j < |Render(data, selected, minimum, maximum).labels|
    ensures var view := Render(data, selected, minimum, maximum);
            var rows := Visible(data.value, InitialTimestamp(data.value[0]), minimum, maximum);
            var ds := view.datasets[d];
            && |ds.points| == |ds.pointRadius| == |view.labels|
            && ds.points[j].x == view.labels[j]
            && ds.points[j].y == Get(rows[j], ds.key)
            && ds.points[j].message == view.messages[j]
            && (ds.pointRadius[j] == 10 <==> view.messages[j].Some?)
            && (ds.pointRadius[j] == 0 <==> view.messages[j].None?)
  {
  }

  /** The datasets are named by the keys of the first drawn row that are neither
      "timestamp" nor "messages" and are ticked, in that row's key order; with the row's keys listed once each, no
      variable gets two datasets and there are at most as many datasets as ticked boxes. */
  lemma DatasetKeys(data: Option<seq<Row>>, selected: set<string>, minimum: Bound, maximum: Bound, k: string)
    requires Render(data, selected, minimum, maximum).Chart?
    ensures var view := Render(data, selected, minimum, maximum);
            var rows := Visible(data.value, InitialTimestamp(data.value[0]), minimum, maximum);
            var keys := Map(view.datasets, DatasetKey);
            && keys == Filter(rows[0].keys, PlottedTest(selected))
            && (k in keys <==> k in rows[0].keys && Plotted(k, selected))
            && (Distinct(rows[0].keys) ==> Distinct(keys) && |keys| <= |selected|)
  {
    var view := Render(data, selected, minimum, maximum);
    var rows := Visible(data.value, InitialTimestamp(data.value[0]), minimum, maximum);
    var plotted := PlottedKeys(rows[0], selected);
    assert Map(view.datasets, DatasetKey) == plotted;
    FilterMembers(rows[0].keys, PlottedTest(selected), k);
    if Distinct(rows[0].keys) {
      FilterDistinct(rows[0].keys, PlottedTest(selected));
      DistinctWithin(plotted, selected);
    }
  }

  /** Evenly spaced hues are all different. */
  lemma HueInjective(i: nat, j: nat, count: nat)
    requires count > 0 && i != j
    ensures Hue(i, count) != Hue(j, count)
  {
    var c := count as real;
    assert Hue(i, count) * c == i as real * 360.0;
    assert Hue(j, count) * c == j as real * 360.0;
  }

  /** Hue `index * 360 / count` stays on the colour wheel while `index < count`. */
  lemma HueBelowFullTurn(index: nat, count: nat)
    requires index < count
    ensures 0.0 <= Hue(index, count) < 360.0
  {
    var c := count as real;
    assert Hue(index, count) * c == index as real * 360.0;
  }

  /** Every dataset's colours lie on the colour wheel, the background hue always and the
      border hue when the first drawn row lists each key once; no two datasets share a
      colour. */
  lemma DatasetHues(data: Option<seq<Row>>, selected: set<string>, minimum: Bound, maximum: Bound, d: nat, e: nat)
    requires Render(data, selected, minimum, maximum).Chart?
    requires d < |Render(data, selected, minimum, maximum).datasets|
    requires e < |Render(data, selected, minimum, maximum).datasets|
    ensures var view := Render(data, selected, minimum, maximum);
            var rows := Visible(data.value, InitialTimestamp(data.value[0]), minimum, maximum);
            var ds := view.datasets[d];
            && 0.0 <= ds.backgroundHue < 360.0
            && 0.0 <= ds.borderHue
            && (Distinct(rows[0].keys) ==> ds.borderHue < 360.0)
            && (d != e ==> ds.borderHue != view.datasets[e].borderHue && ds.backgroundHue != view.datasets[e].backgroundHue)
  {
    var view := Render(data, selected, minimum, maximum);
    var rows := Visible(data.value, InitialTimestamp(data.value[0]), minimum, maximum);
    var plotted := PlottedKeys(rows[0], selected);
    assert |view.datasets| == |plotted|;
    assert plotted[d] in selected;
    HueBelowFullTurn(d, |rows[0].keys|);
    if Distinct(rows[0].keys) {
      FilterDistinct(rows[0].keys, PlottedTest(selected));
      DistinctWithin(plotted, selected);
      HueBelowFullTurn(d, |selected|);
    } else {
      HueBelowFullTurn(0, |selected|);
      assert Hue(0, |selected|) <= Hue(d, |selected|);
    }
    if d != e {
      HueInjective(d, e, |selected|);
      HueInjective(d, e, |rows[0].keys|);
    }
  }
}
