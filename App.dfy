/** Properties of the whole page in src/App.tsx: what an upload publishes, as seen by the
    checkboxes and the chart. */
module App {
  import opened Sequences
  import opened Values
  import opened Parsing
  import opened Ingestion
  import opened Chart
  import opened Selection

  /** All published rows share one key list, whatever the header: a repeated name keeps
      its first place, so the keys depend on the header alone. */
  lemma IngestedSameKeys(lines: seq<string>, stride: Option<int>, parse: string -> Option<real>)
    requires |lines| > 0
    ensures SameKeys(Ingested(lines, stride, parse))
  {
    var rows := Ingested(lines, stride, parse);
    var toRow := LineParser(Header(lines), parse);
    forall i | 0 <= i < |rows| ensures rows[i].keys == rows[0].keys {
      var a := PublishedFromLines(lines, toRow, Sampling(stride), rows[i]);
      var b := PublishedFromLines(lines, toRow, Sampling(stride), rows[0]);
      ParseLineSameKeys(Header(lines), lines[a], lines[b], parse);
    }
  }

  /** A file with only a header line publishes an empty list, and the chart then faults on
      its first row. */
  lemma HeaderOnlyFileFaults(lines: seq<string>, stride: Option<int>, parse: string -> Option<real>,
                             selected: set<string>, minimum: Bound, maximum: Bound)
    requires |lines| == 1
    ensures Ingested(lines, stride, parse) == []
    ensures Render(Some(Ingested(lines, stride, parse)), selected, minimum, maximum) == Fault
  {
    AllLinesCovered(lines);
    var toRow := LineParser(Header(lines), parse);
    assert Ingested(lines, stride, parse) == Processed(lines, toRow, Sampling(stride), 1);
    ProcessedNext(lines, toRow, Sampling(stride), 0);
  }

  /** A header with a `hasOwnProperty` column makes the chart fault as soon as any row is
      published: the first row's own field hides the method renderGraph calls. */
  lemma ShadowingHeaderFaults(lines: seq<string>, stride: Option<int>, parse: string -> Option<real>,
                              selected: set<string>, minimum: Bound, maximum: Bound)
    requires |lines| > 0 && "hasOwnProperty" in Header(lines)
    ensures Render(Some(Ingested(lines, stride, parse)), selected, minimum, maximum) == Fault
  {
    var rows := Ingested(lines, stride, parse);
    if |rows| > 0 {
      IngestedKeys(lines, stride, parse, rows[0]);
    }
  }

  /** A `__proto__` column never becomes a checkbox, and every other variable column does
      once a row is published. */
  lemma OfferedColumns(lines: seq<string>, stride: Option<int>, parse: string -> Option<real>, k: string)
    requires |lines| > 0 && |Ingested(lines, stride, parse)| > 0
    ensures var offered := AvailableVariables(Some(Ingested(lines, stride, parse))).value;
            k in offered <==> k in Header(lines) && Storable(k) && IsVariable(k)
  {
    var data := Some(Ingested(lines, stride, parse));
    AvailableMembers(data, k);
    IngestedKeys(lines, stride, parse, data.value[0]);
    assert k in data.value[0].keys <==> HasOwn(data.value[0], k);
  }

  /** After an upload the chart draws exactly the ticked checkboxes, in checkbox order,
      with every border colour on the colour wheel; with no repeated header name the
      checkboxes are the header's variable columns in header order. */
  lemma UploadedChartFollowsCheckboxes(lines: seq<string>, stride: Option<int>, parse: string -> Option<real>,
                                       selected: set<string>, minimum: Bound, maximum: Bound)
    requires |lines| > 0
    requires Render(Some(Ingested(lines, stride, parse)), selected, minimum, maximum).Chart?
    ensures var data := Some(Ingested(lines, stride, parse));
            var view := Render(data, selected, minimum, maximum);
            && Map(view.datasets, DatasetKey) == Filter(AvailableVariables(data).value, SelectedTest(selected))
            && (Distinct(Header(lines)) ==> AvailableVariables(data).value == Filter(OwnKeys(Header(lines)), IsVariable))
            && forall d :: 0 <= d < |view.datasets| ==> view.datasets[d].borderHue < 360.0
  {
    var data := Some(Ingested(lines, stride, parse));
    var view := Render(data, selected, minimum, maximum);
    IngestedSameKeys(lines, stride, parse);
    ChartFollowsCheckboxes(data, selected, minimum, maximum);
    IngestedKeys(lines, stride, parse, data.value[0]);
    DrawnRowWellFormed(lines, stride, parse, selected, minimum, maximum);
    forall d | 0 <= d < |view.datasets| ensures view.datasets[d].borderHue < 360.0 {
      DatasetHues(data, selected, minimum, maximum, d, d);
    }
  }

  /** The first drawn row of an uploaded file lists each key once. */
  lemma DrawnRowWellFormed(lines: seq<string>, stride: Option<int>, parse: string -> Option<real>,
                           selected: set<string>, minimum: Bound, maximum: Bound)
    requires |lines| > 0
    requires Render(Some(Ingested(lines, stride, parse)), selected, minimum, maximum).Chart?
    ensures var data := Ingested(lines, stride, parse);
            Distinct(Visible(data, InitialTimestamp(data[0]), minimum, maximum)[0].keys)
  {
    var data := Ingested(lines, stride, parse);
    var t0 := InitialTimestamp(data[0]);
    var rows := Visible(data, t0, minimum, maximum);
    VisibleMembers(data, t0, minimum, maximum, rows[0]);
    IngestedKeys(lines, stride, parse, rows[0]);
  }
}
