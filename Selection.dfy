/** The variable checkboxes of src/App.tsx: the list renderVariableCheckboxes offers and
    toggleVariable, which flips one of them. */
module Selection {
  import opened Sequences
  import opened Values
  import opened Chart

  /** toggleVariable: a new set with `variable` removed when it was selected and added
      when it was not. */
  function Toggle(selected: set<string>, variable: string): (r: set<string>)
    ensures variable in r <==> variable !in selected
    ensures forall v :: v != variable ==> (v in r <==> v in selected)
  {
    if variable in selected then selected - {variable} else selected + {variable}
  }

  /** Clicking a checkbox twice restores the selection. */
  lemma ToggleTwice(selected: set<string>, variable: string)
    ensures Toggle(Toggle(selected, variable), variable) == selected
  {
  }

  /** The order of two clicks does not matter. */
  lemma ToggleCommutes(selected: set<string>, a: string, b: string)
    ensures Toggle(Toggle(selected, a), b) == Toggle(Toggle(selected, b), a)
  {
  }

  /** The variables offered as checkboxes: none before any data or for an empty list,
      otherwise the keys of the first row other than "timestamp" and "messages". */
  function AvailableVariables(data: Option<seq<Row>>): Option<seq<string>> {
    if data.None? || |data.value| == 0 then None
    else Some(Filter(data.value[0].keys, IsVariable))
  }

  /** The checkboxes are exactly the first row's variable keys, in key order, each once
      when the row lists each key once. */
  lemma AvailableMembers(data: Option<seq<Row>>, k: string)
    ensures AvailableVariables(data).Some? <==> data.Some? && |data.value| > 0
    ensures AvailableVariables(data).Some? ==>
              && (k in AvailableVariables(data).value <==> k in data.value[0].keys && IsVariable(k))
              && (Distinct(data.value[0].keys) ==> Distinct(AvailableVariables(data).value))
  {
    if data.Some? && |data.value| > 0 {
      FilterMembers(data.value[0].keys, IsVariable, k);
      if Distinct(data.value[0].keys) {
        FilterDistinct(data.value[0].keys, IsVariable);
      }
    }
  }

  /** Every row lists the same keys in the same order. */
  predicate SameKeys(rows: seq<Row>) {
    forall i :: 0 <= i < |rows| ==> rows[i].keys == rows[0].keys
  }

  predicate IsSelected(key: string, selected: set<string>) {
    key in selected
  }

  function SelectedTest(selected: set<string>): string -> bool {
    (key: string) => IsSelected(key, selected)
  }

  /** When every row has the same keys, the chart draws one dataset for each ticked
      checkbox, in checkbox order, whatever the window. */
  lemma ChartFollowsCheckboxes(data: Option<seq<Row>>, selected: set<string>, minimum: Bound, maximum: Bound)
    requires Render(data, selected, minimum, maximum).Chart? && SameKeys(data.value)
    ensures Map(Render(data, selected, minimum, maximum).datasets, DatasetKey)
         == Filter(AvailableVariables(data).value, SelectedTest(selected))
  {
    var view := Render(data, selected, minimum, maximum);
    var t0 := InitialTimestamp(data.value[0]);
    var rows := Visible(data.value, t0, minimum, maximum);
    VisibleMembers(data.value, t0, minimum, maximum, rows[0]);
    var i :| 0 <= i < |data.value| && data.value[i] == rows[0];
    assert rows[0].keys == data.value[0].keys;
    assert Map(view.datasets, DatasetKey) == PlottedKeys(rows[0], selected);
    FilterFilter(data.value[0].keys, IsVariable, SelectedTest(selected), PlottedTest(selected));
  }

  /** Ticking every offered checkbox plots every variable. */
  lemma AllTickedPlotsAll(data: Option<seq<Row>>, selected: set<string>, minimum: Bound, maximum: Bound)
    requires Render(data, selected, minimum, maximum).Chart? && SameKeys(data.value)
    requires forall k :: k in data.value[0].keys && IsVariable(k) ==> k in selected
    ensures Map(Render(data, selected, minimum, maximum).datasets, DatasetKey) == AvailableVariables(data).value
  {
    ChartFollowsCheckboxes(data, selected, minimum, maximum);
    var available := AvailableVariables(data).value;
    forall j | 0 <= j < |available| ensures SelectedTest(selected)(available[j]) {
      FilterMembers(data.value[0].keys, IsVariable, available[j]);
    }
    FilterAll(available, SelectedTest(selected));
  }
}
