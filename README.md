# csv-converter: a Dafny model of the CSV-to-chart core

The application reads a CSV file in the browser, turns its lines into row objects,
processes them in chunks of 5000 lines and publishes all of them once the last chunk
is done. While doing so it thins the rows by a user-given stride, always keeping rows
that carry a message. It then draws one
line-chart dataset per ticked variable over a timestamp window. All of this logic
lives in `src/App.tsx`. This project models it and proves its properties:

- **Reading lines** (`reader.onload`). The text is split on `"\n"`, each line is
  trimmed and empty lines are dropped. The header is the first line split on `","`.
  Each data line becomes a row object keyed by the header: a field holds the parsed
  number, the raw string when the parse fails, or `undefined` when the line is short.
  Modules `Strings`, `Values` and `Parsing`.
- **Chunked ingestion** (`processChunk`). This is a class `Ingestion.Ingestor` with
  the fields the closure updates: the cursor `currentLine`, the accumulator `allData`,
  `progress`, `loading` and the published `data`. `Step` is one call of
  `processChunk`, and `OnLoad` drives `Step` in a loop in place of `setTimeout`.
  The chunk loop (`AppendChunk`) and the field loop (`Parsing.BuildRow`) are `while`
  loops with invariants.
  - Everything processChunk appends is specified by the function `Processed`.
  - The proofs show three things about it:
    - it equals a line-by-line reference, `SampledUpTo`, in which data line `i` is
      tested at position `(i - 1) % 5000` of its chunk;
    - it publishes every data line with an empty size box;
    - it never drops a row that has a message.
- **The chart** (`renderGraph`), as the pure function `Chart.Render`. It has five
  outcomes: no data, a fault when `data[0].hasOwnProperty(...)` cannot be called, the missing-timestamp error, the
  empty-range warning, and a chart with labels, tooltip messages and datasets.
- **The checkboxes**: `toggleVariable` and the list of available variables, in
  `Selection`. Module `App` ties ingestion, the checkboxes and the chart together.

JavaScript values are modelled explicitly.
- `Values.Value` is a number, a string or `undefined`, and a row keeps its keys in
  insertion order.
- A row is an object that inherits from `Object.prototype`. Assigning a number, a
  string or `undefined` to `row["__proto__"]` creates no own key (`Values.Put`). A
  column named `hasOwnProperty` hides the inherited method (`Chart.ShadowsHasOwnProperty`).
- NaN is `None` wherever a parse or a numeric conversion of a field can produce it.
  The window bounds are `Chart.Bound`, whose constructor `NaN` stands for a box
  `parseInt` cannot read.
- `parseFloat` and `parseInt` are parameters of the model (`string -> Option<...>`):
  their exact text syntax is not modelled.

Behaviour of the source worth knowing:
- A row is kept for its message when `rowData["messages"] != null`, so an empty
  `messages` field (`""`) counts as a message and the row is never thinned.
- Thinning happens during ingestion, by position inside each 5000-line chunk.
  Without thinning (empty size box) every data line is published, in order
  (`Ingestion.PublishedStrideOne`).
- A missing `timestamp` column is detected when the chart is drawn, and only on the
  first row. Ingestion itself never rejects a file.
- An empty file faults on `lines[0]` (`Ingestion.LoadOutcome.EmptyFileFault`). It does
  not give an empty series. A file with only a header publishes `[]`, and the chart
  then faults on `data[0]`.
- A header column named `hasOwnProperty` makes the chart fault as soon as a row is
  published (`App.ShadowingHeaderFaults`). A column named `__proto__` is never stored
  and never offered as a checkbox (`App.OfferedColumns`).
- Colours: the border hue of dataset `k` is `k * 360 / selectedVariables.size` and
  the background hue is `k * 360 / (number of keys of the first drawn row)`.

## Model

| member | source | states |
|---|---|---|
| `Strings.Split` | src/App.tsx:51 | `split` with a one-character separator yields at least one piece, and no piece contains the separator |
| `Strings.JoinSplit` | src/App.tsx:64 | splitting loses nothing: joining the pieces with the separator restores the line |
| `Strings.SplitJoin` | src/App.tsx:64 | pieces without the separator, joined and split again, come back unchanged |
| `Strings.SplitWithoutSeparator` | src/App.tsx:53 | a line without the separator splits into itself alone |
| `Strings.SplitAppend` | src/App.tsx:51 | a separator between two texts splits each text on its own, pieces in order |
| `Strings.TrimStart` | src/App.tsx:51 | removes exactly the leading whitespace: the result is a suffix, everything before it is whitespace, and it does not start with whitespace |
| `Strings.TrimEnd` | src/App.tsx:51 | removes exactly the trailing whitespace: the result is a prefix, everything after it is whitespace, and it does not end with whitespace |
| `Strings.Trim` | src/App.tsx:51 | `trim()` leaves neither end whitespace and never lengthens the line |
| `Strings.TrimInfix` | src/App.tsx:51 | `trim()` keeps a contiguous infix and removes only whitespace on either side |
| `Strings.TrimKeepsAbsent` | src/App.tsx:51 | trimming introduces no character the line did not hold (a trimmed line has no `"\n"`) |
| `Strings.TrimTrimmed` | src/App.tsx:51 | trimming a trimmed line changes nothing |
| `Sequences.Filter` | src/App.tsx:51 | `filter` never lengthens its input and everything it returns passes the test |
| `Sequences.Map` | src/App.tsx:141-142 | `map` keeps the length and puts `f(s[i])` at position `i` |
| `Sequences.MapAppend` | src/App.tsx:141-142 | mapping distributes over concatenation |
| `Sequences.FilterMembers` | src/App.tsx:125-128 | an element survives `filter` exactly when it is in the input and passes the test |
| `Sequences.FilterAppend` | src/App.tsx:125-128 | `filter` keeps relative order: filtering a concatenation concatenates the filtered parts |
| `Sequences.FilterIdempotent` | src/App.tsx:125-128 | a second `filter` with the same test changes nothing |
| `Sequences.FilterAll` | src/App.tsx:125-128 | when every element passes, `filter` returns its input |
| `Sequences.FilterFilter` | src/App.tsx:144-145 | two successive filters equal one filter by the conjunction of their tests |
| `Sequences.FilterDistinct` | src/App.tsx:144-145 | filtering a list without repeats gives a list without repeats |
| `Sequences.DistinctWithin` | src/App.tsx:155 | a list without repeats drawn from a set is no longer than the set |
| `Sequences.AccumulateHas` | src/App.tsx:71 | anything in one appended chunk is in the accumulated whole |
| `Sequences.AccumulateSource` | src/App.tsx:71 | everything in the accumulated whole came from one appended chunk |
| `Values.Put` | src/App.tsx:68 | `rowData[key] = v` stores `v` under `key`, changes no other key, keeps well-formedness, and appends the key to the key order only when it is new; for `key == "__proto__"` the row is unchanged |
| `Parsing.SplitLines` | src/App.tsx:51 | every kept line is non-empty |
| `Parsing.SplitLinesShape` | src/App.tsx:51 | every kept line is non-empty, trimmed and holds no line break |
| `Parsing.SplitLinesAppend` | src/App.tsx:51 | the lines of two texts joined by a line break are the lines of the first followed by those of the second (file order kept) |
| `Parsing.RowOfWellFormed` | src/App.tsx:65-69 | the row built field by field lists each key once, and its keys and fields agree |
| `Parsing.RowOfHasOwn` | src/App.tsx:66-69 | after assigning the first `n` header names the row has exactly those keys other than `__proto__` |
| `Parsing.RowOfKeyOrder` | src/App.tsx:66-69 | with distinct header names the keys are the header's names other than `__proto__`, in header order |
| `Parsing.OwnKeysSnoc` | src/App.tsx:66-68 | one more header name adds itself at the end of the own keys unless it is `__proto__` |
| `Parsing.RowOfKeysIndependent` | src/App.tsx:66-68 | the key list after `n` assignments depends on the header alone, not on the line's fields |
| `Parsing.RowOfField` | src/App.tsx:66-68 | a header name holds the value of its last position's field |
| `Parsing.ParseLineKeys` | src/App.tsx:64-69 | every parsed row is well formed with exactly the header's names other than `__proto__` as keys, in header order when the header has no repeated name |
| `Parsing.ParseLineSameKeys` | src/App.tsx:64-69 | two lines parsed against the same header give the same key list, for any header |
| `Parsing.ParseLineFields` | src/App.tsx:64-69 | with distinct header names, field `i` is the parsed number when the parse succeeds, the raw text when it fails, and `undefined` when the line has fewer than `i + 1` fields; a `__proto__` column stores no key |
| `Parsing.BuildRow` | src/App.tsx:64-69 | the `header.forEach` loop builds exactly the row `ParseLine` describes |
| `Ingestion.KeptIndicesExact` | src/App.tsx:63-72 | the kept positions of a chunk are ascending and are exactly the positions whose row passes the test |
| `Ingestion.ThinSelects` | src/App.tsx:63-72 | the chunk loop appends, in order, exactly the rows at the kept positions |
| `Ingestion.ThinSnoc` | src/App.tsx:70-71 | one more row of the chunk is appended exactly when it passes the test |
| `Ingestion.MessageRowKept` | src/App.tsx:70 | a row whose `messages` is not `undefined` is kept whatever the stride |
| `Ingestion.ThinSubset` | src/App.tsx:70-71 | the chunk loop only appends rows of its chunk |
| `Ingestion.ThinStrideOne` | src/App.tsx:70 | with stride 1 (empty size box) no row of a chunk is dropped |
| `Ingestion.ThinWithoutStride` | src/App.tsx:70 | with a stride that is NaN or 0 exactly the rows with a message survive, in order |
| `Ingestion.Chunk` | src/App.tsx:60 | `lines.slice(currentLine, currentLine + 5000)` has at most 5000 lines |
| `Ingestion.ChunkAt` | src/App.tsx:60 | position `j` of a chunk is line `currentLine + j` |
| `Ingestion.CoveredNext` | src/App.tsx:59-61 | one more call covers its own chunk after the lines already covered |
| `Ingestion.ProcessedNext` | src/App.tsx:59-73 | one more call appends its chunk's kept rows after everything appended before |
| `Ingestion.ProcessedAppend` | src/App.tsx:59-73 | appending call `k`'s kept rows to the rows of `k` calls gives the rows of `k + 1` calls |
| `Ingestion.Calls` | src/App.tsx:77-86 | processChunk runs at least once, and again exactly while `currentLine < totalLines` |
| `Ingestion.CallsUnique` | src/App.tsx:77-86 | the number of calls is the first `k >= 1` whose cursor reaches the end |
| `Ingestion.CoveredPrefix` | src/App.tsx:56-61 | the first `k` chunks are the data lines from 1 up to the cursor, in order, each once |
| `Ingestion.AllLinesCovered` | src/App.tsx:56-82 | the chunks visit every data line exactly once, in file order, and never the header |
| `Ingestion.ProcessedStrideOne` | src/App.tsx:59-73 | with stride 1 the first `k` calls append the row of every covered line, in order |
| `Ingestion.PublishedStrideOne` | src/App.tsx:59-82 | with an empty size box every data line is published as a row, in file order |
| `Ingestion.LineInChunk` | src/App.tsx:59-61 | every data line lies at some position of some chunk that runs |
| `Ingestion.MessageRowsPublished` | src/App.tsx:59-82 | every data line whose row has a message is published, whatever the stride |
| `Ingestion.PublishedFromLines` | src/App.tsx:59-82 | every published row is the row of a data line; the header line is never published |
| `Ingestion.IndexInChunkIsRemainder` | src/App.tsx:63 | the position of data line `i` inside its chunk is `(i - 1) % 5000` |
| `Ingestion.ChunkOffset` | src/App.tsx:60-63 | line `m` of chunk `c` sits at position `m`: the index restarts at each chunk |
| `Ingestion.ChunkLineSample` | src/App.tsx:60-72 | a chunk's row at position `j` is sampled as its file line is in the line-by-line reference |
| `Ingestion.ThinUpToIsThin` | src/App.tsx:63-72 | what the chunk loop has appended after `m` iterations is the thinning of the chunk's first `m` rows |
| `Ingestion.ChunkSampling` | src/App.tsx:63-72 | thinning the first `m` rows of a chunk extends the line-by-line sampling by those `m` lines |
| `Ingestion.ChunkBounds` | src/App.tsx:60-61 | the cursor before and after a call, clamped to the end of the file, frames that call's chunk |
| `Ingestion.WholeChunkSampling` | src/App.tsx:60-72 | a whole chunk's kept rows are what the line-by-line sampling adds over its lines |
| `Ingestion.ChunkStep` | src/App.tsx:59-73 | call `k` appends what the line-by-line sampling adds between its cursor positions |
| `Ingestion.ProcessedSampled` | src/App.tsx:59-82 | after `k` calls allData is the line-by-line sampling of the lines before the cursor |
| `Ingestion.PublishedIsSampled` | src/App.tsx:59-82 | chunking changes nothing: what is published is the line-by-line sampling of the whole file |
| `Ingestion.IngestedIsSampled` | src/App.tsx:53-82 | a data line is published, in file order, exactly when its row has a message or its position `(i - 1) % 5000` is on the stride |
| `Ingestion.IngestedKeys` | src/App.tsx:53-71 | every published row is well formed and has exactly the header's names other than `__proto__` as its own keys, in header order when the header has no repeated name |
| `Ingestion.Progress` | src/App.tsx:75 | progress is between 0 and 100, and is 100 exactly when the cursor has reached the end |
| `Ingestion.ProgressMonotone` | src/App.tsx:75 | progress never goes backwards as the cursor advances |
| `Ingestion.Ingestor.constructor` | src/App.tsx:53-57 | the header is the first line split on commas, the cursor is 1, allData is empty, and loading is on |
| `Ingestion.Ingestor.AppendChunk` | src/App.tsx:63-73 | the chunk loop appends exactly the chunk's rows that pass the sampling test, in order |
| `Ingestion.Ingestor.Step` | src/App.tsx:59-83 | one call advances the cursor by 5000, appends its chunk's kept rows, and sets progress; progress is below 100 while loading continues and never decreases; at 100 the rows are published and loading ends |
| `Ingestion.OnLoad` | src/App.tsx:49-87 | an empty file faults; otherwise stepping ends and publishes exactly `Ingested` of the lines |
| `Chart.WindowIsRelative` | src/App.tsx:117-128 | shifting both bounds by the first timestamp equals testing the row's time since the first row against the unshifted bounds |
| `Chart.VisibleMembers` | src/App.tsx:125-128 | a row is drawn exactly when it is a published row inside the relative window |
| `Chart.VisibleIdempotent` | src/App.tsx:125-128 | filtering by the window a second time changes nothing |
| `Chart.VisibleAppend` | src/App.tsx:125-128 | the window filter keeps file order |
| `Chart.InitialWindowDrawsAll` | src/App.tsx:40-41 | the initial window, 0 to Infinity, draws every row timed no earlier than the first |
| `Chart.RenderOutcome` | src/App.tsx:105-138 | renderGraph's outcomes and when each occurs: no data; a fault when the list is empty or its first row has its own `hasOwnProperty` field; no `timestamp` key on the first row; a window no row falls in |
| `Chart.ChartLabels` | src/App.tsx:141-142 | one label and one tooltip message per drawn row; each label is the row's time since the first row, inside the window; the message is present exactly when truthy |
| `Chart.ChartPoints` | src/App.tsx:146-159 | each dataset has one point and one radius per label; point `j` is at label `j` with the row's own value and message; the radius is 10 exactly for rows with a message, 0 otherwise |
| `Chart.DatasetKeys` | src/App.tsx:144-149 | datasets are named by the first drawn row's ticked keys other than `timestamp` and `messages`, in that row's key order; when that row lists each key once, no key gets two datasets and there are at most as many datasets as ticked boxes |
| `Chart.HueInjective` | src/App.tsx:147-155 | evenly spaced hues are all different |
| `Chart.HueBelowFullTurn` | src/App.tsx:155 | hue `index * 360 / count` is in `[0, 360)` while `index < count` |
| `Chart.DatasetHues` | src/App.tsx:146-158 | every background hue, and the border hue when the row lists each key once, lies in `[0, 360)`; no two datasets share a hue |
| `Selection.Toggle` | src/App.tsx:93-103 | toggling flips the membership of exactly the clicked variable |
| `Selection.ToggleTwice` | src/App.tsx:93-103 | clicking a checkbox twice restores the selection |
| `Selection.ToggleCommutes` | src/App.tsx:93-103 | the order of two clicks does not matter |
| `Selection.AvailableMembers` | src/App.tsx:237-239 | the checkboxes exist exactly when there is a first row, and are its keys other than `timestamp` and `messages`, none twice |
| `Selection.ChartFollowsCheckboxes` | src/App.tsx:144-145 | when all rows share their keys, the datasets are exactly the ticked checkboxes in checkbox order |
| `Selection.AllTickedPlotsAll` | src/App.tsx:144-145 | ticking every offered box plots every variable |
| `App.IngestedSameKeys` | src/App.tsx:63-71 | for any header, all published rows share one key list |
| `App.HeaderOnlyFileFaults` | src/App.tsx:77-108 | a file holding only its header publishes `[]`, and the chart then faults on the first row |
| `App.ShadowingHeaderFaults` | src/App.tsx:108 | a header with a `hasOwnProperty` column makes the chart fault whenever it is drawn |
| `App.OfferedColumns` | src/App.tsx:237 | once a row is published, the checkboxes are exactly the header's names other than `__proto__`, `timestamp` and `messages` |
| `App.DrawnRowWellFormed` | src/App.tsx:125-144 | the first drawn row of an upload lists each key once |
| `App.UploadedChartFollowsCheckboxes` | src/App.tsx:144-155 | after any upload that draws a chart, including one with no dataset, the datasets are the ticked checkboxes in checkbox order and every dataset's border hue is below 360; with distinct header names the checkboxes are the header's variables other than `__proto__`, in header order |

## Left out

- The React and chart.js user interface is not modelled: state hooks, JSX, the
  progress bar, chart options, zoom and pan, and the tooltip and tick callbacks.
- `FileReader` is not modelled: the model starts from the text it delivers.
- `setTimeout` scheduling is not modelled: `OnLoad` calls `Step` in a loop, so no
  interleaving with other events is modelled.
- React state carried over between uploads is left out: each upload starts from
  fresh state. So are repeated uploads while one is still loading.
- `parseFloat` and `parseInt` are parameters, so their exact syntax is not modelled:
  prefix parsing, exponents, hexadecimal and `Infinity`.
- `Values.ToNumber` turns a string the parse rejected into 0 when it is blank and NaN
  otherwise. That matches JavaScript only when the `parse` parameter rejects exactly
  the strings `parseFloat` rejects; the model does not constrain `parse` to do so.
- Floating point is not modelled: numbers are exact reals, so rounding in the
  timestamp and hue arithmetic, and `-0`, are out of scope. `parseFloat` returning
  `Infinity` is out of scope too.
- A first-row timestamp that is a string (not a number) is treated as NaN. In
  JavaScript `minimum + "text"` concatenates strings, and that comparison is not modelled.
- `Object.keys` lists integer-like keys (such as `"1"`) before other keys. The model
  keeps pure insertion order.
- `Values.Get` reads a key the row does not own as `undefined`. In JavaScript an
  inherited member (`"__proto__"`, `"constructor"`, ...) would be read instead. The
  source reads only own keys of the rows and `"messages"`, which no object inherits.
- The Submit button's DOM queries and the `parseInt` of the window boxes are not
  modelled. The window bounds are parameters of `Chart.Render` (`Chart.Bound`, with
  NaN for a box `parseInt` cannot read).
- The cosmetic dataset constants are not modelled: `borderWidth`, `pointHoverRadius`,
  and the `"80"` alpha suffix of the background colour. Colours are modelled by their
  hues alone.
- `src/components/Navbar.tsx`, `tailwind.config.js` and `vite.config.ts` are not part
  of this model: they are markup and build configuration.
- An on-screen point budget, adaptive resolution and cancellation of an
  in-flight upload are not modelled: they do not appear in `src/App.tsx`.
