/** The chunked ingestion of the data lines (processChunk in src/App.tsx). Each call takes
    the next ChunkSize lines, parses them into rows, appends the rows that pass the sampling
    test, reports progress and either schedules itself again or publishes the rows. The
    host's setTimeout is replaced by a loop that calls Step until loading ends. */
module Ingestion {
  import opened Values
  import opened Strings
  import opened Sequences
  import opened Parsing

  /** Lines handled by one call of processChunk. */
  const ChunkSize: nat := 5000

  function Min(a: int, b: int): int {
    if a <= b then a else b
  }

  function Abs(d: int): nat {
    if d < 0 then -d else d
  }

  /** The sampling stride `size ? parseInt(size) : 1`: an empty size box means 1, and
      None stands for the NaN that parseInt gives on text it cannot read. */
  function StrideOf(size: string, parseInt: string -> Option<int>): Option<int> {
    if size == "" then Some(1) else parseInt(size)
  }

  /** `index % stride === 0`. A zero or NaN stride makes the remainder NaN, so the test
      fails; a negative stride gives the remainder the sign of the (non-negative) index,
      so only its magnitude matters. */
  predicate OnStride(index: nat, stride: Option<int>) {
    stride.Some? && stride.value != 0 && index % Abs(stride.value) == 0
  }

  /** `rowData["messages"] != null`: the row has a messages field that is not undefined.
      An empty messages field is the string "", which passes. */
  predicate HasMessage(row: Row) {
    !IsNullish(Get(row, "messages"))
  }

  /** Whether the row at `index` within its chunk is appended to allData. */
  predicate Kept(index: nat, row: Row, stride: Option<int>) {
    OnStride(index, stride) || HasMessage(row)
  }

  /** A sampling test: whether the row at a position within its chunk is kept. */
  type Keep = (nat, Row) -> bool

  /** The test processChunk applies for a given stride. */
  function Sampling(stride: Option<int>): Keep {
    (index: nat, row: Row) => Kept(index, row, stride)
  }

  /** The test in the chunk loop, `index % stride === 0 || rowData["messages"] != null`, as
      a statement of its own: the loop's proof then sees only its outcome and never the `%`. */
  method KeepsRow(index: nat, rowData: Row, stride: Option<int>) returns (keep: bool)
    ensures keep == Sampling(stride)(index, rowData)
  {
    keep := OnStride(index, stride) || HasMessage(rowData);
  }

  /** The rows of one chunk that pass `keep`, in order. */
  function Thin(rows: seq<Row>, keep: Keep): seq<Row> {
    if |rows| == 0 then []
    else
      var last := |rows| - 1;
      Thin(rows[..last], keep) + (if keep(last, rows[last]) then [rows[last]] else [])
  }

  /** The positions within a chunk whose rows pass the sampling test, ascending. */
  function KeptIndices(rows: seq<Row>, keep: Keep): seq<nat> {
    if |rows| == 0 then []
    else
      var last := |rows| - 1;
      KeptIndices(rows[..last], keep) + (if keep(last, rows[last]) then [last] else [])
  }

  /** The kept positions are ascending positions of `rows`, and exactly those whose row
      passes `keep`. */
  lemma {:induction false} KeptIndicesExact(rows: seq<Row>, keep: Keep)
    ensures var ks := KeptIndices(rows, keep);
            && (forall j :: 0 <= j < |ks| ==> ks[j] < |rows|)
            && (forall j, k :: 0 <= j < k < |ks| ==> ks[j] < ks[k])
            && (forall i :: 0 <= i < |rows| ==> (i in ks <==> keep(i, rows[i])))
  {
    if |rows| > 0 {
      var last := |rows| - 1;
      var init := rows[..last];
      KeptIndicesExact(init, keep);
      var ks0 := KeptIndices(init, keep);
      forall i | 0 <= i < last ensures init[i] == rows[i] { }
      assert last !in ks0;
    }
  }

  /** Thinning selects exactly the rows that pass the sampling test, in their original
      order: the `j`-th row appended is row `ks[j]`, where `ks` lists, ascending, the
      positions `i` with `keep(i, rows[i])`. */
  lemma {:induction false} ThinSelects(rows: seq<Row>, keep: Keep)
    ensures var ks := KeptIndices(rows, keep);
            && |Thin(rows, keep)| == |ks|
            && (forall j :: 0 <= j < |ks| ==> ks[j] < |rows| && Thin(rows, keep)[j] == rows[ks[j]])
            && (forall j, k :: 0 <= j < k < |ks| ==> ks[j] < ks[k])
            && (forall i :: 0 <= i < |rows| ==> (i in ks <==> keep(i, rows[i])))
  {
    KeptIndicesExact(rows, keep);
    if |rows| > 0 {
      var last := |rows| - 1;
      var init := rows[..last];
      ThinSelects(init, keep);
      var ks0, t0 := KeptIndices(init, keep), Thin(init, keep);
      forall j | 0 <= j < |ks0| ensures ks0[j] < last && t0[j] == rows[ks0[j]] {
        assert init[ks0[j]] == rows[ks0[j]];
      }
      var ks, t := KeptIndices(rows, keep), Thin(rows, keep);
      if keep(last, rows[last]) {
        assert ks == ks0 + [last] && t == t0 + [rows[last]];
      } else {
        assert ks == ks0 && t == t0;
      }
    }
  }

  /** Thinning one more row appends it exactly when it passes the sampling test. */
  lemma ThinSnoc(rows: seq<Row>, keep: Keep, i: nat)
    requires i < |rows|
    ensures Thin(rows[..i + 1], keep) == Thin(rows[..i], keep) + (if keep(i, rows[i]) then [rows[i]] else [])
  {
    assert rows[..i + 1][..i] == rows[..i];
  }

  /** A row that carries a message is never sampled away. */
  lemma MessageRowKept(rows: seq<Row>, stride: Option<int>, i: nat)
    requires i < |rows| && HasMessage(rows[i])
    ensures rows[i] in Thin(rows, Sampling(stride))
  {
    ThinSelects(rows, Sampling(stride));
    var ks := KeptIndices(rows, Sampling(stride));
    var j :| 0 <= j < |ks| && ks[j] == i;
    assert Thin(rows, Sampling(stride))[j] == rows[i];
  }

  /** Thinning only drops rows: it never invents one. */
  lemma {:induction false} ThinSubset(rows: seq<Row>, keep: Keep, x: Row)
    requires x in Thin(rows, keep)
    ensures x in rows
  {
    var last := |rows| - 1;
    if x in Thin(rows[..last], keep) {
      ThinSubset(rows[..last], keep, x);
    }
    assert rows == rows[..last] + [rows[last]];
  }

  /** With the size box empty (stride 1) no row is dropped. */
  lemma {:induction false} ThinStrideOne(rows: seq<Row>)
    ensures Thin(rows, Sampling(Some(1))) == rows
  {
    if |rows| > 0 {
      ThinStrideOne(rows[..|rows| - 1]);
      assert OnStride(|rows| - 1, Some(1));
      assert rows[..|rows| - 1] + [rows[|rows| - 1]] == rows;
    }
  }

  /** With a stride of 0 or NaN only the rows that carry a message survive. */
  lemma {:induction false} ThinWithoutStride(rows: seq<Row>, stride: Option<int>)
    requires stride.None? || stride.value == 0
    ensures Thin(rows, Sampling(stride)) == Filter(rows, HasMessage)
  {
    if |rows| > 0 {
      var last := |rows| - 1;
      ThinWithoutStride(rows[..last], stride);
      assert rows == rows[..last] + [rows[last]];
      FilterAppend(rows[..last], [rows[last]], HasMessage);
    }
  }

  /** `lines.slice(from, from + ChunkSize)`: a slice that starts past the end is empty. */
  function Chunk(lines: seq<string>, from: nat): (c: seq<string>)
    ensures |c| <= ChunkSize
  {
    lines[Min(from, |lines|)..Min(from + ChunkSize, |lines|)]
  }

  /** Position `j` of a chunk that starts inside the file is line `from + j`. */
  lemma ChunkAt(lines: seq<string>, from: nat, j: nat)
    requires from < |lines| && j < |Chunk(lines, from)|
    ensures from + j < |lines| && Chunk(lines, from)[j] == lines[from + j]
  {
  }

  /** ParseLine with the header and the numeric parse fixed: the row each data line becomes. */
  function LineParser(header: seq<string>, parse: string -> Option<real>): string -> Row {
    (line: string) => ParseLine(header, line, parse)
  }

  /** The value of currentLine before call `k` (0-based) of processChunk. */
  function ChunkStart(k: nat): nat {
    1 + ChunkSize * k
  }

  /** The lines handed to call `k` (0-based), as a function of `k`. */
  function LinesOfCall(lines: seq<string>): nat -> seq<string> {
    (k: nat) => Chunk(lines, ChunkStart(k))
  }

  /** The lines handed to the first `k` calls, in call order. */
  function Covered(lines: seq<string>, k: nat): seq<string> {
    Accumulate(LinesOfCall(lines), k)
  }

  /** One more call covers that call's lines after everything before. */
  lemma CoveredNext(lines: seq<string>, k: nat)
    ensures Covered(lines, k + 1) == Covered(lines, k) + Chunk(lines, ChunkStart(k))
  {
    assert LinesOfCall(lines)(k) == Chunk(lines, ChunkStart(k));
  }

  /** The rows that call `k` (0-based) appends, each line made a row by `toRow`. */
  function ChunkRows(lines: seq<string>, toRow: string -> Row, keep: Keep, k: nat): seq<Row> {
    Thin(Map(Chunk(lines, ChunkStart(k)), toRow), keep)
  }

  /** The rows appended by call `k`, as a function of `k`. */
  function RowsOfCall(lines: seq<string>, toRow: string -> Row, keep: Keep): nat -> seq<Row> {
    (k: nat) => ChunkRows(lines, toRow, keep, k)
  }

  /** allData after `k` calls of processChunk. */
  function Processed(lines: seq<string>, toRow: string -> Row, keep: Keep, k: nat): seq<Row> {
    Accumulate(RowsOfCall(lines, toRow, keep), k)
  }

  /** One more call appends that call's kept rows after everything before. */
  lemma ProcessedNext(lines: seq<string>, toRow: string -> Row, keep: Keep, k: nat)
    ensures Processed(lines, toRow, keep, k + 1)
         == Processed(lines, toRow, keep, k) + Thin(Map(Chunk(lines, ChunkStart(k)), toRow), keep)
  {
    assert RowsOfCall(lines, toRow, keep)(k) == ChunkRows(lines, toRow, keep, k);
  }

  /** Appending call `k`'s kept rows to allData after `k` calls gives allData after `k + 1`. */
  lemma ProcessedAppend(lines: seq<string>, toRow: string -> Row, keep: Keep, k: nat, before: seq<Row>, after: seq<Row>)
    requires before == Processed(lines, toRow, keep, k)
    requires after == before + Thin(Map(Chunk(lines, ChunkStart(k)), toRow), keep)
    ensures after == Processed(lines, toRow, keep, k + 1)
  {
    ProcessedNext(lines, toRow, keep, k);
  }

  /** How many times processChunk runs on a file of `totalLines` lines (header included):
      the first call always happens, and another follows while currentLine < totalLines. */
  function Calls(totalLines: nat): (k: nat)
    requires totalLines > 0
    ensures k >= 1 && ChunkStart(k) >= totalLines
    ensures k == 1 || ChunkStart(k - 1) < totalLines
  {
    if totalLines <= ChunkStart(1) then 1 else (totalLines - 2) / ChunkSize + 1
  }

  /** The call count is determined: it is the first `k >= 1` whose cursor reaches the end. */
  lemma CallsUnique(totalLines: nat, k: nat)
    requires totalLines > 0 && k >= 1 && ChunkStart(k) >= totalLines
    requires k == 1 || ChunkStart(k - 1) < totalLines
    ensures k == Calls(totalLines)
  {
  }

  /** The rows published once the last call is done, for any way of making rows of lines. */
  function Published(lines: seq<string>, toRow: string -> Row, keep: Keep): seq<Row>
    requires |lines| > 0
  {
    Processed(lines, toRow, keep, Calls(|lines|))
  }

  /** What processChunk publishes for the lines of a file. */
  function Ingested(lines: seq<string>, stride: Option<int>, parse: string -> Option<real>): seq<Row>
    requires |lines| > 0
  {
    Published(lines, LineParser(Header(lines), parse), Sampling(stride))
  }

  /** The first `k` chunks are the data lines from 1 up to the cursor, each once, in order. */
  lemma {:induction false} CoveredPrefix(lines: seq<string>, k: nat)
    requires |lines| > 0
    ensures Covered(lines, k) == lines[1..Min(ChunkStart(k), |lines|)]
  {
    if k > 0 {
      CoveredPrefix(lines, k - 1);
      CoveredNext(lines, k - 1);
      var a, b := Min(ChunkStart(k - 1), |lines|), Min(ChunkStart(k), |lines|);
      assert lines[1..b] == lines[1..a] + lines[a..b];
    }
  }

  /** Stepping visits every data line exactly once, in file order. */
  lemma AllLinesCovered(lines: seq<string>)
    requires |lines| > 0
    ensures Covered(lines, Calls(|lines|)) == lines[1..]
  {
    CoveredPrefix(lines, Calls(|lines|));
  }

  /** Without thinning, the first `k` calls append every covered line's row, in order. */
  lemma {:induction false} ProcessedStrideOne(lines: seq<string>, toRow: string -> Row, k: nat)
    ensures Processed(lines, toRow, Sampling(Some(1)), k) == Map(Covered(lines, k), toRow)
  {
    if k > 0 {
      ProcessedStrideOne(lines, toRow, k - 1);
      var chunk := Chunk(lines, ChunkStart(k - 1));
      ThinStrideOne(Map(chunk, toRow));
      ProcessedNext(lines, toRow, Sampling(Some(1)), k - 1);
      CoveredNext(lines, k - 1);
      MapAppend(Covered(lines, k - 1), chunk, toRow);
    }
  }

  /** With the size box empty, every data line is published as a row, in file order. */
  lemma PublishedStrideOne(lines: seq<string>, toRow: string -> Row)
    requires |lines| > 0
    ensures Published(lines, toRow, Sampling(Some(1))) == Map(lines[1..], toRow)
  {
    ProcessedStrideOne(lines, toRow, Calls(|lines|));
    AllLinesCovered(lines);
  }

  /** Data line `i` is row `pos` of chunk `c`, and chunk `c` is one that runs. */
  lemma LineInChunk(lines: seq<string>, i: nat) returns (c: nat, pos: nat)
    requires 1 <= i < |lines|
    ensures c < Calls(|lines|)
    ensures pos < |Chunk(lines, ChunkStart(c))| && Chunk(lines, ChunkStart(c))[pos] == lines[i]
  {
    c := (i - 1) / ChunkSize;
    pos := (i - 1) % ChunkSize;
    assert ChunkStart(c) + pos == i;
  }

  /** Every data line whose row carries a message is published, whatever the stride. */
  lemma MessageRowsPublished(lines: seq<string>, toRow: string -> Row, stride: Option<int>, i: nat)
    requires 1 <= i < |lines| && HasMessage(toRow(lines[i]))
    ensures toRow(lines[i]) in Published(lines, toRow, Sampling(stride))
  {
    var c, pos := LineInChunk(lines, i);
    var rows := Map(Chunk(lines, ChunkStart(c)), toRow);
    MessageRowKept(rows, stride, pos);
    AccumulateHas(RowsOfCall(lines, toRow, Sampling(stride)), c, Calls(|lines|), rows[pos]);
  }

  /** Every published row is the row of one data line of the file: the header line is
      never published, and nothing else is. */
  lemma PublishedFromLines(lines: seq<string>, toRow: string -> Row, keep: Keep, r: Row) returns (i: nat)
    requires |lines| > 0 && r in Published(lines, toRow, keep)
    ensures 1 <= i < |lines| && r == toRow(lines[i])
  {
    var c := AccumulateSource(RowsOfCall(lines, toRow, keep), Calls(|lines|), r);
    var chunk := Chunk(lines, ChunkStart(c));
    ThinSubset(Map(chunk, toRow), keep, r);
    var p :| 0 <= p < |chunk| && Map(chunk, toRow)[p] == r;
    i := Min(ChunkStart(c), |lines|) + p;
  }

  /** The position of data line `i` within the chunk that processes it: the sampling index
      starts again from 0 at every chunk boundary. */
  function IndexInChunk(i: nat): nat
    requires i >= 1
  {
    if i <= ChunkSize then i - 1 else IndexInChunk(i - ChunkSize)
  }

  /** The position within the chunk is the remainder `(i - 1) % ChunkSize`. */
  lemma {:induction false} IndexInChunkIsRemainder(i: nat)
    requires i >= 1
    ensures IndexInChunk(i) == (i - 1) % ChunkSize
  {
    if i > ChunkSize {
      IndexInChunkIsRemainder(i - ChunkSize);
    }
  }

  /** The sampling decided line by line over the whole file, without chunks: the rows of
      data lines 1 to `n - 1` that pass the sampling test at their position in their chunk. */
  function SampledUpTo(lines: seq<string>, toRow: string -> Row, keep: Keep, n: nat): seq<Row>
    requires 1 <= n <= |lines|
  {
    if n == 1 then [] else SampledUpTo(lines, toRow, keep, n - 1) + LineSample(lines, toRow, keep, n - 1)
  }

  /** Data line `i`'s row when it passes the sampling test at its position in its chunk,
      nothing otherwise. */
  function LineSample(lines: seq<string>, toRow: string -> Row, keep: Keep, i: nat): seq<Row>
    requires 1 <= i < |lines|
  {
    var row := toRow(lines[i]);
    if keep(IndexInChunk(i), row) then [row] else []
  }

  /** Line `m` of chunk `c` sits at position `m`. */
  lemma {:induction false} ChunkOffset(c: nat, m: nat)
    requires m < ChunkSize
    ensures IndexInChunk(ChunkStart(c) + m) == m
  {
    if c > 0 {
      ChunkOffset(c - 1, m);
      assert ChunkStart(c) + m - ChunkSize == ChunkStart(c - 1) + m;
    }
  }

  /** Line `ChunkStart(c) + j` is sampled as row `j` of chunk `c`: at position `j`. */
  lemma ChunkLineSample(lines: seq<string>, toRow: string -> Row, keep: Keep, c: nat, j: nat)
    requires ChunkStart(c) < |lines| && j < |Chunk(lines, ChunkStart(c))|
    ensures ChunkStart(c) + j < |lines|
    ensures var row := Map(Chunk(lines, ChunkStart(c)), toRow)[j];
            LineSample(lines, toRow, keep, ChunkStart(c) + j) == if keep(j, row) then [row] else []
  {
    ChunkOffset(c, j);
    ChunkAt(lines, ChunkStart(c), j);
  }

  /** The rows among the first `m` of a chunk that pass `keep`, in order: what the chunk
      loop has appended after `m` iterations. */
  function ThinUpTo(rows: seq<Row>, keep: Keep, m: nat): seq<Row>
    requires m <= |rows|
  {
    if m == 0 then [] else ThinUpTo(rows, keep, m - 1) + (if keep(m - 1, rows[m - 1]) then [rows[m - 1]] else [])
  }

  /** Counting iterations and thinning a prefix agree. */
  lemma {:induction false} ThinUpToIsThin(rows: seq<Row>, keep: Keep, m: nat)
    requires m <= |rows|
    ensures ThinUpTo(rows, keep, m) == Thin(rows[..m], keep)
  {
    if m == 0 {
      assert rows[..0] == [];
    } else {
      ThinUpToIsThin(rows, keep, m - 1);
      ThinSnoc(rows, keep, m - 1);
    }
  }

  /** The first `m` iterations over chunk `c` extend the line-by-line sampling up to the
      chunk's first line by exactly the chunk's first `m` lines. */
  lemma {:induction false} ChunkSampling(lines: seq<string>, toRow: string -> Row, keep: Keep, c: nat, m: nat)
    requires ChunkStart(c) < |lines| && m <= |Chunk(lines, ChunkStart(c))|
    ensures ChunkStart(c) + m <= |lines|
    ensures SampledUpTo(lines, toRow, keep, ChunkStart(c)) + ThinUpTo(Map(Chunk(lines, ChunkStart(c)), toRow), keep, m)
         == SampledUpTo(lines, toRow, keep, ChunkStart(c) + m)
  {
    if m > 0 {
      var k := m - 1;
      var start, rows := ChunkStart(c), Map(Chunk(lines, ChunkStart(c)), toRow);
      ChunkSampling(lines, toRow, keep, c, k);
      ChunkLineSample(lines, toRow, keep, c, k);
      ConcatAssociative(SampledUpTo(lines, toRow, keep, start), ThinUpTo(rows, keep, k), LineSample(lines, toRow, keep, start + k));
    }
  }

  /** Where the cursor stands before and after call `k`, clamped to the end of the file. */
  lemma ChunkBounds(lines: seq<string>, k: nat)
    ensures ChunkStart(k) < |lines| ==>
              && Min(ChunkStart(k), |lines|) == ChunkStart(k)
              && Min(ChunkStart(k + 1), |lines|) == ChunkStart(k) + |Chunk(lines, ChunkStart(k))|
    ensures ChunkStart(k) >= |lines| ==>
              Chunk(lines, ChunkStart(k)) == [] && Min(ChunkStart(k + 1), |lines|) == Min(ChunkStart(k), |lines|)
  {
  }

  /** Thinning the whole of chunk `c` extends the line-by-line sampling by that chunk's lines. */
  lemma WholeChunkSampling(lines: seq<string>, toRow: string -> Row, keep: Keep, c: nat)
    requires ChunkStart(c) < |lines|
    ensures SampledUpTo(lines, toRow, keep, ChunkStart(c)) + ChunkRows(lines, toRow, keep, c)
         == SampledUpTo(lines, toRow, keep, ChunkStart(c) + |Chunk(lines, ChunkStart(c))|)
  {
    var rows := Map(Chunk(lines, ChunkStart(c)), toRow);
    ChunkSampling(lines, toRow, keep, c, |rows|);
    assert ThinUpTo(rows, keep, |rows|) == ChunkRows(lines, toRow, keep, c) by {
      ThinUpToIsThin(rows, keep, |rows|);
      assert rows[..|rows|] == rows;
    }
  }

  /** Call `k` appends what the line-by-line sampling adds over that call's lines. */
  lemma ChunkStep(lines: seq<string>, toRow: string -> Row, keep: Keep, k: nat)
    requires |lines| > 0
    ensures SampledUpTo(lines, toRow, keep, Min(ChunkStart(k), |lines|)) + ChunkRows(lines, toRow, keep, k)
         == SampledUpTo(lines, toRow, keep, Min(ChunkStart(k + 1), |lines|))
  {
    ChunkBounds(lines, k);
    if ChunkStart(k) < |lines| {
      WholeChunkSampling(lines, toRow, keep, k);
    } else {
      assert ChunkRows(lines, toRow, keep, k) == [];
    }
  }

  /** After `k` calls, allData holds exactly the line-by-line sampling of the lines before
      the cursor. */
  lemma {:induction false} ProcessedSampled(lines: seq<string>, toRow: string -> Row, keep: Keep, k: nat)
    requires |lines| > 0
    ensures Processed(lines, toRow, keep, k) == SampledUpTo(lines, toRow, keep, Min(ChunkStart(k), |lines|))
  {
    if k > 0 {
      ProcessedSampled(lines, toRow, keep, k - 1);
      ProcessedNext(lines, toRow, keep, k - 1);
      ChunkStep(lines, toRow, keep, k - 1);
    }
  }

  /** Chunking does not change what is kept: the chunked run publishes the line-by-line
      sampling of the whole file, where data line `i` is tested at position
      `(i - 1) % ChunkSize`. */
  lemma PublishedIsSampled(lines: seq<string>, toRow: string -> Row, keep: Keep)
    requires |lines| > 0
    ensures Published(lines, toRow, keep) == SampledUpTo(lines, toRow, keep, |lines|)
  {
    ProcessedSampled(lines, toRow, keep, Calls(|lines|));
  }

  /** What processChunk publishes, line by line: data line `i` is published, in file
      order, exactly when its row carries a message or `(i - 1) % ChunkSize` is a multiple
      of the stride, so the sampling phase restarts at every chunk boundary. */
  lemma IngestedIsSampled(lines: seq<string>, stride: Option<int>, parse: string -> Option<real>)
    requires |lines| > 0
    ensures Ingested(lines, stride, parse) == SampledUpTo(lines, LineParser(Header(lines), parse), Sampling(stride), |lines|)
  {
    PublishedIsSampled(lines, LineParser(Header(lines), parse), Sampling(stride));
  }

  /** Every row processChunk publishes is well formed and has exactly the header's names
      other than `__proto__` as its own keys, in header order when the header repeats no
      name. */
  lemma IngestedKeys(lines: seq<string>, stride: Option<int>, parse: string -> Option<real>, r: Row)
    requires |lines| > 0 && r in Ingested(lines, stride, parse)
    ensures WellFormed(r) && (Distinct(Header(lines)) ==> r.keys == OwnKeys(Header(lines)))
    ensures forall k :: HasOwn(r, k) <==> k in Header(lines) && Storable(k)
  {
    var i := PublishedFromLines(lines, LineParser(Header(lines), parse), Sampling(stride), r);
    ParseLineKeys(Header(lines), lines[i], parse);
  }

  /** `Math.min((currentLine / totalLines) * 100, 100)`. */
  function Progress(currentLine: nat, totalLines: nat): (p: real)
    requires totalLines > 0
    ensures 0.0 <= p <= 100.0
    ensures p == 100.0 <==> currentLine >= totalLines
  {
    var ratio := (currentLine as real) / (totalLines as real) * 100.0;
    if ratio < 100.0 then ratio else 100.0
  }

  /** Progress never goes backwards as the cursor advances. */
  lemma ProgressMonotone(c1: nat, c2: nat, totalLines: nat)
    requires totalLines > 0 && c1 <= c2
    ensures Progress(c1, totalLines) <= Progress(c2, totalLines)
  {
    var t := totalLines as real;
    assert (c1 as real) / t <= (c2 as real) / t;
  }

  /** One ingestion run: the state processChunk closes over. */
  class Ingestor {
    const lines: seq<string>
    const header: seq<string>
    const stride: Option<int>
    const parse: string -> Option<real>
    var currentLine: nat
    var allData: seq<Row>
    var progress: real
    var loading: bool
    /** What this run has handed to setData, if anything yet. */
    var data: Option<seq<Row>>
    /** How many times processChunk has run. */
    ghost var calls: nat

    ghost predicate Valid()
      reads this
    {
      && |lines| > 0
      && header == Header(lines)
      && currentLine == ChunkStart(calls)
      && allData == Processed(lines, LineParser(header, parse), Sampling(stride), calls)
      && (calls > 0 ==> progress == Progress(currentLine, |lines|))
      && (calls > 1 ==> ChunkStart(calls - 1) < |lines|)
      && (loading <==> calls == 0 || currentLine < |lines|)
      && data == (if loading then None else Some(allData))
    }

    /** The set-up in reader.onload: the header is the first line, the cursor starts at 1. */
    constructor (lines: seq<string>, stride: Option<int>, parse: string -> Option<real>)
      requires |lines| > 0
      ensures Valid() && loading && calls == 0
      ensures this.lines == lines && this.stride == stride && this.parse == parse
      ensures header == Split(lines[0], ',') && currentLine == 1 && allData == []
    {
      this.lines := lines;
      this.header := Header(lines);
      this.stride := stride;
      this.parse := parse;
      currentLine := 1;
      allData := [];
      loading := true;
      data := None;
      calls := 0;
    }

    /** The chunk.forEach loop: parse each line and append the rows that pass the sampling test. */
    method AppendChunk(chunk: seq<string>)
      modifies this`allData
      ensures allData == old(allData) + Thin(Map(chunk, LineParser(header, parse)), Sampling(stride))
    {
      var header, parse, stride, kept := header, parse, stride, allData;
      ghost var rows := Map(chunk, LineParser(header, parse));
      var index := 0;
      while index < |chunk|
        invariant index <= |chunk|
        invariant kept == old(allData) + Thin(rows[..index], Sampling(stride))
      {
        var rowData := BuildRow(header, chunk[index], parse);
        assert rowData == rows[index];
        var keep := KeepsRow(index, rowData, stride);
        ThinSnoc(rows, Sampling(stride), index);
        if keep {
          kept := kept + [rowData];
        }
        index := index + 1;
      }
      assert rows[..|chunk|] == rows;
      allData := kept;
    }

    /** One call of processChunk. */
    method Step()
      requires Valid() && loading
      modifies this
      ensures Valid() && calls == old(calls) + 1
      ensures currentLine == old(currentLine) + ChunkSize
      ensures allData == old(allData) + Thin(Map(Chunk(lines, old(currentLine)), LineParser(header, parse)), Sampling(stride))
      ensures progress == Progress(currentLine, |lines|)
      ensures old(calls) > 0 ==> old(progress) <= progress
      ensures loading ==> progress < 100.0
      ensures !loading ==> progress == 100.0 && data == Some(allData)
    {
      var chunk := Chunk(lines, currentLine);
      AppendChunk(chunk);
      ProcessedAppend(lines, LineParser(header, parse), Sampling(stride), calls, old(allData), allData);
      currentLine := currentLine + ChunkSize;
      calls := calls + 1;
      if old(calls) > 0 {
        ProgressMonotone(old(currentLine), currentLine, |lines|);
      }
      progress := Progress(currentLine, |lines|);
      if currentLine >= |lines| {
        data := Some(allData);
        loading := false;
      }
    }
  }

  /** The end of reader.onload: an empty file faults on `lines[0]`, otherwise the rows are
      published once the last chunk is done. */
  datatype LoadOutcome = EmptyFileFault | Loaded(rows: seq<Row>)

  /** reader.onload followed by processChunk until it publishes. */
  method OnLoad(text: string, size: string, parseInt: string -> Option<int>, parse: string -> Option<real>)
    returns (outcome: LoadOutcome)
    ensures SplitLines(text) == [] ==> outcome == EmptyFileFault
    ensures SplitLines(text) != [] ==> outcome == Loaded(Ingested(SplitLines(text), StrideOf(size, parseInt), parse))
  {
    var lines := SplitLines(text);
    if |lines| == 0 {
      return EmptyFileFault;
    }
    var ingestor := new Ingestor(lines, StrideOf(size, parseInt), parse);
    while ingestor.loading
      invariant ingestor.Valid() && ingestor.lines == lines
      invariant ingestor.stride == StrideOf(size, parseInt) && ingestor.parse == parse
      invariant ingestor.loading ==> ingestor.currentLine <= |lines|
      decreases |lines| + 1 - ingestor.currentLine
    {
      ingestor.Step();
    }
    CallsUnique(|lines|, ingestor.calls);
    outcome := Loaded(ingestor.data.value);
  }
}
