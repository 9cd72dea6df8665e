/** Turning the uploaded text into lines, a header and row objects (src/App.tsx, reader.onload
    and the inner loop of processChunk). The numeric parse, JavaScript's parseFloat, is passed
    in as `parse`: it yields None where parseFloat yields NaN. */
module Parsing {
  import opened Values
  import opened Strings
  import opened Sequences

  predicate NonEmpty(s: string) {
    s != ""
  }

  /** `text.split("\n").map(line => line.trim()).filter(line => line !== "")`. */
  function SplitLines(text: string): (lines: seq<string>)
    ensures forall i :: 0 <= i < |lines| ==> lines[i] != ""
  {
    Filter(Map(Split(text, '\n'), Trim), NonEmpty)
  }

  /** Every kept line is non-empty, trimmed, and lies within one line of the text. */
  lemma SplitLinesShape(text: string, i: nat)
    requires i < |SplitLines(text)|
    ensures var line := SplitLines(text)[i];
            line != "" && IsTrimmed(line) && '\n' !in line
  {
    var pieces := Split(text, '\n');
    var line := SplitLines(text)[i];
    FilterMembers(Map(pieces, Trim), NonEmpty, line);
    var j :| 0 <= j < |pieces| && Map(pieces, Trim)[j] == line;
    assert line == Trim(pieces[j]);
    assert '\n' !in pieces[j];
    TrimKeepsAbsent(pieces[j], '\n');
  }

  /** A line break splits the text into two halves whose lines follow one another. */
  lemma SplitLinesAppend(a: string, b: string)
    ensures SplitLines(a + "\n" + b) == SplitLines(a) + SplitLines(b)
  {
    assert a + "\n" + b == a + ['\n'] + b;
    SplitAppend(a, b, '\n');
    var pa, pb := Split(a, '\n'), Split(b, '\n');
    MapAppend(pa, pb, Trim);
    FilterAppend(Map(pa, Trim), Map(pb, Trim), NonEmpty);
  }

  /** `lines[0].split(",")`. */
  function Header(lines: seq<string>): seq<string>
    requires |lines| > 0
  {
    Split(lines[0], ',')
  }

  /** The own keys of a row built from a header that names each column once: the header's
      names in order, without `__proto__`. */
  function OwnKeys(header: seq<string>): seq<string> {
    Filter(header, Storable)
  }

  /** What `rowData[header[i]]` receives: the parsed number, else the raw field, else
      `undefined` when the line has no `i`-th field. */
  function FieldValue(values: seq<string>, i: nat, parse: string -> Option<real>): Value {
    if i < |values| then
      match parse(values[i])
      case Some(x) => Num(x)
      case None => Text(values[i])
    else Undefined
  }

  /** The row object after assigning the first `n` header keys in order. */
  function RowOf(header: seq<string>, values: seq<string>, parse: string -> Option<real>, n: nat): (r: Row)
    requires n <= |header|
  {
    if n == 0 then EmptyRow
    else Put(RowOf(header, values, parse, n - 1), header[n - 1], FieldValue(values, n - 1, parse))
  }

  /** Each key of the row is listed once, and the key list and the fields agree. */
  lemma {:induction false} RowOfWellFormed(header: seq<string>, values: seq<string>, parse: string -> Option<real>, n: nat)
    requires n <= |header|
    ensures WellFormed(RowOf(header, values, parse, n))
  {
    if n > 0 {
      RowOfWellFormed(header, values, parse, n - 1);
    }
  }

  /** The row has a key exactly when one of the first `n` header names is that key and the
      key is not `__proto__`. */
  lemma {:induction false} RowOfHasOwn(header: seq<string>, values: seq<string>, parse: string -> Option<real>, n: nat, k: string)
    requires n <= |header|
    ensures HasOwn(RowOf(header, values, parse, n), k) <==> k in header[..n] && Storable(k)
  {
    if n > 0 {
      var prev := RowOf(header, values, parse, n - 1);
      RowOfHasOwn(header, values, parse, n - 1, k);
      assert HasOwn(RowOf(header, values, parse, n), k) <==> HasOwn(prev, k) || (k == header[n - 1] && Storable(k));
      assert header[..n] == header[..n - 1] + [header[n - 1]];
      assert k in header[..n] <==> k in header[..n - 1] || k == header[n - 1];
    }
  }

  /** With distinct header names the keys come out in header order. */
  lemma {:induction false} RowOfKeyOrder(header: seq<string>, values: seq<string>, parse: string -> Option<real>, n: nat)
    requires n <= |header| && Distinct(header)
    ensures RowOf(header, values, parse, n).keys == OwnKeys(header[..n])
  {
    if n > 0 {
      var last := header[n - 1];
      RowOfKeyOrder(header, values, parse, n - 1);
      assert last !in header[..n - 1] by {
        assert forall j :: 0 <= j < n - 1 ==> header[j] != last;
      }
      FilterMembers(header[..n - 1], Storable, last);
      assert header[..n] == header[..n - 1] + [last];
      OwnKeysSnoc(header[..n - 1], last);
    }
  }

  /** One more header name adds itself to the own keys unless it is `__proto__`. */
  lemma OwnKeysSnoc(names: seq<string>, last: string)
    ensures OwnKeys(names + [last]) == OwnKeys(names) + (if Storable(last) then [last] else [])
  {
    FilterAppend(names, [last], Storable);
    assert Filter([last], Storable) == if Storable(last) then [last] else [];
  }

  /** The key list does not depend on the line: it is fixed by the header alone. */
  lemma {:induction false} RowOfKeysIndependent(header: seq<string>, v1: seq<string>, v2: seq<string>, parse: string -> Option<real>, n: nat)
    requires n <= |header|
    ensures RowOf(header, v1, parse, n).keys == RowOf(header, v2, parse, n).keys
  {
    if n > 0 {
      RowOfKeysIndependent(header, v1, v2, parse, n - 1);
    }
  }

  /** One data line as a row object keyed by the header. */
  function ParseLine(header: seq<string>, line: string, parse: string -> Option<real>): Row {
    RowOf(header, Split(line, ','), parse, |header|)
  }

  /** The parsed row has exactly the header's names other than `__proto__` as keys, once
      each, and in header order when the header has no repeated name. */
  lemma ParseLineKeys(header: seq<string>, line: string, parse: string -> Option<real>)
    ensures WellFormed(ParseLine(header, line, parse))
    ensures forall k :: HasOwn(ParseLine(header, line, parse), k) <==> k in header && Storable(k)
    ensures Distinct(header) ==> ParseLine(header, line, parse).keys == OwnKeys(header)
  {
    assert header[..|header|] == header;
    RowOfWellFormed(header, Split(line, ','), parse, |header|);
    forall k ensures HasOwn(ParseLine(header, line, parse), k) <==> k in header && Storable(k) {
      RowOfHasOwn(header, Split(line, ','), parse, |header|, k);
    }
    if Distinct(header) {
      RowOfKeyOrder(header, Split(line, ','), parse, |header|);
    }
  }

  /** Any two lines parsed against the same header give rows with the same key list. */
  lemma ParseLineSameKeys(header: seq<string>, a: string, b: string, parse: string -> Option<real>)
    ensures ParseLine(header, a, parse).keys == ParseLine(header, b, parse).keys
  {
    RowOfKeysIndependent(header, Split(a, ','), Split(b, ','), parse, |header|);
  }

  /** Fields are read positionally: the key at position `i` (its last occurrence, when the
      header repeats a name) holds the value of the `i`-th field. */
  lemma {:induction false} RowOfField(header: seq<string>, values: seq<string>, parse: string -> Option<real>, n: nat, i: nat)
    requires i < n <= |header|
    requires Storable(header[i]) && header[i] !in header[i + 1..n]
    ensures Get(RowOf(header, values, parse, n), header[i]) == FieldValue(values, i, parse)
  {
    var prev := RowOf(header, values, parse, n - 1);
    if i < n - 1 {
      assert header[i + 1..n] == header[i + 1..n - 1] + [header[n - 1]];
      assert header[n - 1] != header[i];
      RowOfField(header, values, parse, n - 1, i);
      assert Get(prev, header[i]) == FieldValue(values, i, parse);
    }
  }

  /** With distinct header names every key holds its own positional field: a number when
      the parse succeeds, the raw text when it fails, `undefined` past the end of the line.
      A `__proto__` column stores nothing. */
  lemma ParseLineFields(header: seq<string>, line: string, parse: string -> Option<real>, i: nat)
    requires Distinct(header) && i < |header|
    ensures var values := Split(line, ',');
            var row := ParseLine(header, line, parse);
            var v := Get(row, header[i]);
            && (!Storable(header[i]) ==> !HasOwn(row, header[i]))
            && (Storable(header[i]) && i < |values| && parse(values[i]).Some? ==> v == Num(parse(values[i]).value))
            && (Storable(header[i]) && i < |values| && parse(values[i]).None? ==> v == Text(values[i]))
            && (Storable(header[i]) && i >= |values| ==> v == Undefined)
  {
    if Storable(header[i]) {
      assert header[i] !in header[i + 1..|header|];
      RowOfField(header, Split(line, ','), parse, |header|, i);
    } else {
      assert header[..|header|] == header;
      RowOfHasOwn(header, Split(line, ','), parse, |header|, header[i]);
    }
  }

  /** The `header.forEach` loop that fills one `rowData` object. */
  method BuildRow(header: seq<string>, line: string, parse: string -> Option<real>) returns (rowData: Row)
    ensures rowData == ParseLine(header, line, parse)
  {
    var values := Split(line, ',');
    rowData := EmptyRow;
    var index := 0;
    while index < |header|
      invariant index <= |header|
      invariant rowData == RowOf(header, values, parse, index)
    {
      rowData := Put(rowData, header[index], FieldValue(values, index, parse));
      index := index + 1;
    }
  }
}
