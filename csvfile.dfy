/**
 * The CSV backup file as a sequence of lines, each a sequence of cells, and the
 * records Python's `csv.DictReader` yields from it.
 */
module CsvFiles {
  import opened Base
  import opened Measurements

  type Line = seq<string>

  /**
   * One `DictReader` record: column name to cell. A name whose column is missing
   * from a short line maps to `None` (the reader's `restval`).
   */
  type Record = map<string, Option<string>>

  predicate Distinct(names: Line)
  {
    forall i, j :: 0 <= i < j < |names| ==> names[i] != names[j]
  }

  function FieldAt(line: Line, i: nat): Option<string>
  {
    if i < |line| then Some(line[i]) else None
  }

  /**
   * `DictReader`'s record for one line: each header name in turn is bound to the
   * cell in its position, so a repeated name keeps its last column.
   */
  function DictRow(header: Line, line: Line): Record
  {
    if header == [] then map[]
    else DictRow(header[..|header| - 1], line)[header[|header| - 1] := FieldAt(line, |header| - 1)]
  }

  /** The record's keys are exactly the header's names. */
  lemma {:induction false} DictRowKeys(header: Line, line: Line, k: string)
    ensures k in DictRow(header, line) <==> k in header
  {
    if header != [] {
      var init := header[..|header| - 1];
      DictRowKeys(init, line, k);
      assert header == init + [header[|header| - 1]];
    }
  }

  /** With distinct names, each name is bound to the cell under it. */
  lemma {:induction false} DictRowAt(header: Line, line: Line, i: nat)
    requires Distinct(header) && i < |header|
    ensures header[i] in DictRow(header, line)
    ensures DictRow(header, line)[header[i]] == FieldAt(line, i)
  {
    var last := |header| - 1;
    if i < last {
      var init := header[..last];
      assert Distinct(init);
      DictRowAt(init, line, i);
      assert header[last] != header[i];
    }
  }

  lemma HeadersDistinct()
    ensures Distinct(CsvHeaders)
  {
  }

  /** The records of the data lines under a header; blank lines yield no record. */
  function RecordsUnder(header: Line, lines: seq<Line>): (rs: seq<Record>)
    ensures |rs| <= |lines|
    ensures (forall i :: 0 <= i < |lines| ==> lines[i] != []) ==>
              |rs| == |lines| && forall i :: 0 <= i < |lines| ==> rs[i] == DictRow(header, lines[i])
  {
    if lines == [] then []
    else
      var last := lines[|lines| - 1];
      RecordsUnder(header, lines[..|lines| - 1]) + (if last == [] then [] else [DictRow(header, last)])
  }

  /** Reading two runs of lines one after the other yields the records of each in turn. */
  lemma {:induction false} RecordsUnderConcat(header: Line, a: seq<Line>, b: seq<Line>)
    ensures RecordsUnder(header, a + b) == RecordsUnder(header, a) + RecordsUnder(header, b)
  {
    if b == [] {
      assert a + b == a;
    } else {
      var init := b[..|b| - 1];
      RecordsUnderConcat(header, a, init);
      assert (a + b)[..|a + b| - 1] == a + init;
    }
  }

  /** A blank line anywhere among the data lines yields no record and hides none. */
  lemma BlankLineYieldsNothing(header: Line, a: seq<Line>, b: seq<Line>)
    ensures RecordsUnder(header, a + [[]] + b) == RecordsUnder(header, a + b)
  {
    RecordsUnderConcat(header, a + [[]], b);
    RecordsUnderConcat(header, a, [[]]);
    RecordsUnderConcat(header, a, b);
    var blank: seq<Line> := [[]];
    assert blank[..0] == [];
  }

  /** Everything `DictReader` yields: the first line is the header, an empty file yields nothing. */
  function Records(file: seq<Line>): seq<Record>
  {
    if file == [] then [] else RecordsUnder(file[0], file[1..])
  }

  /**
   * The file after `save_to_csv` appends one row: the header goes first only when
   * the path did not exist (`None`); an existing file, even an empty one, only
   * gets the row.
   */
  function AppendRow(file: Option<seq<Line>>, row: Line): (r: seq<Line>)
    ensures file.Some? ==> |r| == |file.value| + 1 && r[..|file.value|] == file.value
    ensures file.None? ==> |r| == 2 && r[0] == CsvHeaders
    ensures |r| > 0 && r[|r| - 1] == row
  {
    if file.None? then [CsvHeaders, row] else file.value + [row]
  }

  /** A file whose first line is the sink's own header, as every file it creates is. */
  predicate HasHeader(file: seq<Line>)
  {
    file != [] && file[0] == CsvHeaders
  }

  /**
   * Appending to a missing file or to one that starts with the header adds exactly
   * one record, the new row under the header's names, after the records already there.
   */
  lemma AppendAddsOneRecord(file: Option<seq<Line>>, row: Line)
    requires file.None? || HasHeader(file.value)
    requires row != []
    ensures HasHeader(AppendRow(file, row))
    ensures Records(AppendRow(file, row))
         == (if file.None? then [] else Records(file.value)) + [DictRow(CsvHeaders, row)]
  {
    var r := AppendRow(file, row);
    if file.None? {
      assert r[1..] == [row];
      assert r[1..][..0] == [];
    } else {
      var f := file.value;
      assert r[1..] == f[1..] + [row];
      assert r[1..][..|r[1..]| - 1] == f[1..];
    }
  }

  /**
   * An existing but empty file gets no header, so the row it receives is read back
   * as the header and yields no record.
   */
  lemma EmptyExistingFileLosesRow(row: Line)
    ensures AppendRow(Some([]), row) == [row]
    ensures Records(AppendRow(Some([]), row)) == []
  {
    assert AppendRow(Some([]), row) == [row];
    assert [row][1..] == [];
  }
}
