/**
 The printer and the parser undo each other: whatever quotes, delimiters and
 newlines the cells hold, parsing the printed table gives back the sanitised and
 trimmed cells (quoting of section 2 of RFC 4180).
 */
module CsvRoundTrip {
  import opened Wrappers
  import opened JsText
  import opened CsvText

  /** What a cell comes back as. */
  function Stored(cell: string): string {
    Trim(Sanitize(cell))
  }

  function StoredRow(cells: Row): (r: Row)
    ensures |r| == |cells|
    ensures forall i | 0 <= i < |cells| :: r[i] == Stored(cells[i])
  {
    if cells == [] then [] else [Stored(cells[0])] + StoredRow(cells[1..])
  }

  /** The rows that are not all blank, as they come back. */
  function StoredRows(rows: seq<Row>): seq<Row> {
    if rows == [] then []
    else (if HasValue(StoredRow(rows[0])) then [StoredRow(rows[0])] else []) + StoredRows(rows[1..])
  }

  function CellTotal(rows: seq<Row>): nat {
    if rows == [] then 0 else |rows[0]| + CellTotal(rows[1..])
  }

  predicate CellsFit(cells: Row, limits: Limits) {
    |cells| <= limits.maxColumns && forall i | 0 <= i < |cells| :: Units(Sanitize(cells[i])) <= limits.maxCellCharacters
  }

  /** The configured limits, counted the way the parser counts: blank rows are free, the header is a row of cells. */
  ghost predicate WithinLimits(table: seq<Row>, limits: Limits) {
    && ByteLength(PrintRows(table)) <= limits.maxBytes
    && 1 <= limits.maxColumns
    && (forall i | 0 <= i < |table| :: CellsFit(table[i], limits))
    && CellTotal(StoredRows(table)) <= limits.maxCells
    && |StoredRows(table)| <= limits.maxRows + 1
  }

  // ---------------------------------------------------------------- the delimiter

  /** From here on the detection answers a comma, whatever was counted before. */
  ghost predicate AlwaysComma(text: string, inQuotes: bool) {
    forall commas, rowHasValue :: DetectFrom(text, commas, 0, inQuotes, rowHasValue) == ','
  }

  /** What one character inside quotes, a doubled quote, and a quote do to the detection. */
  lemma QuotedTextKeepsComma(c: char, tail: string)
    requires AlwaysComma(tail, true)
    ensures c != '"' ==> AlwaysComma([c] + tail, true)
    ensures AlwaysComma("\"\"" + tail, true)
  {
    assert ([c] + tail)[1..] == tail && ("\"\"" + tail)[2..] == tail;
  }

  lemma QuoteTogglesComma(tail: string)
    ensures AlwaysComma(tail, true) ==> AlwaysComma("\"" + tail, false)
    ensures AlwaysComma(tail, false) && tail != "" && tail[0] != '"' ==> AlwaysComma("\"" + tail, true)
  {
    assert ("\"" + tail)[1..] == tail;
  }

  lemma {:induction false} EscapedHidesDelimiters(value: string, tail: string)
    requires AlwaysComma(tail, true)
    ensures AlwaysComma(Escape(value) + tail, true)
  {
    hide AlwaysComma;
    if value == "" {
      assert Escape(value) + tail == tail;
    } else {
      EscapedHidesDelimiters(value[1..], tail);
      var after := Escape(value[1..]) + tail;
      QuotedTextKeepsComma(value[0], after);
      assert Escape(value) + tail == (if value[0] == '"' then "\"\"" else [value[0]]) + after;
    }
  }

  lemma QuotedHidesDelimiters(value: string, tail: string)
    requires AlwaysComma(tail, false) && tail != "" && tail[0] != '"'
    ensures AlwaysComma("\"" + Escape(value) + "\"" + tail, false)
  {
    hide AlwaysComma, Escape;
    QuoteTogglesComma(tail);
    EscapedHidesDelimiters(value, "\"" + tail);
    QuoteTogglesComma(Escape(value) + ("\"" + tail));
    assert "\"" + Escape(value) + "\"" + tail == "\"" + (Escape(value) + ("\"" + tail));
  }

  lemma SeparatorKeepsComma(tail: string)
    requires AlwaysComma(tail, false)
    ensures AlwaysComma("," + tail, false) && AlwaysComma("\n" + tail, false)
  {
    assert ("," + tail)[1..] == tail && ("\n" + tail)[1..] == tail;
  }

  /** How a row's text begins, whatever follows it. */
  lemma PrintedCellsSplit(cells: Row, tail: string)
    requires cells != []
    ensures PrintCells(cells) + "\n" + tail
         == "\"" + Escape(Sanitize(cells[0])) + "\"" + ((if |cells| == 1 then "\n" else "," + PrintCells(cells[1..]) + "\n") + tail)
  {
    hide Escape, Sanitize;
    var first := PrintCell(cells[0]);
    var rest := if |cells| == 1 then "" else "," + PrintCells(cells[1..]);
    assert first + "" == first;
    assert PrintCells(cells) == first + rest by {
      if |cells| > 1 { Regroup(first, ",", PrintCells(cells[1..])); }
    }
    hide PrintCells, PrintCell;
    Regroup(first, rest, "\n");
    Regroup(first, rest + "\n", tail);
    assert "" + "\n" == "\n";
  }

  lemma Regroup(a: string, b: string, c: string)
    ensures (a + b) + c == a + (b + c)
  {
  }

  lemma {:induction false} CellsKeepComma(cells: Row, tail: string)
    requires AlwaysComma("\n" + tail, false)
    ensures AlwaysComma(PrintCells(cells) + "\n" + tail, false)
  {
    hide AlwaysComma, Escape, Sanitize, PrintCell;
    if cells == [] {
      assert PrintCells(cells) + "\n" + tail == "\n" + tail;
    } else {
      PrintedCellsSplit(cells, tail);
      if |cells| == 1 {
        QuotedHidesDelimiters(Sanitize(cells[0]), "\n" + tail);
      } else {
        var rest := PrintCells(cells[1..]) + "\n" + tail;
        CellsKeepComma(cells[1..], tail);
        SeparatorKeepsComma(rest);
        QuotedHidesDelimiters(Sanitize(cells[0]), "," + rest);
        assert "," + PrintCells(cells[1..]) + "\n" + tail == "," + rest;
      }
    }
  }

  /** Semicolons only occur inside quotes, so the detected delimiter is the comma. */
  lemma {:induction false} PrintedIsCommaSeparated(rows: seq<Row>)
    ensures AlwaysComma(PrintRows(rows), false)
  {
    if rows != [] {
      PrintedIsCommaSeparated(rows[1..]);
      SeparatorKeepsComma(PrintRows(rows[1..]));
      CellsKeepComma(rows[0], PrintRows(rows[1..]));
      assert PrintRows(rows) == PrintCells(rows[0]) + "\n" + PrintRows(rows[1..]);
    }
  }

  // ---------------------------------------------------------------- scanning one cell

  /** What one character inside quotes, or a doubled quote, does to the scan. */
  lemma ScanQuotedText(c: char, tail: string, s: Scan, limits: Limits)
    requires s.inQuotes && Units(s.field + [c]) <= limits.maxCellCharacters
    ensures c != '"' ==> ScanAll([c] + tail, s, ',', limits) == ScanAll(tail, s.(field := s.field + [c]), ',', limits)
    ensures c == '"' ==> ScanAll("\"\"" + tail, s, ',', limits) == ScanAll(tail, s.(field := s.field + [c]), ',', limits)
  {
    hide Units, Trim, EndField, EndRow;
    assert ([c] + tail)[1..] == tail && ("\"\"" + tail)[2..] == tail;
  }

  lemma ScanQuote(tail: string, s: Scan, limits: Limits)
    requires s.inQuotes ==> tail != "" && tail[0] != '"'
    ensures ScanAll("\"" + tail, s, ',', limits) == ScanAll(tail, s.(inQuotes := !s.inQuotes), ',', limits)
  {
    hide Append, EndField, EndRow;
    assert ("\"" + tail)[1..] == tail;
  }

  lemma {:induction false} ScanEscaped(value: string, tail: string, s: Scan, limits: Limits)
    requires s.inQuotes && Units(s.field + value) <= limits.maxCellCharacters
    ensures ScanAll(Escape(value) + tail, s, ',', limits) == ScanAll(tail, s.(field := s.field + value), ',', limits)
    decreases |value|
  {
    hide Units, ScanAll;
    if value == "" {
      assert Escape(value) + tail == tail;
      assert s.field + value == s.field;
    } else {
      var longer := s.field + [value[0]];
      var after := Escape(value[1..]) + tail;
      assert longer + value[1..] == s.field + value;
      assert (s.field + value)[..|longer|] == longer;
      UnitsOfPrefix(s.field + value, |longer|);
      ScanQuotedText(value[0], after, s, limits);
      assert Escape(value) + tail == (if value[0] == '"' then "\"\"" else [value[0]]) + after;
      ScanEscaped(value[1..], tail, s.(field := longer), limits);
    }
  }

  /** A quoted cell is read back whole, whatever it holds. */
  lemma ScanQuoted(value: string, tail: string, s: Scan, limits: Limits)
    requires !s.inQuotes && s.field == "" && tail != "" && tail[0] != '"'
    requires Units(value) <= limits.maxCellCharacters
    ensures ScanAll("\"" + Escape(value) + "\"" + tail, s, ',', limits) == ScanAll(tail, s.(field := value), ',', limits)
  {
    hide Units, ScanAll, Escape;
    var quoted := s.(inQuotes := true);
    assert s.field + value == value;
    ScanQuote(Escape(value) + ("\"" + tail), s, limits);
    ScanEscaped(value, "\"" + tail, quoted, limits);
    ScanQuote(tail, quoted.(field := value), limits);
    assert "\"" + Escape(value) + "\"" + tail == "\"" + (Escape(value) + ("\"" + tail));
    assert quoted.(field := value, inQuotes := false) == s.(field := value);
  }

  /** The scan goes on with the rest, or stops at the error. */
  function ScanAfter(step: Result<Scan, CsvError>, tail: string, limits: Limits): Result<Scan, CsvError> {
    if step.Err? then step else ScanAll(tail, step.value, ',', limits)
  }

  lemma ScanComma(tail: string, s: Scan, limits: Limits)
    requires !s.inQuotes
    ensures ScanAll("," + tail, s, ',', limits)
         == ScanAfter(EndField(s, limits), tail, limits)
  {
    hide EndField, EndRow, Append;
    assert ("," + tail)[1..] == tail;
  }

  lemma ScanNewline(tail: string, s: Scan, limits: Limits)
    requires !s.inQuotes
    ensures ScanAll("\n" + tail, s, ',', limits)
         == ScanAfter(EndRow(s, limits), tail, limits)
  {
    hide EndField, EndRow, Append;
    assert ("\n" + tail)[1..] == tail;
  }

  // ---------------------------------------------------------------- scanning rows

  lemma ScanFirstCell(cells: Row, tail: string, s: Scan, limits: Limits)
    requires |cells| > 1 && !s.inQuotes && s.field == ""
    requires CellsFit(cells, limits) && |s.row| + 1 <= limits.maxColumns
    ensures ScanAll(PrintCells(cells) + "\n" + tail, s, ',', limits)
         == ScanAll(PrintCells(cells[1..]) + "\n" + tail, s.(row := s.row + [Stored(cells[0])]), ',', limits)
  {
    hide ScanAll, EndRow, Trim, Units, Sanitize, Escape, PrintCells, PrintCell;
    var first := Sanitize(cells[0]);
    var rest := PrintCells(cells[1..]) + "\n" + tail;
    PrintedCellsSplit(cells, tail);
    assert "," + PrintCells(cells[1..]) + "\n" + tail == "," + rest;
    ScanQuoted(first, "," + rest, s, limits);
    ScanComma(rest, s.(field := first), limits);
  }

  lemma ScanOnlyCell(cells: Row, tail: string, s: Scan, limits: Limits)
    requires |cells| == 1 && !s.inQuotes && s.field == "" && CellsFit(cells, limits)
    ensures ScanAll(PrintCells(cells) + "\n" + tail, s, ',', limits)
         == ScanAfter(EndRow(s.(field := Sanitize(cells[0])), limits), tail, limits)
  {
    hide ScanAll, EndRow, Trim, Units, Sanitize, Escape, PrintCells, PrintCell;
    var first := Sanitize(cells[0]);
    PrintedCellsSplit(cells, tail);
    ScanQuoted(first, "\n" + tail, s, limits);
    ScanNewline(tail, s.(field := first), limits);
  }

  /** The rest of a row's cells, after some were scanned already. */
  lemma {:induction false} ScanCells(cells: Row, tail: string, s: Scan, limits: Limits)
    requires cells != [] && !s.inQuotes && s.field == ""
    requires CellsFit(cells, limits) && |s.row| + |cells| <= limits.maxColumns
    ensures ScanAll(PrintCells(cells) + "\n" + tail, s, ',', limits)
         == ScanAfter(EndRow(s.(row := s.row + StoredRow(cells[..|cells| - 1]), field := Sanitize(cells[|cells| - 1])), limits), tail, limits)
    decreases |cells|
  {
    hide ScanAll, EndRow, Units, Sanitize, Stored, PrintCells, ScanAfter;
    if |cells| == 1 {
      ScanOnlyCell(cells, tail, s, limits);
      assert s.row + StoredRow(cells[..0]) == s.row;
    } else {
      var next := s.(row := s.row + [Stored(cells[0])]);
      ScanFirstCell(cells, tail, s, limits);
      ScanCells(cells[1..], tail, next, limits);
      StoredInit(cells);
      assert next.row + StoredRow(cells[1..][..|cells| - 2]) == s.row + StoredRow(cells[..|cells| - 1]);
    }
  }

  lemma StoredInit(cells: Row)
    requires |cells| > 1
    ensures StoredRow(cells[..|cells| - 1]) == [Stored(cells[0])] + StoredRow(cells[1..][..|cells| - 2])
  {
    hide Stored;
    assert cells[..|cells| - 1][1..] == cells[1..][..|cells| - 2];
  }

  lemma {:induction false} StoredSplitsLast(cells: Row)
    requires cells != []
    ensures StoredRow(cells) == StoredRow(cells[..|cells| - 1]) + [Stored(cells[|cells| - 1])]
  {
    hide Stored;
    if |cells| > 1 {
      StoredSplitsLast(cells[1..]);
      StoredInit(cells);
      assert cells[1..][..|cells[1..]| - 1] == cells[1..][..|cells| - 2];
    }
  }

  /** What the scan holds between two rows. */
  function Between(rows: seq<Row>, cellCount: nat): Scan {
    Scan("", [], false, cellCount, rows)
  }

  lemma ScanRow(cells: Row, tail: string, rows: seq<Row>, cellCount: nat, limits: Limits)
    requires CellsFit(cells, limits) && 1 <= limits.maxColumns
    requires HasValue(StoredRow(cells)) ==> cellCount + |cells| <= limits.maxCells && |rows| <= limits.maxRows
    ensures ScanAll(PrintCells(cells) + "\n" + tail, Between(rows, cellCount), ',', limits)
         == ScanAll(tail, if HasValue(StoredRow(cells)) then Between(rows + [StoredRow(cells)], cellCount + |cells|)
                          else Between(rows, cellCount), ',', limits)
  {
    hide ScanAll, Trim, Units, Sanitize, HasValue, StoredRow;
    var s := Between(rows, cellCount);
    if cells == [] {
      assert PrintCells(cells) + "\n" + tail == "\n" + tail;
      ScanNewline(tail, s, limits);
      TrimOfNothing();
      assert [] + [Trim("")] == [""];
      assert StoredRow(cells) == [];
      NothingHasNoValue();
    } else {
      ScanCells(cells, tail, s, limits);
      StoredSplitsLast(cells);
      assert [] + StoredRow(cells[..|cells| - 1]) == StoredRow(cells[..|cells| - 1]);
    }
  }

  lemma TrimOfNothing()
    ensures Trim("") == ""
  {
  }

  lemma NothingHasNoValue()
    ensures !HasValue([]) && !HasValue([""])
  {
  }

  lemma {:induction false} ScanRows(table: seq<Row>, rows: seq<Row>, cellCount: nat, limits: Limits)
    requires 1 <= limits.maxColumns && forall i | 0 <= i < |table| :: CellsFit(table[i], limits)
    requires cellCount + CellTotal(StoredRows(table)) <= limits.maxCells
    requires |rows| + |StoredRows(table)| <= limits.maxRows + 1
    ensures ScanAll(PrintRows(table), Between(rows, cellCount), ',', limits)
         == Ok(Between(rows + StoredRows(table), cellCount + CellTotal(StoredRows(table))))
    decreases |table|
  {
    hide ScanAll, StoredRow, HasValue, PrintCells, CellsFit;
    if table == [] {
      NothingToScan(Between(rows, cellCount), limits);
      assert rows + [] == rows;
    } else {
      var stored := StoredRow(table[0]);
      var valued := HasValue(stored);
      StoredRowsOfRest(table);
      ScanRow(table[0], PrintRows(table[1..]), rows, cellCount, limits);
      assert PrintRows(table) == PrintCells(table[0]) + "\n" + PrintRows(table[1..]);
      var nextRows := if valued then rows + [stored] else rows;
      var nextCount := if valued then cellCount + |stored| else cellCount;
      ScanRows(table[1..], nextRows, nextCount, limits);
      assert nextRows + StoredRows(table[1..]) == rows + StoredRows(table);
    }
  }

  lemma StoredRowsOfRest(table: seq<Row>)
    requires table != []
    ensures var stored := StoredRow(table[0]); var rest := StoredRows(table[1..]);
            if HasValue(stored)
            then StoredRows(table) == [stored] + rest && CellTotal(StoredRows(table)) == |stored| + CellTotal(rest)
            else StoredRows(table) == rest
  {
    hide HasValue, StoredRow;
    var rest := StoredRows(table[1..]);
    if HasValue(StoredRow(table[0])) {
      assert ([StoredRow(table[0])] + rest)[1..] == rest;
    } else {
      assert [] + rest == rest;
    }
  }

  lemma NothingToScan(s: Scan, limits: Limits)
    ensures ScanAll("", s, ',', limits) == Ok(s)
  {
  }

  // ---------------------------------------------------------------- the assembled table

  lemma {:induction false} NoneWider(rows: seq<Row>, width: nat, from: nat)
    requires from <= |rows| && forall i | from <= i < |rows| :: |rows[i]| <= width
    ensures FirstWider(rows, width, from).None?
    decreases |rows| - from
  {
    if from < |rows| {
      NoneWider(rows, width, from + 1);
    }
  }

  lemma {:induction false} StoredRowsAreKept(rows: seq<Row>, width: nat)
    requires forall i | 0 <= i < |rows| :: |rows[i]| <= width
    ensures KeepValued(StoredRows(rows)) == StoredRows(rows)
    ensures forall i | 0 <= i < |StoredRows(rows)| :: |StoredRows(rows)[i]| <= width
  {
    hide Sanitize, Trim;
    if rows != [] {
      StoredRowsAreKept(rows[1..], width);
      var stored := StoredRow(rows[0]);
      if HasValue(stored) {
        var i :| 0 <= i < |stored| && stored[i] != "";
        TrimTwice(Sanitize(rows[0][i]));
        assert Trim(stored[i]) != "";
        assert StoredRows(rows)[0] == stored && StoredRows(rows)[1..] == StoredRows(rows[1..]);
      } else {
        assert [] + StoredRows(rows[1..]) == StoredRows(rows[1..]);
      }
    }
  }

  lemma CleanStored(cells: Row)
    ensures CleanHeaders(StoredRow(cells)) == StoredRow(cells)
  {
    forall i | 0 <= i < |cells|
      ensures CleanHeaders(StoredRow(cells))[i] == StoredRow(cells)[i]
    {
      TrimTwice(Sanitize(cells[i]));
      BomIsTrimmed(Stored(cells[i]));
    }
  }

  /** The parser's checks of the header and the row widths, on the rows the scan returned. */
  lemma AssembleStored(header: Row, rows: seq<Row>, lower: string -> string)
    requires header != [] && forall i | 0 <= i < |header| :: Stored(header[i]) != ""
    requires forall i | 0 <= i < |rows| :: |rows[i]| <= |header|
    ensures Assemble([StoredRow(header)] + StoredRows(rows), lower)
         == if HasDuplicate(StoredRow(header), lower) then Err(DuplicateHeader)
            else Ok(ParsedCsv(StoredRow(header), StoredRows(rows)))
  {
    hide Stored, KeepValued, CleanHeaders, HasDuplicate;
    CleanStored(header);
    StoredRowsAreKept(rows, |header|);
    NoneWider(StoredRows(rows), |header|, 0);
    assert ([StoredRow(header)] + StoredRows(rows))[1..] == StoredRows(rows);
  }

  /** The scan of a printed table returns its rows that are not blank. */
  lemma ScanTable(table: seq<Row>, limits: Limits, lower: string -> string)
    requires WithinLimits(table, limits)
    ensures ParseCsv(PrintRows(table), limits, lower) == Assemble(StoredRows(table), lower)
  {
    PrintedIsCommaSeparated(table);
    hide ScanAll, PrintRows, DetectFrom, FinishScan, CellsFit, CellTotal, ByteLength, Assemble, StoredRows;
    ScanRows(table, [], 0, limits);
    assert START == Between([], 0);
    var all := StoredRows(table);
    assert [] + all == all;
    FinishBetween(all, CellTotal(all), limits);
  }

  /**
   Round trip. Printing a header without blank names and rows no wider than it, then
   parsing, gives back every non-blank row in order with its cells sanitised and
   trimmed. The one way it can fail within the limits is two header names that agree
   case-insensitively once they are sanitised and trimmed.
   */
  lemma PrintThenParse(header: Row, rows: seq<Row>, limits: Limits, lower: string -> string)
    requires header != [] && forall i | 0 <= i < |header| :: Trim(header[i]) != ""
    requires forall i | 0 <= i < |rows| :: |rows[i]| <= |header|
    requires WithinLimits([header] + rows, limits)
    ensures DetectDelimiter(PrintRows([header] + rows)) == ','
    ensures ParseCsv(PrintRows([header] + rows), limits, lower)
         == if HasDuplicate(StoredRow(header), lower) then Err(DuplicateHeader)
            else Ok(ParsedCsv(StoredRow(header), StoredRows(rows)))
  {
    hide Assemble, ParseCsv, PrintRows, StoredRow, StoredRows, WithinLimits, Trim, Stored, DetectFrom;
    var table := [header] + rows;
    PrintedIsCommaSeparated(table);
    ScanTable(table, limits, lower);
    StoredRowsOfRest(table);
    assert table[1..] == rows;
    forall i | 0 <= i < |header|
      ensures Stored(header[i]) != ""
    {
      BlankStaysBlank(header[i]);
    }
    ValuedHeader(header);
    AssembleStored(header, rows, lower);
  }

  lemma ValuedHeader(header: Row)
    requires header != [] && Stored(header[0]) != ""
    ensures HasValue(StoredRow(header))
  {
    hide Stored;
    assert StoredRow(header)[0] != "";
  }

  lemma FinishBetween(rows: seq<Row>, cellCount: nat, limits: Limits)
    requires 1 <= limits.maxColumns
    ensures FinishScan(Between(rows, cellCount), limits) == Ok(rows)
  {
    assert [] + [Trim("")] == [""];
  }

  /** Two distinct names may be stored as one: sanitising adds the quote that the other already has. */
  lemma SanitisingMergesNames(name: string)
    requires StartsFormula(name)
    ensures Stored(name) == Stored("'" + name)
  {
    assert !IsSpace(name[0]) && !IsSpace('\'');
    assert TrimStart(name) == name && TrimStart("'" + name) == "'" + name;
    hide Trim, TrimStart;
  }

  /** So a table whose header holds a formula and the same with a quote before it is not read back. */
  lemma MergedNamesAreRefused(name: string, rows: seq<Row>, limits: Limits, lower: string -> string)
    requires StartsFormula(name) && forall i | 0 <= i < |rows| :: |rows[i]| <= 2
    requires WithinLimits([[name, "'" + name]] + rows, limits)
    ensures ParseCsv(PrintRows([[name, "'" + name]] + rows), limits, lower) == Err(DuplicateHeader)
  {
    var header := [name, "'" + name];
    SanitisingMergesNames(name);
    NamesAreValued(name);
    hide ParseCsv, PrintRows, WithinLimits, Trim, Stored, StoredRows, StartsFormula;
    PrintThenParse(header, rows, limits, lower);
    assert StoredRow(header)[0] == StoredRow(header)[1];
    assert HasDuplicate(StoredRow(header), lower);
  }

  lemma NamesAreValued(name: string)
    requires StartsFormula(name)
    ensures Trim(name) != "" && Trim("'" + name) != ""
  {
    BlankStaysBlank(name);
    BlankStaysBlank("'" + name);
    assert TrimStart(name) == name;
    NoLeadingSpaceStays(name);
    NoLeadingSpaceStays("'" + name);
  }

  lemma {:induction false} AsciiLength(s: string)
    requires forall i | 0 <= i < |s| :: s[i] as int < 0x80
    ensures ByteLength(s) == Units(s) == |s|
  {
    if s != "" {
      AsciiLength(s[..|s| - 1]);
    }
  }

  const MERGED: Row := ["=a", "'=a"]
  const MERGED_TEXT := "\"'=a\",\"'=a\"\n"

  lemma MergedPrints()
    ensures PrintRows([MERGED]) == MERGED_TEXT
    ensures Sanitize(MERGED[0]) == "'=a" && Sanitize(MERGED[1]) == "'=a"
  {
    assert TrimStart("=a") == "=a" && TrimStart("'=a") == "'=a";
    hide TrimStart;
    assert Sanitize("=a") == "'=a" == Sanitize("'=a");
    EscapedName();
    assert PrintCell("=a") == "\"'=a\"" == PrintCell("'=a");
    hide PrintCell, Sanitize;
    assert MERGED[1..] == ["'=a"];
    assert PrintCells(MERGED) == "\"'=a\",\"'=a\"";
    assert [MERGED][1..] == [];
  }

  lemma EscapedName()
    ensures Escape("'=a") == "'=a"
  {
    assert "'=a"[1..] == "=a" && "=a"[1..] == "a" && "a"[1..] == "";
    assert Escape("a") == "a";
    assert Escape("=a") == "=a";
  }

  lemma OneRowTotals(row: Row)
    ensures |StoredRows([row])| <= 1 && CellTotal(StoredRows([row])) <= |row|
  {
    assert [row][1..] == [];
    assert StoredRows([]) == [];
    if HasValue(StoredRow(row)) {
      assert StoredRows([row]) == [StoredRow(row)] + [];
      assert CellTotal([StoredRow(row)]) == |row| + CellTotal([StoredRow(row)][1..]);
    }
  }

  /** The header =a,'=a printed, and what becomes of it under any limits that admit it. */
  lemma MergedHeaderExample(limits: Limits, lower: string -> string)
    requires limits.maxBytes >= 12 && limits.maxCellCharacters >= 3 && limits.maxCells >= 2 && limits.maxColumns >= 2
    ensures MERGED[0] != MERGED[1] && PrintRows([MERGED]) == MERGED_TEXT
    ensures ParseCsv(MERGED_TEXT, limits, lower) == Err(DuplicateHeader)
  {
    MergedPrints();
    AsciiLength(MERGED_TEXT);
    AsciiLength("'=a");
    OneRowTotals(MERGED);
    assert [["=a", "'" + "=a"]] + [] == [MERGED];
    assert WithinLimits([MERGED], limits) by { hide PrintRows, ByteLength, Units, Sanitize, StoredRows, CellTotal; }
    hide WithinLimits, ParseCsv, PrintRows, ByteLength, Units;
    MergedNamesAreRefused("=a", [], limits, lower);
  }

  /** A name is stored blank only if it was blank. */
  lemma BlankStaysBlank(name: string)
    ensures Stored(name) == "" <==> Trim(name) == ""
  {
    if StartsFormula(TrimStart(name)) {
      NoLeadingSpaceStays("'" + name);
      NoLeadingSpaceStays(TrimStart(name));
    }
  }

  lemma {:induction false} NoLeadingSpaceStays(s: string)
    requires s != "" && !IsSpace(s[0])
    ensures Trim(s) != ""
    decreases |s|
  {
    assert TrimStart(s) == s;
    if IsSpace(s[|s| - 1]) {
      NoLeadingSpaceStays(s[..|s| - 1]);
    }
  }
}
