/**
 What the parser makes of a table however it is spelled: cells bare or quoted, commas
 or semicolons, any line endings, with or without one at the end; and which limit it
 reports when the table exceeds one.
 */
module CsvSpelling {
  import opened Wrappers
  import opened JsText
  import opened CsvText

  datatype Cell = Bare(text: string) | Quoted(text: string)

  datatype Ending = LineFeed | CarriageReturn | Both

  datatype Line = Line(cells: seq<Cell>, ending: Ending)

  predicate IsDelimiter(d: char) {
    d == ',' || d == ';'
  }

  /** A bare cell holds no character with a meaning. */
  predicate CellOk(cell: Cell, d: char) {
    cell.Bare? ==> '"' !in cell.text && d !in cell.text && '\n' !in cell.text && '\r' !in cell.text
  }

  function SpellCell(cell: Cell): string {
    match cell
    case Bare(text) => text
    case Quoted(text) => "\"" + Escape(text) + "\""
  }

  function SpellCells(cells: seq<Cell>, d: char): string {
    if cells == [] then ""
    else if |cells| == 1 then SpellCell(cells[0])
    else SpellCell(cells[0]) + [d] + SpellCells(cells[1..], d)
  }

  function SpellEnding(ending: Ending): string {
    match ending
    case LineFeed => "\n"
    case CarriageReturn => "\r"
    case Both => "\r\n"
  }

  // ---------------------------------------------------------------- which limit a table exceeds

  /** Cell by cell: its length, then the number of cells. */
  function CellsFault(cells: seq<Cell>, before: nat, limits: Limits): Option<CsvError> {
    if cells == [] then None
    else if Units(cells[0].text) > limits.maxCellCharacters then Some(CellTooLong)
    else if before + 1 > limits.maxColumns then Some(TooManyColumns)
    else CellsFault(cells[1..], before + 1, limits)
  }

  function Texts(cells: seq<Cell>): (r: Row)
    ensures |r| == |cells| && forall i | 0 <= i < |cells| :: r[i] == Trim(cells[i].text)
  {
    if cells == [] then [] else [Trim(cells[0].text)] + Texts(cells[1..])
  }

  predicate IsBlank(cells: seq<Cell>) {
    forall i | 0 <= i < |cells| :: Trim(cells[i].text) == ""
  }

  /** Row by row: blank rows are free, the first other one is the header. */
  function Read(lines: seq<Line>, rows: seq<Row>, cellCount: nat, limits: Limits): Result<(seq<Row>, nat), CsvError>
    decreases |lines|
  {
    if lines == [] then Ok((rows, cellCount))
    else
      var cells := lines[0].cells;
      var fault := CellsFault(cells, 0, limits);
      if fault.Some? then Err(fault.value)
      else if IsBlank(cells) then Read(lines[1..], rows, cellCount, limits)
      else if cellCount + |cells| > limits.maxCells then Err(TooManyCells)
      else if |rows| + 1 > limits.maxRows + 1 then Err(TooManyRows)
      else Read(lines[1..], rows + [Texts(cells)], cellCount + |cells|, limits)
  }

  // ---------------------------------------------------------------- scanning the text of a cell

  predicate Plain(c: char, s: Scan, d: char) {
    c != '"' && (s.inQuotes || (c != d && c != '\n' && c != '\r'))
  }

  lemma ScanPlain(c: char, tail: string, s: Scan, d: char, limits: Limits)
    requires Plain(c, s, d)
    ensures ScanAll([c] + tail, s, d, limits)
         == if Units(s.field + [c]) > limits.maxCellCharacters then Err(CellTooLong)
            else ScanAll(tail, s.(field := s.field + [c]), d, limits)
  {
    hide Units, EndField, EndRow;
    assert ([c] + tail)[1..] == tail;
  }

  lemma ScanDoubled(tail: string, s: Scan, d: char, limits: Limits)
    requires s.inQuotes
    ensures ScanAll("\"\"" + tail, s, d, limits)
         == if Units(s.field + ['"']) > limits.maxCellCharacters then Err(CellTooLong)
            else ScanAll(tail, s.(field := s.field + ['"']), d, limits)
  {
    hide Units, EndField, EndRow;
    assert ("\"\"" + tail)[2..] == tail;
  }

  lemma UnitsGrow(a: string, b: string)
    ensures Units(a) <= Units(a + b)
  {
    UnitsOfPrefix(a + b, |a|);
    assert (a + b)[..|a|] == a;
  }

  /** Text without meaning is appended, unless the cell gets too long. */
  lemma {:induction false} ScanBare(text: string, tail: string, s: Scan, d: char, limits: Limits)
    requires CellOk(Bare(text), d) && !s.inQuotes && Units(s.field) <= limits.maxCellCharacters
    ensures ScanAll(text + tail, s, d, limits)
         == if Units(s.field + text) > limits.maxCellCharacters then Err(CellTooLong)
            else ScanAll(tail, s.(field := s.field + text), d, limits)
    decreases |text|
  {
    hide Units, ScanAll;
    if text == "" {
      assert text + tail == tail && s.field + text == s.field;
    } else {
      var longer := s.field + [text[0]];
      ScanPlain(text[0], text[1..] + tail, s, d, limits);
      assert text + tail == [text[0]] + (text[1..] + tail);
      assert longer + text[1..] == s.field + text;
      UnitsGrow(longer, text[1..]);
      if Units(longer) <= limits.maxCellCharacters {
        ScanBare(text[1..], tail, s.(field := longer), d, limits);
      }
    }
  }

  lemma {:induction false} ScanInQuotes(text: string, tail: string, s: Scan, d: char, limits: Limits)
    requires s.inQuotes && Units(s.field) <= limits.maxCellCharacters
    ensures ScanAll(Escape(text) + tail, s, d, limits)
         == if Units(s.field + text) > limits.maxCellCharacters then Err(CellTooLong)
            else ScanAll(tail, s.(field := s.field + text), d, limits)
    decreases |text|
  {
    hide Units, ScanAll;
    if text == "" {
      assert Escape(text) + tail == tail && s.field + text == s.field;
    } else {
      var longer := s.field + [text[0]];
      var after := Escape(text[1..]) + tail;
      assert Escape(text) + tail == (if text[0] == '"' then "\"\"" else [text[0]]) + after;
      if text[0] == '"' {
        ScanDoubled(after, s, d, limits);
      } else {
        ScanPlain(text[0], after, s, d, limits);
      }
      assert longer + text[1..] == s.field + text;
      UnitsGrow(longer, text[1..]);
      if Units(longer) <= limits.maxCellCharacters {
        ScanInQuotes(text[1..], tail, s.(field := longer), d, limits);
      }
    }
  }

  lemma ScanQuoteMark(tail: string, s: Scan, d: char, limits: Limits)
    requires s.inQuotes ==> tail == "" || tail[0] != '"'
    ensures ScanAll("\"" + tail, s, d, limits) == ScanAll(tail, s.(inQuotes := !s.inQuotes), d, limits)
  {
    hide Append, EndField, EndRow;
    assert ("\"" + tail)[1..] == tail;
  }

  lemma NothingIsShort(limits: Limits)
    ensures Units("") == 0 <= limits.maxCellCharacters
  {
  }

  /** A spelled cell is its text, however it is spelled. */
  lemma ScanCell(cell: Cell, tail: string, s: Scan, d: char, limits: Limits)
    requires CellOk(cell, d) && !s.inQuotes && s.field == "" && (tail == "" || tail[0] != '"')
    ensures ScanAll(SpellCell(cell) + tail, s, d, limits)
         == if Units(cell.text) > limits.maxCellCharacters then Err(CellTooLong)
            else ScanAll(tail, s.(field := cell.text), d, limits)
  {
    hide Units, ScanAll, Escape;
    NothingIsShort(limits);
    assert s.field + cell.text == cell.text;
    match cell
    case Bare(text) => ScanBare(text, tail, s, d, limits);
    case Quoted(text) =>
      var quoted := s.(inQuotes := true);
      ScanQuoteMark(Escape(text) + ("\"" + tail), s, d, limits);
      ScanInQuotes(text, "\"" + tail, quoted, d, limits);
      ScanQuoteMark(tail, quoted.(field := text), d, limits);
      assert SpellCell(cell) + tail == "\"" + (Escape(text) + ("\"" + tail));
      assert quoted.(field := text, inQuotes := false) == s.(field := text);
  }

  // ---------------------------------------------------------------- scanning the cells of a row

  /** The row so far with one more cell, if there is room for it. */
  lemma ScanDelimiter(tail: string, s: Scan, d: char, limits: Limits)
    requires !s.inQuotes && IsDelimiter(d)
    ensures ScanAll([d] + tail, s, d, limits)
         == if |s.row| + 1 > limits.maxColumns then Err(TooManyColumns)
            else ScanAll(tail, s.(row := s.row + [Trim(s.field)], field := ""), d, limits)
  {
    hide Trim, EndRow, Append;
    assert ([d] + tail)[1..] == tail;
  }

  /** The faults that show before the row's last cell is ended. */
  function InnerFault(cells: seq<Cell>, before: nat, limits: Limits): Option<CsvError>
    requires cells != []
  {
    if Units(cells[0].text) > limits.maxCellCharacters then Some(CellTooLong)
    else if |cells| == 1 then None
    else if before + 1 > limits.maxColumns then Some(TooManyColumns)
    else InnerFault(cells[1..], before + 1, limits)
  }

  lemma {:induction false} FaultsShow(cells: seq<Cell>, before: nat, limits: Limits)
    requires cells != []
    ensures CellsFault(cells, before, limits)
         == if InnerFault(cells, before, limits).Some? then InnerFault(cells, before, limits)
            else if before + |cells| > limits.maxColumns then Some(TooManyColumns) else None
    decreases |cells|
  {
    hide Units;
    if |cells| > 1 {
      FaultsShow(cells[1..], before + 1, limits);
    } else {
      assert cells[1..] == [];
    }
  }

  /** The first of several cells. */
  lemma ScanHead(cells: seq<Cell>, tail: string, s: Scan, d: char, limits: Limits)
    requires |cells| > 1 && IsDelimiter(d) && !s.inQuotes && s.field == "" && CellOk(cells[0], d)
    ensures ScanAll(SpellCells(cells, d) + tail, s, d, limits)
         == if Units(cells[0].text) > limits.maxCellCharacters then Err(CellTooLong)
            else if |s.row| + 1 > limits.maxColumns then Err(TooManyColumns)
            else ScanAll(SpellCells(cells[1..], d) + tail, s.(row := s.row + [Trim(cells[0].text)]), d, limits)
  {
    hide Units, ScanAll, Trim, SpellCell, CellOk;
    var rest := SpellCells(cells[1..], d) + tail;
    assert SpellCells(cells, d) + tail == SpellCell(cells[0]) + ([d] + rest);
    ScanCell(cells[0], [d] + rest, s, d, limits);
    ScanDelimiter(rest, s.(field := cells[0].text), d, limits);
  }

  lemma OneCell(cells: seq<Cell>, before: nat, d: char, limits: Limits)
    requires |cells| == 1
    ensures SpellCells(cells, d) == SpellCell(cells[0]) && Texts(cells[..0]) == []
    ensures InnerFault(cells, before, limits) == if Units(cells[0].text) > limits.maxCellCharacters then Some(CellTooLong) else None
  {
  }

  lemma MoreCells(cells: seq<Cell>, before: nat, limits: Limits)
    requires |cells| > 1
    ensures InnerFault(cells, before, limits)
         == if Units(cells[0].text) > limits.maxCellCharacters then Some(CellTooLong)
            else if before + 1 > limits.maxColumns then Some(TooManyColumns)
            else InnerFault(cells[1..], before + 1, limits)
    ensures Texts(cells[..|cells| - 1]) == [Trim(cells[0].text)] + Texts(cells[1..][..|cells| - 2])
  {
    hide Units, Trim;
    assert cells[1..][..|cells| - 2] == cells[..|cells| - 1][1..];
  }

  /** All cells but the last are in the row, the last is the field; or the first fault. */
  lemma {:induction false} ScanCells(cells: seq<Cell>, tail: string, s: Scan, d: char, limits: Limits)
    requires cells != [] && IsDelimiter(d) && !s.inQuotes && s.field == "" && (tail == "" || tail[0] != '"')
    requires forall i | 0 <= i < |cells| :: CellOk(cells[i], d)
    ensures ScanAll(SpellCells(cells, d) + tail, s, d, limits)
         == (if InnerFault(cells, |s.row|, limits).Some? then Err(InnerFault(cells, |s.row|, limits).value)
             else ScanAll(tail, s.(row := s.row + Texts(cells[..|cells| - 1]), field := cells[|cells| - 1].text), d, limits))
    decreases |cells|
  {
    hide Units, ScanAll, Trim, SpellCell, SpellCells, InnerFault, CellOk, Texts;
    if |cells| == 1 {
      OneCell(cells, |s.row|, d, limits);
      ScanCell(cells[0], tail, s, d, limits);
      assert s.row + [] == s.row;
    } else {
      var next := s.(row := s.row + [Trim(cells[0].text)]);
      MoreCells(cells, |s.row|, limits);
      ScanHead(cells, tail, s, d, limits);
      ScanCells(cells[1..], tail, next, d, limits);
      assert next.row + Texts(cells[1..][..|cells| - 2]) == s.row + Texts(cells[..|cells| - 1]);
    }
  }

  // ---------------------------------------------------------------- scanning rows

  /** Between two rows. */
  function At(rows: seq<Row>, cellCount: nat): Scan {
    Scan("", [], false, cellCount, rows)
  }

  /** The scan goes on with the rest, or stops at the error. */
  function GoOn(step: Result<Scan, CsvError>, tail: string, d: char, limits: Limits): Result<Scan, CsvError> {
    if step.Err? then step else ScanAll(tail, step.value, d, limits)
  }

  function Reached(read: Result<(seq<Row>, nat), CsvError>): Result<Scan, CsvError> {
    if read.Err? then Err(read.error) else Ok(At(read.value.0, read.value.1))
  }

  lemma {:induction false} TextsEnd(cells: seq<Cell>)
    requires cells != []
    ensures Texts(cells) == Texts(cells[..|cells| - 1]) + [Trim(cells[|cells| - 1].text)]
    decreases |cells|
  {
    hide Trim;
    if |cells| == 1 {
      assert cells[..0] == [] && cells[1..] == [];
    } else {
      TextsEnd(cells[1..]);
      assert cells[1..][..|cells| - 2] == cells[..|cells| - 1][1..];
    }
  }

  /** What ending a row does once its cells are scanned. */
  function Ended(cells: seq<Cell>, rows: seq<Row>, cellCount: nat, limits: Limits): Result<Scan, CsvError> {
    if |cells| > limits.maxColumns then Err(TooManyColumns)
    else if IsBlank(cells) then Ok(At(rows, cellCount))
    else if cellCount + |cells| > limits.maxCells then Err(TooManyCells)
    else if |rows| > limits.maxRows then Err(TooManyRows)
    else Ok(At(rows + [Texts(cells)], cellCount + |cells|))
  }

  lemma RowEnds(cells: seq<Cell>, rows: seq<Row>, cellCount: nat, limits: Limits)
    requires cells != []
    ensures EndRow(At(rows, cellCount).(row := Texts(cells[..|cells| - 1]), field := cells[|cells| - 1].text), limits)
         == Ended(cells, rows, cellCount, limits)
  {
    hide Trim;
    TextsEnd(cells);
    assert IsBlank(cells) <==> !HasValue(Texts(cells)) by {
      assert forall i | 0 <= i < |cells| :: Texts(cells)[i] == Trim(cells[i].text);
    }
    hide HasValue, IsBlank, Texts;
  }

  lemma ScanEnding(ending: Ending, tail: string, s: Scan, d: char, limits: Limits)
    requires !s.inQuotes && IsDelimiter(d) && (ending == CarriageReturn ==> tail == "" || tail[0] != '\n')
    ensures ScanAll(SpellEnding(ending) + tail, s, d, limits)
         == GoOn(EndRow(s, limits), tail, d, limits)
  {
    hide EndRow, EndField, Append;
    var text := SpellEnding(ending) + tail;
    match ending
    case LineFeed => assert text[1..] == tail;
    case CarriageReturn => assert text[1..] == tail;
    case Both => assert text[2..] == tail;
  }

  /** One spelled row, ended: a row more, a blank one skipped, or the fault it has. */
  lemma ScanLine(line: Line, tail: string, rows: seq<Row>, cellCount: nat, d: char, limits: Limits)
    requires line.cells != [] && IsDelimiter(d) && forall i | 0 <= i < |line.cells| :: CellOk(line.cells[i], d)
    requires line.ending == CarriageReturn ==> tail == "" || tail[0] != '\n'
    ensures ScanAll(SpellCells(line.cells, d) + (SpellEnding(line.ending) + tail), At(rows, cellCount), d, limits)
         == if InnerFault(line.cells, 0, limits).Some? then Err(InnerFault(line.cells, 0, limits).value)
            else GoOn(Ended(line.cells, rows, cellCount, limits), tail, d, limits)
  {
    hide ScanAll, Units, Trim, Ended, InnerFault, EndRow, CellOk, SpellCells;
    var cells := line.cells;
    ScanCells(cells, SpellEnding(line.ending) + tail, At(rows, cellCount), d, limits);
    assert [] + Texts(cells[..|cells| - 1]) == Texts(cells[..|cells| - 1]);
    var s := At(rows, cellCount).(row := Texts(cells[..|cells| - 1]), field := cells[|cells| - 1].text);
    ScanEnding(line.ending, tail, s, d, limits);
    RowEnds(cells, rows, cellCount, limits);
  }

  /** A table's rows, each with its ending, and a last row without one, which may be missing. */
  function Text(lines: seq<Line>, last: seq<Cell>, d: char): string
    decreases |lines|
  {
    if lines == [] then SpellCells(last, d)
    else SpellCells(lines[0].cells, d) + (SpellEnding(lines[0].ending) + Text(lines[1..], last, d))
  }

  /** A lone carriage return is not followed by a line feed. */
  predicate Spelled(lines: seq<Line>, last: seq<Cell>, d: char) {
    && IsDelimiter(d)
    && (forall i | 0 <= i < |lines| :: lines[i].cells != [] && forall k | 0 <= k < |lines[i].cells| :: CellOk(lines[i].cells[k], d))
    && (forall k | 0 <= k < |last| :: CellOk(last[k], d))
    && (forall i | 0 < i <= |lines| && lines[i - 1].ending == CarriageReturn ::
          Text(lines[i..], last, d) == "" || Text(lines[i..], last, d)[0] != '\n')
  }

  /** The last row counts like any other. */
  function WithLast(lines: seq<Line>, last: seq<Cell>): seq<Line> {
    if last == [] then lines else lines + [Line(last, LineFeed)]
  }

  function Finished(scanned: Result<Scan, CsvError>, limits: Limits): Result<seq<Row>, CsvError> {
    if scanned.Err? then Err(scanned.error) else FinishScan(scanned.value, limits)
  }

  function RowsOf(read: Result<(seq<Row>, nat), CsvError>): Result<seq<Row>, CsvError> {
    if read.Err? then Err(read.error) else Ok(read.value.0)
  }

  function RowsAt(step: Result<Scan, CsvError>): Result<seq<Row>, CsvError> {
    if step.Err? then Err(step.error) else Ok(step.value.rows)
  }

  lemma NothingToScan(s: Scan, d: char, limits: Limits)
    ensures ScanAll("", s, d, limits) == Ok(s)
  {
  }

  lemma NothingMore(rows: seq<Row>, cellCount: nat, limits: Limits)
    requires limits.maxColumns >= 1
    ensures FinishScan(At(rows, cellCount), limits) == Ok(rows)
  {
    assert [] + [Trim("")] == [""];
  }

  /** A last row without an ending is ended by the end of the text. */
  lemma LastRowEnds(last: seq<Cell>, rows: seq<Row>, cellCount: nat, d: char, limits: Limits)
    requires last != [] && IsDelimiter(d) && forall k | 0 <= k < |last| :: CellOk(last[k], d)
    ensures Finished(ScanAll(SpellCells(last, d), At(rows, cellCount), d, limits), limits)
         == if InnerFault(last, 0, limits).Some? then Err(InnerFault(last, 0, limits).value)
            else RowsAt(Ended(last, rows, cellCount, limits))
  {
    hide ScanAll, Units, Trim, Ended, InnerFault, EndRow, CellOk, SpellCells;
    var s := At(rows, cellCount).(row := Texts(last[..|last| - 1]), field := last[|last| - 1].text);
    ScanCells(last, "", At(rows, cellCount), d, limits);
    assert SpellCells(last, d) + "" == SpellCells(last, d);
    assert [] + Texts(last[..|last| - 1]) == Texts(last[..|last| - 1]);
    NothingToScan(s, d, limits);
    RowEnds(last, rows, cellCount, limits);
  }

  lemma ReadOne(line: Line, rows: seq<Row>, cellCount: nat, limits: Limits)
    requires line.cells != []
    ensures RowsOf(Read([line], rows, cellCount, limits))
         == if InnerFault(line.cells, 0, limits).Some? then Err(InnerFault(line.cells, 0, limits).value)
            else RowsAt(Ended(line.cells, rows, cellCount, limits))
  {
    FaultsShow(line.cells, 0, limits);
    assert [line][1..] == [];
    hide CellsFault, InnerFault, IsBlank, Texts;
  }

  lemma TableEnds(last: seq<Cell>, rows: seq<Row>, cellCount: nat, d: char, limits: Limits)
    requires Spelled([], last, d) && limits.maxColumns >= 1
    ensures Finished(ScanAll(Text([], last, d), At(rows, cellCount), d, limits), limits)
         == RowsOf(Read(WithLast([], last), rows, cellCount, limits))
  {
    hide ScanAll, Units, Trim, CellsFault, InnerFault, EndRow, CellOk, SpellCells, IsBlank, Texts, FinishScan;
    if last == [] {
      NoCellsNoText(d);
      NothingToScan(At(rows, cellCount), d, limits);
      NothingMore(rows, cellCount, limits);
    } else {
      LastRowEnds(last, rows, cellCount, d, limits);
      ReadOne(Line(last, LineFeed), rows, cellCount, limits);
      assert [] + [Line(last, LineFeed)] == [Line(last, LineFeed)];
    }
  }

  /** The scan of a spelled table to its end is what reading it row by row gives, faults included. */
  lemma {:induction false} ScanTable(lines: seq<Line>, last: seq<Cell>, rows: seq<Row>, cellCount: nat, d: char, limits: Limits)
    requires Spelled(lines, last, d) && limits.maxColumns >= 1
    ensures Finished(ScanAll(Text(lines, last, d), At(rows, cellCount), d, limits), limits)
         == RowsOf(Read(WithLast(lines, last), rows, cellCount, limits))
    decreases |lines|
  {
    hide ScanAll, Units, Trim, CellsFault, InnerFault, EndRow, CellOk, SpellCells, IsBlank, Texts, FinishScan, Spelled,
      IsDelimiter, SpellEnding;
    if lines == [] {
      TableEnds(last, rows, cellCount, d, limits);
    } else {
      var cells := lines[0].cells;
      SpelledRest(lines, last, d);
      ScanLine(lines[0], Text(lines[1..], last, d), rows, cellCount, d, limits);
      FaultsShow(cells, 0, limits);
      assert WithLast(lines, last)[1..] == WithLast(lines[1..], last);
      ScanTable(lines[1..], last, rows, cellCount, d, limits);
      ScanTable(lines[1..], last, rows + [Texts(cells)], cellCount + |cells|, d, limits);
    }
  }

  lemma NoCellsNoText(d: char)
    ensures SpellCells([], d) == ""
  {
  }

  lemma SpelledRest(lines: seq<Line>, last: seq<Cell>, d: char)
    requires Spelled(lines, last, d) && lines != []
    ensures Spelled(lines[1..], last, d) && IsDelimiter(d)
    ensures lines[0].cells != [] && forall k | 0 <= k < |lines[0].cells| :: CellOk(lines[0].cells[k], d)
    ensures lines[0].ending == CarriageReturn ==> Text(lines[1..], last, d) == "" || Text(lines[1..], last, d)[0] != '\n'
  {
    hide CellOk, Text;
    forall i | 0 < i <= |lines[1..]|
      ensures lines[1..][i..] == lines[i + 1..] && lines[1..][i - 1] == lines[i]
    {
    }
  }

  // ---------------------------------------------------------------- header and widths

  /** What the parser answers for the rows it read. */
  ghost predicate Answered(all: seq<Row>, lower: string -> string, r: Result<ParsedCsv, CsvError>) {
    if all == [] then r == Err(HeaderRequired)
    else if "" in all[0] then r == Err(BlankHeader)
    else if exists i, j :: 0 <= i < j < |all[0]| && lower(all[0][i]) == lower(all[0][j]) then r == Err(DuplicateHeader)
    else if AllFit(all) then r == Ok(ParsedCsv(all[0], all[1..]))
    else exists i: nat :: FirstWide(all, i) && r == Err(RowTooWide(i + 1))
  }

  /** No row has more cells than the header. */
  ghost predicate AllFit(all: seq<Row>) {
    forall i | 0 < i < |all| :: |all[i]| <= |all[0]|
  }

  /** The first row that does. */
  ghost predicate FirstWide(all: seq<Row>, i: nat) {
    0 < i < |all| && |all[i]| > |all[0]| && forall k | 0 < k < i :: |all[k]| <= |all[0]|
  }

  lemma WidthsDecide(all: seq<Row>)
    requires all != []
    ensures var wide := FirstWider(all[1..], |all[0]|, 0);
            && (wide.None? ==> AllFit(all)) && (wide.Some? ==> FirstWide(all, wide.value + 1) && !AllFit(all))
  {
    FirstWiderIs(all[1..], |all[0]|, 0);
    assert forall i | 0 < i < |all| :: all[i] == all[1..][i - 1];
    hide FirstWider;
  }

  /** Trimmed, and with a value: as every row that was read. */
  ghost predicate RowRead(row: Row) {
    && row != [] && (exists i :: 0 <= i < |row| && row[i] != "")
    && forall i | 0 <= i < |row| :: Trim(row[i]) == row[i]
  }

  lemma {:induction false} ReadRowsAreTrimmed(lines: seq<Line>, rows: seq<Row>, cellCount: nat, limits: Limits)
    requires forall i | 0 <= i < |rows| :: RowRead(rows[i])
    ensures var r := RowsOf(Read(lines, rows, cellCount, limits)); r.Ok? ==> forall i | 0 <= i < |r.value| :: RowRead(r.value[i])
    decreases |lines|
  {
    hide CellsFault, Trim, RowRead;
    if lines != [] {
      var cells := lines[0].cells;
      if !IsBlank(cells) {
        TextsAreRead(cells);
        ReadRowsAreTrimmed(lines[1..], rows + [Texts(cells)], cellCount + |cells|, limits);
      }
      ReadRowsAreTrimmed(lines[1..], rows, cellCount, limits);
    }
  }

  lemma TextsAreRead(cells: seq<Cell>)
    requires !IsBlank(cells)
    ensures RowRead(Texts(cells))
  {
    var i :| 0 <= i < |cells| && Trim(cells[i].text) != "";
    assert Texts(cells)[i] != "";
    forall k | 0 <= k < |cells|
      ensures Trim(Texts(cells)[k]) == Texts(cells)[k]
    {
      TrimTwice(cells[k].text);
    }
    hide Trim;
  }

  lemma {:induction false} ReadRowsAreKept(rows: seq<Row>)
    requires forall i | 0 <= i < |rows| :: RowRead(rows[i])
    ensures KeepValued(rows) == rows
  {
    hide Trim;
    if rows != [] {
      ReadRowsAreKept(rows[1..]);
      assert rows == [rows[0]] + rows[1..];
    }
  }

  lemma {:induction false} FirstWiderIs(rows: seq<Row>, width: nat, from: nat)
    requires from <= |rows|
    ensures var r := FirstWider(rows, width, from);
            && (r.Some? ==> from <= r.value < |rows| && |rows[r.value]| > width && forall k | from <= k < r.value :: |rows[k]| <= width)
            && (r.None? ==> forall k | from <= k < |rows| :: |rows[k]| <= width)
    decreases |rows| - from
  {
    if from < |rows| {
      FirstWiderIs(rows, width, from + 1);
    }
  }

  lemma HeadersAreClean(row: Row)
    requires RowRead(row)
    ensures CleanHeaders(row) == row
  {
    forall i | 0 <= i < |row|
      ensures CleanHeaders(row)[i] == row[i]
    {
      BomIsTrimmed(row[i]);
    }
    hide Trim, StripBom;
  }

  lemma ReadHasCells(row: Row)
    requires RowRead(row)
    ensures row != []
  {
    hide Trim;
  }

  lemma AssembledIs(all: seq<Row>, lower: string -> string)
    requires forall i | 0 <= i < |all| :: RowRead(all[i])
    ensures Answered(all, lower, Assemble(all, lower))
  {
    hide RowRead, CleanHeaders, KeepValued, FirstWider, AllFit, FirstWide;
    if all != [] {
      HeadersAreClean(all[0]);
      ReadRowsAreKept(all[1..]);
      WidthsDecide(all);
      ReadHasCells(all[0]);
    }
  }

  /**
   The parser on any spelling of a table with the delimiter it detects: the rows with
   their cells trimmed and blank rows dropped, or the first limit the table exceeds, or
   what is wrong with its header or its widths.
   */
  lemma SpelledTableIsParsed(lines: seq<Line>, last: seq<Cell>, d: char, limits: Limits, lower: string -> string)
    requires Spelled(lines, last, d) && limits.maxColumns >= 1 && DetectDelimiter(Text(lines, last, d)) == d
    ensures var r := ParseCsv(Text(lines, last, d), limits, lower);
            var read := RowsOf(Read(WithLast(lines, last), [], 0, limits));
            if ByteLength(Text(lines, last, d)) > limits.maxBytes then r == Err(TooManyBytes)
            else if read.Err? then r == Err(read.error)
            else Answered(read.value, lower, r)
  {
    ScanTable(lines, last, [], 0, d, limits);
    ReadRowsAreTrimmed(WithLast(lines, last), [], 0, limits);
    assert START == At([], 0);
    hide Text, Read, ScanAll, FinishScan, Assemble, Answered, RowRead, ByteLength, Spelled, DetectDelimiter;
    var read := RowsOf(Read(WithLast(lines, last), [], 0, limits));
    if read.Ok? {
      AssembledIs(read.value, lower);
    }
  }

  // ---------------------------------------------------------------- the delimiter

  /** How often a character occurs outside quotes; every quotation mark opens or closes. */
  function CountOutside(line: string, c: char, inQuotes: bool): nat
    decreases |line|
  {
    if line == "" then 0
    else
      (if line[0] == c && !inQuotes then 1 else 0)
      + CountOutside(line[1..], c, if line[0] == '"' then !inQuotes else inQuotes)
  }

  /** The text is one line: no line ending outside quotes, and no quote left open at its end. */
  predicate OneLine(line: string, inQuotes: bool)
    decreases |line|
  {
    if line == "" then !inQuotes
    else if line[0] == '"' then OneLine(line[1..], !inQuotes)
    else (inQuotes || (line[0] != '\n' && line[0] != '\r')) && OneLine(line[1..], inQuotes)
  }

  /** The line has a character that is no space, no quotation mark, and no separator. */
  predicate HasText(line: string, inQuotes: bool)
    decreases |line|
  {
    && line != ""
    && (|| (line[0] != '"' && (inQuotes || (line[0] != ',' && line[0] != ';')) && !IsSpace(line[0]))
        || HasText(line[1..], if line[0] == '"' then !inQuotes else inQuotes))
  }

  /** Two quotation marks inside quotes close and open again: it is one rule for all of them. */
  lemma QuoteToggles(text: string, commas: nat, semicolons: nat, inQuotes: bool, valued: bool)
    requires text != "" && text[0] == '"'
    ensures DetectFrom(text, commas, semicolons, inQuotes, valued) == DetectFrom(text[1..], commas, semicolons, !inQuotes, valued)
  {
    hide IsSpace;
    if |text| > 1 && text[1] == '"' {
      assert text[1..][1..] == text[2..];
    }
  }

  /** Whatever was counted before, the rest of the line decides by majority. */
  lemma {:induction false} LineDecides(line: string, rest: string, commas: nat, semicolons: nat, inQuotes: bool, valued: bool)
    requires OneLine(line, inQuotes) && (valued || HasText(line, inQuotes) || rest == "")
    requires rest == "" || rest[0] == '\n' || rest[0] == '\r'
    ensures DetectFrom(line + rest, commas, semicolons, inQuotes, valued)
         == if semicolons + CountOutside(line, ';', inQuotes) > commas + CountOutside(line, ',', inQuotes) then ';' else ','
    decreases |line|
  {
    hide IsSpace;
    if line == "" {
      assert line + rest == rest;
    } else {
      var c := line[0];
      var text := line + rest;
      assert text[1..] == line[1..] + rest;
      if c == '"' {
        QuoteToggles(text, commas, semicolons, inQuotes, valued);
        LineDecides(line[1..], rest, commas, semicolons, !inQuotes, valued);
      } else if !inQuotes && c == ',' {
        LineDecides(line[1..], rest, commas + 1, semicolons, inQuotes, valued);
      } else if !inQuotes && c == ';' {
        LineDecides(line[1..], rest, commas, semicolons + 1, inQuotes, valued);
      } else {
        LineDecides(line[1..], rest, commas, semicolons, inQuotes, valued || !IsSpace(c));
      }
    }
  }

  /**
   The delimiter of a text is the semicolon exactly if its first line with text, or the last line if
   there is none, has more semicolons than commas outside quotes.
   */
  lemma MajorityDecides(line: string, rest: string)
    requires OneLine(line, false) && (rest == "" || (HasText(line, false) && (rest[0] == '\n' || rest[0] == '\r')))
    ensures DetectDelimiter(line + rest) == ';' <==> CountOutside(line, ';', false) > CountOutside(line, ',', false)
  {
    LineDecides(line, rest, 0, 0, false, false);
  }

  /** A carriage return and the line feed behind it are one ending. */
  function EndingLength(rest: string): (n: nat)
    requires rest != ""
    ensures n <= |rest|
  {
    if |rest| > 1 && rest[..2] == "\r\n" then 2 else 1
  }

  lemma {:induction false} BlankLineCounts(line: string, rest: string, commas: nat, semicolons: nat, inQuotes: bool)
    requires OneLine(line, inQuotes) && !HasText(line, inQuotes)
    requires rest != "" && (rest[0] == '\n' || rest[0] == '\r')
    ensures DetectFrom(line + rest, commas, semicolons, inQuotes, false) == DetectDelimiter(rest[EndingLength(rest)..])
    decreases |line|
  {
    hide IsSpace;
    if line == "" {
      assert line + rest == rest;
    } else {
      var c := line[0];
      var text := line + rest;
      assert text[1..] == line[1..] + rest;
      if c == '"' {
        QuoteToggles(text, commas, semicolons, inQuotes, false);
        BlankLineCounts(line[1..], rest, commas, semicolons, !inQuotes);
      } else if !inQuotes && c == ',' {
        BlankLineCounts(line[1..], rest, commas + 1, semicolons, inQuotes);
      } else if !inQuotes && c == ';' {
        BlankLineCounts(line[1..], rest, commas, semicolons + 1, inQuotes);
      } else {
        BlankLineCounts(line[1..], rest, commas, semicolons, inQuotes);
      }
    }
  }

  /** Lines without text do not count: the text after them decides. */
  lemma LeadingBlanksAreSkipped(line: string, rest: string)
    requires OneLine(line, false) && !HasText(line, false)
    requires rest != "" && (rest[0] == '\n' || rest[0] == '\r')
    ensures DetectDelimiter(line + rest) == DetectDelimiter(rest[EndingLength(rest)..])
  {
    BlankLineCounts(line, rest, 0, 0, false);
  }
}
