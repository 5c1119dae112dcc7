/**
 dashboard/csv.ts parseCsv and detectCsvDelimiter, and the printer of
 dashboard/routes.ts. Case folding of header names is a parameter.
 */
module CsvText {
  import opened Wrappers
  import opened JsText

  datatype Limits = Limits(maxBytes: nat, maxCellCharacters: nat, maxCells: nat, maxColumns: nat, maxRows: nat)

  datatype CsvError =
    | TooManyBytes
    | CellTooLong
    | TooManyColumns
    | TooManyCells
    | TooManyRows
    | UnterminatedQuote
    | HeaderRequired
    | BlankHeader
    | DuplicateHeader
    | RowTooWide(rowNumber: nat)

  type Row = seq<string>

  datatype ParsedCsv = ParsedCsv(headers: Row, rows: seq<Row>)

  // ---------------------------------------------------------------- printing

  predicate StartsFormula(s: string) {
    s != "" && (s[0] == '=' || s[0] == '+' || s[0] == '-' || s[0] == '@')
  }

  /** A cell a spreadsheet would read as a formula is prefixed. */
  function Sanitize(value: string): string {
    if StartsFormula(TrimStart(value)) then "'" + value else value
  }

  function Escape(value: string): string {
    if value == "" then "" else (if value[0] == '"' then "\"\"" else [value[0]]) + Escape(value[1..])
  }

  /** csvCell */
  function PrintCell(value: string): string {
    "\"" + Escape(Sanitize(value)) + "\""
  }

  /** Cells joined with commas. */
  function PrintCells(cells: Row): string {
    if cells == [] then ""
    else if |cells| == 1 then PrintCell(cells[0])
    else PrintCell(cells[0]) + "," + PrintCells(cells[1..])
  }

  /** Rows each ended by a newline; callHistoryCsvRows joins with newlines and appends one. */
  function PrintRows(rows: seq<Row>): string {
    if rows == [] then "" else PrintCells(rows[0]) + "\n" + PrintRows(rows[1..])
  }

  // ---------------------------------------------------------------- detecting the delimiter

  /** The scan of the first row that has a value; newlines before it start the counts again. */
  function DetectFrom(text: string, commas: nat, semicolons: nat, inQuotes: bool, rowHasValue: bool): char
    decreases |text|
  {
    if text == "" then if semicolons > commas then ';' else ','
    else
      var c := text[0];
      if c == '"' && inQuotes && |text| > 1 && text[1] == '"' then DetectFrom(text[2..], commas, semicolons, inQuotes, rowHasValue)
      else if c == '"' then DetectFrom(text[1..], commas, semicolons, !inQuotes, rowHasValue)
      else if !inQuotes && (c == '\n' || c == '\r') then
        if rowHasValue then if semicolons > commas then ';' else ','
        else DetectFrom(text[if c == '\r' && |text| > 1 && text[1] == '\n' then 2 else 1..], 0, 0, inQuotes, rowHasValue)
      else if !inQuotes && c == ',' then DetectFrom(text[1..], commas + 1, semicolons, inQuotes, rowHasValue)
      else if !inQuotes && c == ';' then DetectFrom(text[1..], commas, semicolons + 1, inQuotes, rowHasValue)
      else DetectFrom(text[1..], commas, semicolons, inQuotes, rowHasValue || !IsSpace(c))
  }

  function DetectDelimiter(text: string): char {
    DetectFrom(text, 0, 0, false, false)
  }

  method DetectCsvDelimiter(input: string) returns (delimiter: char)
    ensures delimiter == DetectDelimiter(input)
  {
    var commas, semicolons, inQuotes, rowHasValue := 0, 0, false, false;
    var index := 0;
    assert input[0..] == input;
    while index < |input|
      invariant 0 <= index <= |input|
      invariant DetectFrom(input[index..], commas, semicolons, inQuotes, rowHasValue) == DetectDelimiter(input)
    {
      var c := input[index];
      var rest := input[index..];
      assert rest[1..] == input[index + 1..];
      var pair := index + 1 < |input|;
      assert pair ==> rest[2..] == input[index + 2..];
      if c == '"' && inQuotes && pair && input[index + 1] == '"' {
        index := index + 2;
        continue;
      }
      if c == '"' {
        inQuotes := !inQuotes;
        index := index + 1;
        continue;
      }
      if !inQuotes && (c == '\n' || c == '\r') {
        if rowHasValue {
          break;
        }
        if c == '\r' && pair && input[index + 1] == '\n' {
          index := index + 1;
        }
        commas, semicolons := 0, 0;
        index := index + 1;
        continue;
      }
      if !inQuotes && c == ',' {
        commas := commas + 1;
      } else if !inQuotes && c == ';' {
        semicolons := semicolons + 1;
      } else if !IsSpace(c) {
        rowHasValue := true;
      }
      index := index + 1;
    }
    return if semicolons > commas then ';' else ',';
  }

  // ---------------------------------------------------------------- parsing

  /** The variables of the scanning loop. */
  datatype Scan = Scan(field: string, row: Row, inQuotes: bool, cellCount: nat, rows: seq<Row>)

  const START := Scan("", [], false, 0, [])

  predicate HasValue(row: Row) {
    exists i | 0 <= i < |row| :: row[i] != ""
  }

  function Append(s: Scan, c: char, limits: Limits): Result<Scan, CsvError> {
    var field := s.field + [c];
    if Units(field) > limits.maxCellCharacters then Err(CellTooLong) else Ok(s.(field := field))
  }

  function EndField(s: Scan, limits: Limits): Result<Scan, CsvError> {
    var row := s.row + [Trim(s.field)];
    if |row| > limits.maxColumns then Err(TooManyColumns) else Ok(s.(row := row, field := ""))
  }

  /** Blank rows are dropped before they count. */
  function EndRow(s: Scan, limits: Limits): Result<Scan, CsvError> {
    match EndField(s, limits)
    case Err(e) => Err(e)
    case Ok(ended) =>
      if !HasValue(ended.row) then Ok(ended.(row := []))
      else if ended.cellCount + |ended.row| > limits.maxCells then Err(TooManyCells)
      else if |ended.rows| > limits.maxRows then Err(TooManyRows)
      else Ok(ended.(row := [], rows := ended.rows + [ended.row], cellCount := ended.cellCount + |ended.row|))
  }

  /** One pass of the loop: the new state and how many characters it used. */
  function ScanOne(text: string, s: Scan, delimiter: char, limits: Limits): (Result<Scan, CsvError>, nat)
    requires text != ""
  {
    var c := text[0];
    if c == '"' && s.inQuotes && |text| > 1 && text[1] == '"' then (Append(s, '"', limits), 2)
    else if c == '"' then (Ok(s.(inQuotes := !s.inQuotes)), 1)
    else if c == delimiter && !s.inQuotes then (EndField(s, limits), 1)
    else if (c == '\n' || c == '\r') && !s.inQuotes then
      (EndRow(s, limits), if c == '\r' && |text| > 1 && text[1] == '\n' then 2 else 1)
    else (Append(s, c, limits), 1)
  }

  function ScanAll(text: string, s: Scan, delimiter: char, limits: Limits): Result<Scan, CsvError>
    decreases |text|
  {
    if text == "" then Ok(s)
    else
      var (next, used) := ScanOne(text, s, delimiter, limits);
      match next
      case Err(e) => Err(e)
      case Ok(after) => ScanAll(text[used..], after, delimiter, limits)
  }

  function StripBom(s: string): string {
    if s != "" && s[0] == '\U{FEFF}' then s[1..] else s
  }

  function CleanHeaders(headers: Row): (r: Row)
    ensures |r| == |headers|
  {
    seq(|headers|, i requires 0 <= i < |headers| => if i == 0 then StripBom(Trim(headers[i])) else Trim(headers[i]))
  }

  /** new Set(headers.map(lower)).size !== headers.length */
  predicate HasDuplicate(headers: Row, lower: string -> string) {
    exists i, j | 0 <= i < j < |headers| :: lower(headers[i]) == lower(headers[j])
  }

  function FirstWider(rows: seq<Row>, width: nat, from: nat): Option<nat>
    requires from <= |rows|
    decreases |rows| - from
  {
    if from == |rows| then None else if |rows[from]| > width then Some(from) else FirstWider(rows, width, from + 1)
  }

  function KeepValued(rows: seq<Row>): seq<Row> {
    if rows == [] then []
    else (if exists i | 0 <= i < |rows[0]| :: Trim(rows[0][i]) != "" then [rows[0]] else []) + KeepValued(rows[1..])
  }

  /** What parseCsv does with the scanned rows. */
  function Assemble(all: seq<Row>, lower: string -> string): Result<ParsedCsv, CsvError> {
    if all == [] then Err(HeaderRequired)
    else
      var headers := CleanHeaders(all[0]);
      var rows := all[1..];
      if headers == [] then Err(HeaderRequired)
      else if exists i | 0 <= i < |headers| :: headers[i] == "" then Err(BlankHeader)
      else if HasDuplicate(headers, lower) then Err(DuplicateHeader)
      else match FirstWider(rows, |headers|, 0)
        case Some(i) => Err(RowTooWide(i + 2))
        case None => Ok(ParsedCsv(headers, KeepValued(rows)))
  }

  function FinishScan(s: Scan, limits: Limits): Result<seq<Row>, CsvError> {
    if s.inQuotes then Err(UnterminatedQuote)
    else match EndRow(s, limits)
      case Err(e) => Err(e)
      case Ok(done) => Ok(done.rows)
  }

  function ParseCsv(input: string, limits: Limits, lower: string -> string): Result<ParsedCsv, CsvError> {
    if ByteLength(input) > limits.maxBytes then Err(TooManyBytes)
    else match ScanAll(input, START, DetectDelimiter(input), limits)
      case Err(e) => Err(e)
      case Ok(scanned) => match FinishScan(scanned, limits)
        case Err(e) => Err(e)
        case Ok(all) => Assemble(all, lower)
  }

  method ParseCsvText(input: string, limits: Limits, lower: string -> string) returns (r: Result<ParsedCsv, CsvError>)
    ensures r == ParseCsv(input, limits, lower)
  {
    if ByteLength(input) > limits.maxBytes {
      return Err(TooManyBytes);
    }
    var delimiter := DetectCsvDelimiter(input);
    var state := START;
    var index := 0;
    assert input[0..] == input;
    while index < |input|
      invariant 0 <= index <= |input|
      invariant ScanAll(input[index..], state, delimiter, limits) == ScanAll(input, START, delimiter, limits)
    {
      var (next, used) := ScanOne(input[index..], state, delimiter, limits);
      assert input[index..][used..] == input[index + used..];
      if next.Err? {
        return Err(next.error);
      }
      state := next.value;
      index := index + used;
    }
    var all := FinishScan(state, limits);
    if all.Err? {
      return Err(all.error);
    }
    return Assemble(all.value, lower);
  }

  /** The byte-order mark is a space to trim, so removing it afterwards never finds one. */
  lemma BomIsTrimmed(s: string)
    ensures StripBom(Trim(s)) == Trim(s)
  {
  }
}
