/**
 dashboard/csv.ts importContactsFromCsv: the batched, deduplicated import against
 the row-by-row loop it replaces. Phone normalisation and case folding are
 parameters; the database call is one statement per chunk inside one transaction.
 */
module CsvImport {
  import opened Wrappers
  import opened JsText
  import opened CsvText
  import opened Batching

  const CHUNK_SIZE: nat := 1000

  type PhoneNumber = string

  /** The contacts of one campaign, under the unique index on their number. */
  datatype Contact = Contact(phone: string, name: string, fields: map<string, string>)

  type Contacts = map<PhoneNumber, Contact>

  datatype Failure = Failure(rowNumber: nat, reason: string)

  datatype ValidRow = ValidRow(rowNumber: nat, number: PhoneNumber, contact: Contact)

  datatype ImportError = NoPhoneColumn | NoNameColumn

  // ---------------------------------------------------------------- columns

  predicate IsWordChar(c: char) {
    'a' <= c <= 'z' || '0' <= c <= '9'
  }

  /** replace(/[^a-z0-9]+/g, "_") */
  function CollapseOthers(s: string): string {
    if s == "" then ""
    else
      var before := CollapseOthers(s[..|s| - 1]);
      if IsWordChar(s[|s| - 1]) then before + [s[|s| - 1]]
      else if before != "" && before[|before| - 1] == '_' then before else before + "_"
  }

  /** replace(/^_+|_+$/g, "") */
  function StripUnderscores(s: string): string {
    if s != "" && s[0] == '_' then StripUnderscores(s[1..])
    else if s != "" && s[|s| - 1] == '_' then StripUnderscores(s[..|s| - 1])
    else s
  }

  function NormalizeHeader(value: string, lower: string -> string): string {
    StripUnderscores(CollapseOthers(lower(Trim(value))))
  }

  function NormalizeHeaders(headers: Row, lower: string -> string): (r: Row)
    ensures |r| == |headers|
  {
    seq(|headers|, i requires 0 <= i < |headers| => NormalizeHeader(headers[i], lower))
  }

  /** findIndex: the first name that is a candidate. */
  function FirstIn(names: Row, candidates: seq<string>): (r: Option<nat>)
    ensures r.Some? ==> r.value < |names| && names[r.value] in candidates
    ensures r.Some? ==> forall i | 0 <= i < r.value :: names[i] !in candidates
    ensures r.None? ==> forall i | 0 <= i < |names| :: names[i] !in candidates
  {
    if names == [] then None
    else if names[0] in candidates then Some(0)
    else match FirstIn(names[1..], candidates)
      case None => None
      case Some(i) => Some(i + 1)
  }

  function FindColumn(headers: Row, candidates: seq<string>, lower: string -> string): Option<nat> {
    FirstIn(NormalizeHeaders(headers, lower), candidates)
  }

  const PHONE_COLUMNS := ["phone", "phone_number", "number", "mobile", "cell"]
  const NAME_COLUMNS := ["name", "full_name", "contact", "display_name"]
  const REASON_COLUMNS := ["reason", "note", "notes"]

  function CellAt(row: Row, column: nat): string {
    if column < |row| then Trim(row[column]) else ""
  }

  /** Object.fromEntries over the headers: a later header of the same name wins. */
  function MappedFields(headers: Row, row: Row): map<string, string> {
    if headers == [] then map[]
    else MappedFields(headers[..|headers| - 1], row)[headers[|headers| - 1] := CellAt(row, |headers| - 1)]
  }

  /** How an import reads a row: its columns and the normaliser. */
  datatype Reader = Reader(headers: Row, phone: nat, name: nat, normalize: string -> Result<PhoneNumber, string>)

  function ReadContact(reader: Reader, rowNumber: nat, row: Row): Result<ValidRow, string> {
    var phone := CellAt(row, reader.phone);
    var name := CellAt(row, reader.name);
    if name == "" then Err("Name is required")
    else match reader.normalize(phone)
      case Err(reason) => Err(reason)
      case Ok(number) => Ok(ValidRow(rowNumber, number, Contact(phone, name, MappedFields(reader.headers, row))))
  }

  // ---------------------------------------------------------------- the row-by-row import

  datatype LoopResult = LoopResult(table: Contacts, imported: nat, invalid: seq<Failure>, duplicates: seq<Failure>)

  const DUPLICATE := "Duplicate phone number in this campaign"

  /** One row after the other: refuse it, find its number taken, or insert it. */
  function LoopImport(table: Contacts, rows: seq<Row>, reader: Reader): LoopResult {
    if rows == [] then LoopResult(table, 0, [], [])
    else
      var before := LoopImport(table, rows[..|rows| - 1], reader);
      var rowNumber := |rows| + 1;
      match ReadContact(reader, rowNumber, rows[|rows| - 1])
      case Err(reason) => before.(invalid := before.invalid + [Failure(rowNumber, reason)])
      case Ok(row) =>
        if row.number in before.table then before.(duplicates := before.duplicates + [Failure(rowNumber, DUPLICATE)])
        else before.(table := before.table[row.number := row.contact], imported := before.imported + 1)
  }

  // ---------------------------------------------------------------- the pieces of the batched import

  function ValidRows(rows: seq<Row>, reader: Reader): seq<ValidRow> {
    if rows == [] then []
    else
      var before := ValidRows(rows[..|rows| - 1], reader);
      match ReadContact(reader, |rows| + 1, rows[|rows| - 1])
      case Err(_) => before
      case Ok(row) => before + [row]
  }

  function InvalidRows(rows: seq<Row>, reader: Reader): seq<Failure> {
    if rows == [] then []
    else
      var before := InvalidRows(rows[..|rows| - 1], reader);
      match ReadContact(reader, |rows| + 1, rows[|rows| - 1])
      case Err(reason) => before + [Failure(|rows| + 1, reason)]
      case Ok(_) => before
  }

  function KeyOf(row: ValidRow): PhoneNumber {
    row.number
  }

  /** firstRowByNumber */
  function FirstRows(rows: seq<ValidRow>): map<PhoneNumber, ValidRow> {
    if rows == [] then map[]
    else
      var before := FirstRows(rows[..|rows| - 1]);
      var row := rows[|rows| - 1];
      if row.number in before then before else before[row.number := row]
  }

  /** [...firstRowByNumber.values()]: a map keeps the order its keys were first set in. */
  function FirstValues(rows: seq<ValidRow>): seq<ValidRow> {
    if rows == [] then []
    else
      var before := FirstValues(rows[..|rows| - 1]);
      var row := rows[|rows| - 1];
      if row.number in FirstRows(rows[..|rows| - 1]) then before else before + [row]
  }

  /** insert ... on conflict do nothing, in the order of the input rows. */
  function InsertAbsent(table: Contacts, rows: seq<ValidRow>): (r: Contacts)
    ensures table.Keys <= r.Keys
  {
    if rows == [] then table
    else
      var before := InsertAbsent(table, rows[..|rows| - 1]);
      var row := rows[|rows| - 1];
      if row.number in before then before else before[row.number := row.contact]
  }

  /** The code's verdict on a valid row: not the first of its number, or its number was not inserted. */
  function DuplicateRows(rows: seq<ValidRow>, first: map<PhoneNumber, ValidRow>,
                         inserted: set<PhoneNumber>): seq<Failure>
    requires forall i | 0 <= i < |rows| :: rows[i].number in first
  {
    if rows == [] then []
    else
      var before := DuplicateRows(rows[..|rows| - 1], first, inserted);
      var row := rows[|rows| - 1];
      if first[row.number].rowNumber != row.rowNumber || row.number !in inserted
      then before + [Failure(row.rowNumber, DUPLICATE)] else before
  }

  datatype ImportResult = ImportResult(
    table: Contacts,
    totalRows: nat,
    importedRows: nat,
    failedRows: nat,
    duplicateRows: nat,
    failures: seq<Failure>
  )

  // ---------------------------------------------------------------- inserting first rows is inserting every row

  predicate NumbersAscend(rows: seq<ValidRow>) {
    forall i, j | 0 <= i < j < |rows| :: rows[i].rowNumber < rows[j].rowNumber
  }

  lemma {:induction false} ValidRowsAscend(rows: seq<Row>, reader: Reader)
    ensures NumbersAscend(ValidRows(rows, reader))
    ensures forall i | 0 <= i < |ValidRows(rows, reader)| :: ValidRows(rows, reader)[i].rowNumber <= |rows| + 1
    ensures |ValidRows(rows, reader)| + |InvalidRows(rows, reader)| == |rows|
  {
    if rows != [] {
      ValidRowsAscend(rows[..|rows| - 1], reader);
    }
  }

  lemma {:induction false} FirstRowsCover(rows: seq<ValidRow>)
    ensures forall i | 0 <= i < |rows| :: rows[i].number in FirstRows(rows)
    ensures forall n | n in FirstRows(rows) :: FirstRows(rows)[n] in FirstValues(rows) && FirstRows(rows)[n].number == n
    ensures forall i | 0 <= i < |FirstValues(rows)| ::
              var row := FirstValues(rows)[i]; row.number in FirstRows(rows) && FirstRows(rows)[row.number] == row
  {
    if rows != [] {
      var init := rows[..|rows| - 1];
      FirstRowsCover(init);
      assert forall i | 0 <= i < |init| :: rows[i] == init[i];
    }
  }

  lemma {:induction false} FirstValuesDistinct(rows: seq<ValidRow>)
    ensures Distinct(FirstValues(rows), KeyOf)
  {
    if rows != [] {
      FirstValuesDistinct(rows[..|rows| - 1]);
      FirstRowsCover(rows[..|rows| - 1]);
    }
  }

  function ContactsOf(first: map<PhoneNumber, ValidRow>): Contacts {
    map n | n in first :: first[n].contact
  }

  /** Insert-if-absent over any rows adds exactly the first row of every number that was free. */
  lemma {:induction false} InsertAbsentAddsFirsts(table: Contacts, rows: seq<ValidRow>)
    ensures InsertAbsent(table, rows) == ContactsOf(FirstRows(rows)) + table
  {
    if rows == [] {
      assert ContactsOf(FirstRows(rows)) == map[];
    } else {
      InsertAbsentAddsFirsts(table, rows[..|rows| - 1]);
    }
  }

  lemma {:induction false} InsertAbsentSplits(table: Contacts, a: seq<ValidRow>, b: seq<ValidRow>)
    ensures InsertAbsent(table, a + b) == InsertAbsent(InsertAbsent(table, a), b)
  {
    if b == [] {
      assert a + b == a;
    } else {
      InsertAbsentSplits(table, a, b[..|b| - 1]);
      assert (a + b)[..|a + b| - 1] == a + b[..|b| - 1];
    }
  }

  /** Rows with distinct numbers are their own first rows. */
  lemma {:induction false} DistinctAreFirst(rows: seq<ValidRow>)
    requires Distinct(rows, KeyOf)
    ensures forall i | 0 <= i < |rows| :: rows[i].number in FirstRows(rows) && FirstRows(rows)[rows[i].number] == rows[i]
    ensures forall n | n in FirstRows(rows) :: exists i :: 0 <= i < |rows| && rows[i].number == n
  {
    if rows != [] {
      var init := rows[..|rows| - 1];
      assert forall i | 0 <= i < |init| :: init[i] == rows[i];
      DistinctAreFirst(init);
      forall i | 0 <= i < |init|
        ensures KeyOf(rows[i]) != KeyOf(rows[|rows| - 1])
      {
      }
    }
  }

  /** Sorting the first rows and inserting those is inserting all rows in their order. */
  lemma SortedFirstsSuffice(table: Contacts, rows: seq<ValidRow>)
    ensures Distinct(Sort(FirstValues(rows), KeyOf), KeyOf)
    ensures FirstRows(Sort(FirstValues(rows), KeyOf)) == FirstRows(rows)
    ensures InsertAbsent(table, Sort(FirstValues(rows), KeyOf)) == InsertAbsent(table, rows)
  {
    var values := FirstValues(rows);
    var sorted := Sort(values, KeyOf);
    FirstValuesDistinct(rows);
    SortAscends(values, KeyOf);
    AscendingIsDistinct(sorted, KeyOf);
    SortPermutes(values, KeyOf);
    FirstRowsCover(rows);
    DistinctAreFirst(sorted);
    SameFirsts(rows, sorted);
    InsertAbsentAddsFirsts(table, rows);
    InsertAbsentAddsFirsts(table, sorted);
  }

  lemma SameFirsts(rows: seq<ValidRow>, sorted: seq<ValidRow>)
    requires multiset(sorted) == multiset(FirstValues(rows)) && Distinct(sorted, KeyOf)
    ensures FirstRows(sorted) == FirstRows(rows)
  {
    FirstRowsCover(rows);
    DistinctAreFirst(sorted);
    forall n | n in FirstRows(rows)
      ensures n in FirstRows(sorted) && FirstRows(sorted)[n] == FirstRows(rows)[n]
    {
      assert FirstRows(rows)[n] in multiset(FirstValues(rows));
      assert FirstRows(rows)[n] in sorted;
      assert FirstRows(rows)[n].number == n;
    }
    forall n | n in FirstRows(sorted)
      ensures n in FirstRows(rows)
    {
      var i :| 0 <= i < |sorted| && sorted[i].number == n;
      assert sorted[i] in multiset(sorted);
      assert sorted[i] in FirstValues(rows);
    }
  }

  // ---------------------------------------------------------------- the verdicts

  function LoopDuplicates(table: Contacts, rows: seq<ValidRow>): seq<Failure> {
    if rows == [] then []
    else
      var init := rows[..|rows| - 1];
      var row := rows[|rows| - 1];
      LoopDuplicates(table, init) + if row.number in InsertAbsent(table, init) then [Failure(row.rowNumber, DUPLICATE)] else []
  }

  /** The loop over all rows is the loop over the valid ones. */
  lemma {:induction false} LoopSplits(table: Contacts, rows: seq<Row>, reader: Reader)
    ensures LoopImport(table, rows, reader).table == InsertAbsent(table, ValidRows(rows, reader))
    ensures LoopImport(table, rows, reader).invalid == InvalidRows(rows, reader)
    ensures LoopImport(table, rows, reader).duplicates == LoopDuplicates(table, ValidRows(rows, reader))
  {
    hide ReadContact;
    if rows != [] {
      var init := rows[..|rows| - 1];
      LoopSplits(table, init, reader);
      var read := ReadContact(reader, |rows| + 1, rows[|rows| - 1]);
      if read.Ok? {
        var valid := ValidRows(init, reader);
        assert (valid + [read.value])[..|valid|] == valid;
        ReadKeepsNumber(reader, |rows| + 1, rows[|rows| - 1]);
      } else {
        assert LoopImport(table, rows, reader).table == LoopImport(table, init, reader).table;
      }
    }
  }

  lemma ReadKeepsNumber(reader: Reader, rowNumber: nat, row: Row)
    ensures ReadContact(reader, rowNumber, row).Ok? ==> ReadContact(reader, rowNumber, row).value.rowNumber == rowNumber
  {
  }

  /** The loop's counters add up. */
  lemma {:induction false} LoopCounts(table: Contacts, rows: seq<Row>, reader: Reader)
    ensures var loop := LoopImport(table, rows, reader);
            && loop.imported + |loop.invalid| + |loop.duplicates| == |rows|
            && loop.imported + |table| == |loop.table|
  {
    hide ReadContact;
    if rows != [] {
      LoopCounts(table, rows[..|rows| - 1], reader);
    }
  }

  lemma {:induction false} FirstRowsExtend(rows: seq<ValidRow>, k: nat)
    requires k <= |rows|
    ensures forall n | n in FirstRows(rows[..k]) :: n in FirstRows(rows) && FirstRows(rows)[n] == FirstRows(rows[..k])[n]
    decreases |rows|
  {
    if k < |rows| {
      FirstRowsExtend(rows[..|rows| - 1], k);
      assert rows[..|rows| - 1][..k] == rows[..k];
    } else {
      assert rows[..k] == rows;
    }
  }

  /** Whether the loop finds a row's number taken is whether the code calls it a duplicate. */
  lemma OneVerdictAgrees(table: Contacts, rows: seq<ValidRow>, k: nat)
    requires k < |rows| && NumbersAscend(rows)
    ensures rows[k].number in FirstRows(rows)
    ensures rows[k].number in InsertAbsent(table, rows[..k]) <==>
            FirstRows(rows)[rows[k].number].rowNumber != rows[k].rowNumber || rows[k].number in table
  {
    var prefix := rows[..k];
    InsertAbsentAddsFirsts(table, prefix);
    FirstRowsCover(prefix);
    FirstRowsExtend(rows, k);
    FirstRowsExtend(rows, k + 1);
    assert rows[..k + 1][..k] == prefix && rows[..k + 1][k] == rows[k];
    var n := rows[k].number;
    if n in FirstRows(prefix) {
      assert FirstRows(prefix)[n] in FirstValues(prefix);
      FirstValuesAreRows(prefix);
      var i :| 0 <= i < k && prefix[i] == FirstRows(prefix)[n];
      assert rows[i].rowNumber < rows[k].rowNumber;
    }
  }

  lemma {:induction false} FirstValuesAreRows(rows: seq<ValidRow>)
    ensures forall row | row in FirstValues(rows) :: exists i :: 0 <= i < |rows| && rows[i] == row
  {
    if rows != [] {
      var init := rows[..|rows| - 1];
      FirstValuesAreRows(init);
      forall row | row in FirstValues(rows)
        ensures exists i :: 0 <= i < |rows| && rows[i] == row
      {
        if row in FirstValues(init) {
          var i :| 0 <= i < |init| && init[i] == row;
          assert rows[i] == row;
        } else {
          assert rows[|rows| - 1] == row;
        }
      }
    }
  }

  lemma {:induction false} VerdictsAgree(table: Contacts, rows: seq<ValidRow>, inserted: set<PhoneNumber>, k: nat)
    requires k <= |rows| && NumbersAscend(rows) && inserted == FirstRows(rows).Keys - table.Keys
    requires forall i | 0 <= i < |rows| :: rows[i].number in FirstRows(rows)
    ensures DuplicateRows(rows[..k], FirstRows(rows), inserted) == LoopDuplicates(table, rows[..k])
  {
    if k > 0 {
      VerdictsAgree(table, rows, inserted, k - 1);
      assert rows[..k][..k - 1] == rows[..k - 1];
      OneVerdictAgrees(table, rows, k - 1);
    }
  }

  // ---------------------------------------------------------------- the batched import

  method ReadRows(rows: seq<Row>, reader: Reader) returns (valid: seq<ValidRow>, invalid: seq<Failure>)
    ensures valid == ValidRows(rows, reader) && invalid == InvalidRows(rows, reader)
  {
    valid, invalid := [], [];
    for rowIndex := 0 to |rows|
      invariant valid == ValidRows(rows[..rowIndex], reader) && invalid == InvalidRows(rows[..rowIndex], reader)
    {
      assert rows[..rowIndex + 1][..rowIndex] == rows[..rowIndex];
      var read := ReadContact(reader, rowIndex + 2, rows[rowIndex]);
      if read.Err? {
        invalid := invalid + [Failure(rowIndex + 2, read.error)];
      } else {
        valid := valid + [read.value];
      }
    }
    assert rows[..|rows|] == rows;
  }

  method GroupFirst(valid: seq<ValidRow>) returns (first: map<PhoneNumber, ValidRow>, values: seq<ValidRow>)
    ensures first == FirstRows(valid) && values == FirstValues(valid)
  {
    first, values := map[], [];
    for i := 0 to |valid|
      invariant first == FirstRows(valid[..i]) && values == FirstValues(valid[..i])
    {
      assert valid[..i + 1][..i] == valid[..i];
      if valid[i].number !in first {
        first := first[valid[i].number := valid[i]];
        values := values + [valid[i]];
      }
    }
    assert valid[..|valid|] == valid;
  }

  /** One statement per chunk; what it returns are the numbers it inserted. */
  method InsertChunks(table: Contacts, unique: seq<ValidRow>) returns (after: Contacts, inserted: set<PhoneNumber>)
    requires Distinct(unique, KeyOf)
    ensures after == InsertAbsent(table, unique) && inserted == after.Keys - table.Keys
  {
    after, inserted := table, {};
    var batches := ChunkValues(unique, CHUNK_SIZE);
    for i := 0 to |batches|
      invariant after == InsertAbsent(table, Flatten(batches[..i]))
      invariant inserted == after.Keys - table.Keys
    {
      ChunksAreDistinct(unique, CHUNK_SIZE, KeyOf);
      assert Distinct(batches[i], KeyOf);
      var next := InsertAbsent(after, batches[i]);
      inserted := inserted + (next.Keys - after.Keys);
      InsertAbsentSplits(table, Flatten(batches[..i]), batches[i]);
      FlattenAppended(batches[..i], batches[i]);
      assert batches[..i + 1] == batches[..i] + [batches[i]];
      after := next;
    }
    assert batches[..|batches|] == batches;
    ChunksFlatten(unique, CHUNK_SIZE);
  }

  method FindDuplicates(valid: seq<ValidRow>, first: map<PhoneNumber, ValidRow>, inserted: set<PhoneNumber>)
    returns (duplicates: seq<Failure>)
    requires forall i | 0 <= i < |valid| :: valid[i].number in first
    ensures duplicates == DuplicateRows(valid, first, inserted)
  {
    duplicates := [];
    for i := 0 to |valid|
      invariant duplicates == DuplicateRows(valid[..i], first, inserted)
    {
      assert valid[..i + 1][..i] == valid[..i];
      if first[valid[i].number].rowNumber != valid[i].rowNumber || valid[i].number !in inserted {
        duplicates := duplicates + [Failure(valid[i].rowNumber, DUPLICATE)];
      }
    }
    assert valid[..|valid|] == valid;
  }

  /**
   importContactsFromCsv leaves the table, the count and the duplicate verdicts of the
   row-by-row loop: of several rows with one number the first wins, an existing contact
   is never touched, and every row is either imported or reported once.
   */
  method ImportContacts(table: Contacts, parsed: ParsedCsv, normalize: string -> Result<PhoneNumber, string>,
                        lower: string -> string)
    returns (r: Result<ImportResult, ImportError>)
    ensures FindColumn(parsed.headers, PHONE_COLUMNS, lower).None? ==> r == Err(NoPhoneColumn)
    ensures FindColumn(parsed.headers, PHONE_COLUMNS, lower).Some? && FindColumn(parsed.headers, NAME_COLUMNS, lower).None? ==>
              r == Err(NoNameColumn)
    ensures FindColumn(parsed.headers, PHONE_COLUMNS, lower).Some? && FindColumn(parsed.headers, NAME_COLUMNS, lower).Some? ==>
              var reader := Reader(parsed.headers, FindColumn(parsed.headers, PHONE_COLUMNS, lower).value,
                                   FindColumn(parsed.headers, NAME_COLUMNS, lower).value, normalize);
              var loop := LoopImport(table, parsed.rows, reader);
              && r.Ok?
              && r.value == ImportResult(loop.table, |parsed.rows|, loop.imported, |loop.invalid| + |loop.duplicates|,
                                         |loop.duplicates|, loop.invalid + loop.duplicates)
              && r.value.importedRows + r.value.failedRows == r.value.totalRows
  {
    var phone := FindColumn(parsed.headers, PHONE_COLUMNS, lower);
    if phone.None? {
      return Err(NoPhoneColumn);
    }
    var name := FindColumn(parsed.headers, NAME_COLUMNS, lower);
    if name.None? {
      return Err(NoNameColumn);
    }
    var reader := Reader(parsed.headers, phone.value, name.value, normalize);
    var result := ImportWith(table, parsed.rows, reader);
    return Ok(result);
  }

  method ImportWith(table: Contacts, rows: seq<Row>, reader: Reader) returns (r: ImportResult)
    ensures var loop := LoopImport(table, rows, reader);
            r == ImportResult(loop.table, |rows|, loop.imported, |loop.invalid| + |loop.duplicates|,
                              |loop.duplicates|, loop.invalid + loop.duplicates)
    ensures r.importedRows + r.failedRows == r.totalRows
  {
    hide LoopImport, ValidRows, InvalidRows, InsertAbsent, FirstRows, FirstValues, Sort, DuplicateRows, Distinct;
    var valid, invalid := ReadRows(rows, reader);
    var first, values := GroupFirst(valid);
    SortedFirstsSuffice(table, valid);
    var after, inserted := InsertChunks(table, Sort(values, KeyOf));
    FirstRowsCover(valid);
    BatchedIsLoop(table, rows, reader);
    var duplicates := FindDuplicates(valid, first, inserted);
    r := ImportResult(after, |rows|, |inserted|, |invalid| + |duplicates|, |duplicates|, invalid + duplicates);
  }

  /** Every output of the batched import, against the loop. */
  lemma BatchedIsLoop(table: Contacts, rows: seq<Row>, reader: Reader)
    ensures var valid := ValidRows(rows, reader);
            var inserted := InsertAbsent(table, valid).Keys - table.Keys;
            var loop := LoopImport(table, rows, reader);
            && (forall i | 0 <= i < |valid| :: valid[i].number in FirstRows(valid))
            && InsertAbsent(table, valid) == loop.table && InvalidRows(rows, reader) == loop.invalid
            && |inserted| == loop.imported && DuplicateRows(valid, FirstRows(valid), inserted) == loop.duplicates
            && loop.imported + |loop.invalid| + |loop.duplicates| == |rows|
  {
    hide LoopImport, ValidRows, InvalidRows, FirstRows, FirstValues, DuplicateRows, LoopDuplicates, InsertAbsent;
    var valid := ValidRows(rows, reader);
    var after := InsertAbsent(table, valid);
    FirstRowsCover(valid);
    LoopSplits(table, rows, reader);
    LoopCounts(table, rows, reader);
    ValidRowsAscend(rows, reader);
    InsertAbsentAddsFirsts(table, valid);
    assert after.Keys - table.Keys == FirstRows(valid).Keys - table.Keys;
    VerdictsAgree(table, valid, after.Keys - table.Keys, |valid|);
    assert valid[..|valid|] == valid;
    NewKeysCount(table, after);
  }

  lemma NewKeysCount(table: Contacts, after: Contacts)
    requires table.Keys <= after.Keys
    ensures |after.Keys - table.Keys| == |after| - |table|
  {
    assert after.Keys == (after.Keys - table.Keys) + table.Keys;
  }
}
