/**
 dashboard/csv.ts importSuppressionFromCsv: an upsert in batches of the last row of
 every number, against upserting row by row.
 */
module SuppressionImport {
  import opened Wrappers
  import opened JsText
  import opened CsvText
  import opened Batching
  import opened CsvImport

  type UserId = nat

  datatype Entry = Entry(phone: string, reason: string, createdBy: UserId)

  type Entries = map<PhoneNumber, Entry>

  datatype EntryRow = EntryRow(rowNumber: nat, number: PhoneNumber, entry: Entry)

  datatype EntryReader = EntryReader(phone: nat, reason: Option<nat>, actor: UserId,
                                     normalize: string -> Result<PhoneNumber, string>)

  const DEFAULT_REASON := "Suppression CSV import"

  function ReadEntry(reader: EntryReader, rowNumber: nat, row: Row): Result<EntryRow, string> {
    var phone := CellAt(row, reader.phone);
    var given := if reader.reason.Some? then CellAt(row, reader.reason.value) else "";
    match reader.normalize(phone)
    case Err(reason) => Err(reason)
    case Ok(number) =>
      Ok(EntryRow(rowNumber, number, Entry(phone, if given == "" then DEFAULT_REASON else given, reader.actor)))
  }

  // ---------------------------------------------------------------- the row-by-row import

  datatype UpsertLoop = UpsertLoop(table: Entries, inserted: nat, updated: nat, failures: seq<Failure>, events: seq<EntryRow>)

  /** One upsert and one audit event per valid row. */
  function LoopUpsert(table: Entries, rows: seq<Row>, reader: EntryReader): UpsertLoop {
    if rows == [] then UpsertLoop(table, 0, 0, [], [])
    else
      var before := LoopUpsert(table, rows[..|rows| - 1], reader);
      match ReadEntry(reader, |rows| + 1, rows[|rows| - 1])
      case Err(reason) => before.(failures := before.failures + [Failure(|rows| + 1, reason)])
      case Ok(row) =>
        before.(table := before.table[row.number := row.entry],
                inserted := before.inserted + if row.number in before.table then 0 else 1,
                updated := before.updated + if row.number in before.table then 1 else 0,
                events := before.events + [row])
  }

  // ---------------------------------------------------------------- the pieces of the batched import

  function KeyOfEntry(row: EntryRow): PhoneNumber {
    row.number
  }

  /** latestByNumber */
  function LastRows(rows: seq<EntryRow>): map<PhoneNumber, EntryRow> {
    if rows == [] then map[] else LastRows(rows[..|rows| - 1])[rows[|rows| - 1].number := rows[|rows| - 1]]
  }

  /** The map's keys in the order they were first set. */
  function KeysInOrder(rows: seq<EntryRow>): seq<PhoneNumber> {
    if rows == [] then []
    else
      var before := KeysInOrder(rows[..|rows| - 1]);
      if rows[|rows| - 1].number in LastRows(rows[..|rows| - 1]) then before else before + [rows[|rows| - 1].number]
  }

  lemma {:induction false} KeysAreLastRows(rows: seq<EntryRow>)
    ensures forall i | 0 <= i < |KeysInOrder(rows)| :: KeysInOrder(rows)[i] in LastRows(rows)
    ensures forall n | n in LastRows(rows) :: n in KeysInOrder(rows) && LastRows(rows)[n].number == n
    ensures forall i, j | 0 <= i < j < |KeysInOrder(rows)| :: KeysInOrder(rows)[i] != KeysInOrder(rows)[j]
  {
    if rows != [] {
      KeysAreLastRows(rows[..|rows| - 1]);
    }
  }

  /** [...latestByNumber.values()] */
  function LastValues(rows: seq<EntryRow>): (values: seq<EntryRow>)
    ensures |values| == |KeysInOrder(rows)|
    ensures forall i | 0 <= i < |values| :: KeysInOrder(rows)[i] in LastRows(rows) && values[i] == LastRows(rows)[KeysInOrder(rows)[i]]
  {
    KeysAreLastRows(rows);
    seq(|KeysInOrder(rows)|, i requires 0 <= i < |KeysInOrder(rows)| => LastRows(rows)[KeysInOrder(rows)[i]])
  }

  /** insert ... on conflict do update, in the order of the input rows. */
  function Upsert(table: Entries, rows: seq<EntryRow>): (r: Entries)
    ensures table.Keys <= r.Keys
  {
    if rows == [] then table else Upsert(table, rows[..|rows| - 1])[rows[|rows| - 1].number := rows[|rows| - 1].entry]
  }

  /** The statement; PostgreSQL refuses to update one row twice in it. */
  ghost function UpsertStatement(table: Entries, rows: seq<EntryRow>): Option<Entries> {
    if Distinct(rows, KeyOfEntry) then Some(Upsert(table, rows)) else None
  }

  function EntriesOf(last: map<PhoneNumber, EntryRow>): Entries {
    map n | n in last :: last[n].entry
  }

  // ---------------------------------------------------------------- upserting last rows is upserting every row

  lemma {:induction false} UpsertSetsLasts(table: Entries, rows: seq<EntryRow>)
    ensures Upsert(table, rows) == table + EntriesOf(LastRows(rows))
  {
    if rows == [] {
      assert EntriesOf(LastRows(rows)) == map[];
    } else {
      UpsertSetsLasts(table, rows[..|rows| - 1]);
    }
  }

  lemma {:induction false} UpsertSplits(table: Entries, a: seq<EntryRow>, b: seq<EntryRow>)
    ensures Upsert(table, a + b) == Upsert(Upsert(table, a), b)
  {
    if b == [] {
      assert a + b == a;
    } else {
      UpsertSplits(table, a, b[..|b| - 1]);
      assert (a + b)[..|a + b| - 1] == a + b[..|b| - 1];
    }
  }

  lemma {:induction false} DistinctAreLast(rows: seq<EntryRow>)
    requires Distinct(rows, KeyOfEntry)
    ensures forall i | 0 <= i < |rows| :: rows[i].number in LastRows(rows) && LastRows(rows)[rows[i].number] == rows[i]
    ensures forall n | n in LastRows(rows) :: exists i :: 0 <= i < |rows| && rows[i].number == n
  {
    if rows != [] {
      var init := rows[..|rows| - 1];
      assert forall i | 0 <= i < |init| :: init[i] == rows[i];
      DistinctAreLast(init);
      forall i | 0 <= i < |init|
        ensures KeyOfEntry(rows[i]) != KeyOfEntry(rows[|rows| - 1])
      {
      }
    }
  }

  lemma SameLasts(rows: seq<EntryRow>, sorted: seq<EntryRow>)
    requires multiset(sorted) == multiset(LastValues(rows)) && Distinct(sorted, KeyOfEntry)
    ensures LastRows(sorted) == LastRows(rows)
  {
    hide LastRows, KeysInOrder, Distinct;
    KeysAreLastRows(rows);
    DistinctAreLast(sorted);
    var values := LastValues(rows);
    forall n | n in LastRows(rows)
      ensures n in LastRows(sorted) && LastRows(sorted)[n] == LastRows(rows)[n]
    {
      var i :| 0 <= i < |KeysInOrder(rows)| && KeysInOrder(rows)[i] == n;
      assert values[i] in multiset(values);
      assert values[i] in sorted;
      assert values[i].number == n;
    }
    forall n | n in LastRows(sorted)
      ensures n in LastRows(rows)
    {
      var i :| 0 <= i < |sorted| && sorted[i].number == n;
      assert sorted[i] in multiset(sorted);
      assert sorted[i] in values;
    }
  }

  lemma SortedLastsSuffice(table: Entries, rows: seq<EntryRow>)
    ensures Distinct(Sort(LastValues(rows), KeyOfEntry), KeyOfEntry)
    ensures LastRows(Sort(LastValues(rows), KeyOfEntry)) == LastRows(rows)
    ensures Upsert(table, Sort(LastValues(rows), KeyOfEntry)) == Upsert(table, rows)
  {
    var values := LastValues(rows);
    var sorted := Sort(values, KeyOfEntry);
    KeysAreLastRows(rows);
    assert Distinct(values, KeyOfEntry);
    SortAscends(values, KeyOfEntry);
    AscendingIsDistinct(sorted, KeyOfEntry);
    SortPermutes(values, KeyOfEntry);
    SameLasts(rows, sorted);
    UpsertSetsLasts(table, rows);
    UpsertSetsLasts(table, sorted);
  }

  lemma {:induction false} LoopIsUpsert(table: Entries, rows: seq<Row>, reader: EntryReader)
    ensures var loop := LoopUpsert(table, rows, reader);
            && loop.table == Upsert(table, loop.events)
            && loop.inserted + |table| == |loop.table|
            && loop.inserted + loop.updated == |loop.events|
            && |loop.events| + |loop.failures| == |rows|
  {
    hide ReadEntry;
    if rows != [] {
      var init := rows[..|rows| - 1];
      LoopIsUpsert(table, init, reader);
      var before := LoopUpsert(table, init, reader);
      var read := ReadEntry(reader, |rows| + 1, rows[|rows| - 1]);
      if read.Ok? {
        assert (before.events + [read.value])[..|before.events|] == before.events;
      }
    }
  }

  // ---------------------------------------------------------------- the batched import

  method ReadEntries(rows: seq<Row>, reader: EntryReader) returns (valid: seq<EntryRow>, failures: seq<Failure>)
    ensures valid == LoopUpsert(map[], rows, reader).events && failures == LoopUpsert(map[], rows, reader).failures
  {
    valid, failures := [], [];
    for rowIndex := 0 to |rows|
      invariant valid == LoopUpsert(map[], rows[..rowIndex], reader).events
      invariant failures == LoopUpsert(map[], rows[..rowIndex], reader).failures
    {
      assert rows[..rowIndex + 1][..rowIndex] == rows[..rowIndex];
      var read := ReadEntry(reader, rowIndex + 2, rows[rowIndex]);
      if read.Err? {
        failures := failures + [Failure(rowIndex + 2, read.error)];
      } else {
        valid := valid + [read.value];
      }
    }
    assert rows[..|rows|] == rows;
  }

  /** Which rows are valid does not depend on the table. */
  lemma {:induction false} EventsIgnoreTable(a: Entries, b: Entries, rows: seq<Row>, reader: EntryReader)
    ensures LoopUpsert(a, rows, reader).events == LoopUpsert(b, rows, reader).events
    ensures LoopUpsert(a, rows, reader).failures == LoopUpsert(b, rows, reader).failures
  {
    hide ReadEntry;
    if rows != [] {
      EventsIgnoreTable(a, b, rows[..|rows| - 1], reader);
    }
  }

  method GroupLast(valid: seq<EntryRow>) returns (last: map<PhoneNumber, EntryRow>, keys: seq<PhoneNumber>)
    ensures last == LastRows(valid) && keys == KeysInOrder(valid)
  {
    last, keys := map[], [];
    for i := 0 to |valid|
      invariant last == LastRows(valid[..i]) && keys == KeysInOrder(valid[..i])
    {
      assert valid[..i + 1][..i] == valid[..i];
      if valid[i].number !in last {
        keys := keys + [valid[i].number];
      }
      last := last[valid[i].number := valid[i]];
    }
    assert valid[..|valid|] == valid;
  }

  lemma ChunkFollows(table: Entries, batches: seq<seq<EntryRow>>, i: nat)
    requires i < |batches|
    ensures Upsert(Upsert(table, Flatten(batches[..i])), batches[i]) == Upsert(table, Flatten(batches[..i + 1]))
  {
    UpsertSplits(table, Flatten(batches[..i]), batches[i]);
    FlattenAppended(batches[..i], batches[i]);
    assert batches[..i + 1] == batches[..i] + [batches[i]];
  }

  /** The statement's effect, and the number of rows it returns as inserted. */
  method RunStatement(table: Entries, rows: seq<EntryRow>) returns (after: Entries, added: nat)
    requires UpsertStatement(table, rows).Some?
    ensures UpsertStatement(table, rows) == Some(after) && added + |table| == |after|
  {
    after := Upsert(table, rows);
    NewEntriesCount(table, after);
    added := |after.Keys - table.Keys|;
  }

  /** One statement per chunk; none of them updates a row twice, so none is refused. */
  method UpsertChunks(table: Entries, unique: seq<EntryRow>) returns (after: Entries, inserted: nat)
    requires Distinct(unique, KeyOfEntry)
    ensures after == Upsert(table, unique) && inserted + |table| == |after|
    ensures forall i | 0 <= i < |Chunks(unique, CHUNK_SIZE)| ::
              UpsertStatement(Upsert(table, Flatten(Chunks(unique, CHUNK_SIZE)[..i])), Chunks(unique, CHUNK_SIZE)[i]).Some?
  {
    after, inserted := table, 0;
    var batches := ChunkValues(unique, CHUNK_SIZE);
    assert Upsert(table, Flatten(batches[..0])) == table;
    ChunksAreDistinct(unique, CHUNK_SIZE, KeyOfEntry);
    ChunksFlatten(unique, CHUNK_SIZE);
    assert batches[..|batches|] == batches;
    hide Upsert, Flatten, Chunks, Distinct;
    assert forall i | 0 <= i < |batches| :: Distinct(batches[i], KeyOfEntry);
    for i := 0 to |batches|
      invariant after == Upsert(table, Flatten(batches[..i])) && inserted + |table| == |after|
    {
      assert Distinct(batches[i], KeyOfEntry);
      ChunkFollows(table, batches, i);
      var added: nat;
      after, added := RunStatement(after, batches[i]);
      inserted := inserted + added;
    }
  }

  lemma NewEntriesCount(table: Entries, after: Entries)
    requires table.Keys <= after.Keys
    ensures |after.Keys - table.Keys| == |after| - |table|
  {
    assert after.Keys == (after.Keys - table.Keys) + table.Keys;
  }

  /** What a completed import reports and leaves behind; only the first failures are reported, all are counted. */
  datatype SuppressionResult = SuppressionResult(
    table: Entries,
    events: seq<EntryRow>,
    totalRows: nat,
    importedRows: nat,
    updatedRows: nat,
    failedRows: nat,
    failures: seq<Failure>
  )

  const REPORTED_FAILURES: nat := 50

  /** failures.slice(0, 50) */
  function Reported(failures: seq<Failure>): (r: seq<Failure>)
    ensures r <= failures && |r| <= REPORTED_FAILURES && (|failures| <= REPORTED_FAILURES ==> r == failures)
  {
    if |failures| <= REPORTED_FAILURES then failures else failures[..REPORTED_FAILURES]
  }

  /**
   The import of the rows leaves the table of the row-by-row upsert, where the last
   row of a number wins, counts the numbers it added as imported and every other
   valid row as an update, and logs one event per valid row about an entry that exists.
   */
  method ImportRows(table: Entries, rows: seq<Row>, reader: EntryReader) returns (r: SuppressionResult)
    ensures var loop := LoopUpsert(table, rows, reader);
            && r == SuppressionResult(loop.table, loop.events, |rows|, loop.inserted, loop.updated, |loop.failures|,
                                      Reported(loop.failures))
            && r.importedRows + r.updatedRows + r.failedRows == r.totalRows
            && forall i | 0 <= i < |r.events| :: r.events[i].number in r.table
  {
    hide Upsert, LastRows, KeysInOrder, Sort, Distinct;
    var valid, failures := ReadEntries(rows, reader);
    EventsIgnoreTable(map[], table, rows, reader);
    LoopIsUpsert(table, rows, reader);
    UpsertCovers(table, valid);
    if valid == [] {
      return SuppressionResult(table, [], |rows|, 0, 0, |failures|, Reported(failures));
    }
    var last, keys := GroupLast(valid);
    KeysAreLastRows(valid);
    var values := seq(|keys|, i requires 0 <= i < |keys| => last[keys[i]]);
    assert values == LastValues(valid);
    SortedLastsSuffice(table, valid);
    var after, inserted := UpsertChunks(table, Sort(values, KeyOfEntry));
    r := SuppressionResult(after, valid, |rows|, inserted, |valid| - inserted, |failures|, Reported(failures));
  }

  /**
   importSuppressionFromCsv: refused exactly without a phone column; otherwise the
   row-by-row upsert with the columns found by name, a reason column being optional.
   */
  method ImportSuppression(table: Entries, parsed: ParsedCsv, actor: UserId,
                           normalize: string -> Result<PhoneNumber, string>, lower: string -> string)
    returns (r: Result<SuppressionResult, ImportError>)
    ensures FindColumn(parsed.headers, PHONE_COLUMNS, lower).None? <==> r == Err(NoPhoneColumn)
    ensures FindColumn(parsed.headers, PHONE_COLUMNS, lower).Some? ==>
              var reader := EntryReader(FindColumn(parsed.headers, PHONE_COLUMNS, lower).value,
                                        FindColumn(parsed.headers, REASON_COLUMNS, lower), actor, normalize);
              var loop := LoopUpsert(table, parsed.rows, reader);
              && r.Ok?
              && r.value == SuppressionResult(loop.table, loop.events, |parsed.rows|, loop.inserted, loop.updated,
                                              |loop.failures|, Reported(loop.failures))
              && r.value.importedRows + r.value.updatedRows + r.value.failedRows == r.value.totalRows
              && forall i | 0 <= i < |r.value.events| :: r.value.events[i].number in r.value.table
  {
    hide LoopUpsert;
    var phone := FindColumn(parsed.headers, PHONE_COLUMNS, lower);
    if phone.None? {
      return Err(NoPhoneColumn);
    }
    var reason := FindColumn(parsed.headers, REASON_COLUMNS, lower);
    var result := ImportRows(table, parsed.rows, EntryReader(phone.value, reason, actor, normalize));
    return Ok(result);
  }

  lemma {:induction false} UpsertCovers(table: Entries, rows: seq<EntryRow>)
    ensures forall i | 0 <= i < |rows| :: rows[i].number in Upsert(table, rows)
    ensures rows == [] ==> Upsert(table, rows) == table
  {
    if rows != [] {
      UpsertCovers(table, rows[..|rows| - 1]);
    }
  }
}
