/**
 What the imports take from a table, rule by rule: how a column is recognised, what a
 row has to hold, and what becomes of it.
 */
module ImportRules {
  import opened Wrappers
  import opened JsText
  import opened CsvText
  import opened Batching
  import opened CsvImport
  import opened SuppressionImport

  // ---------------------------------------------------------------- column names

  predicate IsWord(c: char) {
    c in "abcdefghijklmnopqrstuvwxyz0123456789"
  }

  lemma WordCharsAreListed(c: char)
    ensures IsWordChar(c) == IsWord(c)
  {
    var letters := "abcdefghijklmnopqrstuvwxyz0123456789";
    if 'a' <= c <= 'z' {
      assert letters[c as int - 'a' as int] == c;
    }
    if '0' <= c <= '9' {
      assert letters[c as int - '0' as int + 26] == c;
    }
    forall k | 0 <= k < 36
      ensures 'a' <= letters[k] <= 'z' || '0' <= letters[k] <= '9'
    {
    }
  }

  predicate EndsInWord(s: string) {
    s != "" && IsWord(s[|s| - 1])
  }

  /** The words of a text: its longest runs of letters and digits. */
  function Words(s: string): (r: seq<string>)
    ensures EndsInWord(s) ==> r != []
  {
    if s == "" then []
    else
      var init := s[..|s| - 1];
      var c := s[|s| - 1];
      var before := Words(init);
      if !IsWord(c) then before
      else if EndsInWord(init) then before[..|before| - 1] + [before[|before| - 1] + [c]]
      else before + [[c]]
  }

  function Join(words: seq<string>): string {
    if words == [] then ""
    else if |words| == 1 then words[0]
    else Join(words[..|words| - 1]) + "_" + words[|words| - 1]
  }

  lemma JoinGrows(words: seq<string>, c: char)
    requires words != []
    ensures Join(words[..|words| - 1] + [words[|words| - 1] + [c]]) == Join(words) + [c]
  {
    var longer := words[..|words| - 1] + [words[|words| - 1] + [c]];
    assert longer[..|longer| - 1] == words[..|words| - 1];
  }

  lemma JoinOneMore(words: seq<string>, word: string)
    ensures Join(words + [word]) == if words == [] then word else Join(words) + "_" + word
  {
    assert (words + [word])[..|words|] == words;
  }

  /** An underscore in front when the text begins with something else than a word. */
  function Front(s: string): string {
    if s != "" && !IsWord(s[0]) && Words(s) != [] then "_" else ""
  }

  /** And one behind; a text without words is one underscore. */
  function Behind(s: string): string {
    if s != "" && !IsWord(s[|s| - 1]) then "_" else ""
  }

  lemma UnderscoreIsNoWord()
    ensures !IsWord('_')
  {
  }

  predicate AllWords(words: seq<string>) {
    forall i | 0 <= i < |words| :: words[i] != "" && IsWord(words[i][0]) && IsWord(words[i][|words[i]| - 1])
  }

  lemma {:induction false} JoinedEnds(words: seq<string>)
    requires words != [] && AllWords(words)
    ensures Join(words) != "" && IsWord(Join(words)[0]) && IsWord(Join(words)[|Join(words)| - 1])
    decreases |words|
  {
    hide IsWord;
    if |words| > 1 {
      JoinedEnds(words[..|words| - 1]);
    }
  }

  lemma {:induction false} WordsAreWords(s: string)
    ensures AllWords(Words(s))
  {
    hide IsWord;
    if s != "" {
      WordsAreWords(s[..|s| - 1]);
    }
  }

  /** What one more character does to the words. */
  lemma WordsGrow(s: string)
    requires s != ""
    ensures var (init, c) := (s[..|s| - 1], s[|s| - 1]);
            && (!IsWord(c) ==> Words(s) == Words(init))
            && (IsWord(c) && !EndsInWord(init) ==> Join(Words(s)) == if Words(init) == [] then [c] else Join(Words(init)) + "_" + [c])
            && (IsWord(c) && EndsInWord(init) ==> Words(init) != [] && Join(Words(s)) == Join(Words(init)) + [c])
            && (IsWord(c) ==> Words(s) != [])
  {
    hide IsWord, Join;
    var (init, c) := (s[..|s| - 1], s[|s| - 1]);
    if IsWord(c) {
      if EndsInWord(init) {
        JoinGrows(Words(init), c);
      } else {
        JoinOneMore(Words(init), [c]);
      }
    }
  }

  /** Collapsing a text, in the words of the text. */
  predicate Collapsed(s: string) {
    CollapseOthers(s) == Front(s) + Join(Words(s)) + Behind(s)
  }

  lemma FrontOf(s: string)
    requires s != "" && Words(s[..|s| - 1]) != []
    ensures Words(s) != [] && Front(s) == Front(s[..|s| - 1])
  {
    hide IsWord, Join;
  }

  lemma WordEnds(s: string)
    requires s != "" && IsWord(s[|s| - 1]) && Collapsed(s[..|s| - 1])
    ensures Collapsed(s)
  {
    hide IsWord, IsWordChar, Words, Join;
    var init := s[..|s| - 1];
    WordCharsAreListed(s[|s| - 1]);
    WordsGrow(s);
    NoWords();
    if Words(init) == [] {
      NoWordsNoLetters(init);
    } else {
      FrontOf(s);
    }
  }

  lemma OtherIsUnderscore(s: string)
    requires s != "" && !IsWord(s[|s| - 1])
    ensures var before := CollapseOthers(s[..|s| - 1]);
            CollapseOthers(s) == if before != "" && before[|before| - 1] == '_' then before else before + "_"
  {
    WordCharsAreListed(s[|s| - 1]);
    hide IsWord, IsWordChar;
  }

  lemma OtherEnds(s: string)
    requires s != "" && !IsWord(s[|s| - 1]) && Collapsed(s[..|s| - 1])
    ensures Collapsed(s)
  {
    hide IsWord, IsWordChar, Words, Join, CollapseOthers;
    var init := s[..|s| - 1];
    UnderscoreIsNoWord();
    OtherIsUnderscore(s);
    WordsGrow(s);
    WordsAreWords(init);
    NoWords();
    if Words(init) == [] {
      NoWordsNoLetters(init);
    } else {
      FrontOf(s);
      JoinedEnds(Words(init));
      var joined := Join(Words(init));
      assert EndsInWord(init) ==> CollapseOthers(init)[|CollapseOthers(init)| - 1] == joined[|joined| - 1];
    }
  }

  /** One underscore stands for every run of other characters. */
  lemma {:induction false} CollapsedIs(s: string)
    ensures Collapsed(s)
  {
    hide IsWord, Collapsed;
    if s == "" {
      assert Collapsed("") by {
        EmptyCollapses();
      }
    } else {
      CollapsedIs(s[..|s| - 1]);
      if IsWord(s[|s| - 1]) {
        WordEnds(s);
      } else {
        OtherEnds(s);
      }
    }
  }

  lemma EmptyCollapses()
    ensures Collapsed("")
  {
    NoWords();
  }

  lemma {:induction false} NoWordsNoLetters(s: string)
    ensures Words(s) == [] ==> forall i | 0 <= i < |s| :: !IsWord(s[i])
  {
    hide IsWord;
    if s != "" {
      NoWordsNoLetters(s[..|s| - 1]);
    }
  }

  lemma NoWords()
    ensures Words("") == [] && Join([]) == ""
  {
  }

  lemma StripOne(s: string)
    requires s == "" || (IsWord(s[0]) && IsWord(s[|s| - 1]))
    ensures StripUnderscores(s) == s && StripUnderscores("_" + s) == s && StripUnderscores(s + "_") == s
    ensures StripUnderscores("_" + s + "_") == s
  {
    UnderscoreIsNoWord();
    hide IsWord;
    assert ("_" + s)[1..] == s;
    assert ("_" + s + "_")[1..] == s + "_";
    if s != "" {
      assert (s + "_")[..|s|] == s;
      assert StripUnderscores(s) == s;
      assert StripUnderscores(s + "_") == s;
    } else {
      assert "_"[1..] == "";
      assert StripUnderscores("") == "";
      assert StripUnderscores("_") == "";
    }
  }

  /** A column's name is the words of its header, in small letters, joined by underscores. */
  lemma HeaderIsItsWords(header: string, lower: string -> string)
    ensures NormalizeHeader(header, lower) == Join(Words(lower(Trim(header))))
  {
    hide IsWord, Words, Join, CollapseOthers, StripUnderscores, Trim;
    var text := lower(Trim(header));
    CollapsedIs(text);
    WordsAreWords(text);
    if Words(text) == [] {
      NoWords();
    } else {
      JoinedEnds(Words(text));
    }
    StripOne(Join(Words(text)));
    var joined := Join(Words(text));
    assert "" + joined + "" == joined && "_" + joined + "" == "_" + joined && "" + joined + "_" == joined + "_";
  }

  // ---------------------------------------------------------------- the columns

  const PHONE_NAMES: set<string> := {"phone", "phone_number", "number", "mobile", "cell"}
  const NAME_NAMES: set<string> := {"name", "full_name", "contact", "display_name"}
  const REASON_NAMES: set<string> := {"reason", "note", "notes"}

  /** The column an import uses is the first whose words are one of the names. */
  ghost predicate FirstColumn(headers: Row, names: set<string>, lower: string -> string, column: Option<nat>) {
    if column.Some? then
      && column.value < |headers| && Join(Words(lower(Trim(headers[column.value])))) in names
      && forall i | 0 <= i < column.value :: Join(Words(lower(Trim(headers[i])))) !in names
    else forall i | 0 <= i < |headers| :: Join(Words(lower(Trim(headers[i])))) !in names
  }

  lemma FoundColumnIsFirst(headers: Row, candidates: seq<string>, names: set<string>, lower: string -> string)
    requires forall n :: n in candidates <==> n in names
    ensures FirstColumn(headers, names, lower, FindColumn(headers, candidates, lower))
  {
    forall i | 0 <= i < |headers|
      ensures NormalizeHeaders(headers, lower)[i] == Join(Words(lower(Trim(headers[i]))))
    {
      HeaderIsItsWords(headers[i], lower);
    }
    hide NormalizeHeader, Join, Words, Trim, FirstIn;
  }

  lemma ColumnsAreFound(headers: Row, lower: string -> string)
    ensures FirstColumn(headers, PHONE_NAMES, lower, FindColumn(headers, PHONE_COLUMNS, lower))
    ensures FirstColumn(headers, NAME_NAMES, lower, FindColumn(headers, NAME_COLUMNS, lower))
    ensures FirstColumn(headers, REASON_NAMES, lower, FindColumn(headers, REASON_COLUMNS, lower))
  {
    hide FirstColumn, FindColumn;
    FoundColumnIsFirst(headers, PHONE_COLUMNS, PHONE_NAMES, lower);
    FoundColumnIsFirst(headers, NAME_COLUMNS, NAME_NAMES, lower);
    FoundColumnIsFirst(headers, REASON_COLUMNS, REASON_NAMES, lower);
  }

  // ---------------------------------------------------------------- the rows

  /** The trimmed cell of a column, or nothing when the row is shorter. */
  function Cell(row: Row, column: nat): string {
    if column >= |row| then "" else Trim(row[column])
  }

  /** The last column with this header. */
  function LastColumn(headers: Row, header: string): Option<nat> {
    if headers == [] then None
    else if headers[|headers| - 1] == header then Some(|headers| - 1)
    else LastColumn(headers[..|headers| - 1], header)
  }

  /** Every header's cell is that of its last column. */
  ghost predicate FieldsOf(headers: Row, row: Row, fields: map<string, string>) {
    forall h ::
      && (h in fields <==> LastColumn(headers, h).Some?)
      && (h in fields ==> fields[h] == Cell(row, LastColumn(headers, h).value))
  }

  lemma {:induction false} FieldsAreCells(headers: Row, row: Row)
    ensures FieldsOf(headers, row, MappedFields(headers, row))
    decreases |headers|
  {
    hide Trim;
    if headers != [] {
      FieldsAreCells(headers[..|headers| - 1], row);
    }
  }

  /**
   A row of a contact import: without a name it is refused for that, whatever its
   number; with one the normaliser decides; a valid row has its number, the phone and
   name as they stand in the row, and every cell under its header.
   */
  lemma ContactRowMeans(reader: Reader, rowNumber: nat, row: Row)
    ensures var r := ReadContact(reader, rowNumber, row);
            var number := reader.normalize(Cell(row, reader.phone));
            if Cell(row, reader.name) == "" then r == Err("Name is required")
            else if number.Err? then r == Err(number.error)
            else
              && r.Ok? && r.value.rowNumber == rowNumber && r.value.number == number.value
              && r.value.contact.phone == Cell(row, reader.phone) && r.value.contact.name == Cell(row, reader.name)
              && FieldsOf(reader.headers, row, r.value.contact.fields)
  {
    FieldsAreCells(reader.headers, row);
    hide MappedFields, FieldsOf, Trim;
  }

  /** A row of a suppression import: the normaliser decides; a missing or empty reason becomes the standard one. */
  lemma SuppressionRowMeans(reader: EntryReader, rowNumber: nat, row: Row)
    ensures var r := ReadEntry(reader, rowNumber, row);
            var number := reader.normalize(Cell(row, reader.phone));
            if number.Err? then r == Err(number.error)
            else
              && r.Ok? && r.value.rowNumber == rowNumber && r.value.number == number.value
              && r.value.entry.phone == Cell(row, reader.phone) && r.value.entry.createdBy == reader.actor
              && (reader.reason.Some? && Cell(row, reader.reason.value) != "" ==> r.value.entry.reason == Cell(row, reader.reason.value))
              && (reader.reason.None? || Cell(row, reader.reason.value) == "" ==> r.value.entry.reason == "Suppression CSV import")
  {
    hide Trim;
  }
}
