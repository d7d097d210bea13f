/** The server actions that turn submitted data into stored words: the
    add-word form's validation, the spreadsheet imports (from rows already
    decoded into header cells and column-to-cell maps), and the small guards
    around reads and deletes. The database calls themselves are outside the
    model. */
module VocabularyImport {
  import opened Common
  import DefinitionForm

  datatype Result<T> = Ok(value: T) | Err(message: string)

  const WordColumn: string := "단어"
  const MeaningPrefix: string := "의미"
  const PartOfSpeechPrefix: string := "품사"
  const MeaningColumn: string := "의미"
  /** `item[undefined]` reads the property named "undefined". */
  const UndefinedKey: string := "undefined"

  const NoWordMessage: string := "단어를 입력해주세요."
  const NoDefinitionMessage: string := "적어도 하나의 뜻을 입력해주세요."
  const BadHeaderMessage: string := "올바른 엑셀 파일이 아닙니다. '단어' 열이 있어야 합니다."
  const NoIdMessage: string := "삭제할 단어의 ID가 필요합니다."
  const NoFileMessage: string := "파일이 필요합니다."

  // -----------------------------------------------------------------------
  // The add-word form

  predicate Blank(s: string)
  {
    Trim(s) == ""
  }

  /** `createVocabulary`: rejects a missing word, then a form without
      definitions or with a blank one; otherwise pairs each definition with
      the part of speech at the same position, `""` when there is none. */
  function CreateDefinitions(word: string, definitions: seq<string>, parts: seq<string>): (r: Result<seq<Definition>>)
    ensures r.Ok? <==> word != "" && |definitions| > 0 && forall i :: 0 <= i < |definitions| ==> !Blank(definitions[i])
    ensures word == "" ==> r == Err(NoWordMessage)
    ensures word != "" && r.Err? ==> r == Err(NoDefinitionMessage)
    ensures r.Ok? ==> |r.value| == |definitions|
    ensures r.Ok? ==> forall i :: 0 <= i < |definitions| ==> r.value[i].definition == definitions[i]
    ensures r.Ok? ==> forall i :: 0 <= i < |definitions| ==>
              r.value[i].partOfSpeech == Some(if i < |parts| then parts[i] else "")
  {
    if word == "" then Err(NoWordMessage)
    else if |definitions| == 0 || exists i | 0 <= i < |definitions| :: Blank(definitions[i]) then
      Err(NoDefinitionMessage)
    else
      Ok(seq(|definitions|, i requires 0 <= i < |definitions| =>
        Definition(definitions[i], Some(if i < |parts| && parts[i] != "" then parts[i] else ""))))
  }

  function FieldTexts(fields: seq<DefinitionForm.DefinitionField>): seq<string>
  {
    seq(|fields|, i requires 0 <= i < |fields| => fields[i].definition)
  }

  function FieldParts(fields: seq<DefinitionForm.DefinitionField>): seq<string>
  {
    seq(|fields|, i requires 0 <= i < |fields| => fields[i].partOfSpeech)
  }

  /** The add-word form submits its entries in order; a filled form is
      stored entry by entry, each definition with its own part of speech. */
  lemma FilledFormIsStored(word: string, fields: seq<DefinitionForm.DefinitionField>)
    requires word != "" && DefinitionForm.WellNumbered(fields)
    requires forall i :: 0 <= i < |fields| ==> !Blank(fields[i].definition)
    ensures var r := CreateDefinitions(word, FieldTexts(fields), FieldParts(fields));
            r.Ok? && |r.value| == |fields| &&
            forall i :: 0 <= i < |fields| ==>
              r.value[i] == Definition(fields[i].definition, Some(fields[i].partOfSpeech))
  {
  }

  /** A single blank entry rejects the whole form. */
  lemma BlankEntryRejects(word: string, fields: seq<DefinitionForm.DefinitionField>, k: nat)
    requires word != "" && k < |fields| && Blank(fields[k].definition)
    ensures CreateDefinitions(word, FieldTexts(fields), FieldParts(fields)) == Err(NoDefinitionMessage)
  {
    assert FieldTexts(fields)[k] == fields[k].definition;
  }

  // -----------------------------------------------------------------------
  // Guards

  /** `deleteVocabulary` (in both action files): an id is required. */
  function DeleteRequest(id: string): (r: Result<string>)
    ensures r.Ok? <==> id != ""
    ensures r.Ok? ==> r.value == id
    ensures r.Err? ==> r.message == NoIdMessage
  {
    if id == "" then Err(NoIdMessage) else Ok(id)
  }

  /** `getVocabularyBook`: a missing query result reads as no books. */
  function BooksOrEmpty(data: Option<seq<Book>>): (r: seq<Book>)
    ensures data.None? ==> r == []
    ensures data.Some? ==> r == data.value
  {
    match data
    case None => []
    case Some(d) => d
  }

  // -----------------------------------------------------------------------
  // Spreadsheet import

  /** A decoded row: the header cell of each non-empty cell, mapped to its text. */
  type Row = map<string, string>

  datatype Columns = Columns(meaningKeys: seq<string>, partOfSpeechKeys: seq<string>)

  /** A definition as an import stores it; a missing cell is absent. */
  datatype ImportedDefinition = ImportedDefinition(definition: Option<string>, partOfSpeech: Option<string>)

  datatype ImportedWord =
    | ChapterWord(word: Option<string>, definitions: seq<ImportedDefinition>, book: string,
                  chapterId: Option<string>, count: int)
    | NamedChapterWord(word: Option<string>, definitions: seq<ImportedDefinition>, book: string,
                       chapter: string)

  /** An uploaded spreadsheet as its first sheet reads: the header row, if
      there is one, and the data rows. */
  datatype Upload = Upload(header: Option<seq<string>>, rows: seq<Row>)

  function Cell(row: Row, key: string): Option<string>
  {
    if key in row then Some(row[key]) else None
  }

  /** A cell that is there and not empty (truthy). */
  predicate Filled(row: Row, key: string)
  {
    key in row && row[key] != ""
  }

  /** The header check and the column detection: the first row must hold a
      "단어" cell; meaning and part-of-speech columns are the header cells
      starting with "의미" and "품사", in header order. */
  function HeaderColumns(header: Option<seq<string>>): (r: Result<Columns>)
    ensures r.Ok? <==> header.Some? && WordColumn in header.value
    ensures r.Err? ==> r.message == BadHeaderMessage
    ensures r.Ok? ==> forall k :: k in r.value.meaningKeys <==> k in header.value && IsPrefix(MeaningPrefix, k)
    ensures r.Ok? ==> forall k :: k in r.value.partOfSpeechKeys <==> k in header.value && IsPrefix(PartOfSpeechPrefix, k)
    ensures r.Ok? ==> |r.value.meaningKeys| <= |header.value| && |r.value.partOfSpeechKeys| <= |header.value|
  {
    if header.None? || WordColumn !in header.value then Err(BadHeaderMessage)
    else
      Ok(Columns(Filter(header.value, (k: string) => IsPrefix(MeaningPrefix, k)),
                 Filter(header.value, (k: string) => IsPrefix(PartOfSpeechPrefix, k))))
  }

  /** The part-of-speech column paired with meaning column `i`. */
  function PartOfSpeechKeyAt(cols: Columns, i: nat): string
  {
    if i < |cols.partOfSpeechKeys| then cols.partOfSpeechKeys[i] else UndefinedKey
  }

  predicate PairFilled(row: Row, cols: Columns, i: nat)
    requires i < |cols.meaningKeys|
  {
    Filled(row, cols.meaningKeys[i]) && Filled(row, PartOfSpeechKeyAt(cols, i))
  }

  function PairAt(row: Row, cols: Columns, i: nat): ImportedDefinition
    requires i < |cols.meaningKeys| && PairFilled(row, cols, i)
  {
    ImportedDefinition(Some(row[cols.meaningKeys[i]]), Some(row[PartOfSpeechKeyAt(cols, i)]))
  }

  /** The definitions the first `n` meaning columns contribute to a row. */
  function RowDefinitions(row: Row, cols: Columns, n: nat): seq<ImportedDefinition>
    requires n <= |cols.meaningKeys|
  {
    if n == 0 then []
    else RowDefinitions(row, cols, n - 1) +
         (if PairFilled(row, cols, n - 1) then [PairAt(row, cols, n - 1)] else [])
  }

  /** A row keeps exactly the pairs whose two cells are both filled. */
  lemma {:induction false} RowDefinitionsExactly(row: Row, cols: Columns, n: nat, d: ImportedDefinition)
    requires n <= |cols.meaningKeys|
    ensures d in RowDefinitions(row, cols, n) <==>
            exists i :: 0 <= i < n && PairFilled(row, cols, i) && d == PairAt(row, cols, i)
  {
    if n > 0 {
      RowDefinitionsExactly(row, cols, n - 1, d);
    }
  }

  /** Unless a column is literally named "undefined", a row has no more
      definitions than there are part-of-speech columns. */
  lemma {:induction false} RowDefinitionsBounded(row: Row, cols: Columns, n: nat)
    requires n <= |cols.meaningKeys| && UndefinedKey !in row
    ensures |RowDefinitions(row, cols, n)| <= Min(n, |cols.partOfSpeechKeys|)
  {
    if n > 0 {
      RowDefinitionsBounded(row, cols, n - 1);
    }
  }

  /** The row loop: walk the meaning columns, keeping a definition when its
      meaning cell and its paired part-of-speech cell are both filled. */
  method ParseRowDefinitions(row: Row, cols: Columns) returns (defs: seq<ImportedDefinition>)
    ensures defs == RowDefinitions(row, cols, |cols.meaningKeys|)
    ensures UndefinedKey !in row ==> |defs| <= Min(|cols.meaningKeys|, |cols.partOfSpeechKeys|)
  {
    defs := [];
    var i := 0;
    while i < |cols.meaningKeys|
      invariant 0 <= i <= |cols.meaningKeys|
      invariant defs == RowDefinitions(row, cols, i)
    {
      var meaningKey := cols.meaningKeys[i];
      var partOfSpeechKey := PartOfSpeechKeyAt(cols, i);
      if Filled(row, meaningKey) && Filled(row, partOfSpeechKey) {
        defs := defs + [ImportedDefinition(Some(row[meaningKey]), Some(row[partOfSpeechKey]))];
      }
      i := i + 1;
    }
    if UndefinedKey !in row {
      RowDefinitionsBounded(row, cols, |cols.meaningKeys|);
    }
  }

  function FileRecord(row: Row, cols: Columns, book: string, chapterId: Option<string>): ImportedWord
  {
    ChapterWord(Cell(row, WordColumn), RowDefinitions(row, cols, |cols.meaningKeys|), book, chapterId, 0)
  }

  /** `createVocabularyFromFile` in the vocabulary actions: after the file
      and header checks, one record per row, with a count of 0, the given
      book and the chapter found or created for it. */
  method ImportFile(file: Option<Upload>, book: string, chapterId: Option<string>)
    returns (r: Result<seq<ImportedWord>>)
    ensures file.None? ==> r == Err(NoFileMessage)
    ensures file.Some? ==> (r.Err? <==> HeaderColumns(file.value.header).Err?)
    ensures file.Some? && r.Err? ==> r.message == BadHeaderMessage
    ensures r.Ok? ==> file.Some? && |r.value| == |file.value.rows|
    ensures r.Ok? ==> forall j :: 0 <= j < |file.value.rows| ==>
              r.value[j] == FileRecord(file.value.rows[j], HeaderColumns(file.value.header).value, book, chapterId)
  {
    if file.None? {
      return Err(NoFileMessage);
    }
    var rows := file.value.rows;
    var columns := HeaderColumns(file.value.header);
    if columns.Err? {
      return Err(BadHeaderMessage);
    }
    var cols := columns.value;
    var words: seq<ImportedWord> := [];
    var j := 0;
    while j < |rows|
      invariant 0 <= j <= |rows| && |words| == j
      invariant forall m :: 0 <= m < j ==> words[m] == FileRecord(rows[m], cols, book, chapterId)
    {
      var defs := ParseRowDefinitions(rows[j], cols);
      words := words + [ChapterWord(Cell(rows[j], WordColumn), defs, book, chapterId, 0)];
      j := j + 1;
    }
    r := Ok(words);
  }

  function BookFileRecord(row: Row, cols: Columns, book: string, chapter: string): ImportedWord
  {
    NamedChapterWord(Cell(row, WordColumn), RowDefinitions(row, cols, |cols.meaningKeys|), book, chapter)
  }

  /** `createVocabularyFromFile` in the book actions: the same file and
      header checks and row parsing, but each record carries the chapter's
      name and no count or chapter id. */
  method ImportFileToBook(file: Option<Upload>, book: string, chapter: string)
    returns (r: Result<seq<ImportedWord>>)
    ensures file.None? ==> r == Err(NoFileMessage)
    ensures file.Some? ==> (r.Err? <==> HeaderColumns(file.value.header).Err?)
    ensures file.Some? && r.Err? ==> r.message == BadHeaderMessage
    ensures r.Ok? ==> file.Some? && |r.value| == |file.value.rows|
    ensures r.Ok? ==> forall j :: 0 <= j < |file.value.rows| ==>
              r.value[j] == BookFileRecord(file.value.rows[j], HeaderColumns(file.value.header).value, book, chapter)
  {
    if file.None? {
      return Err(NoFileMessage);
    }
    var rows := file.value.rows;
    var columns := HeaderColumns(file.value.header);
    if columns.Err? {
      return Err(BadHeaderMessage);
    }
    var cols := columns.value;
    var words: seq<ImportedWord> := [];
    var j := 0;
    while j < |rows|
      invariant 0 <= j <= |rows| && |words| == j
      invariant forall m :: 0 <= m < j ==> words[m] == BookFileRecord(rows[m], cols, book, chapter)
    {
      var defs := ParseRowDefinitions(rows[j], cols);
      words := words + [NamedChapterWord(Cell(rows[j], WordColumn), defs, book, chapter)];
      j := j + 1;
    }
    r := Ok(words);
  }

  // -----------------------------------------------------------------------
  // Multi-sheet import

  datatype Sheet = Sheet(name: string, rows: seq<Row>)

  /** A row of a chapter sheet: its word, its one "의미" cell as the only
      definition, a count of 0, and the sheet's chapter. */
  function SheetRecord(row: Row, book: string, chapterId: Option<string>): (w: ImportedWord)
    ensures w.ChapterWord? && |w.definitions| == 1 && w.count == 0
  {
    ChapterWord(Cell(row, WordColumn), [ImportedDefinition(Cell(row, MeaningColumn), None)], book, chapterId, 0)
  }

  function SheetRecords(sheet: Sheet, book: string, chapterIdOf: string -> Option<string>): (ws: seq<ImportedWord>)
    ensures |ws| == |sheet.rows|
  {
    seq(|sheet.rows|, k requires 0 <= k < |sheet.rows| => SheetRecord(sheet.rows[k], book, chapterIdOf(sheet.name)))
  }

  /** The records of all sheets, sheet after sheet. */
  function AllSheetRecords(sheets: seq<Sheet>, book: string, chapterIdOf: string -> Option<string>): seq<ImportedWord>
  {
    if sheets == [] then []
    else AllSheetRecords(sheets[..|sheets| - 1], book, chapterIdOf) + SheetRecords(sheets[|sheets| - 1], book, chapterIdOf)
  }

  function RowCount(sheets: seq<Sheet>): nat
  {
    if sheets == [] then 0 else RowCount(sheets[..|sheets| - 1]) + |sheets[|sheets| - 1].rows|
  }

  /** One record per row of every sheet, each with a single definition. */
  lemma {:induction false} OneRecordPerRow(sheets: seq<Sheet>, book: string, chapterIdOf: string -> Option<string>)
    ensures |AllSheetRecords(sheets, book, chapterIdOf)| == RowCount(sheets)
    ensures forall w :: w in AllSheetRecords(sheets, book, chapterIdOf) ==>
              w.ChapterWord? && |w.definitions| == 1 && w.count == 0 && w.book == book
  {
    if sheets != [] {
      OneRecordPerRow(sheets[..|sheets| - 1], book, chapterIdOf);
    }
  }

  /** Sheets contribute in workbook order: importing two runs of sheets is
      importing the first, then the second. */
  lemma {:induction false} SheetsInOrder(front: seq<Sheet>, back: seq<Sheet>, book: string,
                                         chapterIdOf: string -> Option<string>)
    ensures AllSheetRecords(front + back, book, chapterIdOf)
         == AllSheetRecords(front, book, chapterIdOf) + AllSheetRecords(back, book, chapterIdOf)
    decreases |back|
  {
    if back != [] {
      SheetsInOrder(front, back[..|back| - 1], book, chapterIdOf);
      assert (front + back)[..|front + back| - 1] == front + back[..|back| - 1];
    } else {
      assert front + back == front;
    }
  }

  /** `createVocabularyFromMultipleFileSheets`: without a file, the
      missing-file error; otherwise every sheet is a chapter (found or
      created by the sheet's name) and every row a word. */
  method ImportSheets(file: Option<seq<Sheet>>, book: string, chapterIdOf: string -> Option<string>)
    returns (r: Result<seq<ImportedWord>>)
    ensures file.None? ==> r == Err(NoFileMessage)
    ensures file.Some? ==> r == Ok(AllSheetRecords(file.value, book, chapterIdOf))
  {
    if file.None? {
      return Err(NoFileMessage);
    }
    var sheets := file.value;
    var allWords := [];
    var s := 0;
    while s < |sheets|
      invariant 0 <= s <= |sheets|
      invariant allWords == AllSheetRecords(sheets[..s], book, chapterIdOf)
    {
      var sheet := sheets[s];
      var chapterId := chapterIdOf(sheet.name);
      var words := seq(|sheet.rows|, k requires 0 <= k < |sheet.rows| => SheetRecord(sheet.rows[k], book, chapterId));
      assert sheets[..s + 1][..s] == sheets[..s];
      allWords := allWords + words;
      s := s + 1;
    }
    assert sheets[..s] == sheets;
    r := Ok(allWords);
  }
}
