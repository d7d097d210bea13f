/** Where each page takes its words from, and how the quiz setup page hands
    its choice to the test page through the address (`?book=…&chapters=…`,
    chapter ids joined with commas). The query results themselves are
    outside the model. */
module WordSources {
  import opened Common

  datatype WordSource =
    | ByChapters(ids: seq<string>)
    | ByBook(book: string)
    | AllWords
    | NoWords

  predicate InChapters(v: Vocabulary, ids: seq<string>)
  {
    v.chapterId.Some? && v.chapterId.value in ids
  }

  /** The words a source names, read from the stored rows (`getVocabularies`,
      `getVocabulariesByBook`, `getVocabulariesByChapters`). The store's
      order stands for whatever order the database returns. An empty
      chapter list answers `[]` without a query. */
  function Query(store: seq<Vocabulary>, src: WordSource): (r: seq<Vocabulary>)
    ensures src.ByChapters? ==> forall v :: v in r <==> v in store && InChapters(v, src.ids)
    ensures src.ByBook? ==> forall v :: v in r <==> v in store && v.book == src.book
    ensures src.AllWords? ==> r == store
    ensures src.NoWords? || src == ByChapters([]) ==> r == []
  {
    match src
    case ByChapters(ids) =>
      if |ids| == 0 then [] else Filter(store, (v: Vocabulary) => InChapters(v, ids))
    case ByBook(b) => Filter(store, (v: Vocabulary) => v.book == b)
    case AllWords => store
    case NoWords => []
  }

  /** The word list's filter hook: the selected chapters, else the book, else
      every word. */
  function ListSource(selected: seq<string>, book: string): (src: WordSource)
    ensures src.ByChapters? <==> |selected| > 0
    ensures src.ByBook? <==> |selected| == 0 && book != ""
    ensures src.AllWords? <==> |selected| == 0 && book == ""
    ensures src.ByChapters? ==> src.ids == selected
    ensures src.ByBook? ==> src.book == book
  {
    if |selected| > 0 then ByChapters(selected) else if book != "" then ByBook(book) else AllWords
  }

  /** The quiz setup page: the selected chapters, else the book, else no words. */
  function QuizSetupSource(selected: seq<string>, book: string): (src: WordSource)
    ensures src.ByChapters? <==> |selected| > 0
    ensures src.ByBook? <==> |selected| == 0 && book != ""
    ensures src.NoWords? <==> |selected| == 0 && book == ""
    ensures src.ByChapters? ==> src.ids == selected
    ensures src.ByBook? ==> src.book == book
  {
    if |selected| > 0 then ByChapters(selected) else if book != "" then ByBook(book) else NoWords
  }

  /** The test page, from its address: a non-empty chapters parameter split
      on commas, else a non-empty book, else no words. A missing parameter
      reads as the empty string. */
  function TestPageSource(chaptersParam: string, bookParam: string): WordSource
  {
    if chaptersParam != "" then ByChapters(Split(chaptersParam, ','))
    else if bookParam != "" then ByBook(bookParam)
    else NoWords
  }

  predicate PlainIds(ids: seq<string>)
  {
    forall k :: 0 <= k < |ids| ==> ids[k] != "" && ',' !in ids[k]
  }

  lemma {:induction false} JoinEmptyIffNoParts(parts: seq<string>, sep: string)
    requires PlainIds(parts)
    ensures Join(parts, sep) == "" <==> parts == []
  {
    if |parts| > 1 {
      assert |Join(parts, sep)| >= |parts[0]| > 0;
    }
  }

  /** The test page loads from the same source the setup page chose, as long
      as chapter ids are non-empty and free of commas: the id list survives
      the join and the split, and an empty selection becomes the empty
      parameter, which means "use the book". */
  lemma SetupAndTestPageAgree(selected: seq<string>, book: string)
    requires PlainIds(selected)
    ensures TestPageSource(Join(selected, ","), book) == QuizSetupSource(selected, book)
  {
    JoinEmptyIffNoParts(selected, ",");
    if |selected| > 0 {
      SplitJoinRoundTrip(selected, ',');
    }
  }

  /** A comma inside an id breaks the round trip: the test page sees two ids. */
  lemma CommaInIdSplits()
    ensures TestPageSource(Join(["a,b"], ","), "") == ByChapters(["a", "b"])
  {
    assert Join(["a,b"], ",") == "a" + [','] + "b";
    SplitAfterPiece("a", ',', "b");
    SplitNoSeparator("b", ',');
  }
}
