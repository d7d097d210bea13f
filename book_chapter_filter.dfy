/** The word list page's filter hook (`useBookChapterFilter`): a book, its
    chapters, a chapter selection, and the words the selection names. The
    database is a list of stored rows; chapters of a book are given as a
    function. Each handler carries on with the effects its change sets off,
    and the state below is the one reached once their loads have arrived. */
module BookChapterFilter {
  import opened Common
  import ChapterSelection
  import WordSources

  class BookChapterFilter {
    var books: seq<Book>
    var book: string
    var chapters: seq<Chapter>
    var selected: seq<string>
    var vocabularies: seq<Vocabulary>
    var filtered: seq<Vocabulary>

    /** Every load writes the same list to both word lists. */
    ghost predicate Valid()
      reads this
    {
      vocabularies == filtered
    }

    /** The words the current book and selection name. */
    ghost function Shown(store: seq<Vocabulary>): seq<Vocabulary>
      reads this
    {
      WordSources.Query(store, WordSources.ListSource(selected, book))
    }

    constructor()
      ensures books == [] && book == "" && chapters == [] && selected == []
      ensures vocabularies == [] && filtered == []
      ensures Valid()
    {
      books := [];
      book := "";
      chapters := [];
      selected := [];
      vocabularies := [];
      filtered := [];
    }

    /** The effect on a new book or selection: load from the selected
        chapters, else the book, else every word. */
    method LoadVocabularies(store: seq<Vocabulary>)
      modifies this
      ensures vocabularies == Shown(store) && Valid()
      ensures |selected| > 0 ==> forall v :: v in vocabularies <==> v in store && WordSources.InChapters(v, selected)
      ensures |selected| == 0 && book != "" ==> forall v :: v in vocabularies <==> v in store && v.book == book
      ensures |selected| == 0 && book == "" ==> vocabularies == store
      ensures books == old(books) && book == old(book) && chapters == old(chapters) && selected == old(selected)
    {
      var data := WordSources.Query(store, WordSources.ListSource(selected, book));
      vocabularies := data;
      filtered := data;
    }

    /** The books, loaded once. */
    method BooksLoaded(data: seq<Book>)
      modifies this
      ensures books == data
      ensures book == old(book) && chapters == old(chapters) && selected == old(selected)
      ensures vocabularies == old(vocabularies) && filtered == old(filtered)
    {
      books := data;
    }

    /** `handleBookSelect` and the effects of a new book: its chapters (none
        for the empty book), an empty selection, and the book's words (every
        word for the empty book). Choosing the same book changes nothing. */
    method HandleBookSelect(value: string, chaptersOf: string -> seq<Chapter>, store: seq<Vocabulary>)
      requires Valid()
      modifies this
      ensures book == value && books == old(books) && Valid()
      ensures value == old(book) ==>
                chapters == old(chapters) && selected == old(selected) && vocabularies == old(vocabularies)
      ensures value != old(book) ==> selected == [] && vocabularies == Shown(store)
      ensures value != old(book) && value != "" ==> chapters == chaptersOf(value)
      ensures value != old(book) && value == "" ==> chapters == [] && vocabularies == store
    {
      if value == book {
        return;
      }
      book := value;
      if book != "" {
        chapters := chaptersOf(book);
      } else {
        chapters := [];
      }
      selected := ChapterSelection.ClearAll();
      LoadVocabularies(store);
    }

    /** `handleChapterToggle`, then the load of the new selection. */
    method HandleChapterToggle(id: string, checked: bool, store: seq<Vocabulary>)
      modifies this
      ensures selected == ChapterSelection.Toggle(old(selected), id, checked)
      ensures vocabularies == Shown(store) && Valid()
      ensures books == old(books) && book == old(book) && chapters == old(chapters)
    {
      selected := ChapterSelection.Toggle(selected, id, checked);
      LoadVocabularies(store);
    }

    /** `selectAllChapters`, then the load of every chapter of the book. */
    method SelectAllChapters(store: seq<Vocabulary>)
      modifies this
      ensures selected == ChapterSelection.SelectAll(chapters)
      ensures vocabularies == Shown(store) && Valid()
      ensures books == old(books) && book == old(book) && chapters == old(chapters)
    {
      selected := ChapterSelection.SelectAll(chapters);
      LoadVocabularies(store);
    }

    /** `clearAllChapters`, then the load of the whole book (or every word). */
    method ClearAllChapters(store: seq<Vocabulary>)
      modifies this
      ensures selected == []
      ensures vocabularies == Shown(store) && Valid()
      ensures book == "" ==> vocabularies == store
      ensures books == old(books) && book == old(book) && chapters == old(chapters)
    {
      selected := ChapterSelection.ClearAll();
      LoadVocabularies(store);
    }
  }
}
