/** The memorize view's data hook (`useVocabularyData`): the book and chapter
    pickers, the loaded words (stored shuffled), the list of words not yet
    memorized, and the filter flag. The database is given as functions from
    a query to its rows; the shuffle's random draws as a tape. A React effect
    runs after the state change that triggers it, so each handler below
    carries on with the effects its change sets off. */
module VocabularyData {
  import opened Common
  import Shuffle
  import ChapterSelection

  /** The words whose `memorized` flag is not set, in list order. */
  function Unmemorized(vs: seq<Vocabulary>): (r: seq<Vocabulary>)
    ensures forall v :: v in r <==> v in vs && !v.memorized
  {
    Filter(vs, (v: Vocabulary) => !v.memorized)
  }

  function Memorized(vs: seq<Vocabulary>): seq<Vocabulary>
  {
    Filter(vs, (v: Vocabulary) => v.memorized)
  }

  /** Every word is counted once, on one side of the filter. */
  lemma {:induction false} UnmemorizedPartition(vs: seq<Vocabulary>)
    ensures |Unmemorized(vs)| + |Memorized(vs)| == |vs|
  {
    if vs != [] {
      UnmemorizedPartition(vs[1..]);
      assert vs == [vs[0]] + vs[1..];
    }
  }

  /** The filter keeps list order: it works piecewise on a split list. */
  lemma UnmemorizedInOrder(front: seq<Vocabulary>, back: seq<Vocabulary>)
    ensures Unmemorized(front + back) == Unmemorized(front) + Unmemorized(back)
  {
    FilterAppend(front, back, (v: Vocabulary) => !v.memorized);
  }

  /** Shuffling the words reorders the unmemorized list and keeps its elements. */
  lemma UnmemorizedAfterShuffle(vs: seq<Vocabulary>, tape: seq<nat>)
    ensures multiset(Unmemorized(Shuffle.Shuffled(vs, tape))) == multiset(Unmemorized(vs))
  {
    Shuffle.ShuffledPermutes(vs, tape);
    FilterPermutation(Shuffle.Shuffled(vs, tape), vs, (v: Vocabulary) => !v.memorized);
  }

  class VocabularyData {
    var vocabularies: seq<Vocabulary>
    var filtered: seq<Vocabulary>
    var books: seq<Book>
    var book: string
    var chapters: seq<Chapter>
    var selected: seq<string>
    var showOnlyUnmemorized: bool

    /** The unmemorized list is recomputed whenever the word list changes,
        but only while the word list is non-empty, so it is in step with a
        non-empty word list. */
    ghost predicate Valid()
      reads this
    {
      |vocabularies| > 0 ==> filtered == Unmemorized(vocabularies)
    }

    constructor()
      ensures vocabularies == [] && filtered == [] && books == [] && book == ""
      ensures chapters == [] && selected == [] && !showOnlyUnmemorized
      ensures Valid()
    {
      vocabularies := [];
      filtered := [];
      books := [];
      book := "";
      chapters := [];
      selected := [];
      showOnlyUnmemorized := false;
    }

    /** `currentVocabularies`: the unmemorized list under the filter, the
        whole list otherwise. */
    function CurrentVocabularies(): (r: seq<Vocabulary>)
      reads this
      requires Valid()
      ensures !showOnlyUnmemorized ==> r == vocabularies
      ensures showOnlyUnmemorized && |vocabularies| > 0 ==> r == Unmemorized(vocabularies)
      ensures showOnlyUnmemorized && |vocabularies| > 0 ==> forall v :: v in r ==> !v.memorized
      ensures showOnlyUnmemorized ==> r == filtered
    {
      if showOnlyUnmemorized then filtered else vocabularies
    }

    /** The effect on a new word list: recompute the unmemorized list,
        unless the new list is empty. */
    method RefreshFiltered()
      modifies this
      ensures |vocabularies| > 0 ==> filtered == Unmemorized(vocabularies)
      ensures |vocabularies| == 0 ==> filtered == old(filtered)
      ensures vocabularies == old(vocabularies) && books == old(books) && book == old(book)
      ensures chapters == old(chapters) && selected == old(selected)
      ensures showOnlyUnmemorized == old(showOnlyUnmemorized)
      ensures old(Valid()) ==> Valid()
      ensures |vocabularies| > 0 ==> Valid()
    {
      if |vocabularies| > 0 {
        filtered := Unmemorized(vocabularies);
      }
    }

    /** The effect on a new chapter selection: nothing while no chapter is
        selected; otherwise the selected chapters' words, shuffled. */
    method LoadWords(wordsOf: seq<string> -> seq<Vocabulary>, tape: seq<nat>)
      requires Valid()
      modifies this
      ensures |selected| == 0 ==> vocabularies == old(vocabularies) && filtered == old(filtered)
      ensures |selected| > 0 ==> vocabularies == Shuffle.Shuffled(wordsOf(selected), tape)
      ensures |selected| > 0 ==> multiset(vocabularies) == multiset(wordsOf(selected))
      ensures |selected| > 0 && wordsOf(selected) == [] ==> vocabularies == [] && filtered == old(filtered)
      ensures books == old(books) && book == old(book) && chapters == old(chapters)
      ensures selected == old(selected) && showOnlyUnmemorized == old(showOnlyUnmemorized)
      ensures Valid()
    {
      if |selected| == 0 {
        return;
      }
      vocabularies := Shuffle.ShuffleArray(wordsOf(selected), tape);
      Shuffle.ShuffledPermutes(wordsOf(selected), tape);
      RefreshFiltered();
    }

    /** The effect on a new book: nothing for the empty book; otherwise that
        book's chapters and an empty selection, whose own effect then loads
        nothing. */
    method LoadChapters(chaptersOf: string -> seq<Chapter>)
      modifies this
      ensures book == "" ==> chapters == old(chapters) && selected == old(selected)
      ensures book != "" ==> chapters == chaptersOf(book) && selected == []
      ensures vocabularies == old(vocabularies) && filtered == old(filtered)
      ensures books == old(books) && book == old(book)
      ensures showOnlyUnmemorized == old(showOnlyUnmemorized)
    {
      if book == "" {
        return;
      }
      chapters := chaptersOf(book);
      selected := ChapterSelection.ClearAll();
    }

    /** The book list arrives: the first book becomes the chosen one. */
    method BooksLoaded(data: seq<Book>, chaptersOf: string -> seq<Chapter>)
      modifies this
      ensures books == data
      ensures |data| == 0 ==> book == old(book) && chapters == old(chapters) && selected == old(selected)
      ensures |data| > 0 ==> book == data[0].name
      ensures |data| > 0 && data[0].name != old(book) && data[0].name != "" ==>
                chapters == chaptersOf(data[0].name) && selected == []
      ensures |data| > 0 && (data[0].name == old(book) || data[0].name == "") ==>
                chapters == old(chapters) && selected == old(selected)
      ensures vocabularies == old(vocabularies) && filtered == old(filtered)
      ensures showOnlyUnmemorized == old(showOnlyUnmemorized)
    {
      books := data;
      if |data| > 0 && data[0].name != book {
        book := data[0].name;
        LoadChapters(chaptersOf);
      }
    }

    /** `handleBookSelect`: choosing a different book reloads its chapters
        and clears the selection; choosing the same book changes nothing. */
    method HandleBookSelect(value: string, chaptersOf: string -> seq<Chapter>)
      modifies this
      ensures book == value
      ensures value != old(book) && value != "" ==> chapters == chaptersOf(value) && selected == []
      ensures value == old(book) || value == "" ==> chapters == old(chapters) && selected == old(selected)
      ensures vocabularies == old(vocabularies) && filtered == old(filtered) && books == old(books)
      ensures showOnlyUnmemorized == old(showOnlyUnmemorized)
    {
      if value != book {
        book := value;
        LoadChapters(chaptersOf);
      }
    }

    /** `handleChapterToggle`, then the load its new selection sets off. */
    method HandleChapterToggle(id: string, checked: bool,
                               wordsOf: seq<string> -> seq<Vocabulary>, tape: seq<nat>)
      requires Valid()
      modifies this
      ensures selected == ChapterSelection.Toggle(old(selected), id, checked)
      ensures |selected| == 0 ==> vocabularies == old(vocabularies) && filtered == old(filtered)
      ensures |selected| > 0 ==> vocabularies == Shuffle.Shuffled(wordsOf(selected), tape)
      ensures books == old(books) && book == old(book) && chapters == old(chapters)
      ensures showOnlyUnmemorized == old(showOnlyUnmemorized)
      ensures Valid()
      ensures showOnlyUnmemorized && |selected| > 0 && wordsOf(selected) == [] ==>
                vocabularies == [] && CurrentVocabularies() == old(filtered)
      ensures |selected| > 0 && wordsOf(selected) == [] ==> filtered == old(filtered)
    {
      selected := ChapterSelection.Toggle(selected, id, checked);
      LoadWords(wordsOf, tape);
    }

    /** `shuffleVocabularies`: a fresh permutation of the current list; the
        earlier order is not kept anywhere. */
    method ShuffleVocabularies(tape: seq<nat>)
      requires Valid()
      modifies this
      ensures vocabularies == Shuffle.Shuffled(old(vocabularies), tape)
      ensures multiset(vocabularies) == multiset(old(vocabularies))
      ensures |vocabularies| > 0 ==> multiset(filtered) == multiset(old(filtered))
      ensures |old(vocabularies)| == 0 ==> filtered == old(filtered)
      ensures books == old(books) && book == old(book) && chapters == old(chapters)
      ensures selected == old(selected) && showOnlyUnmemorized == old(showOnlyUnmemorized)
      ensures Valid()
    {
      ghost var before := vocabularies;
      vocabularies := Shuffle.ShuffleArray(vocabularies, tape);
      Shuffle.ShuffledPermutes(before, tape);
      RefreshFiltered();
      if |vocabularies| > 0 {
        UnmemorizedAfterShuffle(before, tape);
      }
    }

    /** `toggleFilter`: flips the flag and nothing else. */
    method ToggleFilter()
      modifies this
      ensures showOnlyUnmemorized == !old(showOnlyUnmemorized)
      ensures vocabularies == old(vocabularies) && filtered == old(filtered) && books == old(books)
      ensures book == old(book) && chapters == old(chapters) && selected == old(selected)
    {
      showOnlyUnmemorized := !showOnlyUnmemorized;
    }
  }
}
