/** The quiz setup page: a book and chapter picker like the word list's,
    four settings, and the hand-over to the test page through the address.
    The database is a list of stored rows; chapters of a book are given as a
    function. */
module QuizSetup {
  import opened Common
  import ChapterSelection
  import WordSources
  import QuizGenerator

  datatype QuizSettings = QuizSettings(
    totalQuestions: nat,
    timeLimit: nat,
    questionType: QuizGenerator.QuestionType,
    answerType: QuizGenerator.AnswerType)

  const DefaultSettings: QuizSettings :=
    QuizSettings(10, 30, QuizGenerator.WordToDefinition, QuizGenerator.MultipleChoice)

  /** The address parameters of the test page. */
  datatype TestParams = TestParams(
    book: string,
    chapters: string,
    totalQuestions: nat,
    timeLimit: nat,
    questionType: string,
    answerType: string)

  function QuestionTypeText(qt: QuizGenerator.QuestionType): string
  {
    match qt
    case WordToDefinition => "word-to-definition"
    case DefinitionToWord => "definition-to-word"
  }

  function AnswerTypeText(at: QuizGenerator.AnswerType): string
  {
    match at
    case MultipleChoice => "multiple-choice"
    case TextInput => "text-input"
  }

  /** The test page reads back the question and answer types the setup
      page wrote. */
  lemma TypesRoundTrip(qt: QuizGenerator.QuestionType, at: QuizGenerator.AnswerType)
    ensures QuizGenerator.QuestionTypeParam(Some(QuestionTypeText(qt))) == qt
    ensures QuizGenerator.AnswerTypeParam(Some(AnswerTypeText(at))) == at
  {
  }

  /** `startQuiz`: nothing without words; otherwise the address of the test
      page, asking for no more questions than there are words. */
  function StartParams(wordCount: nat, settings: QuizSettings, book: string,
                       selected: seq<string>): (r: Option<TestParams>)
    ensures r.None? <==> wordCount == 0
    ensures r.Some? ==> r.value.totalQuestions <= wordCount && r.value.totalQuestions <= settings.totalQuestions
    ensures r.Some? ==> (r.value.totalQuestions == settings.totalQuestions || r.value.totalQuestions == wordCount)
    ensures r.Some? ==> r.value.book == book && r.value.timeLimit == settings.timeLimit
  {
    if wordCount == 0 then None
    else
      Some(TestParams(book, Join(selected, ","), Min(settings.totalQuestions, wordCount), settings.timeLimit,
                      QuestionTypeText(settings.questionType), AnswerTypeText(settings.answerType)))
  }

  /** What the test page makes of the address: it loads the words the setup
      page showed (for comma-free chapter ids) and, given those words, asks
      as many questions as the setup page promised, in the chosen form. */
  lemma TestPageFollowsSetup(wordCount: nat, settings: QuizSettings, book: string, selected: seq<string>)
    requires WordSources.PlainIds(selected)
    ensures var r := StartParams(wordCount, settings, book, selected);
            r.Some? ==>
              && WordSources.TestPageSource(r.value.chapters, r.value.book) == WordSources.QuizSetupSource(selected, book)
              && QuizGenerator.QuestionTypeParam(Some(r.value.questionType)) == settings.questionType
              && QuizGenerator.AnswerTypeParam(Some(r.value.answerType)) == settings.answerType
  {
    WordSources.SetupAndTestPageAgree(selected, book);
    TypesRoundTrip(settings.questionType, settings.answerType);
  }

  /** With the same words, the test page generates exactly the number of
      questions the setup page asked for. */
  lemma QuestionCountAsPromised(vs: seq<Vocabulary>, settings: QuizSettings, book: string,
                                selected: seq<string>, tapes: seq<seq<nat>>)
    requires |vs| >= 2
    ensures var r := StartParams(|vs|, settings, book, selected);
            r.Some? &&
            |QuizGenerator.GenerateQuestions(vs, r.value.totalQuestions, settings.questionType,
                                             settings.answerType, tapes)| == r.value.totalQuestions
  {
    var r := StartParams(|vs|, settings, book, selected);
    QuizGenerator.GenerateQuestionsSpec(vs, r.value.totalQuestions, settings.questionType, settings.answerType, tapes);
  }

  /** A parameter counts when it is present and not empty. */
  predicate Given(param: Option<string>)
  {
    param.Some? && param.value != ""
  }

  class QuizSetup {
    var books: seq<Book>
    var book: string
    var chapters: seq<Chapter>
    var selected: seq<string>
    var vocabularies: seq<Vocabulary>
    var settings: QuizSettings

    /** The words the current book and selection name. */
    ghost function Shown(store: seq<Vocabulary>): seq<Vocabulary>
      reads this
    {
      WordSources.Query(store, WordSources.QuizSetupSource(selected, book))
    }

    constructor()
      ensures books == [] && book == "" && chapters == [] && selected == [] && vocabularies == []
      ensures settings == DefaultSettings
    {
      books := [];
      book := "";
      chapters := [];
      selected := [];
      vocabularies := [];
      settings := DefaultSettings;
    }

    /** The effect on a new book or selection: the selected chapters' words,
        else the book's, else none. */
    method LoadVocabularies(store: seq<Vocabulary>)
      modifies this
      ensures vocabularies == Shown(store)
      ensures |selected| == 0 && book == "" ==> vocabularies == []
      ensures books == old(books) && book == old(book) && chapters == old(chapters)
      ensures selected == old(selected) && settings == old(settings)
    {
      vocabularies := WordSources.Query(store, WordSources.QuizSetupSource(selected, book));
    }

    /** The first render's effects, in order, on a page opened with
        `?book=…&chapters=…`: the address effect takes the book and the
        chapter ids; then the chapter effect of the first render, which saw
        the initial empty book, clears the chapters and the selection; then
        the new book's chapters and words load. The selection from the
        address is lost. */
    method Mount(bookParam: Option<string>, chaptersParam: Option<string>,
                 chaptersOf: string -> seq<Chapter>, store: seq<Vocabulary>)
      requires book == "" && selected == [] && chapters == []
      modifies this
      ensures book == (if Given(bookParam) then bookParam.value else "")
      ensures selected == []
      ensures chapters == (if book != "" then chaptersOf(book) else [])
      ensures vocabularies == Shown(store)
      ensures books == old(books) && settings == old(settings)
    {
      if Given(bookParam) {
        book := bookParam.value;
      }
      if Given(chaptersParam) {
        selected := Split(chaptersParam.value, ',');
      }
      chapters := [];
      selected := ChapterSelection.ClearAll();
      if book != "" {
        chapters := chaptersOf(book);
      }
      LoadVocabularies(store);
    }

    /** The mount the address effect is written for: the chapter ids from
        the address stay selected and their words load. */
    method MountKeepingSelection(bookParam: Option<string>, chaptersParam: Option<string>,
                                 chaptersOf: string -> seq<Chapter>, store: seq<Vocabulary>)
      requires book == "" && selected == [] && chapters == []
      modifies this
      ensures book == (if Given(bookParam) then bookParam.value else "")
      ensures selected == (if Given(chaptersParam) then Split(chaptersParam.value, ',') else [])
      ensures chapters == (if book != "" then chaptersOf(book) else [])
      ensures vocabularies == Shown(store)
      ensures Given(chaptersParam) ==>
                vocabularies == WordSources.Query(store, WordSources.TestPageSource(chaptersParam.value, book))
      ensures books == old(books) && settings == old(settings)
    {
      if Given(bookParam) {
        book := bookParam.value;
      }
      if Given(chaptersParam) {
        selected := Split(chaptersParam.value, ',');
      }
      if book != "" {
        chapters := chaptersOf(book);
      }
      LoadVocabularies(store);
    }

    /** `handleBookSelect`: the new book, an empty selection, the book's
        chapters (none for the empty book) and the book's words. */
    method HandleBookSelect(value: string, chaptersOf: string -> seq<Chapter>, store: seq<Vocabulary>)
      modifies this
      ensures book == value && selected == []
      ensures value != old(book) ==> chapters == (if value != "" then chaptersOf(value) else [])
      ensures value == old(book) ==> chapters == old(chapters)
      ensures vocabularies == Shown(store)
      ensures value == "" ==> vocabularies == []
      ensures books == old(books) && settings == old(settings)
    {
      var changed := value != book;
      book := value;
      selected := ChapterSelection.ClearAll();
      if changed {
        if book != "" {
          chapters := chaptersOf(book);
        } else {
          chapters := [];
        }
      }
      LoadVocabularies(store);
    }

    method HandleChapterToggle(id: string, checked: bool, store: seq<Vocabulary>)
      modifies this
      ensures selected == ChapterSelection.Toggle(old(selected), id, checked)
      ensures vocabularies == Shown(store)
      ensures books == old(books) && book == old(book) && chapters == old(chapters) && settings == old(settings)
    {
      selected := ChapterSelection.Toggle(selected, id, checked);
      LoadVocabularies(store);
    }

    method SelectAllChapters(store: seq<Vocabulary>)
      modifies this
      ensures selected == ChapterSelection.SelectAll(chapters)
      ensures vocabularies == Shown(store)
      ensures books == old(books) && book == old(book) && chapters == old(chapters) && settings == old(settings)
    {
      selected := ChapterSelection.SelectAll(chapters);
      LoadVocabularies(store);
    }

    method ClearAllChapters(store: seq<Vocabulary>)
      modifies this
      ensures selected == []
      ensures vocabularies == Shown(store)
      ensures books == old(books) && book == old(book) && chapters == old(chapters) && settings == old(settings)
    {
      selected := ChapterSelection.ClearAll();
      LoadVocabularies(store);
    }

    /** The settings controls: each replaces one setting and keeps the others. */
    method SetSettings(total: Option<nat>, limit: Option<nat>,
                       qt: Option<QuizGenerator.QuestionType>, at: Option<QuizGenerator.AnswerType>)
      modifies this
      ensures settings.totalQuestions == (if total.Some? then total.value else old(settings.totalQuestions))
      ensures settings.timeLimit == (if limit.Some? then limit.value else old(settings.timeLimit))
      ensures settings.questionType == (if qt.Some? then qt.value else old(settings.questionType))
      ensures settings.answerType == (if at.Some? then at.value else old(settings.answerType))
      ensures books == old(books) && book == old(book) && chapters == old(chapters)
      ensures selected == old(selected) && vocabularies == old(vocabularies)
    {
      if total.Some? { settings := settings.(totalQuestions := total.value); }
      if limit.Some? { settings := settings.(timeLimit := limit.value); }
      if qt.Some? { settings := settings.(questionType := qt.value); }
      if at.Some? { settings := settings.(answerType := at.value); }
    }

    /** `startQuiz`: the test page's address, or nothing when there are no
        words to ask about. */
    method StartQuiz() returns (params: Option<TestParams>)
      ensures params == StartParams(|vocabularies|, settings, book, selected)
      ensures params.None? <==> |vocabularies| == 0
    {
      if |vocabularies| == 0 {
        return None;
      }
      var available := Min(settings.totalQuestions, |vocabularies|);
      params := Some(TestParams(book, Join(selected, ","), available, settings.timeLimit,
                                QuestionTypeText(settings.questionType), AnswerTypeText(settings.answerType)));
    }
  }
}
