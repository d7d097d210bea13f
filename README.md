# VocaHelper core in Dafny

VocaHelper is a vocabulary trainer. Words are stored with their definitions, a
book, a chapter, a study count and a "memorized" flag. The app has:

- a **memorize** view: a flashcard player with keyboard control, play mode and
  pronunciation;
- a **word list** filtered by book and chapters;
- a **quiz**: a setup page and a test page that generates, runs and scores the
  questions;
- **server actions** that create words from a form or a spreadsheet and keep
  the database up to date.

This project models that core as verified Dafny. Hooks whose state the source
updates in place are classes: `VocabularyData`, `WordPlayback`,
`WordModification`, `BookChapterFilter`, `DefinitionForm`, `VocabularyList`,
`QuizSetup` and `QuizSession`. Each handler is a method that ends in the
settled state the source's effects lead to. The pure parts are functions with
lemmas: question generation, answer judging, scoring, chapter ordering,
spreadsheet row parsing and the word sources.

Things outside the program become explicit inputs:
- `Math.random` is a tape of draws (`Shuffle.Shuffled`). Every permutation can
  be reached from some tape (`Shuffle.EveryPermutationReachable`), so a
  property proved for all tapes holds for any random order.
- The database is a list of stored rows, or a function parameter for lookups.
- Timers are explicit steps.
- Speech is a log of utterances.

Modules, one per file:

| file | module | source |
|---|---|---|
| common.dfy | `Common` | records of `types/vocabulary.ts`; JavaScript `filter`, `slice`, `trim`, `toLowerCase`, `includes`, `join`, `split` |
| shuffle.dfy | `Shuffle` | `shuffleArray` and the list page's inline shuffle |
| chapter_selection.dfy | `ChapterSelection` | the chapter check-list handlers shared by three pages |
| word_sources.dfy | `WordSources` | which query each page runs, and the setup-to-test address |
| filter_description.dfy | `FilterDescription` | `getFilterDescription` |
| vocabulary_data.dfy | `VocabularyData` | `useVocabularyData` |
| playback.dfy | `Playback` | `useWordPlayback` |
| keyboard.dfy | `Keyboard` | `useKeyboardNavigation` |
| word_modification.dfy | `WordModification` | `useWordModification`, `updateVocabulary` |
| vocabulary_list.dfy | `VocabularyList` | the word list page |
| book_chapter_filter.dfy | `BookChapterFilter` | `useBookChapterFilter` |
| quiz_generator.dfy | `QuizGenerator` | `generateQuestions` |
| quiz_runner.dfy | `QuizRunner` | answering, the countdown, score and average time |
| quiz_setup.dfy | `QuizSetup` | the quiz setup page |
| definition_form.dfy | `DefinitionForm` | `useVocabularyForm` |
| chapter_order.dfy | `ChapterOrder` | `getVocabularyChapters` |
| vocabulary_import.dfy | `VocabularyImport` | `createVocabulary`, `deleteVocabulary`, the spreadsheet imports, `getVocabularyBook` |

## Model

| member | source | states |
|---|---|---|
| Shuffle.ShuffledPermutes | app/vocabulary/memorize/hooks/useVocabularyData.tsx:10-17 | whatever the draws, the shuffle's result is a permutation of its input |
| Shuffle.EveryPermutationReachable | app/vocabulary/memorize/hooks/useVocabularyData.tsx:12-15 | every permutation of the input is produced by some sequence of random draws |
| Shuffle.DrawFirst | app/vocabulary/memorize/hooks/useVocabularyData.tsx:12-14 | the first draw `j` swaps the last element with element `j` before the rest is shuffled |
| Shuffle.InPlaceAgrees | app/vocabulary/memorize/hooks/useVocabularyData.tsx:11-16 | swapping in place from index `n - 1` down to 1 gives the recursive shuffle of the first `n` elements followed by the untouched rest |
| Shuffle.StepUnfolds | app/vocabulary/memorize/hooks/useVocabularyData.tsx:12-15 | one swap of the loop turns the shuffle of an `n`-prefix into the shuffle of the `(n - 1)`-prefix on the remaining draws, leaving everything from `n - 1` on in place |
| Shuffle.ShuffleArray | app/vocabulary/memorize/hooks/useVocabularyData.tsx:10-17 | copying the input and swapping from the last index down to 1 gives `Shuffled(xs, tape)`, a permutation |
| Common.Take | app/vocabulary/quiz/test/page.tsx:83 | `slice(0, n)` keeps the first `min(n, length)` elements and no others |
| Common.Filter | app/vocabulary/memorize/hooks/useVocabularyData.tsx:63 | `filter` keeps exactly the elements that pass, as a sub-multiset of the input |
| Common.FilterAppend | app/vocabulary/memorize/hooks/useVocabularyData.tsx:63 | filtering a concatenation is concatenating the filtered parts, so relative order is kept |
| Common.FilterCount | app/vocabulary/memorize/hooks/useVocabularyData.tsx:63 | filtering keeps every occurrence of a passing element and none of a failing one |
| Common.FilterPermutation | app/vocabulary/memorize/hooks/useVocabularyData.tsx:56-63 | filtering two arrangements of the same words gives the same words |
| Common.Trim | app/vocabulary/quiz/test/page.tsx:170-171 | `trim` yields an infix that neither starts nor ends with whitespace |
| Common.TrimEmptyIffAllWhitespace | app/vocabulary/quiz/test/page.tsx:223 | a text trims to empty exactly when all of it is whitespace |
| Common.ContainsAt | app/vocabulary/quiz/test/page.tsx:172 | `includes` holds exactly when the needle occurs at some offset |
| Common.SplitJoinRoundTrip | app/vocabulary/quiz/page.tsx:123 | splitting a joined list on the same separator gives the list back, if no piece holds the separator |
| ChapterSelection.SelectAll | hooks/useBookChapterFilter.ts:77-79 | selecting all gives every chapter id, in chapter order |
| ChapterSelection.CheckAddsOne | hooks/useBookChapterFilter.ts:70-71 | checking appends one occurrence of the id after the current selection |
| ChapterSelection.UncheckRemovesAll | hooks/useBookChapterFilter.ts:72-73 | unchecking removes every occurrence of the id and keeps every other id's count |
| ChapterSelection.UncheckKeepsOrder | hooks/useBookChapterFilter.ts:73 | unchecking works piece by piece, so the remaining ids keep their order |
| ChapterSelection.UncheckAbsent | hooks/useBookChapterFilter.ts:73 | unchecking an id that is not selected changes nothing |
| ChapterSelection.CheckThenUncheck | hooks/useBookChapterFilter.ts:69-75 | checking and then unchecking a chapter that was not selected restores the selection |
| ChapterSelection.UncheckIdempotent | hooks/useBookChapterFilter.ts:73 | unchecking twice is the same as unchecking once |
| ChapterSelection.SelectAllExactly | hooks/useBookChapterFilter.ts:78 | after selecting all, an id is selected exactly when some chapter has it |
| ChapterSelection.ClearAll | hooks/useBookChapterFilter.ts:81-83 | clearing leaves no chapter selected |
| WordSources.Query | actions/vocabulary.ts:50-75 | a chapter query returns exactly the stored words in those chapters, and none for an empty list; a book query returns exactly that book's words; the plain query returns every word |
| WordSources.ListSource | hooks/useBookChapterFilter.ts:43-63 | the word list loads the selected chapters if any, else the chosen book, else every word |
| WordSources.QuizSetupSource | app/vocabulary/quiz/page.tsx:78-91 | the setup page loads the selected chapters if any, else the chosen book, else nothing |
| WordSources.JoinEmptyIffNoParts | app/vocabulary/quiz/page.tsx:123 | the joined chapter parameter is empty exactly when no chapter is selected |
| WordSources.SetupAndTestPageAgree | app/vocabulary/quiz/test/page.tsx:38-58 | for non-empty, comma-free ids, the test page reads the same word source from the address that the setup page used |
| WordSources.CommaInIdSplits | app/vocabulary/quiz/test/page.tsx:52 | a chapter id holding a comma comes back as two ids |
| FilterDescription.DescribeByPriority | app/vocabulary/page.tsx:85-96 | the description names the selected chapters when any are selected, else the book, else "all words", and each case only then |
| FilterDescription.SelectedNamesExactly | app/vocabulary/page.tsx:87-89 | a name is listed exactly when some chapter with that name has a selected id |
| FilterDescription.SelectedNamesInChapterOrder | app/vocabulary/page.tsx:87-89 | the names follow the chapter list's order, not the order of selection |
| VocabularyData.Unmemorized | app/vocabulary/memorize/hooks/useVocabularyData.tsx:63 | the filtered list holds exactly the words not marked memorized |
| VocabularyData.UnmemorizedPartition | app/vocabulary/memorize/hooks/useVocabularyData.tsx:63 | unmemorized and memorized words together account for every word |
| VocabularyData.UnmemorizedInOrder | app/vocabulary/memorize/hooks/useVocabularyData.tsx:63 | the filter keeps the words' relative order |
| VocabularyData.UnmemorizedAfterShuffle | app/vocabulary/memorize/hooks/useVocabularyData.tsx:82-84 | shuffling does not change which words are unmemorized |
| VocabularyData.VocabularyData.constructor | app/vocabulary/memorize/hooks/useVocabularyData.tsx:20-26 | everything starts empty with the filter off |
| VocabularyData.VocabularyData.CurrentVocabularies | app/vocabulary/memorize/hooks/useVocabularyData.tsx:69 | the current list is all loaded words when the filter is off; when it is on, it is the stored unmemorized list, which equals the unmemorized words of a non-empty list and is left stale when a selection loads no words |
| VocabularyData.VocabularyData.RefreshFiltered | app/vocabulary/memorize/hooks/useVocabularyData.tsx:61-66 | a non-empty word list refreshes the filtered list; an empty one keeps the old filtered list |
| VocabularyData.VocabularyData.LoadWords | app/vocabulary/memorize/hooks/useVocabularyData.tsx:51-58 | no selection loads nothing; otherwise the chapters' words in shuffled order, with the filter refreshed unless the chapters hold no words, when the previous unmemorized list is kept |
| VocabularyData.VocabularyData.LoadChapters | app/vocabulary/memorize/hooks/useVocabularyData.tsx:40-48 | a chosen book loads its chapters and clears the selection; no book changes nothing |
| VocabularyData.VocabularyData.BooksLoaded | app/vocabulary/memorize/hooks/useVocabularyData.tsx:29-37 | the books are stored, and the first one becomes the chosen book and loads its chapters; when it is already the chosen book or is the empty name, the chapters and the selection stay as they were |
| VocabularyData.VocabularyData.HandleBookSelect | app/vocabulary/memorize/hooks/useVocabularyData.tsx:72-74 | choosing a new book loads its chapters and clears the selection; choosing the same book changes nothing else |
| VocabularyData.VocabularyData.HandleChapterToggle | app/vocabulary/memorize/hooks/useVocabularyData.tsx:77-79 | the selection is toggled, then words are loaded for it; when the new selection holds no words, the unmemorized list is not recomputed and keeps its previous words, which the view shows while the filter is on |
| VocabularyData.VocabularyData.ShuffleVocabularies | app/vocabulary/memorize/hooks/useVocabularyData.tsx:82-84 | the words are reordered by the shuffle, with the same words and the same unmemorized words; an empty list leaves the unmemorized list as it was |
| VocabularyData.VocabularyData.ToggleFilter | app/vocabulary/memorize/hooks/useVocabularyData.tsx:87-89 | only the filter flag flips |
| Playback.Current | app/vocabulary/memorize/hooks/useWordPlayback.tsx:19 | the studied list is the unmemorized words exactly when that filter is on |
| Playback.CurrentWord | app/vocabulary/memorize/hooks/useWordPlayback.tsx:20 | there is a current word exactly when the cursor is on the list |
| Playback.NextIndex | app/vocabulary/memorize/hooks/useWordPlayback.tsx:83 | moving forward stays on the list and wraps from the last card to the first |
| Playback.PrevIndex | app/vocabulary/memorize/hooks/useWordPlayback.tsx:93 | moving back stays on the list and wraps from the first card to the last |
| Playback.NavigateStaysInRange | app/vocabulary/memorize/hooks/useWordPlayback.tsx:78-98 | navigation keeps the cursor on the list |
| Playback.NavigateFlipsOrMoves | app/vocabulary/memorize/hooks/useWordPlayback.tsx:78-98 | a navigation step either only flips the card or moves the cursor by one with the card flipped |
| Playback.PrevUndoesNext | app/vocabulary/memorize/hooks/useWordPlayback.tsx:78-98 | "previous" undoes "next" |
| Playback.NextUndoesPrev | app/vocabulary/memorize/hooks/useWordPlayback.tsx:78-98 | "next" undoes "previous" |
| Playback.TwiceNextAdvancesOne | app/vocabulary/memorize/hooks/useWordPlayback.tsx:80-86 | from a hidden card, `2k` presses of "next" move the cursor `k` cards on, modulo the list length |
| Playback.FullRoundReturnsHome | app/vocabulary/memorize/hooks/useWordPlayback.tsx:80-86 | two presses per card bring the player back to the first card |
| Playback.ClampBringsInRange | app/vocabulary/memorize/hooks/useWordPlayback.tsx:40-44 | the reset effect puts the cursor on the list, and moves it only when it was off the list |
| Playback.StepKeepsValid | app/vocabulary/memorize/hooks/useWordPlayback.tsx:101-154 | every handler and timer step keeps "playing exactly when an interval is registered" |
| Playback.PlayToggles | app/vocabulary/memorize/hooks/useWordPlayback.tsx:101-111 | the play button stops a running player, and otherwise starts one with the card hidden and the counter at zero |
| Playback.ToggleFilterResets | app/vocabulary/memorize/hooks/useWordPlayback.tsx:144-154 | toggling the filter stops the player and returns to the first card, hidden |
| Playback.SpeakerNeverSpeaks | app/vocabulary/memorize/hooks/useWordPlayback.tsx:70-75 | the speaker button only flips pronunciation: the `speakWord` it calls still sees pronunciation off |
| Playback.TickSpeaksOnlyAtOneAndFive | app/vocabulary/memorize/hooks/useWordPlayback.tsx:119-134 | a timer firing speaks only when the counter reaches 1 or 5; it speaks the word, then each definition |
| Playback.RevealOnlyShows | app/vocabulary/memorize/hooks/useWordPlayback.tsx:114-117 | the 500 ms timeout only reveals the card and bumps the counter |
| Playback.TicksTimes | app/vocabulary/memorize/hooks/useWordPlayback.tsx:119-141 | repeated firings keep the interval running, with the length captured at start |
| Playback.TicksBelowCycle | app/vocabulary/memorize/hooks/useWordPlayback.tsx:119-135 | below 20 events, firings only flip the card and count up |
| Playback.PlayCycleAdvances | app/vocabulary/memorize/hooks/useWordPlayback.tsx:109-141 | starting play, the reveal and nineteen firings move to the next card, hidden, with the counter reset |
| Playback.TicksAppend | app/vocabulary/memorize/hooks/useWordPlayback.tsx:119-141 | `k + 1` firings are `k` firings followed by one more |
| Playback.WordPlayback.constructor | app/vocabulary/memorize/hooks/useWordPlayback.tsx:5-9 | first card, hidden, pronunciation on, not playing, filter off |
| Playback.WordPlayback.CurrentVocabularies | app/vocabulary/memorize/hooks/useWordPlayback.tsx:19 | returns the studied list |
| Playback.WordPlayback.HandleNavigation | app/vocabulary/memorize/hooks/useWordPlayback.tsx:78-98 | the state becomes `Navigate` of the old state |
| Playback.WordPlayback.ClampOrder | app/vocabulary/memorize/hooks/useWordPlayback.tsx:40-44 | the state becomes `Clamp` of the old state |
| Playback.WordPlayback.SetLists | app/vocabulary/memorize/hooks/useWordPlayback.tsx:4 | only the two lists change |
| Playback.WordPlayback.HandleClickSpeaker | app/vocabulary/memorize/hooks/useWordPlayback.tsx:70-75 | the state becomes `ToggleSpeaker` of the old state |
| Playback.WordPlayback.HandleClickPlay | app/vocabulary/memorize/hooks/useWordPlayback.tsx:101-142 | the state becomes `Play` of the old state |
| Playback.WordPlayback.RevealTimeout | app/vocabulary/memorize/hooks/useWordPlayback.tsx:114-117 | the state becomes `Reveal` of the old state |
| Playback.WordPlayback.VocabularySpeech | app/vocabulary/memorize/hooks/useWordPlayback.tsx:129-132 | speaking a word logs the word in English, then each definition in Korean, in order; nothing when pronunciation is off |
| Playback.WordPlayback.TimerTick | app/vocabulary/memorize/hooks/useWordPlayback.tsx:119-141 | the state becomes `IntervalTick` of the old state |
| Playback.WordPlayback.ToggleFilter | app/vocabulary/memorize/hooks/useWordPlayback.tsx:144-154 | the state becomes `FilterToggled` of the old state |
| Playback.WordPlayback.ResetPosition | app/vocabulary/memorize/hooks/useWordPlayback.tsx:157-160 | only the cursor returns to 0 and the card is hidden |
| Keyboard.HandleKeyDown | app/vocabulary/memorize/hooks/useKeyboardNavigation.tsx:10-31 | when disabled, no key acts; otherwise → and space mean "next", ← means "previous", p or P toggles play, and no other key does anything |
| Keyboard.KeysOnlyReachRunnableHandlers | app/vocabulary/memorize/hooks/useKeyboardNavigation.tsx:12 | a key only reaches a handler while there are words to show, so the handler may run |
| Keyboard.PressKey | app/vocabulary/memorize/hooks/useKeyboardNavigation.tsx:10-31 | a key press keeps the player's invariant, and an ignored key changes nothing |
| Keyboard.StepPreservesValid | app/vocabulary/memorize/hooks/useKeyboardNavigation.tsx:17-24 | a handler a key reaches keeps the player's invariant |
| Keyboard.SpaceActsAsArrowRight | app/vocabulary/memorize/hooks/useKeyboardNavigation.tsx:15-18 | space does the same as the right arrow |
| WordModification.UpdateWhere | app/vocabulary/memorize/hooks/useWordModification.tsx:18-20 | the `map` changes exactly the matching entries, in place |
| WordModification.IncrementCount | app/vocabulary/memorize/hooks/useWordModification.tsx:18-20 | the entries with the word's id gain one count; every other entry is unchanged |
| WordModification.FlipMemorized | app/vocabulary/memorize/hooks/useWordModification.tsx:39-41 | the entries with the word's id flip `memorized`; every other entry is unchanged |
| WordModification.RestoreMemorized | app/vocabulary/memorize/hooks/useWordModification.tsx:56-58 | the entries with the word's id get back the flag the word had |
| WordModification.RollbackRestores | app/vocabulary/memorize/hooks/useWordModification.tsx:54-58 | after a failed save, the rollback restores the list exactly |
| WordModification.IncrementCommutesWithFilter | app/vocabulary/memorize/hooks/useWordModification.tsx:18-20 | counting a word does not change which words are unmemorized |
| WordModification.MemorizingShrinksUnmemorized | app/vocabulary/memorize/hooks/useWordModification.tsx:39-41 | marking an unmemorized word memorized removes it from the unmemorized list |
| WordModification.OrderAfterToggle | app/vocabulary/memorize/hooks/useWordModification.tsx:49-53 | the cursor goes to 0 exactly when the filter is on, the word was unmemorized and the cursor was at the old list's last index or beyond; otherwise it stays |
| WordModification.OrderStaysInView | app/vocabulary/memorize/hooks/useWordModification.tsx:49-53 | after a word is marked memorized, the cursor is still on the shortened unmemorized list |
| WordModification.StoreUpdateAsWritten | actions/vocabulary.ts:77-86 | the stored rows with the payload's word and book get the payload's count plus one; nothing else is written |
| WordModification.StoreUpdate | actions/vocabulary.ts:77-86 | corrected save: the matching rows take the payload's count and `memorized` flag |
| WordModification.CountPayload | app/vocabulary/memorize/hooks/useWordModification.tsx:23-26 | the count handler sends the word with its count raised by one |
| WordModification.TogglePayload | app/vocabulary/memorize/hooks/useWordModification.tsx:44-47 | the toggle handler sends the word with `memorized` flipped |
| WordModification.CountStoredTwiceAhead | actions/vocabulary.ts:80 | a count of 0 shows as 1 on screen but is stored as 2 |
| WordModification.MemorizedNotStored | actions/vocabulary.ts:80 | marking a word memorized does not reach the store, while its count is raised |
| WordModification.StoreFollowsScreen | app/vocabulary/memorize/hooks/useWordModification.tsx:18-47 | with the corrected save, the stored row equals the row on screen after either handler |
| WordModification.WordModification.constructor | app/vocabulary/memorize/hooks/useWordModification.tsx:5-12 | holds the given list and cursor |
| WordModification.WordModification.HandleUpdateVocabulary | app/vocabulary/memorize/hooks/useWordModification.tsx:14-32 | the list becomes `IncrementCount` of the old list; the payload is `CountPayload`; the cursor is kept |
| WordModification.WordModification.HandleToggleMemorized | app/vocabulary/memorize/hooks/useWordModification.tsx:35-62 | on success, the flag is flipped and the cursor follows `OrderAfterToggle`; on failure, the flip is rolled back and the list restored |
| VocabularyList.Rows | app/vocabulary/page.tsx:233-235 | the table has `ceil(n / 2)` rows |
| VocabularyList.TableShowsEveryWordOnce | app/vocabulary/page.tsx:233-340 | reading the rows left to right gives back the displayed list, so every word appears once and in order |
| VocabularyList.ToggledId | app/vocabulary/page.tsx:46-54 | the clicked set gains the id if it was absent and loses it if it was present; other ids are unaffected |
| VocabularyList.ToggleTwiceRestores | app/vocabulary/page.tsx:46-54 | clicking a word twice restores the clicked set |
| VocabularyList.VocabularyList.constructor | app/vocabulary/page.tsx:24-26 | definitions shown, nothing clicked, not shuffled |
| VocabularyList.VocabularyList.ToggleHideAll | app/vocabulary/page.tsx:35-41 | hiding clears the clicked set and hides every definition; showing reveals every definition |
| VocabularyList.VocabularyList.ToggleWordDefinition | app/vocabulary/page.tsx:43-55 | in hide mode, only the clicked word's definitions flip between shown and hidden; outside hide mode, nothing changes |
| VocabularyList.VocabularyList.ShuffleWords | app/vocabulary/page.tsx:57-60 | only the shuffle flag flips; clicked words are kept |
| VocabularyList.VocabularyList.DisplayVocabularies | app/vocabulary/page.tsx:73-83 | the display is the filtered list, or a shuffled permutation of it |
| BookChapterFilter.BookChapterFilter.constructor | hooks/useBookChapterFilter.ts:10-15 | everything starts empty |
| BookChapterFilter.BookChapterFilter.LoadVocabularies | hooks/useBookChapterFilter.ts:43-63 | both lists hold the selected chapters' words, else the book's words, else every word |
| BookChapterFilter.BookChapterFilter.BooksLoaded | hooks/useBookChapterFilter.ts:18-24 | only the book list changes; no book is chosen |
| BookChapterFilter.BookChapterFilter.HandleBookSelect | hooks/useBookChapterFilter.ts:27-40 | a new book loads its chapters, clears the selection and reloads the words; the empty choice shows every word; the same book changes nothing |
| BookChapterFilter.BookChapterFilter.HandleChapterToggle | hooks/useBookChapterFilter.ts:69-75 | the selection is toggled and the words reloaded for it |
| BookChapterFilter.BookChapterFilter.SelectAllChapters | hooks/useBookChapterFilter.ts:77-79 | every chapter is selected and the words reloaded |
| BookChapterFilter.BookChapterFilter.ClearAllChapters | hooks/useBookChapterFilter.ts:81-83 | the selection is cleared and the book's words, or all words, are shown |
| QuizGenerator.CorrectDefinition | app/vocabulary/quiz/test/page.tsx:86-87 | the expected definition is the first one whenever it is present and non-empty, and the placeholder exactly when it is missing or empty; never empty |
| QuizGenerator.FlatDefinitionsMember | app/vocabulary/quiz/test/page.tsx:95 | the flattened definitions are exactly the definitions of some listed word |
| QuizGenerator.WrongDefinitionCandidatesExactly | app/vocabulary/quiz/test/page.tsx:94-96 | the distractor pool is exactly the non-blank definitions of other words that differ from the expected one |
| QuizGenerator.OtherWordCandidatesExactly | app/vocabulary/quiz/test/page.tsx:120-122 | the word pool is exactly the non-blank words of other entries |
| QuizGenerator.PickDistractors | app/vocabulary/quiz/test/page.tsx:97-98 | `min(3, pool)` distractors taken from distinct positions of the pool: a sub-multiset of it |
| QuizGenerator.WordToDefinitionOptionsHold | app/vocabulary/quiz/test/page.tsx:92-108 | word-to-definition options hold the expected definition exactly once, plus `min(3, pool)` admissible wrong ones; the options are the expected definition plus the picked distractors, no pool entry more often than it occurs in the pool |
| QuizGenerator.DefinitionToWordOptionsHold | app/vocabulary/quiz/test/page.tsx:118-140 | definition-to-word options hold the word plus up to three other words, or the two placeholders when there is no other word |
| QuizGenerator.PlaceholdersWhenNoOtherWord | app/vocabulary/quiz/test/page.tsx:130-132 | without another word, the options are the word and the two placeholders |
| QuizGenerator.OtherWordsAsOptions | app/vocabulary/quiz/test/page.tsx:127 | with other words, the options are the word and the picked other words |
| QuizGenerator.MakeQuestionSound | app/vocabulary/quiz/test/page.tsx:85-149 | every question has the asked type, the right prompt and answer, options exactly in multiple-choice mode, and admissible options, whatever the random order |
| QuizGenerator.SelectVocabularies | app/vocabulary/quiz/test/page.tsx:82-83 | `min(total, n)` distinct entries of the word list are chosen |
| QuizGenerator.GeneratedQuestionAt | app/vocabulary/quiz/test/page.tsx:85-150 | question `k` is built for the `k`-th chosen word |
| QuizGenerator.GenerateQuestionsSpec | app/vocabulary/quiz/test/page.tsx:75-151 | fewer than two words give no questions; otherwise there are `min(total, n)` questions, each sound for its word |
| QuizGenerator.TwoWordsGiveTwoOptionsEach | app/vocabulary/quiz/test/page.tsx:92-108 | two words in multiple-choice mode give two questions with two options each, including the answer |
| QuizRunner.MultipleChoiceIsExactMatch | app/vocabulary/quiz/test/page.tsx:173-176 | a multiple-choice answer is right exactly when it equals the expected answer |
| QuizRunner.TextInputIsContainment | app/vocabulary/quiz/test/page.tsx:168-172 | a typed answer is right exactly when, after lower-casing and trimming, one text occurs inside the other |
| QuizRunner.CorrectAnswerAccepted | app/vocabulary/quiz/test/page.tsx:167-176 | the expected answer is always accepted |
| QuizRunner.BlankAnswerAcceptedInTextMode | app/vocabulary/quiz/test/page.tsx:170-172 | a blank typed answer is judged correct, because every text includes the empty text |
| QuizRunner.CountCorrect | app/vocabulary/quiz/test/page.tsx:235 | the number of correct answers is at most the number of answers |
| QuizRunner.RoundDiv | app/vocabulary/quiz/test/page.tsx:236 | `Math.round(a / b)` is the integer nearest `a / b`, with halves rounded up |
| QuizRunner.RoundDivWithin | app/vocabulary/quiz/test/page.tsx:236 | rounding keeps a quotient inside any integer bounds it lies between |
| QuizRunner.TotalTimeWithin | app/vocabulary/quiz/test/page.tsx:240 | the total time is between 0 and the limit times the number of answers |
| QuizRunner.ScoreIsPercentage | app/vocabulary/quiz/test/page.tsx:234-237 | with no more answers than questions, the score lies between 0 and 100 |
| QuizRunner.AllCorrectScoresHundred | app/vocabulary/quiz/test/page.tsx:234-237 | all answers correct gives 100 |
| QuizRunner.AverageTimeWithin | app/vocabulary/quiz/test/page.tsx:239-242 | the average time lies between 0 and the limit |
| QuizRunner.InitialConsistent | app/vocabulary/quiz/test/page.tsx:28-36 | the initial runner state is consistent |
| QuizRunner.AnswerRecordsOne | app/vocabulary/quiz/test/page.tsx:157-196 | an answer records one judged result for the current question, then moves on with a full countdown, or completes the quiz on the last question |
| QuizRunner.AnswerWithoutQuestion | app/vocabulary/quiz/test/page.tsx:161-164 | with no current question, an answer changes nothing |
| QuizRunner.AnswerKeepsConsistent | app/vocabulary/quiz/test/page.tsx:157-196 | answering keeps one result per answered question, in order, with times within the limit |
| QuizRunner.TickKeepsConsistent | app/vocabulary/quiz/test/page.tsx:200-214 | the countdown keeps the runner consistent |
| QuizRunner.StartKeepsConsistent | app/vocabulary/quiz/test/page.tsx:216-220 | starting keeps the runner consistent |
| QuizRunner.SubmitTextKeepsConsistent | app/vocabulary/quiz/test/page.tsx:222-226 | submitting a typed answer keeps the runner consistent |
| QuizRunner.TickCountsDown | app/vocabulary/quiz/test/page.tsx:201-209 | the countdown is idle before the start, after completion and without a limit; otherwise it drops by one while more than one second is left |
| QuizRunner.TimeoutRecordsEmptyAnswer | app/vocabulary/quiz/test/page.tsx:205-207 | at one second or less, the empty answer is recorded with the limit less the time left as time spent (the limit less one on an ordinary timeout), counted correct in typed mode, and the time left is 0 |
| QuizRunner.TimeoutStarvesNextQuestion | app/vocabulary/quiz/test/page.tsx:204-208 | after a timeout, the next question starts at 0 seconds and is timed out on the next tick |
| QuizRunner.TimeoutAsIntended | app/vocabulary/quiz/test/page.tsx:205-207 | corrected countdown: a timed-out question is recorded as wrong, and the next question gets the whole limit |
| QuizRunner.TickAsIntendedDiffersOnlyThere | app/vocabulary/quiz/test/page.tsx:200-214 | the corrected countdown records the same questions, answers and times as the page's |
| QuizRunner.TickAsIntendedKeepsConsistent | app/vocabulary/quiz/test/page.tsx:200-214 | the corrected countdown keeps the runner consistent |
| QuizRunner.SubmitTextTrims | app/vocabulary/quiz/test/page.tsx:222-226 | a blank typed answer submits nothing; otherwise the trimmed text is submitted |
| QuizRunner.CompletedQuizResults | app/vocabulary/quiz/test/page.tsx:189-195 | a completed quiz has one result per question, a score from 0 to 100, and an average time within the limit |
| QuizRunner.QuizSession.constructor | app/vocabulary/quiz/test/page.tsx:28-36 | first question, no answers, not started |
| QuizRunner.QuizSession.HandleAnswer | app/vocabulary/quiz/test/page.tsx:157-196 | the state becomes `Answer` of the old state |
| QuizRunner.QuizSession.TimerTick | app/vocabulary/quiz/test/page.tsx:200-214 | the state becomes `Tick` of the old state |
| QuizRunner.QuizSession.TimerTickAsIntended | app/vocabulary/quiz/test/page.tsx:200-214 | the state becomes `TickAsIntended` of the old state |
| QuizRunner.QuizSession.StartQuiz | app/vocabulary/quiz/test/page.tsx:216-220 | the state becomes `Start` of the old state |
| QuizRunner.QuizSession.SetTextAnswer | app/vocabulary/quiz/test/page.tsx:36 | only the typed text changes |
| QuizRunner.QuizSession.HandleTextAnswerSubmit | app/vocabulary/quiz/test/page.tsx:222-226 | the state becomes `SubmitText` of the old state |
| QuizSetup.TypesRoundTrip | app/vocabulary/quiz/page.tsx:126-127 | the test page reads back the question and answer types the setup page wrote |
| QuizSetup.StartParams | app/vocabulary/quiz/page.tsx:114-131 | no words means no quiz; otherwise the address carries the book, the time limit and a question count of `min(setting, words)` |
| QuizSetup.TestPageFollowsSetup | app/vocabulary/quiz/page.tsx:121-128 | for comma-free ids, the test page loads the same words and uses the same types the setup page chose |
| QuizSetup.QuestionCountAsPromised | app/vocabulary/quiz/page.tsx:120 | given the same two or more words, the test page asks exactly the number of questions the setup page put in the address |
| QuizSetup.QuizSetup.constructor | app/vocabulary/quiz/page.tsx:27-37 | empty choices and the default settings: 10 questions, 30 seconds, word-to-definition, multiple choice |
| QuizSetup.QuizSetup.LoadVocabularies | app/vocabulary/quiz/page.tsx:78-91 | the words of the selected chapters, else of the book, else none |
| QuizSetup.QuizSetup.Mount | app/vocabulary/quiz/page.tsx:49-91 | as written: mounting takes the book from the address but ends with no chapter selected |
| QuizSetup.QuizSetup.MountKeepingSelection | app/vocabulary/quiz/page.tsx:49-61 | corrected mount: the chapters in the address stay selected and their words are loaded |
| QuizSetup.QuizSetup.HandleBookSelect | app/vocabulary/quiz/page.tsx:93-96 | the chosen book is set and the selection cleared; chapters are reloaded only for a different book; no book means no words |
| QuizSetup.QuizSetup.HandleChapterToggle | app/vocabulary/quiz/page.tsx:98-104 | the selection is toggled and the words reloaded |
| QuizSetup.QuizSetup.SelectAllChapters | app/vocabulary/quiz/page.tsx:106-108 | every chapter is selected and the words reloaded |
| QuizSetup.QuizSetup.ClearAllChapters | app/vocabulary/quiz/page.tsx:110-112 | the selection is cleared and the words reloaded |
| QuizSetup.QuizSetup.SetSettings | app/vocabulary/quiz/page.tsx:199-289 | each given setting replaces its old value; the others and the choices are kept |
| QuizSetup.QuizSetup.StartQuiz | app/vocabulary/quiz/page.tsx:114-131 | returns `StartParams` of the current state: none exactly when there are no words |
| DefinitionForm.Added | hooks/useVocabularyForm.ts:24-26 | adding keeps every field and appends a blank one numbered by the old length |
| DefinitionForm.Removed | hooks/useVocabularyForm.ts:28-32 | removing drops the last field, but never the only one |
| DefinitionForm.Changed | hooks/useVocabularyForm.ts:34-40 | an edit changes one property of the field at that index and nothing else; an index off the list changes nothing |
| DefinitionForm.InitialWellNumbered | hooks/useVocabularyForm.ts:12 | the form starts with one blank field numbered 0 |
| DefinitionForm.EditsKeepNumbering | hooks/useVocabularyForm.ts:24-40 | adding, removing and editing keep the fields numbered 0, 1, 2, … |
| DefinitionForm.RemoveUndoesAdd | hooks/useVocabularyForm.ts:24-32 | removing right after adding restores the form |
| DefinitionForm.DefinitionForm.constructor | hooks/useVocabularyForm.ts:12 | one blank field numbered 0 |
| DefinitionForm.DefinitionForm.AddDefinitionField | hooks/useVocabularyForm.ts:24-26 | the fields become `Added` of the old fields and stay well numbered |
| DefinitionForm.DefinitionForm.RemoveDefinitionField | hooks/useVocabularyForm.ts:28-32 | the fields become `Removed` of the old fields and stay well numbered |
| DefinitionForm.DefinitionForm.HandleDefinitionChange | hooks/useVocabularyForm.ts:34-40 | the fields become `Changed` of the old fields and stay well numbered |
| ChapterOrder.Digits | actions/vocabularyChapter.ts:12-13 | stripping non-digits leaves only digits |
| ChapterOrder.DigitsAreFilter | actions/vocabularyChapter.ts:12 | `replace(/\D/g, "")` keeps every digit of the name, in order, and nothing else |
| ChapterOrder.DigitsAppend | actions/vocabularyChapter.ts:12 | the digits of a concatenation are the digits of each part, in turn |
| ChapterOrder.DigitsOfOne | actions/vocabularyChapter.ts:12 | a single digit is kept and any other character is removed |
| ChapterOrder.ChapterNumber | actions/vocabularyChapter.ts:12-13 | a name has a number exactly when it holds a digit |
| ChapterOrder.Insert | actions/vocabularyChapter.ts:11-15 | inserting adds exactly one element |
| ChapterOrder.InsertSorted | actions/vocabularyChapter.ts:11-15 | inserting into a sorted list keeps it sorted |
| ChapterOrder.SortBy | actions/vocabularyChapter.ts:11-15 | the sort gives a sorted permutation |
| ChapterOrder.OrderedChapters | actions/vocabularyChapter.ts:4-16 | no result gives no chapters; otherwise the same chapters, in ascending chapter number |
| ChapterOrder.InsertKeepsTies | actions/vocabularyChapter.ts:11-15 | inserting keeps the relative order of chapters with the same number |
| ChapterOrder.SortKeepsTies | actions/vocabularyChapter.ts:11-15 | the sort is stable: chapters with the same number keep their relative order |
| ChapterOrder.TiesKeepQueryOrder | actions/vocabularyChapter.ts:5-15 | chapters with the same number stay in the database's name order |
| ChapterOrder.DigitsJoinAcrossSeparators | actions/vocabularyChapter.ts:12 | "1-2" sorts as chapter 12 |
| ChapterOrder.LettersAreDropped | actions/vocabularyChapter.ts:12 | "Day 9" sorts as chapter 9 |
| VocabularyImport.CreateDefinitions | actions/vocabulary.ts:9-27 | a word and at least one definition, none of them blank, are accepted, with each definition paired with its part of speech or ""; otherwise the missing word or missing definition error |
| VocabularyImport.FilledFormIsStored | actions/vocabulary.ts:16-27 | a filled form is accepted with its definitions in form order |
| VocabularyImport.BlankEntryRejects | actions/vocabulary.ts:19-21 | one blank definition rejects the whole form |
| VocabularyImport.DeleteRequest | actions/vocabulary.ts:88-93 | deleting needs a non-empty id and reports the missing id otherwise |
| VocabularyImport.BooksOrEmpty | actions/vocabularyBook.ts:8-11 | no result gives the empty book list |
| VocabularyImport.HeaderColumns | actions/vocabulary.ts:131-139 | a header is accepted exactly when it has the word column; the meaning and part-of-speech keys are exactly the header cells with those prefixes |
| VocabularyImport.RowDefinitionsExactly | actions/vocabulary.ts:176-186 | a row yields exactly the meaning and part-of-speech pairs whose two cells are filled |
| VocabularyImport.RowDefinitionsBounded | actions/vocabulary.ts:176-186 | a row yields at most as many definitions as there are complete column pairs |
| VocabularyImport.ParseRowDefinitions | actions/vocabulary.ts:174-186 | the loop over the meaning keys yields `RowDefinitions` |
| VocabularyImport.ImportFile | actions/vocabulary.ts:118-205 | no file gives the missing-file error; a bad header gives the header error; otherwise one record per row, in order |
| VocabularyImport.ImportFileToBook | actions/vocabularyBook.ts:63-121 | no file gives the missing-file error; a bad header gives the header error; otherwise one record per row, in order, naming the chapter |
| VocabularyImport.SheetRecord | actions/vocabulary.ts:252-258 | a sheet row becomes a word with one definition and count 0 |
| VocabularyImport.SheetRecords | actions/vocabulary.ts:252-258 | one record per sheet row |
| VocabularyImport.OneRecordPerRow | actions/vocabulary.ts:218-261 | the import holds one record per row across all sheets, each with one definition and count 0 |
| VocabularyImport.SheetsInOrder | actions/vocabulary.ts:220-261 | the records of earlier sheets come first |
| VocabularyImport.ImportSheets | actions/vocabulary.ts:208-261 | no file gives the missing-file error; otherwise the loop over the sheets collects `AllSheetRecords` |

## Left out

- Database I/O. Supabase calls are replaced by a list of stored rows, a lookup function or a parameter.
  - The order of query results stands for whatever order the database returns.
  - Failed queries, logging, `revalidatePath` and redirects are not modelled.
  - `getVocabulariesByBook` and `getVocabularyBooks` are not part of this model: the files that define them are not available. A book query is modelled as "the stored words of that book" (`WordSources.Query`), and the book list as whatever the caller gets.
- The chapter lookup and creation during import is not modelled, including the "no rows" code that triggers creation and the error messages of both queries. The chapter id is a parameter, or a function of the sheet name.
- Spreadsheet decoding (`XLSX.read`, `sheet_to_json`) is not modelled. An uploaded file is an optional value (absent when the form carries none), already decoded into its first sheet's header and rows, or into its sheets. A row is a map from header cell to text, and a header is a list of texts; non-text cells are not modelled.
- Speech synthesis is a log of utterances; voice rates are not modelled.
- Timers are explicit steps, and React's scheduling is reduced to one settled state per handler: each handler method runs the effects its change triggers. A reveal timeout still pending when play stops can fire afterwards, as in the source. Two things are not captured: restarting play within 500 ms overwrites the timer, so the two pending reveal timeouts collapse into one; and the model lets an interval firing come before the pending reveal, although the source registers the 500 ms timeout before the 500 ms interval.
- Async loads that race when a book and a chapter change quickly are not modelled: `BookChapterFilter` shows the settled state.
- `Math.random` is a tape of draws.
  - `sort(() => Math.random() - 0.5)` is modelled as the tape shuffle. Both yield some permutation, but the distribution is not modelled.
- Floating point: `Math.round` is modelled on exact rationals with halves rounded up, so results are exact and never NaN. `parseInt` of the settings and of the address is taken as a natural number; text that is not a number is not modelled.
- `toLowerCase` maps only A–Z; other case mappings are not modelled.
- The memorize page wiring (`app/vocabulary/memorize/page.tsx`) is not modelled. That includes:
  - that the player's own filter flag differs from the data hook's;
  - the effect that speaks a word whenever the current word changes.
- Presentational components, the legacy `app/actions` files and the add pages are not modelled.
- ChapterOrder.OrderedChapters: requires every chapter name to contain a digit. For a name without digits the comparator returns NaN, and the resulting order is not modelled.
- Playback.WordPlayback.HandleNavigation: a step that moves the cursor requires a non-empty list. The source's `% 0` on an empty list gives NaN, which is not modelled; the keyboard is disabled on an empty list.
- Keyboard.HandleKeyDown: registering and removing the window listener is not modelled.

## Findings

| source | as written | input that shows it | evidently intended | confidence | as-written member | corrected member |
|---|---|---|---|---|---|---|
| actions/vocabulary.ts:80 with app/vocabulary/memorize/hooks/useWordModification.tsx:23-26 | the handler sends a payload whose count is already raised, and `updateVocabulary` stores `count + 1` of it | a word with count 0: the screen shows 1, the store receives 2 | the store receives the count the screen shows | high, not executed | WordModification.CountStoredTwiceAhead | WordModification.StoreFollowsScreen |
| actions/vocabulary.ts:80 with app/vocabulary/memorize/hooks/useWordModification.tsx:44-47 | `updateVocabulary` writes only the count, so the toggled `memorized` flag is never saved, while the count is raised | marking an unmemorized word with count 0 as memorized: the store keeps it unmemorized and gives it count 1 | the store saves the flipped flag and leaves the count alone | high, not executed | WordModification.MemorizedNotStored | WordModification.StoreFollowsScreen |
| app/vocabulary/quiz/page.tsx:57-72 | on mount, the address effect selects the chapters from the address, but the chapter effect for the initial empty book then clears the selection | `/vocabulary/quiz?book=B&chapters=c1` ends with no chapter selected and loads the whole book | the chapters in the address stay selected | medium, not executed | QuizSetup.QuizSetup.Mount | QuizSetup.QuizSetup.MountKeepingSelection |
| app/vocabulary/quiz/test/page.tsx:168-172 and app/vocabulary/quiz/test/page.tsx:206 | a timeout submits the empty answer, and in typed-answer mode every expected answer includes the empty text, so the timeout counts as correct | a text-input question left to time out is scored correct | time out marks the question wrong, as the comment on line 206 says | high, not executed | QuizRunner.TimeoutRecordsEmptyAnswer | QuizRunner.TimeoutAsIntended |
| app/vocabulary/quiz/test/page.tsx:204-208 and app/vocabulary/quiz/test/page.tsx:191 | the countdown's updater returns 0 after `handleAnswer` has queued the full limit, and the eagerly computed 0 is applied last | a question that times out leaves the next question 0 seconds, so it times out on the next tick with an empty answer | the next question starts with the whole limit | medium, not executed | QuizRunner.TimeoutStarvesNextQuestion | QuizRunner.TimeoutAsIntended |
