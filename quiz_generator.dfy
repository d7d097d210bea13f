/** Question generation of the quiz test page (`generateQuestions`): pick up
    to `totalQuestions` words in random order and turn each into a prompt, the
    expected answer and, in multiple-choice mode, a shuffled option list.

    Every `sort(() => Math.random() - 0.5)` of the page is modelled by
    `Shuffle.Shuffled` on its own tape of draws; since every permutation is
    reachable from some tape (`Shuffle.EveryPermutationReachable`), a property
    proved for every tape holds for whatever order the browser produces. */
module QuizGenerator {
  import opened Common
  import opened Shuffle

  datatype QuestionType = WordToDefinition | DefinitionToWord

  datatype AnswerType = MultipleChoice | TextInput

  /** `options` is present exactly for multiple-choice questions. */
  datatype QuizQuestion = QuizQuestion(
    question: string,
    correctAnswer: string,
    options: Option<seq<string>>,
    qtype: QuestionType,
    answerType: AnswerType)

  const NoDefinition: string := "정의 없음"
  const ExtraOption1: string := "추가 옵션 1"
  const ExtraOption2: string := "추가 옵션 2"

  /** The page compares the query parameter with one literal and takes the
      other branch for anything else, including a missing parameter. */
  function QuestionTypeParam(param: Option<string>): QuestionType
  {
    if param == Some("word-to-definition") then WordToDefinition else DefinitionToWord
  }

  function AnswerTypeParam(param: Option<string>): AnswerType
  {
    if param == Some("multiple-choice") then MultipleChoice else TextInput
  }

  function DefinitionTexts(v: Vocabulary): seq<string>
  {
    seq(|v.definitions|, i requires 0 <= i < |v.definitions| => v.definitions[i].definition)
  }

  /** The reference definition: the first one, unless it is missing or empty
      (`allDefinitions[0] || '정의 없음'`). It is never empty. */
  function CorrectDefinition(v: Vocabulary): (d: string)
    ensures d != ""
    ensures |v.definitions| > 0 && v.definitions[0].definition != "" ==> d == v.definitions[0].definition
    ensures |v.definitions| == 0 || v.definitions[0].definition == "" ==> d == NoDefinition
  {
    if |v.definitions| > 0 && v.definitions[0].definition != "" then v.definitions[0].definition
    else NoDefinition
  }

  function OtherVocabularies(vs: seq<Vocabulary>, v: Vocabulary): seq<Vocabulary>
  {
    Filter(vs, (w: Vocabulary) => w.id != v.id)
  }

  /** `flatMap(v => v.definitions.map(def => def.definition))`. */
  function FlatDefinitions(vs: seq<Vocabulary>): seq<string>
  {
    if vs == [] then [] else DefinitionTexts(vs[0]) + FlatDefinitions(vs[1..])
  }

  lemma {:induction false} FlatDefinitionsMember(vs: seq<Vocabulary>, x: string)
    ensures x in FlatDefinitions(vs) <==> exists w :: w in vs && x in DefinitionTexts(w)
  {
    if vs != [] {
      FlatDefinitionsMember(vs[1..], x);
      assert vs == [vs[0]] + vs[1..];
      if x in DefinitionTexts(vs[0]) {
        assert vs[0] in vs;
      }
    }
  }

  function WordsOf(vs: seq<Vocabulary>): seq<string>
  {
    seq(|vs|, i requires 0 <= i < |vs| => vs[i].word)
  }

  /** Word-to-definition distractor pool: every non-blank definition of every
      other word that differs from the reference definition, duplicates kept. */
  function WrongDefinitionCandidates(vs: seq<Vocabulary>, v: Vocabulary): seq<string>
  {
    var c := CorrectDefinition(v);
    Filter(FlatDefinitions(OtherVocabularies(vs, v)), (d: string) => d != c && Trim(d) != "")
  }

  /** Definition-to-word distractor pool: the non-blank words of the other
      words; it is not filtered against the asked word itself. */
  function OtherWordCandidates(vs: seq<Vocabulary>, v: Vocabulary): seq<string>
  {
    Filter(WordsOf(OtherVocabularies(vs, v)), (w: string) => Trim(w) != "")
  }

  ghost predicate IsWrongDefinition(vs: seq<Vocabulary>, v: Vocabulary, x: string)
  {
    && x != CorrectDefinition(v)
    && Trim(x) != ""
    && exists w :: w in vs && w.id != v.id && x in DefinitionTexts(w)
  }

  ghost predicate IsOtherWord(vs: seq<Vocabulary>, v: Vocabulary, x: string)
  {
    Trim(x) != "" && exists w :: w in vs && w.id != v.id && w.word == x
  }

  /** The definition pool holds exactly the admissible wrong definitions. */
  lemma WrongDefinitionCandidatesExactly(vs: seq<Vocabulary>, v: Vocabulary, x: string)
    ensures x in WrongDefinitionCandidates(vs, v) <==> IsWrongDefinition(vs, v, x)
  {
    var others := OtherVocabularies(vs, v);
    FlatDefinitionsMember(others, x);
    if IsWrongDefinition(vs, v, x) {
      var w :| w in vs && w.id != v.id && x in DefinitionTexts(w);
      assert w in others;
    }
  }

  /** The word pool holds exactly the non-blank words of other words. */
  lemma OtherWordCandidatesExactly(vs: seq<Vocabulary>, v: Vocabulary, x: string)
    ensures x in OtherWordCandidates(vs, v) <==> IsOtherWord(vs, v, x)
  {
    var others := OtherVocabularies(vs, v);
    if x in WordsOf(others) {
      var i :| 0 <= i < |others| && others[i].word == x;
      assert others[i] in others;
    }
    if IsOtherWord(vs, v, x) {
      var w :| w in vs && w.id != v.id && w.word == x;
      assert w in others;
      var i :| 0 <= i < |others| && others[i] == w;
      assert WordsOf(others)[i] == x;
    }
  }

  /** `pool.sort(random).slice(0, 3)`. */
  function PickDistractors(pool: seq<string>, tape: seq<nat>): (r: seq<string>)
    ensures |r| == Min(3, |pool|)
    ensures forall x :: x in r ==> x in pool
    ensures multiset(r) <= multiset(pool)
  {
    var s := Shuffled(pool, tape);
    ShuffledPermutes(pool, tape);
    var r := Take(s, 3);
    assert forall x :: x in r ==> x in multiset(s);
    r
  }

  /** The question for one selected word. `distractorTape` orders the
      distractor pool and `optionTape` the final option list. */
  function MakeQuestion(vs: seq<Vocabulary>, v: Vocabulary, qt: QuestionType, at: AnswerType,
                        distractorTape: seq<nat>, optionTape: seq<nat>): QuizQuestion
  {
    var correct := CorrectDefinition(v);
    match qt
    case WordToDefinition =>
      if at == MultipleChoice then
        var wrong := PickDistractors(WrongDefinitionCandidates(vs, v), distractorTape);
        QuizQuestion(v.word, correct, Some(Shuffled([correct] + wrong, optionTape)),
                     WordToDefinition, MultipleChoice)
      else
        QuizQuestion(v.word, correct, None, WordToDefinition, TextInput)
    case DefinitionToWord =>
      if at == MultipleChoice then
        var options := [v.word] + PickDistractors(OtherWordCandidates(vs, v), distractorTape);
        var padded := if |options| < 2 then options + [ExtraOption1, ExtraOption2] else options;
        QuizQuestion(correct, v.word, Some(Shuffled(padded, optionTape)),
                     DefinitionToWord, MultipleChoice)
      else
        QuizQuestion(correct, v.word, None, DefinitionToWord, TextInput)
  }

  /** Word-to-definition options: the reference definition exactly once, one
      to three admissible wrong definitions besides it (as many as the pool
      allows), duplicates among them possible. */
  ghost predicate WordToDefinitionOptions(vs: seq<Vocabulary>, v: Vocabulary, o: seq<string>)
  {
    var c := CorrectDefinition(v);
    && multiset(o)[c] == 1
    && |o| == 1 + Min(3, |WrongDefinitionCandidates(vs, v)|)
    && forall x :: x in o && x != c ==> IsWrongDefinition(vs, v, x)
  }

  /** Definition-to-word options: the asked word plus up to three other
      words; when no other word is available, the two placeholders instead. */
  ghost predicate DefinitionToWordOptions(vs: seq<Vocabulary>, v: Vocabulary, o: seq<string>)
  {
    var pool := OtherWordCandidates(vs, v);
    && v.word in o
    && (pool == [] ==> multiset(o) == multiset{v.word, ExtraOption1, ExtraOption2})
    && (pool != [] ==>
          |o| == 1 + Min(3, |pool|)
          && forall x :: x in multiset(o) - multiset{v.word} ==> IsOtherWord(vs, v, x))
  }

  /** What the page promises about the question built for word `v`. */
  ghost predicate QuestionFor(vs: seq<Vocabulary>, v: Vocabulary, qt: QuestionType, at: AnswerType,
                              q: QuizQuestion)
  {
    && q.qtype == qt && q.answerType == at
    && (qt == WordToDefinition ==> q.question == v.word && q.correctAnswer == CorrectDefinition(v))
    && (qt == DefinitionToWord ==> q.question == CorrectDefinition(v) && q.correctAnswer == v.word)
    && (q.options == None <==> at == TextInput)
    && (q.options.Some? && qt == WordToDefinition ==> WordToDefinitionOptions(vs, v, q.options.value))
    && (q.options.Some? && qt == DefinitionToWord ==> DefinitionToWordOptions(vs, v, q.options.value))
  }

  lemma WordToDefinitionOptionsHold(vs: seq<Vocabulary>, v: Vocabulary, dt: seq<nat>, ot: seq<nat>)
    ensures WordToDefinitionOptions(vs, v,
              Shuffled([CorrectDefinition(v)] + PickDistractors(WrongDefinitionCandidates(vs, v), dt), ot))
    ensures var wrong := PickDistractors(WrongDefinitionCandidates(vs, v), dt);
            && multiset(Shuffled([CorrectDefinition(v)] + wrong, ot)) == multiset{CorrectDefinition(v)} + multiset(wrong)
            && multiset(wrong) <= multiset(WrongDefinitionCandidates(vs, v))
  {
    var c := CorrectDefinition(v);
    var pool := WrongDefinitionCandidates(vs, v);
    var wrong := PickDistractors(pool, dt);
    var o := Shuffled([c] + wrong, ot);
    ShuffledPermutes([c] + wrong, ot);
    assert multiset(o) == multiset{c} + multiset(wrong);
    assert c !in wrong by {
      if c in wrong { WrongDefinitionCandidatesExactly(vs, v, c); }
    }
    forall x | x in o && x != c
      ensures IsWrongDefinition(vs, v, x)
    {
      assert x in multiset(o);
      assert x in wrong;
      WrongDefinitionCandidatesExactly(vs, v, x);
    }
  }

  lemma PlaceholdersWhenNoOtherWord(vs: seq<Vocabulary>, v: Vocabulary, others: seq<string>, ot: seq<nat>)
    requires OtherWordCandidates(vs, v) == [] && others == []
    ensures DefinitionToWordOptions(vs, v, Shuffled([v.word] + others + [ExtraOption1, ExtraOption2], ot))
  {
    assert [v.word] + others + [ExtraOption1, ExtraOption2] == [v.word, ExtraOption1, ExtraOption2];
    ShuffledThree(v.word, ExtraOption1, ExtraOption2, ot);
    PlaceholderOptions(vs, v, Shuffled([v.word, ExtraOption1, ExtraOption2], ot));
  }

  lemma PlaceholderOptions(vs: seq<Vocabulary>, v: Vocabulary, o: seq<string>)
    requires OtherWordCandidates(vs, v) == []
    requires v.word in o && multiset(o) == multiset{v.word, ExtraOption1, ExtraOption2}
    ensures DefinitionToWordOptions(vs, v, o)
  {
  }

  /** Shuffling three options keeps all three. */
  lemma ShuffledThree<T>(a: T, b: T, c: T, tape: seq<nat>)
    ensures var o := Shuffled([a, b, c], tape);
            a in o && multiset(o) == multiset{a, b, c}
  {
    var o := Shuffled([a, b, c], tape);
    ShuffledPermutes([a, b, c], tape);
    assert multiset([a, b, c]) == multiset{a, b, c};
    assert a in multiset(o);
  }

  lemma OtherWordsAsOptions(vs: seq<Vocabulary>, v: Vocabulary, others: seq<string>, ot: seq<nat>)
    requires |others| == Min(3, |OtherWordCandidates(vs, v)|) > 0
    requires forall x :: x in others ==> x in OtherWordCandidates(vs, v)
    ensures DefinitionToWordOptions(vs, v, Shuffled([v.word] + others, ot))
  {
    var o := Shuffled([v.word] + others, ot);
    ShuffledPermutes([v.word] + others, ot);
    assert v.word in multiset([v.word] + others);
    assert multiset(o) - multiset{v.word} == multiset(others);
    forall x | x in multiset(o) - multiset{v.word}
      ensures IsOtherWord(vs, v, x)
    {
      assert x in others;
      OtherWordCandidatesExactly(vs, v, x);
    }
  }

  lemma DefinitionToWordOptionsHold(vs: seq<Vocabulary>, v: Vocabulary, dt: seq<nat>, ot: seq<nat>)
    ensures var options := [v.word] + PickDistractors(OtherWordCandidates(vs, v), dt);
            var padded := if |options| < 2 then options + [ExtraOption1, ExtraOption2] else options;
            DefinitionToWordOptions(vs, v, Shuffled(padded, ot))
  {
    var others := PickDistractors(OtherWordCandidates(vs, v), dt);
    if |others| == 0 {
      PlaceholdersWhenNoOtherWord(vs, v, others, ot);
    } else {
      OtherWordsAsOptions(vs, v, others, ot);
    }
  }

  /** Every generated question satisfies `QuestionFor`, whatever the tapes. */
  lemma MakeQuestionSound(vs: seq<Vocabulary>, v: Vocabulary, qt: QuestionType, at: AnswerType,
                          dt: seq<nat>, ot: seq<nat>)
    ensures QuestionFor(vs, v, qt, at, MakeQuestion(vs, v, qt, at, dt, ot))
  {
    if at == MultipleChoice {
      if qt == WordToDefinition {
        WordToDefinitionOptionsHold(vs, v, dt, ot);
      } else {
        DefinitionToWordOptionsHold(vs, v, dt, ot);
      }
    }
  }

  function TapeAt(tapes: seq<seq<nat>>, k: nat): seq<nat>
  {
    if k < |tapes| then tapes[k] else []
  }

  /** `[...vocabularies].sort(random).slice(0, Math.min(totalQuestions, n))`:
      distinct entries of the word list, as many as asked for and available. */
  function SelectVocabularies(vs: seq<Vocabulary>, total: nat, tape: seq<nat>): (sel: seq<Vocabulary>)
    ensures |sel| == Min(total, |vs|)
    ensures multiset(sel) <= multiset(vs)
  {
    ShuffledPermutes(vs, tape);
    Take(Shuffled(vs, tape), total)
  }

  /** `generateQuestions`. Tape 0 orders the words; question `k` uses tapes
      `2k + 1` (distractors) and `2k + 2` (options). */
  function GenerateQuestions(vs: seq<Vocabulary>, total: nat, qt: QuestionType, at: AnswerType,
                             tapes: seq<seq<nat>>): seq<QuizQuestion>
  {
    if |vs| < 2 then []
    else
      var sel := SelectVocabularies(vs, total, TapeAt(tapes, 0));
      seq(|sel|, k requires 0 <= k < |sel| => QuestionAt(vs, sel, qt, at, tapes, k))
  }

  function QuestionAt(vs: seq<Vocabulary>, sel: seq<Vocabulary>, qt: QuestionType, at: AnswerType,
                      tapes: seq<seq<nat>>, k: nat): QuizQuestion
    requires k < |sel|
  {
    MakeQuestion(vs, sel[k], qt, at, TapeAt(tapes, 2 * k + 1), TapeAt(tapes, 2 * k + 2))
  }

  lemma GeneratedQuestionAt(vs: seq<Vocabulary>, total: nat, qt: QuestionType, at: AnswerType,
                            tapes: seq<seq<nat>>, k: nat)
    requires |vs| >= 2 && k < Min(total, |vs|)
    ensures k < |GenerateQuestions(vs, total, qt, at, tapes)|
    ensures QuestionFor(vs, SelectVocabularies(vs, total, TapeAt(tapes, 0))[k], qt, at,
                        GenerateQuestions(vs, total, qt, at, tapes)[k])
  {
    var sel := SelectVocabularies(vs, total, TapeAt(tapes, 0));
    MakeQuestionSound(vs, sel[k], qt, at, TapeAt(tapes, 2 * k + 1), TapeAt(tapes, 2 * k + 2));
    assert GenerateQuestions(vs, total, qt, at, tapes)[k] == QuestionAt(vs, sel, qt, at, tapes, k);
  }

  /** Fewer than two words give no quiz; otherwise there are
      `min(totalQuestions, #words)` questions, the `k`-th built for the `k`-th
      selected word, and the selected words are distinct entries of the list. */
  lemma GenerateQuestionsSpec(vs: seq<Vocabulary>, total: nat, qt: QuestionType, at: AnswerType,
                              tapes: seq<seq<nat>>)
    ensures var r := GenerateQuestions(vs, total, qt, at, tapes);
            var sel := SelectVocabularies(vs, total, TapeAt(tapes, 0));
            && (|vs| < 2 ==> r == [])
            && (|vs| >= 2 ==> |r| == Min(total, |vs|) == |sel|
                              && forall k :: 0 <= k < |r| ==> QuestionFor(vs, sel[k], qt, at, r[k]))
  {
    if |vs| >= 2 {
      var r := GenerateQuestions(vs, total, qt, at, tapes);
      forall k | 0 <= k < |r|
        ensures QuestionFor(vs, SelectVocabularies(vs, total, TapeAt(tapes, 0))[k], qt, at, r[k])
      {
        GeneratedQuestionAt(vs, total, qt, at, tapes, k);
      }
    }
  }

  const Run: Vocabulary := Vocabulary("1", "run", "Basics", None, false, [Definition("달리다", None)], 0)
  const Jump: Vocabulary := Vocabulary("2", "jump", "Basics", None, false, [Definition("뛰다", None)], 0)

  lemma OtherOfTwo(v: Vocabulary, w: Vocabulary)
    requires (v == Run && w == Jump) || (v == Jump && w == Run)
    ensures OtherVocabularies([Run, Jump], v) == [w]
  {
    var p := (x: Vocabulary) => x.id != v.id;
    assert [Run, Jump][1..] == [Jump] && [Jump][1..] == [];
    assert Filter([Jump], p) == (if p(Jump) then [Jump] else []) + Filter([], p);
  }

  lemma SingleDefinitionKept(d: string, c: string)
    requires d != c && d != [] && !IsWhitespace(d[0]) && !IsWhitespace(d[|d| - 1])
    ensures Filter([d], (x: string) => x != c && Trim(x) != "") == [d]
  {
    TrimUnchanged(d);
    assert [d][1..] == [];
  }

  lemma PoolIsOtherDefinition(vs: seq<Vocabulary>, v: Vocabulary, w: Vocabulary)
    requires OtherVocabularies(vs, v) == [w] && |w.definitions| == 1
    requires var d := w.definitions[0].definition;
             d != CorrectDefinition(v) && d != [] && !IsWhitespace(d[0]) && !IsWhitespace(d[|d| - 1])
    ensures WrongDefinitionCandidates(vs, v) == DefinitionTexts(w)
  {
    assert FlatDefinitions([w]) == DefinitionTexts(w) + FlatDefinitions([]);
    var d := w.definitions[0].definition;
    assert DefinitionTexts(w) == [d];
    SingleDefinitionKept(d, CorrectDefinition(v));
  }

  lemma RunPool()
    ensures WrongDefinitionCandidates([Run, Jump], Run) == DefinitionTexts(Jump)
  {
    OtherOfTwo(Run, Jump);
    PoolIsOtherDefinition([Run, Jump], Run, Jump);
  }

  lemma JumpPool()
    ensures WrongDefinitionCandidates([Run, Jump], Jump) == DefinitionTexts(Run)
  {
    OtherOfTwo(Jump, Run);
    PoolIsOtherDefinition([Run, Jump], Jump, Run);
  }

  /** Two words in word-to-definition multiple-choice mode: two questions,
      each offering its own definition and the other word's, and nothing else. */
  lemma TwoWordsGiveTwoOptionsEach(tapes: seq<seq<nat>>)
    ensures var r := GenerateQuestions([Run, Jump], 10, WordToDefinition, MultipleChoice, tapes);
            && |r| == 2
            && forall k :: 0 <= k < 2 ==> r[k].options.Some? && |r[k].options.value| == 2
                                          && r[k].correctAnswer in r[k].options.value
  {
    var vs := [Run, Jump];
    GenerateQuestionsSpec(vs, 10, WordToDefinition, MultipleChoice, tapes);
    var sel := SelectVocabularies(vs, 10, TapeAt(tapes, 0));
    forall k | 0 <= k < 2
      ensures |WrongDefinitionCandidates(vs, sel[k])| == 1
    {
      assert sel[k] in multiset(vs);
      if sel[k] == Run { RunPool(); } else { JumpPool(); }
    }
  }
}
