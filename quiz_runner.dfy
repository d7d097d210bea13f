/** The quiz test page once the questions exist: judging an answer, the
    runner that records one result per answer and moves to the next
    question, the per-question countdown, and the final score and average
    time. Timers are explicit `Tick` steps; the time limit is a parameter
    read once from the page address. */
module QuizRunner {
  import opened Common
  import opened QuizGenerator

  datatype QuizResult = QuizResult(
    question: QuizQuestion,
    userAnswer: string,
    isCorrect: bool,
    timeSpent: int)

  /** `s.toLowerCase().trim()`. */
  function Normalize(s: string): string
  {
    Trim(ToLower(s))
  }

  /** Multiple choice wants the exact option; a typed answer is right when,
      after lower-casing and trimming, either text contains the other. */
  predicate IsCorrectAnswer(q: QuizQuestion, answer: string)
  {
    if q.answerType == TextInput then
      var user := Normalize(answer);
      var expected := Normalize(q.correctAnswer);
      Contains(expected, user) || Contains(user, expected)
    else
      answer == q.correctAnswer
  }

  lemma MultipleChoiceIsExactMatch(q: QuizQuestion, answer: string)
    requires q.answerType == MultipleChoice
    ensures IsCorrectAnswer(q, answer) <==> answer == q.correctAnswer
  {
  }

  /** A typed answer is right exactly when one normalized text occurs at some
      offset inside the other. */
  lemma TextInputIsContainment(q: QuizQuestion, answer: string)
    requires q.answerType == TextInput
    ensures var user := Normalize(answer);
            var expected := Normalize(q.correctAnswer);
            IsCorrectAnswer(q, answer) <==>
              || (exists i :: 0 <= i <= |expected| - |user| && IsPrefix(user, expected[i..]))
              || (exists i :: 0 <= i <= |user| - |expected| && IsPrefix(expected, user[i..]))
  {
    ContainsAt(Normalize(q.correctAnswer), Normalize(answer));
    ContainsAt(Normalize(answer), Normalize(q.correctAnswer));
  }

  /** The expected answer itself is always accepted, in either mode. */
  lemma CorrectAnswerAccepted(q: QuizQuestion)
    ensures IsCorrectAnswer(q, q.correctAnswer)
  {
    ContainsSelf(Normalize(q.correctAnswer));
  }

  /** A blank answer, in particular the empty answer the countdown submits,
      is judged correct for every typed-answer question: the empty string is
      contained in every expected answer. */
  lemma BlankAnswerAcceptedInTextMode(q: QuizQuestion, answer: string)
    requires q.answerType == TextInput && AllWhitespace(answer)
    ensures IsCorrectAnswer(q, answer)
  {
    assert AllWhitespace(ToLower(answer));
    TrimEmptyIffAllWhitespace(ToLower(answer));
    ContainsEmpty(Normalize(q.correctAnswer));
  }

  /** `getScore`'s numerator. */
  function CountCorrect(answers: seq<QuizResult>): (n: nat)
    ensures n <= |answers|
  {
    |Filter(answers, (r: QuizResult) => r.isCorrect)|
  }

  function TotalTime(answers: seq<QuizResult>): int
  {
    if answers == [] then 0 else answers[0].timeSpent + TotalTime(answers[1..])
  }

  /** `Math.round(a / b)` for a positive `b`: the integer nearest to `a / b`,
      halves rounded up. */
  function RoundDiv(a: int, b: int): (r: int)
    requires b > 0
    ensures 2 * b * r - b <= 2 * a < 2 * b * r + b
  {
    (2 * a + b) / (2 * b)
  }

  lemma RoundDivWithin(a: int, b: int, lo: int, hi: int)
    requires b > 0 && lo * b <= a <= hi * b
    ensures lo <= RoundDiv(a, b) <= hi
  {
    var r := RoundDiv(a, b);
    ScaleAtLeast(b, r - hi);
    ScaleAtLeast(b, lo - r);
    assert b * (r - hi) == b * r - b * hi;
    assert b * (lo - r) == b * lo - b * r;
  }

  /** `getScore`: the percentage of correct answers among all questions. */
  function Score(answers: seq<QuizResult>, questionCount: nat): int
    requires questionCount > 0
  {
    RoundDiv(100 * CountCorrect(answers), questionCount)
  }

  /** `getAverageTime`: mean seconds per recorded answer. */
  function AverageTime(answers: seq<QuizResult>): int
    requires |answers| > 0
  {
    RoundDiv(TotalTime(answers), |answers|)
  }

  lemma {:induction false} TotalTimeWithin(answers: seq<QuizResult>, limit: int)
    requires forall k :: 0 <= k < |answers| ==> 0 <= answers[k].timeSpent <= limit
    ensures 0 <= TotalTime(answers) <= limit * |answers|
  {
    if answers != [] {
      TotalTimeWithin(answers[1..], limit);
    }
  }

  /** With no more answers than questions the score is a percentage. */
  lemma ScoreIsPercentage(answers: seq<QuizResult>, questionCount: nat)
    requires 0 < questionCount && |answers| <= questionCount
    ensures 0 <= Score(answers, questionCount) <= 100
  {
    RoundDivWithin(100 * CountCorrect(answers), questionCount, 0, 100);
  }

  /** All correct out of all questions is a perfect score. */
  lemma AllCorrectScoresHundred(answers: seq<QuizResult>)
    requires |answers| > 0 && CountCorrect(answers) == |answers|
    ensures Score(answers, |answers|) == 100
  {
    RoundDivWithin(100 * |answers|, |answers|, 100, 100);
  }

  lemma AverageTimeWithin(answers: seq<QuizResult>, limit: int)
    requires |answers| > 0
    requires forall k :: 0 <= k < |answers| ==> 0 <= answers[k].timeSpent <= limit
    ensures 0 <= AverageTime(answers) <= limit
  {
    TotalTimeWithin(answers, limit);
    RoundDivWithin(TotalTime(answers), |answers|, 0, limit);
  }

  // ---------------------------------------------------------------------
  // The runner

  datatype RunnerState = RunnerState(
    questions: seq<QuizQuestion>,
    index: nat,
    answers: seq<QuizResult>,
    timeLeft: int,
    started: bool,
    completed: bool,
    textAnswer: string)

  function Initial(questions: seq<QuizQuestion>): RunnerState
  {
    RunnerState(questions, 0, [], 0, false, false, "")
  }

  /** `handleAnswer`: nothing without a current question; otherwise record
      one result, then advance and restart the countdown, or finish after
      the last question. */
  function Answer(s: RunnerState, timeLimit: nat, answer: string): RunnerState
  {
    if s.index >= |s.questions| then s
    else
      var q := s.questions[s.index];
      var result := QuizResult(q, answer, IsCorrectAnswer(q, answer), timeLimit - s.timeLeft);
      var recorded := s.(answers := s.answers + [result]);
      if s.index < |s.questions| - 1 then
        recorded.(index := s.index + 1, timeLeft := timeLimit, textAnswer := "")
      else
        recorded.(completed := true)
  }

  /** One second of the countdown. It runs only while the quiz is started,
      not completed and limited; at one second or less it submits the empty
      answer and stops at zero. */
  function Tick(s: RunnerState, timeLimit: nat): RunnerState
  {
    if !s.started || s.completed || timeLimit == 0 then s
    else if s.timeLeft <= 1 then Answer(s, timeLimit, "").(timeLeft := 0)
    else s.(timeLeft := s.timeLeft - 1)
  }

  function Start(s: RunnerState, timeLimit: nat): RunnerState
  {
    s.(started := true, timeLeft := timeLimit, textAnswer := "")
  }

  /** `handleTextAnswerSubmit`: submit the trimmed text, unless it is blank. */
  function SubmitText(s: RunnerState, timeLimit: nat): RunnerState
  {
    if Trim(s.textAnswer) != "" then Answer(s, timeLimit, Trim(s.textAnswer)) else s
  }

  /** The runner's bookkeeping: one result per answered question, in question
      order; the countdown and every recorded time lie within the limit. */
  ghost predicate Consistent(s: RunnerState, timeLimit: nat)
  {
    && (s.questions == [] ==> s.index == 0 && !s.completed)
    && (s.questions != [] ==> s.index < |s.questions|)
    && (s.completed ==> s.index == |s.questions| - 1)
    && |s.answers| == s.index + (if s.completed then 1 else 0)
    && (forall k :: 0 <= k < |s.answers| ==> s.answers[k].question == s.questions[k])
    && 0 <= s.timeLeft <= timeLimit
    && (forall k :: 0 <= k < |s.answers| ==> 0 <= s.answers[k].timeSpent <= timeLimit)
  }

  lemma InitialConsistent(questions: seq<QuizQuestion>, timeLimit: nat)
    ensures Consistent(Initial(questions), timeLimit)
  {
  }

  /** `handleAnswer` records exactly one result for the current question,
      judged by `IsCorrectAnswer`, and either moves on with a full countdown
      or completes the quiz on the last question. */
  lemma AnswerRecordsOne(s: RunnerState, timeLimit: nat, answer: string)
    requires s.index < |s.questions|
    ensures var t := Answer(s, timeLimit, answer);
            var q := s.questions[s.index];
            && t.answers == s.answers + [QuizResult(q, answer, IsCorrectAnswer(q, answer), timeLimit - s.timeLeft)]
            && t.questions == s.questions && t.started == s.started
            && (s.index + 1 < |s.questions| ==>
                  t.index == s.index + 1 && t.timeLeft == timeLimit && t.completed == s.completed)
            && (s.index + 1 == |s.questions| ==> t.index == s.index && t.completed)
  {
  }

  lemma AnswerWithoutQuestion(s: RunnerState, timeLimit: nat, answer: string)
    requires s.index >= |s.questions|
    ensures Answer(s, timeLimit, answer) == s
  {
  }

  lemma AnswerKeepsConsistent(s: RunnerState, timeLimit: nat, answer: string)
    requires Consistent(s, timeLimit) && !s.completed
    ensures Consistent(Answer(s, timeLimit, answer), timeLimit)
  {
  }

  lemma TickKeepsConsistent(s: RunnerState, timeLimit: nat)
    requires Consistent(s, timeLimit)
    ensures Consistent(Tick(s, timeLimit), timeLimit)
  {
    if s.started && !s.completed && timeLimit != 0 && s.timeLeft <= 1 {
      AnswerKeepsConsistent(s, timeLimit, "");
    }
  }

  lemma StartKeepsConsistent(s: RunnerState, timeLimit: nat)
    requires Consistent(s, timeLimit)
    ensures Consistent(Start(s, timeLimit), timeLimit)
  {
  }

  lemma SubmitTextKeepsConsistent(s: RunnerState, timeLimit: nat)
    requires Consistent(s, timeLimit) && !s.completed
    ensures Consistent(SubmitText(s, timeLimit), timeLimit)
  {
    if Trim(s.textAnswer) != "" {
      AnswerKeepsConsistent(s, timeLimit, Trim(s.textAnswer));
    }
  }

  /** The countdown is idle before the start, after completion and without a
      limit; otherwise it counts down by one while more than one second is
      left. */
  lemma TickCountsDown(s: RunnerState, timeLimit: nat)
    ensures !s.started || s.completed || timeLimit == 0 ==> Tick(s, timeLimit) == s
    ensures s.started && !s.completed && timeLimit > 0 && s.timeLeft > 1 ==>
              Tick(s, timeLimit) == s.(timeLeft := s.timeLeft - 1)
  {
  }

  /** When time runs out on a question, the empty answer is recorded for it
      with the limit less the time left as time spent (the limit less one on
      an ordinary timeout), and in typed-answer mode it counts as correct. */
  lemma TimeoutRecordsEmptyAnswer(s: RunnerState, timeLimit: nat)
    requires s.started && !s.completed && timeLimit > 0 && s.timeLeft <= 1
    requires s.index < |s.questions|
    ensures var t := Tick(s, timeLimit);
            var q := s.questions[s.index];
            && |t.answers| == |s.answers| + 1
            && t.answers[|s.answers|].userAnswer == ""
            && t.answers[|s.answers|].timeSpent == timeLimit - s.timeLeft
            && (q.answerType == TextInput ==> t.answers[|s.answers|].isCorrect)
            && t.timeLeft == 0
  {
    var q := s.questions[s.index];
    var recorded := QuizResult(q, "", IsCorrectAnswer(q, ""), timeLimit - s.timeLeft);
    assert Answer(s, timeLimit, "").answers == s.answers + [recorded];
    if q.answerType == TextInput {
      BlankAnswerAcceptedInTextMode(q, "");
    }
  }

  /** A blank typed answer submits nothing; otherwise the trimmed text is
      what gets recorded. */
  lemma SubmitTextTrims(s: RunnerState, timeLimit: nat)
    ensures AllWhitespace(s.textAnswer) ==> SubmitText(s, timeLimit) == s
    ensures !AllWhitespace(s.textAnswer) ==>
              SubmitText(s, timeLimit) == Answer(s, timeLimit, Trim(s.textAnswer))
  {
    TrimEmptyIffAllWhitespace(s.textAnswer);
  }

  /** Once the quiz completes, every question has exactly one recorded
      result, so the score is a percentage and the average time lies within
      the limit. */
  lemma CompletedQuizResults(s: RunnerState, timeLimit: nat)
    requires Consistent(s, timeLimit) && s.completed
    ensures |s.answers| == |s.questions| > 0
    ensures 0 <= Score(s.answers, |s.questions|) <= 100
    ensures 0 <= AverageTime(s.answers) <= timeLimit
  {
    ScoreIsPercentage(s.answers, |s.questions|);
    AverageTimeWithin(s.answers, timeLimit);
  }

  /** The countdown's state update returns zero after `handleAnswer` has
      already queued the full limit for the next question, and the zero
      lands last: the question after a timed-out one starts with no time
      and is itself timed out, with the empty answer, on the next tick. */
  lemma TimeoutStarvesNextQuestion(s: RunnerState, timeLimit: nat)
    requires s.started && !s.completed && timeLimit > 0 && s.timeLeft <= 1
    requires s.index + 1 < |s.questions|
    ensures var t := Tick(s, timeLimit);
            && t.index == s.index + 1 && t.timeLeft == 0
            && var u := Tick(t, timeLimit);
               && |u.answers| == |s.answers| + 2
               && u.answers[|s.answers| + 1].question == s.questions[s.index + 1]
               && u.answers[|s.answers| + 1].userAnswer == ""
  {
  }

  /** The countdown as its comment means it: at one second or less the
      current question is recorded with the empty answer and marked wrong
      whatever the answer mode, and the next question gets the whole limit. */
  function TickAsIntended(s: RunnerState, timeLimit: nat): RunnerState
  {
    if !s.started || s.completed || timeLimit == 0 then s
    else if s.timeLeft <= 1 then
      if s.index >= |s.questions| then s.(timeLeft := 0)
      else
        var recorded := s.(answers := s.answers + [QuizResult(s.questions[s.index], "", false, timeLimit - s.timeLeft)]);
        if s.index < |s.questions| - 1 then
          recorded.(index := s.index + 1, timeLeft := timeLimit, textAnswer := "")
        else
          recorded.(completed := true, timeLeft := 0)
    else s.(timeLeft := s.timeLeft - 1)
  }

  /** A timed-out question is always recorded as wrong, and the question
      after it starts with the whole limit. */
  lemma TimeoutAsIntended(s: RunnerState, timeLimit: nat)
    requires s.started && !s.completed && timeLimit > 0 && s.timeLeft <= 1
    requires s.index < |s.questions|
    ensures var t := TickAsIntended(s, timeLimit);
            && |t.answers| == |s.answers| + 1
            && t.answers[|s.answers|] == QuizResult(s.questions[s.index], "", false, timeLimit - s.timeLeft)
            && (s.index + 1 < |s.questions| ==> t.index == s.index + 1 && t.timeLeft == timeLimit)
            && (s.index + 1 == |s.questions| ==> t.completed)
  {
  }

  /** Apart from the verdict and the restarted countdown, the intended
      countdown does what the page's does. */
  lemma TickAsIntendedDiffersOnlyThere(s: RunnerState, timeLimit: nat)
    requires s.index < |s.questions|
    ensures var t := TickAsIntended(s, timeLimit);
            var w := Tick(s, timeLimit);
            && t.index == w.index && t.completed == w.completed && |t.answers| == |w.answers|
            && (forall k :: 0 <= k < |t.answers| ==>
                  t.answers[k].question == w.answers[k].question
                  && t.answers[k].userAnswer == w.answers[k].userAnswer
                  && t.answers[k].timeSpent == w.answers[k].timeSpent)
  {
  }

  lemma TickAsIntendedKeepsConsistent(s: RunnerState, timeLimit: nat)
    requires Consistent(s, timeLimit)
    ensures Consistent(TickAsIntended(s, timeLimit), timeLimit)
  {
  }

  /** The page's quiz state, updated in place by its handlers. */
  class QuizSession {
    var questions: seq<QuizQuestion>
    var index: nat
    var answers: seq<QuizResult>
    var timeLeft: int
    var started: bool
    var completed: bool
    var textAnswer: string
    const timeLimit: nat

    function State(): RunnerState
      reads this
    {
      RunnerState(questions, index, answers, timeLeft, started, completed, textAnswer)
    }

    constructor (qs: seq<QuizQuestion>, limit: nat)
      ensures State() == Initial(qs) && timeLimit == limit
    {
      questions := qs;
      index := 0;
      answers := [];
      timeLeft := 0;
      started := false;
      completed := false;
      textAnswer := "";
      timeLimit := limit;
    }

    method HandleAnswer(answer: string)
      modifies this
      ensures State() == Answer(old(State()), timeLimit, answer)
    {
      if index >= |questions| {
        return;
      }
      var q := questions[index];
      var isCorrect := IsCorrectAnswer(q, answer);
      answers := answers + [QuizResult(q, answer, isCorrect, timeLimit - timeLeft)];
      if index < |questions| - 1 {
        index := index + 1;
        timeLeft := timeLimit;
        textAnswer := "";
      } else {
        completed := true;
      }
    }

    method TimerTick()
      modifies this
      ensures State() == Tick(old(State()), timeLimit)
    {
      if !started || completed || timeLimit == 0 {
        return;
      }
      if timeLeft <= 1 {
        HandleAnswer("");
        timeLeft := 0;
      } else {
        timeLeft := timeLeft - 1;
      }
    }

    /** The countdown with the verdict and restart of `TickAsIntended`. */
    method TimerTickAsIntended()
      modifies this
      ensures State() == TickAsIntended(old(State()), timeLimit)
    {
      if !started || completed || timeLimit == 0 {
        return;
      }
      if timeLeft > 1 {
        timeLeft := timeLeft - 1;
      } else if index >= |questions| {
        timeLeft := 0;
      } else {
        answers := answers + [QuizResult(questions[index], "", false, timeLimit - timeLeft)];
        if index < |questions| - 1 {
          index := index + 1;
          timeLeft := timeLimit;
          textAnswer := "";
        } else {
          completed := true;
          timeLeft := 0;
        }
      }
    }

    method StartQuiz()
      modifies this
      ensures State() == Start(old(State()), timeLimit)
    {
      started := true;
      timeLeft := timeLimit;
      textAnswer := "";
    }

    method SetTextAnswer(text: string)
      modifies this
      ensures State() == old(State()).(textAnswer := text)
    {
      textAnswer := text;
    }

    method HandleTextAnswerSubmit()
      modifies this
      ensures State() == SubmitText(old(State()), timeLimit)
    {
      var trimmed := Trim(textAnswer);
      if trimmed != "" {
        HandleAnswer(trimmed);
      }
    }
  }
}
