/** The flashcard player of the memorize view (`useWordPlayback`): a cursor
    over the effective word list with a reveal-then-move rhythm, a play mode
    driven by a timer, and pronunciation. Timers are explicit steps
    (`Reveal` for the one-off 500 ms timeout, `IntervalTick` for each firing
    of the repeating timer) and speech is an appended log of utterances. */
module Playback {
  import opened Common

  datatype Direction = Next | Prev

  datatype Utterance = Utterance(text: string, lang: string)

  const EnglishVoice: string := "en-US"
  const KoreanVoice: string := "ko-KR"

  /** Words shown after this many timer events move the player on. */
  const CycleLength: nat := 20

  /** The timer a play session registers and what its callbacks close over.
      `active` stands for a non-null interval handle; `count` is the
      session's local counter, shared by the reveal timeout and the interval;
      `playLength` and `playPronounced` are the list length and the
      pronunciation setting at the moment play started. */
  datatype Timer = Timer(
    active: bool,
    count: nat,
    revealPending: bool,
    playLength: nat,
    playPronounced: bool)

  const NoTimer: Timer := Timer(false, 0, false, 0, true)

  /** The hook's state. */
  datatype PlaybackState = PlaybackState(
    vocabularies: seq<Vocabulary>,
    filtered: seq<Vocabulary>,
    order: nat,
    showDefinition: bool,
    isPronounced: bool,
    isPlaying: bool,
    showOnlyUnmemorized: bool,
    timer: Timer,
    spoken: seq<Utterance>)

  function Initial(vocabularies: seq<Vocabulary>, filtered: seq<Vocabulary>): PlaybackState
  {
    PlaybackState(vocabularies, filtered, 0, false, true, false, false, NoTimer, [])
  }

  /** The list being studied: the unmemorized words exactly when that filter is on. */
  function Current(s: PlaybackState): (r: seq<Vocabulary>)
    ensures s.showOnlyUnmemorized ==> r == s.filtered
    ensures !s.showOnlyUnmemorized ==> r == s.vocabularies
  {
    if s.showOnlyUnmemorized then s.filtered else s.vocabularies
  }

  /** `currentVocabularies[order]`, absent when the cursor is past the end. */
  function CurrentWord(s: PlaybackState): (w: Option<Vocabulary>)
    ensures w.Some? <==> s.order < |Current(s)|
    ensures w.Some? ==> w.value == Current(s)[s.order]
  {
    if s.order < |Current(s)| then Some(Current(s)[s.order]) else None
  }

  /** Whether a navigation step moves the cursor (next on a revealed card,
      prev on a hidden one) rather than only flipping the card. */
  predicate Moves(s: PlaybackState, dir: Direction)
  {
    (dir == Next) == s.showDefinition
  }

  /** `(i + 1) % n`: one step forward on a ring of `n` cards. */
  function NextIndex(i: nat, n: nat): (r: nat)
    requires n > 0
    ensures r < n
    ensures i < n ==> r == if i + 1 == n then 0 else i + 1
  {
    (i + 1) % n
  }

  /** `(i - 1 + n) % n`: one step back on a ring of `n` cards. */
  function PrevIndex(i: nat, n: nat): (r: nat)
    requires n > 0
    ensures r < n
    ensures i < n ==> r == if i == 0 then n - 1 else i - 1
  {
    (i - 1 + n) % n
  }

  /** `handleNavigation`. Moving divides by the list length, so it needs a
      non-empty list. */
  function Navigate(s: PlaybackState, dir: Direction): PlaybackState
    requires |Current(s)| > 0 || !Moves(s, dir)
  {
    var n := |Current(s)|;
    match dir
    case Next =>
      if s.showDefinition then s.(showDefinition := false, order := NextIndex(s.order, n))
      else s.(showDefinition := true)
    case Prev =>
      if s.showDefinition then s.(showDefinition := false)
      else s.(showDefinition := true, order := PrevIndex(s.order, n))
  }

  /** The effect that sends the cursor home when it is past the end of a
      non-empty list. */
  function Clamp(s: PlaybackState): PlaybackState
  {
    if |Current(s)| > 0 && s.order >= |Current(s)| then s.(order := 0) else s
  }

  /** New lists from the caller. */
  function WithLists(s: PlaybackState, vocabularies: seq<Vocabulary>, filtered: seq<Vocabulary>): PlaybackState
  {
    s.(vocabularies := vocabularies, filtered := filtered)
  }

  /** `speakWord`: one utterance, unless pronunciation is off. */
  function Speak(spoken: seq<Utterance>, text: string, lang: string, enabled: bool): seq<Utterance>
  {
    if enabled then spoken + [Utterance(text, lang)] else spoken
  }

  function DefinitionUtterances(ds: seq<Definition>): seq<Utterance>
  {
    seq(|ds|, i requires 0 <= i < |ds| => Utterance(ds[i].definition, KoreanVoice))
  }

  /** The word in English, then each definition in Korean, in order. */
  function VocabularyUtterances(v: Vocabulary): seq<Utterance>
  {
    [Utterance(v.word, EnglishVoice)] + DefinitionUtterances(v.definitions)
  }

  /** `handleClickSpeaker`: flips pronunciation, and asks to speak the
      current word only when pronunciation was off, through a `speakWord`
      that still sees pronunciation off. */
  function ToggleSpeaker(s: PlaybackState): PlaybackState
  {
    var t := s.(isPronounced := !s.isPronounced);
    var w := CurrentWord(s);
    if !s.isPronounced && w.Some? then t.(spoken := Speak(s.spoken, w.value.word, EnglishVoice, s.isPronounced))
    else t
  }

  function Stop(s: PlaybackState): PlaybackState
  {
    s.(timer := s.timer.(active := false), isPlaying := false)
  }

  /** `handleClickPlay`: stop a running player; otherwise start one with a
      fresh counter, the card hidden, the reveal timeout pending, and the
      list length and pronunciation setting captured. */
  function Play(s: PlaybackState): PlaybackState
  {
    if s.isPlaying && s.timer.active then Stop(s)
    else
      s.(isPlaying := true, showDefinition := false,
         timer := Timer(true, 0, true, |Current(s)|, s.isPronounced))
  }

  /** The 500 ms timeout: reveal the card and bump the shared counter. */
  function Reveal(s: PlaybackState): PlaybackState
    requires s.timer.revealPending
  {
    s.(showDefinition := true, timer := s.timer.(count := s.timer.count + 1, revealPending := false))
  }

  /** One firing of the repeating timer: flip the card, bump the counter,
      pronounce the current word at counts 1 and 5, and after 20 events hide
      the card and move on by one, modulo the length captured at the start. */
  function IntervalTick(s: PlaybackState): PlaybackState
    requires s.timer.active && s.timer.playLength > 0
  {
    var c := s.timer.count + 1;
    var w := CurrentWord(s);
    var spoken :=
      if (c == 1 || c == 5) && w.Some? && s.timer.playPronounced then s.spoken + VocabularyUtterances(w.value)
      else s.spoken;
    var t := s.(showDefinition := !s.showDefinition, spoken := spoken);
    if c >= CycleLength then
      t.(timer := s.timer.(count := 0), showDefinition := false, order := (s.order + 1) % s.timer.playLength)
    else t.(timer := s.timer.(count := c))
  }

  /** `toggleFilter`: stop a running player, flip the filter, and go back to
      the first card, hidden. */
  function FilterToggled(s: PlaybackState): PlaybackState
  {
    var t := if s.isPlaying && s.timer.active then Stop(s) else s;
    t.(showOnlyUnmemorized := !s.showOnlyUnmemorized, order := 0, showDefinition := false)
  }

  function PositionReset(s: PlaybackState): PlaybackState
  {
    s.(order := 0, showDefinition := false)
  }

  // ---------------------------------------------------------------------
  // Properties of navigation

  /** Navigation keeps the cursor on the list. */
  lemma NavigateStaysInRange(s: PlaybackState, dir: Direction)
    requires s.order < |Current(s)|
    ensures Navigate(s, dir).order < |Current(Navigate(s, dir))| == |Current(s)|
  {
  }

  /** A navigation step either only flips the card or moves the cursor by
      one, in the direction asked, and then shows the new card's side that
      comes first in that direction. */
  lemma NavigateFlipsOrMoves(s: PlaybackState, dir: Direction)
    requires s.order < |Current(s)|
    ensures var t := Navigate(s, dir);
            var n := |Current(s)|;
            && t.showDefinition == !s.showDefinition
            && (!Moves(s, dir) ==> t.order == s.order)
            && (Moves(s, dir) && dir == Next ==> t.order == if s.order + 1 == n then 0 else s.order + 1)
            && (Moves(s, dir) && dir == Prev ==> t.order == if s.order == 0 then n - 1 else s.order - 1)
            && t.(showDefinition := s.showDefinition, order := s.order) == s
  {
  }

  /** `prev` undoes `next`. */
  lemma PrevUndoesNext(s: PlaybackState)
    requires s.order < |Current(s)|
    ensures Navigate(Navigate(s, Next), Prev) == s
  {
  }

  /** `next` undoes `prev`. */
  lemma NextUndoesPrev(s: PlaybackState)
    requires s.order < |Current(s)|
    ensures Navigate(Navigate(s, Prev), Next) == s
  {
  }

  function NextTimes(s: PlaybackState, k: nat): (r: PlaybackState)
    requires |Current(s)| > 0
    ensures Current(r) == Current(s)
    decreases k
  {
    if k == 0 then s else NextTimes(Navigate(s, Next), k - 1)
  }

  /** Pressing `next` twice reveals and then moves on: after `2k` presses
      from a hidden card the cursor has advanced by `k`, modulo the length. */
  lemma {:induction false} TwiceNextAdvancesOne(s: PlaybackState, k: nat)
    requires |Current(s)| > 0 && !s.showDefinition && s.order < |Current(s)|
    ensures NextTimes(s, 2 * k) == s.(order := (s.order + k) % |Current(s)|)
    decreases k
  {
    if k > 0 {
      var n := |Current(s)|;
      var t := Navigate(Navigate(s, Next), Next);
      assert t == s.(order := NextIndex(s.order, n));
      assert NextTimes(s, 2 * k) == NextTimes(t, 2 * (k - 1));
      TwiceNextAdvancesOne(t, k - 1);
      ModAddOne(s.order, k, n);
    }
  }

  lemma ModAddOne(a: nat, k: nat, n: nat)
    requires n > 0 && k > 0
    ensures ((a + 1) % n + (k - 1)) % n == (a + k) % n
  {
    var q := (a + 1) / n;
    var m := (a + 1) % n;
    var q2 := (a + k) / n;
    var m2 := (a + k) % n;
    assert a + k == n * q2 + m2;
    assert m + (k - 1) == n * (q2 - q) + m2;
    ModUnique(m + (k - 1), n, q2 - q, m2);
  }

  /** `2n` presses of `next` from the first card, hidden, come back to it. */
  lemma FullRoundReturnsHome(s: PlaybackState)
    requires |Current(s)| > 0 && !s.showDefinition && s.order == 0
    ensures NextTimes(s, 2 * |Current(s)|) == s
  {
    TwiceNextAdvancesOne(s, |Current(s)|);
  }

  /** After the clamp effect the cursor is on the list, and it only moved if
      it was past the end. */
  lemma ClampBringsInRange(s: PlaybackState)
    requires |Current(s)| > 0
    ensures Clamp(s).order < |Current(Clamp(s))|
    ensures s.order < |Current(s)| ==> Clamp(s) == s
  {
  }

  // ---------------------------------------------------------------------
  // Properties of play mode and pronunciation

  /** The pairing the hook relies on: a player is running exactly when an
      interval is registered, and a running player captured a non-empty
      list. */
  ghost predicate Valid(s: PlaybackState)
  {
    s.isPlaying == s.timer.active && (s.timer.active ==> s.timer.playLength > 0)
  }

  datatype Event =
    | NavigateEvent(dir: Direction)
    | ClampEvent
    | ListsEvent(vocabularies: seq<Vocabulary>, filtered: seq<Vocabulary>)
    | SpeakerEvent
    | PlayEvent
    | RevealEvent
    | TickEvent
    | FilterEvent
    | ResetEvent

  /** When the handler for `e` may run: the controls, the keys and the play
      button are only offered while there is a card to show, and timers fire
      only while scheduled. */
  predicate Enabled(s: PlaybackState, e: Event)
  {
    match e
    case NavigateEvent(dir) => |Current(s)| > 0 || !Moves(s, dir)
    case PlayEvent => (s.isPlaying && s.timer.active) || |Current(s)| > 0
    case RevealEvent => s.timer.revealPending
    case TickEvent => s.timer.active && s.timer.playLength > 0
    case _ => true
  }

  function Step(s: PlaybackState, e: Event): PlaybackState
    requires Enabled(s, e)
  {
    match e
    case NavigateEvent(dir) => Navigate(s, dir)
    case ClampEvent => Clamp(s)
    case ListsEvent(vs, fs) => WithLists(s, vs, fs)
    case SpeakerEvent => ToggleSpeaker(s)
    case PlayEvent => Play(s)
    case RevealEvent => Reveal(s)
    case TickEvent => IntervalTick(s)
    case FilterEvent => FilterToggled(s)
    case ResetEvent => PositionReset(s)
  }

  /** Every handler keeps `Valid`. */
  lemma StepKeepsValid(s: PlaybackState, e: Event)
    requires Valid(s) && Enabled(s, e)
    ensures Valid(Step(s, e))
  {
  }

  /** The play control toggles: it stops a running player, and otherwise
      starts one from a hidden card with a zero counter. */
  lemma PlayToggles(s: PlaybackState)
    requires Valid(s) && (s.isPlaying || |Current(s)| > 0)
    ensures s.isPlaying ==> !Play(s).isPlaying && !Play(s).timer.active
                            && Play(s).(isPlaying := true, timer := s.timer) == s
    ensures !s.isPlaying ==> Play(s).isPlaying && !Play(s).showDefinition && Play(s).timer.count == 0
                             && Play(s).order == s.order && Play(s).spoken == s.spoken
  {
  }

  /** `toggleFilter` always leaves the player stopped on the first card,
      hidden, with the filter flipped and nothing else changed. */
  lemma ToggleFilterResets(s: PlaybackState)
    requires Valid(s)
    ensures var t := FilterToggled(s);
            && !t.isPlaying && !t.timer.active
            && t.showOnlyUnmemorized == !s.showOnlyUnmemorized
            && t.order == 0 && !t.showDefinition
            && t.vocabularies == s.vocabularies && t.filtered == s.filtered && t.spoken == s.spoken
  {
  }

  /** `handleClickSpeaker` flips pronunciation and never produces speech: the
      only branch that asks to speak runs when pronunciation was off, and
      `speakWord` still sees it off. */
  lemma SpeakerNeverSpeaks(s: PlaybackState)
    ensures ToggleSpeaker(s).spoken == s.spoken
    ensures ToggleSpeaker(s) == s.(isPronounced := !s.isPronounced)
  {
  }

  /** Speech happens only on timer firings that bring the counter to 1 or 5,
      with pronunciation on at the start of play and a card under the
      cursor; it is then the current word followed by its definitions. */
  lemma TickSpeaksOnlyAtOneAndFive(s: PlaybackState)
    requires s.timer.active && s.timer.playLength > 0
    ensures var t := IntervalTick(s);
            && (t.spoken != s.spoken <==>
                  (s.timer.count + 1 == 1 || s.timer.count + 1 == 5) && s.timer.playPronounced
                  && CurrentWord(s).Some?)
            && (t.spoken != s.spoken ==> t.spoken == s.spoken + VocabularyUtterances(CurrentWord(s).value))
  {
    var w := CurrentWord(s);
    if w.Some? {
      assert |VocabularyUtterances(w.value)| > 0;
    }
  }

  /** The reveal timeout never speaks; it only shows the card. */
  lemma RevealOnlyShows(s: PlaybackState)
    requires s.timer.revealPending
    ensures Reveal(s).spoken == s.spoken && Reveal(s).showDefinition
    ensures Reveal(s).order == s.order && Reveal(s).timer.count == s.timer.count + 1
  {
  }

  function TicksTimes(s: PlaybackState, k: nat): (r: PlaybackState)
    requires s.timer.active && s.timer.playLength > 0
    ensures r.timer.active && r.timer.playLength == s.timer.playLength
    decreases k
  {
    if k == 0 then s else TicksTimes(IntervalTick(s), k - 1)
  }

  /** While the counter stays below 20, timer firings only flip the card and
      count; the cursor stays where it is. */
  lemma {:induction false} TicksBelowCycle(s: PlaybackState, k: nat)
    requires s.timer.active && s.timer.playLength > 0 && s.timer.count + k < CycleLength
    ensures var t := TicksTimes(s, k);
            && t.timer.count == s.timer.count + k && t.order == s.order && t.isPlaying == s.isPlaying
            && t.showDefinition == (if k % 2 == 0 then s.showDefinition else !s.showDefinition)
    decreases k
  {
    if k > 0 {
      TicksBelowCycle(IntervalTick(s), k - 1);
    }
  }

  /** One full cycle of play: starting, the reveal timeout and nineteen timer
      firings bring the counter to 20, so the player moves on to the next
      card, hidden, and keeps playing with a fresh counter. */
  lemma PlayCycleAdvances(s: PlaybackState)
    requires Valid(s) && !s.isPlaying && |Current(s)| > 0
    ensures var started := Reveal(Play(s));
            var t := TicksTimes(started, CycleLength - 1);
            && t.order == (s.order + 1) % |Current(s)|
            && !t.showDefinition && t.timer.count == 0 && t.isPlaying
  {
    var started := Reveal(Play(s));
    TicksBelowCycle(started, CycleLength - 2);
    var before := TicksTimes(started, CycleLength - 2);
    assert before.timer.count == CycleLength - 1 && before.order == s.order && before.isPlaying;
    TicksAppend(started, CycleLength - 2);
  }

  lemma {:induction false} TicksAppend(s: PlaybackState, k: nat)
    requires s.timer.active && s.timer.playLength > 0
    ensures TicksTimes(s, k + 1) == IntervalTick(TicksTimes(s, k))
    decreases k
  {
    if k > 0 {
      TicksAppend(IntervalTick(s), k - 1);
    }
  }

  // ---------------------------------------------------------------------
  // The hook as an object

  class WordPlayback {
    var vocabularies: seq<Vocabulary>
    var filtered: seq<Vocabulary>
    var order: nat
    var showDefinition: bool
    var isPronounced: bool
    var isPlaying: bool
    var showOnlyUnmemorized: bool
    var timer: Timer
    var spoken: seq<Utterance>

    function State(): PlaybackState
      reads this
    {
      PlaybackState(vocabularies, filtered, order, showDefinition, isPronounced, isPlaying,
                    showOnlyUnmemorized, timer, spoken)
    }

    constructor (vs: seq<Vocabulary>, fs: seq<Vocabulary>)
      ensures State() == Initial(vs, fs)
    {
      vocabularies, filtered := vs, fs;
      order, showDefinition := 0, false;
      isPronounced, isPlaying, showOnlyUnmemorized := true, false, false;
      timer := NoTimer;
      spoken := [];
    }

    method CurrentVocabularies() returns (r: seq<Vocabulary>)
      ensures r == Current(State())
    {
      r := if showOnlyUnmemorized then filtered else vocabularies;
    }

    method HandleNavigation(dir: Direction)
      requires |Current(State())| > 0 || !Moves(State(), dir)
      modifies this
      ensures State() == Navigate(old(State()), dir)
    {
      var n := |if showOnlyUnmemorized then filtered else vocabularies|;
      if dir == Next {
        if showDefinition {
          showDefinition := false;
          order := NextIndex(order, n);
        } else {
          showDefinition := true;
        }
      } else {
        if showDefinition {
          showDefinition := false;
        } else {
          showDefinition := true;
          order := PrevIndex(order, n);
        }
      }
    }

    method ClampOrder()
      modifies this
      ensures State() == Clamp(old(State()))
    {
      var current := CurrentVocabularies();
      if |current| > 0 && order >= |current| {
        order := 0;
      }
    }

    method SetLists(vs: seq<Vocabulary>, fs: seq<Vocabulary>)
      modifies this
      ensures State() == WithLists(old(State()), vs, fs)
    {
      vocabularies, filtered := vs, fs;
    }

    method HandleClickSpeaker()
      modifies this
      ensures State() == ToggleSpeaker(old(State()))
    {
      var wasPronounced := isPronounced;
      var current := CurrentVocabularies();
      isPronounced := !isPronounced;
      if !wasPronounced && order < |current| {
        spoken := Speak(spoken, current[order].word, EnglishVoice, wasPronounced);
      }
    }

    method HandleClickPlay()
      modifies this
      ensures State() == Play(old(State()))
    {
      if isPlaying && timer.active {
        timer := timer.(active := false);
        isPlaying := false;
      } else {
        var current := CurrentVocabularies();
        isPlaying := true;
        showDefinition := false;
        timer := Timer(true, 0, true, |current|, isPronounced);
      }
    }

    method RevealTimeout()
      requires timer.revealPending
      modifies this
      ensures State() == Reveal(old(State()))
    {
      showDefinition := true;
      timer := timer.(count := timer.count + 1, revealPending := false);
    }

    /** What speaking a word and then, one by one, each of its definitions
        adds to the log. */
    static method VocabularySpeech(v: Vocabulary, enabled: bool) returns (u: seq<Utterance>)
      ensures u == if enabled then VocabularyUtterances(v) else []
    {
      u := Speak([], v.word, EnglishVoice, enabled);
      var i := 0;
      while i < |v.definitions|
        invariant 0 <= i <= |v.definitions|
        invariant u == if enabled then [Utterance(v.word, EnglishVoice)] + DefinitionUtterances(v.definitions[..i]) else []
      {
        u := Speak(u, v.definitions[i].definition, KoreanVoice, enabled);
        assert DefinitionUtterances(v.definitions[..i + 1])
            == DefinitionUtterances(v.definitions[..i]) + [Utterance(v.definitions[i].definition, KoreanVoice)];
        i := i + 1;
      }
      assert v.definitions[..i] == v.definitions;
    }

    method TimerTick()
      requires timer.active && timer.playLength > 0
      modifies this
      ensures State() == IntervalTick(old(State()))
    {
      var current := CurrentVocabularies();
      var c := timer.count + 1;
      showDefinition := !showDefinition;
      if (c == 1 || c == 5) && order < |current| {
        var u := VocabularySpeech(current[order], timer.playPronounced);
        spoken := spoken + u;
      }
      if c >= CycleLength {
        timer := timer.(count := 0);
        showDefinition := false;
        order := (order + 1) % timer.playLength;
      } else {
        timer := timer.(count := c);
      }
    }

    method ToggleFilter()
      modifies this
      ensures State() == FilterToggled(old(State()))
    {
      if isPlaying && timer.active {
        timer := timer.(active := false);
        isPlaying := false;
      }
      showOnlyUnmemorized := !showOnlyUnmemorized;
      order := 0;
      showDefinition := false;
    }

    method ResetPosition()
      modifies this
      ensures State() == PositionReset(old(State()))
    {
      order := 0;
      showDefinition := false;
    }
  }
}
