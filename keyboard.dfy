/** The memorize view's keyboard shortcuts (`useKeyboardNavigation`): a key
    selects at most one of the player's handlers. */
module Keyboard {
  import opened Common
  import Playback

  datatype Handler = NavigationHandler(dir: Playback.Direction) | TogglePlayHandler

  const ArrowRight: string := "ArrowRight"
  const ArrowLeft: string := "ArrowLeft"
  const Space: string := " "

  /** `handleKeyDown`: the handler a key press invokes, if any. A key that
      names no handler, or any key while the shortcuts are disabled,
      invokes nothing. */
  function HandleKeyDown(enabled: bool, key: string): (r: Option<Handler>)
    ensures !enabled ==> r == None
    ensures enabled ==>
              (r == Some(NavigationHandler(Playback.Next)) <==> key == ArrowRight || key == Space)
    ensures enabled ==> (r == Some(NavigationHandler(Playback.Prev)) <==> key == ArrowLeft)
    ensures enabled ==> (r == Some(TogglePlayHandler) <==> key == "p" || key == "P")
    ensures r == None <==>
              !enabled || (key != ArrowRight && key != Space && key != ArrowLeft && key != "p" && key != "P")
  {
    if !enabled then None
    else if key == ArrowRight || key == Space then Some(NavigationHandler(Playback.Next))
    else if key == ArrowLeft then Some(NavigationHandler(Playback.Prev))
    else if key == "p" || key == "P" then Some(TogglePlayHandler)
    else None
  }

  function EventOf(h: Handler): Playback.Event
  {
    match h
    case NavigationHandler(dir) => Playback.NavigateEvent(dir)
    case TogglePlayHandler => Playback.PlayEvent
  }

  /** The shortcuts are enabled while there is a card to show, and then the
      handler any key selects may run on the player. */
  lemma KeysOnlyReachRunnableHandlers(s: Playback.PlaybackState, key: string)
    ensures var h := HandleKeyDown(|Playback.Current(s)| > 0, key);
            h.Some? ==> Playback.Enabled(s, EventOf(h.value))
  {
  }

  /** A key press on the player: the selected handler's step, or no change. */
  function PressKey(s: Playback.PlaybackState, key: string): (r: Playback.PlaybackState)
    ensures Playback.Valid(s) ==> Playback.Valid(r)
    ensures HandleKeyDown(|Playback.Current(s)| > 0, key) == None ==> r == s
  {
    var h := HandleKeyDown(|Playback.Current(s)| > 0, key);
    if h.None? then s
    else
      KeysOnlyReachRunnableHandlers(s, key);
      StepPreservesValid(s, EventOf(h.value));
      Playback.Step(s, EventOf(h.value))
  }

  lemma StepPreservesValid(s: Playback.PlaybackState, e: Playback.Event)
    requires Playback.Enabled(s, e)
    ensures Playback.Valid(s) ==> Playback.Valid(Playback.Step(s, e))
  {
    if Playback.Valid(s) {
      Playback.StepKeepsValid(s, e);
    }
  }

  /** The space bar and the right arrow do the same thing. */
  lemma SpaceActsAsArrowRight(s: Playback.PlaybackState)
    ensures PressKey(s, Space) == PressKey(s, ArrowRight)
  {
  }
}
