/** `useKeyboardControls`: the window-level key handler that pauses, resumes
    and rewinds the audio element. */
module Keyboard {

  /** The two properties of the audio element the handler touches; `play()`
      and `pause()` are modelled by their effect on `paused`. */
  class AudioElement {
    var currentTime: real
    var paused: bool

    constructor (t: real, p: bool)
      ensures currentTime == t && paused == p
    {
      currentTime := t;
      paused := p;
    }
  }

  datatype KeyEvent = KeyEvent(key: string, altKey: bool)

  /** `Math.max(0, t - 10)`. */
  function Rewind(t: real): (r: real)
    ensures r >= 0.0
    ensures t >= 10.0 ==> r == t - 10.0
    ensures t < 10.0 ==> r == 0.0
  {
    if t - 10.0 > 0.0 then t - 10.0 else 0.0
  }

  /** Rewinding never moves forward from a non-negative position. */
  lemma RewindNeverAdvances(t: real)
    requires t >= 0.0
    ensures Rewind(t) <= t
  {
  }

  predicate IsTab(e: KeyEvent) { e.key == "Tab" }

  predicate IsRewind(e: KeyEvent) { e.altKey && e.key == "ArrowLeft" }

  /** One keydown. `audio` is `audioRef.current` (null before the element is
      mounted). Tab flips `paused`, reading the element without a null check,
      so with no element it throws (`threw`) and nothing changes.
      Alt+ArrowLeft checks for the element and rewinds by ten seconds,
      clamped at 0. Other keys change nothing. */
  method HandleKeyDown(audio: AudioElement?, e: KeyEvent) returns (threw: bool)
    modifies audio
    ensures threw <==> IsTab(e) && audio == null
    ensures audio != null && IsTab(e) ==>
              audio.paused == !old(audio.paused) && audio.currentTime == old(audio.currentTime)
    ensures audio != null && IsRewind(e) ==>
              audio.currentTime == Rewind(old(audio.currentTime)) && audio.paused == old(audio.paused)
    ensures audio != null && !IsTab(e) && !IsRewind(e) ==>
              audio.currentTime == old(audio.currentTime) && audio.paused == old(audio.paused)
  {
    threw := false;
    if e.key == "Tab" {
      if audio == null {
        threw := true;
        return;
      }
      if audio.paused {
        audio.paused := false;
      } else {
        audio.paused := true;
      }
    }
    if e.altKey && e.key == "ArrowLeft" {
      if audio != null {
        audio.currentTime := Rewind(audio.currentTime);
      }
    }
  }

  /** Two Tabs in a row leave the element as it was. */
  method TabTwice(audio: AudioElement)
    modifies audio
    ensures audio.paused == old(audio.paused) && audio.currentTime == old(audio.currentTime)
  {
    var tab := KeyEvent("Tab", false);
    var _ := HandleKeyDown(audio, tab);
    var _ := HandleKeyDown(audio, tab);
  }
}
