/** `useCurrentSubtitle`: every timer tick recomputes the text shown under
    the player from the subtitle list and the audio element's clock. */
module CurrentSubtitleHook {
  import opened Options
  import opened Timeline

  class CurrentSubtitleTracker {
    /** The `currentSubtitle` state: the text on display. */
    var currentSubtitle: string

    constructor ()
      ensures currentSubtitle == ""
    {
      currentSubtitle := "";
    }

    /** One tick. `clock` is the audio element's `currentTime`, or None while
        the element is not mounted, in which case nothing changes. */
    method Tick(subtitles: seq<SubtitleValue>, clock: Option<real>)
      modifies this
      ensures clock.None? ==> currentSubtitle == old(currentSubtitle)
      ensures clock.Some? ==> currentSubtitle == CurrentText(subtitles, clock.value)
    {
      if clock.Some? {
        var t := clock.value;
        var k := FindIndex(subtitles, t);
        currentSubtitle := if k >= 0 then subtitles[k].text else "";
      }
    }
  }

  /** Where two entries overlap at the clock, the earlier one in the list is
      shown, whatever their order in time. */
  lemma EarlierOverlapWins(a: SubtitleValue, b: SubtitleValue, rest: seq<SubtitleValue>, t: real)
    requires Covers(a, t) && Covers(b, t)
    ensures CurrentText([a, b] + rest, t) == a.text
  {
  }

  /** With no covering entry (an empty list included) the display is blank. */
  lemma NothingCoversBlank(subtitles: seq<SubtitleValue>, t: real)
    requires forall v :: v in subtitles ==> !Covers(v, t)
    ensures CurrentText(subtitles, t) == ""
  {
    assert forall j :: 0 <= j < |subtitles| ==> subtitles[j] in subtitles;
  }
}
