/** Subtitle entries and the timeline rules shared by the current-subtitle
    hook, the subtitle sidebar and the player: the inclusive interval test,
    the first-match search (`find` / `findIndex`) and removal by id
    (`filter(sub => sub.id !== id)`). */
module Timeline {
  import opened Options
  import opened Sequences

  /** An element of the player's subtitle list. `Subtitle` is an entry as the
      server sends it (with an id) or as the sidebar creates it (without one).
      `Nested` is a whole array stored as one element, which is what the
      list receives when the sidebar's delete hands its filtered list to the
      append callback. An array has no id and no times, so it never covers a
      playback position. */
  datatype SubtitleValue =
    | Subtitle(id: Option<int>, startTime: real, endTime: real, text: string)
    | Nested(items: seq<SubtitleValue>)

  /** `currentTime >= sub.start_time && currentTime <= sub.end_time`. */
  predicate Covers(v: SubtitleValue, t: real)
    ensures v.Nested? ==> !Covers(v, t)
    ensures Covers(v, t) ==> v.startTime <= v.endTime
  {
    v.Subtitle? && v.startTime <= t <= v.endTime
  }

  /** `sub.id`, undefined (None) for entries without one and for arrays. */
  function IdOf(v: SubtitleValue): Option<int> {
    if v.Subtitle? then v.id else None
  }

  /** `subtitles.findIndex(covers t)`: the first covering index, or -1. */
  function FindIndex(subtitles: seq<SubtitleValue>, t: real): (r: int)
    ensures -1 <= r < |subtitles|
    ensures r == -1 <==> forall j :: 0 <= j < |subtitles| ==> !Covers(subtitles[j], t)
    ensures r >= 0 ==> Covers(subtitles[r], t) && forall j :: 0 <= j < r ==> !Covers(subtitles[j], t)
    decreases |subtitles|
  {
    if subtitles == [] then -1
    else if Covers(subtitles[0], t) then 0
    else
      var k := FindIndex(subtitles[1..], t);
      if k < 0 then -1 else k + 1
  }

  /** The text the hook shows: that of the first covering entry, else "". */
  function CurrentText(subtitles: seq<SubtitleValue>, t: real): (r: string)
    ensures (forall j :: 0 <= j < |subtitles| ==> !Covers(subtitles[j], t)) ==> r == ""
    ensures forall i ::
              (0 <= i < |subtitles| && Covers(subtitles[i], t) && forall j :: 0 <= j < i ==> !Covers(subtitles[j], t))
              ==> r == subtitles[i].text
  {
    var k := FindIndex(subtitles, t);
    if k >= 0 then subtitles[k].text else ""
  }

  /** Appending an entry never changes which earlier entry wins; it is found
      only where no earlier entry covers the position. */
  lemma FindIndexAfterAppend(subtitles: seq<SubtitleValue>, v: SubtitleValue, t: real)
    ensures FindIndex(subtitles + [v], t) ==
            if FindIndex(subtitles, t) >= 0 then FindIndex(subtitles, t)
            else if Covers(v, t) then |subtitles| else -1
  {
    var s := subtitles + [v];
    assert forall j :: 0 <= j < |subtitles| ==> s[j] == subtitles[j];
    assert s[|subtitles|] == v;
  }

  /** Both interval ends count, and a position just outside does not. */
  lemma CoversExamples()
    ensures Covers(Subtitle(Some(1), 10.0, 15.0, "a"), 10.0)
    ensures Covers(Subtitle(Some(1), 10.0, 15.0, "a"), 12.0)
    ensures Covers(Subtitle(Some(1), 10.0, 15.0, "a"), 15.0)
    ensures !Covers(Subtitle(Some(1), 10.0, 15.0, "a"), 9.999)
    ensures !Covers(Subtitle(Some(1), 10.0, 15.0, "a"), 15.001)
  {
  }

  /** `subtitles.filter(sub => sub.id !== id)`: every element whose id equals
      `id` goes (for `id` None: every entry without an id and every array),
      the rest stay in order. */
  function RemoveById(subtitles: seq<SubtitleValue>, id: Option<int>): (r: seq<SubtitleValue>)
    ensures IsSubsequence(r, subtitles)
    ensures forall v :: v in r <==> v in subtitles && IdOf(v) != id
    ensures forall v :: multiset(r)[v] == if IdOf(v) == id then 0 else multiset(subtitles)[v]
  {
    FilterMultiplicity(subtitles, (v: SubtitleValue) => IdOf(v) != id);
    Filter(subtitles, (v: SubtitleValue) => IdOf(v) != id)
  }

  /** Deleting an id that no element carries leaves the list as it was. */
  lemma RemoveAbsentId(subtitles: seq<SubtitleValue>, id: Option<int>)
    requires forall v :: v in subtitles ==> IdOf(v) != id
    ensures RemoveById(subtitles, id) == subtitles
  {
    FilterKeepsAll(subtitles, (v: SubtitleValue) => IdOf(v) != id);
  }

  /** Deleting the same id twice is deleting it once. */
  lemma RemoveByIdIdempotent(subtitles: seq<SubtitleValue>, id: Option<int>)
    ensures RemoveById(RemoveById(subtitles, id), id) == RemoveById(subtitles, id)
  {
    FilterIdempotent(subtitles, (v: SubtitleValue) => IdOf(v) != id);
  }

  /** The list gets shorter exactly when some element carried the id. */
  lemma RemoveByIdShrinksIffPresent(subtitles: seq<SubtitleValue>, id: Option<int>)
    ensures |RemoveById(subtitles, id)| < |subtitles| <==> exists v :: v in subtitles && IdOf(v) == id
  {
    FilterShrinksIffDrops(subtitles, (v: SubtitleValue) => IdOf(v) != id);
  }
}
