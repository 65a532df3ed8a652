/** How the subtitle sidebar's delete reaches the player's subtitle list.
    The sidebar hands its filtered list to the player's append callback, so
    the list keeps every entry and gains the filtered copy as one extra
    element; the delete callback the player offers is the route that removes
    the entry. Both routes are modelled here. */
module SubtitleSession {
  import opened Options
  import opened Sequences
  import opened Timeline
  import opened SubtitleSidebarView
  import opened PlayerPage

  /** The player's list after a sidebar delete as the components are wired:
      the payload, if any, goes through `handleSendSubtitle`. */
  function ListAfterDeleteAsWired(subtitles: seq<SubtitleValue>, id: Option<int>, deleted: bool): (r: seq<SubtitleValue>)
    ensures subtitles <= r
    ensures deleted ==> r == subtitles + [Nested(RemoveById(subtitles, id))]
    ensures !deleted ==> r == subtitles
  {
    match DeletePayload(subtitles, id, deleted)
    case None => subtitles
    case Some(payload) => subtitles + [payload]
  }

  /** As wired, a confirmed delete removes nothing: every element, the
      deleted one included, is still in the list, and the text shown at any
      moment is what it was before. */
  lemma AsWiredDeleteRemovesNothing(subtitles: seq<SubtitleValue>, id: Option<int>, t: real)
    ensures forall v :: v in subtitles ==> v in ListAfterDeleteAsWired(subtitles, id, true)
    ensures CurrentText(ListAfterDeleteAsWired(subtitles, id, true), t) == CurrentText(subtitles, t)
  {
    var r := ListAfterDeleteAsWired(subtitles, id, true);
    var nested := Nested(RemoveById(subtitles, id));
    FindIndexAfterAppend(subtitles, nested, t);
    var k := FindIndex(subtitles, t);
    if k >= 0 {
      assert r[k] == subtitles[k];
    }
  }

  /** The concrete case: one subtitle with id 7 over [10, 15]; the server
      confirms its deletion, yet it is still shown at 12 s and the list has
      grown by an (empty) nested array. */
  lemma AsWiredDeleteKeepsDeletedSubtitle()
    ensures var s := [Subtitle(Some(7), 10.0, 15.0, "hola")];
            ListAfterDeleteAsWired(s, Some(7), true) == s + [Nested([])] &&
            CurrentText(ListAfterDeleteAsWired(s, Some(7), true), 12.0) == "hola"
  {
    var s := [Subtitle(Some(7), 10.0, 15.0, "hola")];
    assert IdOf(s[0]) == Some(7);
    assert RemoveById(s, Some(7)) == [];
    AsWiredDeleteRemovesNothing(s, Some(7), 12.0);
    assert FindIndex(s, 12.0) == 0;
  }

  /** The player's list after a sidebar delete routed through
      `handleDeleteSubtitle`: on the server's confirmation every element with
      the id goes and the rest keep their order and multiplicity; otherwise
      nothing changes. */
  function ListAfterDelete(subtitles: seq<SubtitleValue>, id: Option<int>, deleted: bool): (r: seq<SubtitleValue>)
    ensures deleted ==> r == RemoveById(subtitles, id)
    ensures deleted ==> IsSubsequence(r, subtitles)
    ensures deleted ==> forall v :: v in r ==> IdOf(v) != id
    ensures deleted ==> forall v :: v in subtitles && IdOf(v) != id ==> v in r
    ensures deleted ==> forall v :: multiset(r)[v] == if IdOf(v) == id then 0 else multiset(subtitles)[v]
    ensures deleted ==> (|r| < |subtitles| <==> exists v :: v in subtitles && IdOf(v) == id)
    ensures !deleted ==> r == subtitles
  {
    if deleted then
      RemoveByIdShrinksIffPresent(subtitles, id);
      RemoveById(subtitles, id)
    else subtitles
  }

  /** Routed through the delete callback, the deleted subtitle is no longer
      shown: the text at any moment comes from an element without that id. */
  lemma DeletedSubtitleNotShown(subtitles: seq<SubtitleValue>, id: Option<int>, t: real)
    ensures var r := ListAfterDelete(subtitles, id, true);
            FindIndex(r, t) >= 0 ==> IdOf(r[FindIndex(r, t)]) != id
  {
    var r := ListAfterDelete(subtitles, id, true);
    if FindIndex(r, t) >= 0 {
      assert r[FindIndex(r, t)] in r;
    }
  }

  /** The player's delete handler computes exactly this list. */
  method DeleteThroughPlayer(player: Player, id: Option<int>)
    modifies player
    ensures player.subtitles == ListAfterDelete(old(player.subtitles), id, true)
  {
    player.DeleteSubtitle(id);
  }

  /** And its append handler computes the as-wired one. */
  method DeleteThroughAppend(player: Player, id: Option<int>)
    modifies player
    ensures player.subtitles == ListAfterDeleteAsWired(old(player.subtitles), id, true)
  {
    var payload := DeletePayload(player.subtitles, id, true);
    player.SendSubtitle(payload.value);
  }
}
