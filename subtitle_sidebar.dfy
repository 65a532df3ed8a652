/** The subtitle sidebar: writing a new subtitle at the playback position,
    deleting one, and the highlight of the entry under the clock. */
module SubtitleSidebarView {
  import opened Options
  import opened JsStrings
  import opened Timeline

  /** The multipart form of the upload request. */
  datatype UploadForm = UploadForm(subtitle: string, videoId: string, language: string, startTime: real, endTime: real)

  /** The entry added locally: the five seconds up to the clock (not clamped
      at 0) and no id. */
  function ProvisionalSubtitle(text: string, t: real): (v: SubtitleValue)
    ensures IdOf(v) == None && v.Subtitle? && v.text == text
    ensures Covers(v, t) && Covers(v, t - 5.0)
    ensures forall u :: Covers(v, u) <==> t - 5.0 <= u <= t
  {
    Subtitle(None, t - 5.0, t, text)
  }

  /** Near the start of the track the window begins before 0. */
  lemma ProvisionalAtThreeSeconds()
    ensures ProvisionalSubtitle("hola", 3.0).startTime == -2.0
  {
  }

  /** Once appended, the new entry is what the player shows at the clock,
      unless an entry already in the list covers that moment. */
  lemma ProvisionalShownUnlessCovered(subtitles: seq<SubtitleValue>, text: string, t: real)
    ensures CurrentText(subtitles + [ProvisionalSubtitle(text, t)], t) ==
            if FindIndex(subtitles, t) >= 0 then CurrentText(subtitles, t) else text
  {
    FindIndexAfterAppend(subtitles, ProvisionalSubtitle(text, t), t);
    var s := subtitles + [ProvisionalSubtitle(text, t)];
    if FindIndex(subtitles, t) >= 0 {
      assert s[FindIndex(subtitles, t)] == subtitles[FindIndex(subtitles, t)];
    }
  }

  /** `handleDelete` as written: after a confirmed delete the component calls
      `onSendSubtitle` with the list minus every element carrying the id; the
      value handed over is that array. An unconfirmed delete (an error status
      or a network failure) calls nothing. */
  function DeletePayload(subtitles: seq<SubtitleValue>, id: Option<int>, deleted: bool): (payload: Option<SubtitleValue>)
    ensures payload.Some? <==> deleted
    ensures payload.Some? ==> payload.value == Nested(RemoveById(subtitles, id))
  {
    if deleted then Some(Nested(RemoveById(subtitles, id))) else None
  }

  class SubtitleSidebar {
    var newSubtitle: string
    var isUploading: bool
    /** None until the first tick, then the highlighted index or -1. */
    var currentSubtitleIndex: Option<int>

    constructor ()
      ensures newSubtitle == "" && !isUploading && currentSubtitleIndex == None
    {
      newSubtitle := "";
      isUploading := false;
      currentSubtitleIndex := None;
    }

    /** Typing in the input. */
    method InputChange(value: string)
      modifies this
      ensures newSubtitle == value
      ensures isUploading == old(isUploading) && currentSubtitleIndex == old(currentSubtitleIndex)
    {
      newSubtitle := value;
    }

    /** `handleSend`. With no audio element or a blank input nothing happens.
        Otherwise the provisional entry goes to `onSendSubtitle` (returned as
        `sent`), the input is cleared, uploading starts, and the upload form
        carries the same times, the untrimmed text and language "es". */
    method Send(clock: Option<real>, courseId: string) returns (sent: Option<SubtitleValue>, upload: Option<UploadForm>)
      modifies this
      ensures sent.Some? <==> clock.Some? && Trim(old(newSubtitle)) != ""
      ensures upload.Some? <==> sent.Some?
      ensures sent.Some? ==>
                sent.value == ProvisionalSubtitle(old(newSubtitle), clock.value) &&
                upload.value == UploadForm(old(newSubtitle), courseId, "es", clock.value - 5.0, clock.value) &&
                newSubtitle == "" && isUploading
      ensures sent.None? ==> newSubtitle == old(newSubtitle) && isUploading == old(isUploading)
      ensures currentSubtitleIndex == old(currentSubtitleIndex)
    {
      sent, upload := None, None;
      if clock.Some? && Trim(newSubtitle) != "" {
        var t := clock.value;
        var text := newSubtitle;
        sent := Some(Subtitle(None, t - 5.0, t, text));
        newSubtitle := "";
        isUploading := true;
        upload := Some(UploadForm(text, courseId, "es", t - 5.0, t));
      }
    }

    /** The `finally` of the upload: whatever the response, uploading ends. */
    method UploadSettled()
      modifies this
      ensures !isUploading
      ensures newSubtitle == old(newSubtitle) && currentSubtitleIndex == old(currentSubtitleIndex)
    {
      isUploading := false;
    }

    /** One highlight tick: the index of the first covering entry, or -1;
        nothing changes without an audio element. */
    method HighlightTick(subtitles: seq<SubtitleValue>, clock: Option<real>)
      modifies this
      ensures clock.None? ==> currentSubtitleIndex == old(currentSubtitleIndex)
      ensures clock.Some? ==> currentSubtitleIndex == Some(FindIndex(subtitles, clock.value))
      ensures newSubtitle == old(newSubtitle) && isUploading == old(isUploading)
    {
      if clock.Some? {
        currentSubtitleIndex := Some(FindIndex(subtitles, clock.value));
      }
    }
  }
}
