/** The player page's own state: the blackboard photo index, the subtitle
    list and the vocabulary list, and the handlers that update them. */
module PlayerPage {
  import opened Options
  import opened Sequences
  import opened Timeline
  import opened Vocabulary

  /** The API origin that photo paths are relative to. */
  const ApiOrigin: string := "https://masluz-api.edwin-abel-3.workers.dev"

  /** JavaScript's `%`, whose result takes the sign of the dividend (Dafny's
      `%` is Euclidean). Both photo handlers only use non-negative dividends,
      where the two agree. */
  function JsRemainder(a: int, n: int): (r: int)
    requires n > 0
    ensures a >= 0 ==> r == a % n
    ensures -n < r < n
  {
    if a >= 0 then a % n else -((-a) % n)
  }

  /** `(prevIndex + 1) % photos.length`. */
  function NextPhotoIndex(i: int, n: int): (r: int)
    requires n > 0 && 0 <= i < n
    ensures 0 <= r < n
    ensures r == if i == n - 1 then 0 else i + 1
  {
    JsRemainder(i + 1, n)
  }

  /** `(prevIndex - 1 + photos.length) % photos.length`. */
  function PrevPhotoIndex(i: int, n: int): (r: int)
    requires n > 0 && 0 <= i < n
    ensures 0 <= r < n
    ensures r == if i == 0 then n - 1 else i - 1
  {
    JsRemainder(i - 1 + n, n)
  }

  lemma PrevUndoesNext(i: int, n: int)
    requires n > 0 && 0 <= i < n
    ensures PrevPhotoIndex(NextPhotoIndex(i, n), n) == i
  {
  }

  lemma NextUndoesPrev(i: int, n: int)
    requires n > 0 && 0 <= i < n
    ensures NextPhotoIndex(PrevPhotoIndex(i, n), n) == i
  {
  }

  /** `k` presses of ▶ from photo `i`. */
  function NextTimes(i: int, n: int, k: nat): (r: int)
    requires n > 0 && 0 <= i < n
    ensures 0 <= r < n
  {
    if k == 0 then i else NextPhotoIndex(NextTimes(i, n, k - 1), n)
  }

  /** Short of the last photo, each press moves exactly one photo on. */
  lemma {:induction false} NextTimesBeforeWrap(i: int, n: int, k: nat)
    requires n > 0 && 0 <= i < n && i + k < n
    ensures NextTimes(i, n, k) == i + k
  {
    if k > 0 {
      NextTimesBeforeWrap(i, n, k - 1);
    }
  }

  /** `a` presses followed by `b` presses are `a + b` presses. */
  lemma {:induction false} NextTimesAdd(i: int, n: int, a: nat, b: nat)
    requires n > 0 && 0 <= i < n
    ensures NextTimes(i, n, a + b) == NextTimes(NextTimes(i, n, a), n, b)
    decreases b
  {
    if b > 0 {
      NextTimesAdd(i, n, a, b - 1);
    }
  }

  /** From photo `i`, `n - i` presses reach the first photo. */
  lemma NextTimesToStart(i: int, n: int)
    requires n > 0 && 0 <= i < n
    ensures NextTimes(i, n, n - i) == 0
  {
    NextTimesBeforeWrap(i, n, n - i - 1);
  }

  /** ▶ reaches every photo, and `n` presses come back to the start. */
  lemma NextCyclesThroughAll(i: int, n: int, j: int)
    requires n > 0 && 0 <= i < n && 0 <= j < n
    ensures NextTimes(i, n, n) == i
    ensures NextTimes(i, n, if j >= i then j - i else n - i + j) == j
  {
    NextTimesFullCircle(i, n);
    if j >= i {
      NextTimesBeforeWrap(i, n, j - i);
    } else {
      NextTimesToStart(i, n);
      NextTimesAdd(i, n, n - i, j);
      NextTimesBeforeWrap(0, n, j);
    }
  }

  /** `n` presses of ▶ come back to the photo they started from. */
  lemma NextTimesFullCircle(i: int, n: int)
    requires n > 0 && 0 <= i < n
    ensures NextTimes(i, n, n) == i
  {
    NextTimesToStart(i, n);
    NextTimesAdd(i, n, n - i, i);
    NextTimesBeforeWrap(0, n, i);
  }

  /** A blackboard photo: its key and its path under the API origin. */
  datatype Photo = Photo(key: string, url: string)

  /** `photoUrl`: null when there are no photos, otherwise the origin
      followed by the current photo's path. */
  function PhotoUrl(photos: seq<Photo>, index: int): (r: Option<string>)
    requires photos != [] ==> 0 <= index < |photos|
    ensures r.None? <==> photos == []
    ensures r.Some? ==> ApiOrigin <= r.value && r.value[|ApiOrigin|..] == photos[index].url
  {
    if |photos| > 0 then Some(ApiOrigin + photos[index].url) else None
  }

  /** Different paths give different addresses, so the blackboard shows the
      photo the index names. */
  lemma PhotoUrlDistinguishes(photos: seq<Photo>, i: int, j: int)
    requires 0 <= i < |photos| && 0 <= j < |photos|
    requires photos[i].url != photos[j].url
    ensures PhotoUrl(photos, i) != PhotoUrl(photos, j)
  {
    assert PhotoUrl(photos, i).value[|ApiOrigin|..] != PhotoUrl(photos, j).value[|ApiOrigin|..];
  }

  /** `handleDeleteWord`'s updater: every entry with the id goes, the rest
      stay in order. */
  function RemoveWord(list: seq<VocabEntry>, id: int): (r: seq<VocabEntry>)
    ensures IsSubsequence(r, list)
    ensures forall w :: w in r <==> w in list && w.id != id
    ensures forall w :: multiset(r)[w] == if w.id == id then 0 else multiset(list)[w]
  {
    FilterMultiplicity(list, (w: VocabEntry) => w.id != id);
    Filter(list, (w: VocabEntry) => w.id != id)
  }

  lemma RemoveWordIdempotent(list: seq<VocabEntry>, id: int)
    ensures RemoveWord(RemoveWord(list, id), id) == RemoveWord(list, id)
  {
    FilterIdempotent(list, (w: VocabEntry) => w.id != id);
  }

  lemma RemoveAbsentWord(list: seq<VocabEntry>, id: int)
    requires forall w :: w in list ==> w.id != id
    ensures RemoveWord(list, id) == list
  {
    FilterKeepsAll(list, (w: VocabEntry) => w.id != id);
  }

  /** Deleting a freshly added word restores the list it was added to. */
  lemma {:induction false} DeleteWordUndoesAdd(list: seq<VocabEntry>, w: VocabEntry)
    requires forall u :: u in list ==> u.id != w.id
    ensures RemoveWord(list + [w], w.id) == list
  {
    var keep := (u: VocabEntry) => u.id != w.id;
    FilterConcat(list, [w], keep);
    FilterKeepsAll(list, keep);
    assert Filter([w], keep) == [];
  }

  /** Deleting the id of a freshly sent subtitle restores the list it was
      appended to. */
  lemma {:induction false} DeleteSubtitleUndoesSend(subtitles: seq<SubtitleValue>, v: SubtitleValue)
    requires forall u :: u in subtitles ==> IdOf(u) != IdOf(v)
    ensures RemoveById(subtitles + [v], IdOf(v)) == subtitles
  {
    var keep := (u: SubtitleValue) => IdOf(u) != IdOf(v);
    FilterConcat(subtitles, [v], keep);
    FilterKeepsAll(subtitles, keep);
    assert Filter([v], keep) == [];
  }

  class Player {
    var currentPhotoIndex: int
    var photos: seq<Photo>
    var subtitles: seq<SubtitleValue>
    var vocabularyList: seq<VocabEntry>

    /** The index names a photo once there are any; before that it is the
        initial 0 (the controls that move it are hidden). */
    predicate Valid()
      reads this
    {
      0 <= currentPhotoIndex &&
      (photos == [] ==> currentPhotoIndex == 0) &&
      (photos != [] ==> currentPhotoIndex < |photos|)
    }

    constructor ()
      ensures Valid()
      ensures currentPhotoIndex == 0 && photos == [] && subtitles == [] && vocabularyList == []
    {
      currentPhotoIndex := 0;
      photos := [];
      subtitles := [];
      vocabularyList := [];
    }

    /** The photo list arriving for the course on screen. */
    method PhotosLoaded(loaded: seq<Photo>)
      requires Valid() && photos == []
      modifies this
      ensures Valid()
      ensures photos == loaded && currentPhotoIndex == 0
      ensures subtitles == old(subtitles) && vocabularyList == old(vocabularyList)
    {
      photos := loaded;
    }

    /** The subtitle list arriving from the server. */
    method SubtitlesLoaded(loaded: seq<SubtitleValue>)
      modifies this
      ensures subtitles == loaded
      ensures currentPhotoIndex == old(currentPhotoIndex) && photos == old(photos)
      ensures vocabularyList == old(vocabularyList)
    {
      subtitles := loaded;
    }

    /** ▶; the button exists only while there are photos. */
    method NextPhoto()
      requires Valid() && |photos| > 0
      modifies this
      ensures Valid()
      ensures photos == old(photos) && subtitles == old(subtitles) && vocabularyList == old(vocabularyList)
      ensures currentPhotoIndex == NextPhotoIndex(old(currentPhotoIndex), |photos|)
    {
      currentPhotoIndex := JsRemainder(currentPhotoIndex + 1, |photos|);
    }

    /** ◀; the button exists only while there are photos. */
    method PrevPhoto()
      requires Valid() && |photos| > 0
      modifies this
      ensures Valid()
      ensures photos == old(photos) && subtitles == old(subtitles) && vocabularyList == old(vocabularyList)
      ensures currentPhotoIndex == PrevPhotoIndex(old(currentPhotoIndex), |photos|)
    {
      currentPhotoIndex := JsRemainder(currentPhotoIndex - 1 + |photos|, |photos|);
    }

    /** The blackboard's address for the current photo. */
    function CurrentPhotoUrl(): (r: Option<string>)
      requires Valid()
      reads this
      ensures r.None? <==> photos == []
      ensures r.Some? ==> r == PhotoUrl(photos, currentPhotoIndex)
    {
      PhotoUrl(photos, currentPhotoIndex)
    }

    /** `handleSendSubtitle`: whatever it is given becomes one new last
        element. */
    method SendSubtitle(v: SubtitleValue)
      modifies this
      ensures subtitles == old(subtitles) + [v]
      ensures currentPhotoIndex == old(currentPhotoIndex) && photos == old(photos)
      ensures vocabularyList == old(vocabularyList)
    {
      subtitles := subtitles + [v];
    }

    /** `handleDeleteSubtitle`. */
    method DeleteSubtitle(id: Option<int>)
      modifies this
      ensures subtitles == RemoveById(old(subtitles), id)
      ensures currentPhotoIndex == old(currentPhotoIndex) && photos == old(photos)
      ensures vocabularyList == old(vocabularyList)
    {
      subtitles := RemoveById(subtitles, id);
    }

    /** `handleAddWord`. */
    method AddWord(w: VocabEntry)
      modifies this
      ensures vocabularyList == old(vocabularyList) + [w]
      ensures currentPhotoIndex == old(currentPhotoIndex) && photos == old(photos)
      ensures subtitles == old(subtitles)
    {
      vocabularyList := vocabularyList + [w];
    }

    /** `handleDeleteWord`. */
    method DeleteWord(id: int)
      modifies this
      ensures vocabularyList == RemoveWord(old(vocabularyList), id)
      ensures currentPhotoIndex == old(currentPhotoIndex) && photos == old(photos)
      ensures subtitles == old(subtitles)
    {
      vocabularyList := RemoveWord(vocabularyList, id);
    }
  }
}
