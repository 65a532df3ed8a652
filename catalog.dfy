/** The course catalog page: upload dates decoded from recording keys, the
    split of recordings into processed lessons and unprocessed audio, the two
    exclusive filter modes (free-text search or month and year), the year
    list of the year selector, and the page state the selectors change. */
module Catalog {
  import opened Options
  import opened Sequences
  import opened JsStrings
  import opened JsValues

  /** An entry of the recording list: only its storage key is used. */
  datatype Recording = Recording(key: string)

  /** The lesson columns the catalog reads; a missing or null title or
      teacher name is the empty string (all three are falsy alike). */
  datatype Lesson = Lesson(videoId: string, title: string, teacherName: string)

  /** A calendar date as JavaScript's Date reports it: the full year, the
      month counted from 0 (`getMonth`) and the day of the month. */
  datatype CalendarDate = CalendarDate(year: int, month: int, day: int)

  /** A row of either list on the page. Unprocessed rows have no title and no
      teacher. `uploadDate` is None where the key does not decode. */
  datatype CourseEntry = CourseEntry(key: string, title: string, teacherName: string, uploadDate: Option<CalendarDate>)

  predicate IsLeapYear(y: int) {
    (y % 4 == 0 && y % 100 != 0) || y % 400 == 0
  }

  /** Days in month `m` (1-based) of year `y`. */
  function DaysInMonth(y: int, m: int): (r: int)
    requires 1 <= m <= 12
    ensures 28 <= r <= 31
  {
    if m == 2 then (if IsLeapYear(y) then 29 else 28)
    else if m == 4 || m == 6 || m == 9 || m == 11 then 30
    else 31
  }

  predicate IsValidDate(d: CalendarDate) {
    0 <= d.month < 12 && 1 <= d.day <= DaysInMonth(d.year, d.month + 1)
  }

  function TwoDigits(s: string, i: nat): (r: nat)
    requires i + 1 < |s| && IsDigit(s[i]) && IsDigit(s[i + 1])
    ensures r < 100
  {
    10 * DigitValue(s[i]) + DigitValue(s[i + 1])
  }

  /** What `dateStr.slice(0, 6)` keeps of the key's date part (the text
      before the first '.'): its first six characters, or all of it. */
  function DatePart(key: string): (p: string)
    ensures p <= BeforeFirst(key, '.')
    ensures |p| == if |BeforeFirst(key, '.')| < 6 then |BeforeFirst(key, '.')| else 6
  {
    var d := BeforeFirst(key, '.');
    if |d| < 6 then d else d[..6]
  }

  /** A five-character date part has a one-digit day (`slice(4, 6)` yields a
      single character); padding it with a '0' gives the same numbers. */
  function Padded(p: string): (q: string)
    requires 5 <= |p| <= 6
    ensures |q| == 6 && q[..4] == p[..4]
  {
    if |p| == 6 then p else p[..4] + "0" + p[4..]
  }

  /** `getCourseDate`: the date part read as `YYMMDD` with the year taken as
      20YY, where a five-character part has a one-digit day. Parts shorter
      than five characters, parts with a non-digit among the characters read,
      and digits that do not name a real calendar day give None: there
      JavaScript rolls the Date over or produces an invalid one. */
  function CourseDate(key: string): (r: Option<CalendarDate>)
    ensures r.Some? ==> IsValidDate(r.value) && 2000 <= r.value.year <= 2099
    ensures r.Some? ==> 5 <= |DatePart(key)| && AllDigits(DatePart(key))
    ensures |DatePart(key)| < 5 ==> r.None?
  {
    var p := DatePart(key);
    if 5 <= |p| && AllDigits(p) then
      var year := 2000 + TwoDigits(p, 0);
      var month := TwoDigits(p, 2);
      var day := if |p| == 6 then TwoDigits(p, 4) else DigitValue(p[4]);
      if 1 <= month <= 12 && 1 <= day <= DaysInMonth(year, month) then
        Some(CalendarDate(year, month - 1, day))
      else None
    else None
  }

  /** The `YYMMDD` key prefix that names a date of the 2000s. */
  function DateKey(d: CalendarDate): (s: string)
    requires IsValidDate(d) && 2000 <= d.year <= 2099
    ensures |s| == 6 && AllDigits(s)
  {
    var yy := d.year - 2000;
    var mm := d.month + 1;
    [DigitChar(yy / 10), DigitChar(yy % 10), DigitChar(mm / 10), DigitChar(mm % 10),
     DigitChar(d.day / 10), DigitChar(d.day % 10)]
  }

  /** Six digits that name a valid date are that date's key. */
  lemma DateKeyOfDigits(q: string)
    requires |q| == 6 && AllDigits(q)
    requires 1 <= TwoDigits(q, 2) <= 12
    requires 1 <= TwoDigits(q, 4) <= DaysInMonth(2000 + TwoDigits(q, 0), TwoDigits(q, 2))
    ensures DateKey(CalendarDate(2000 + TwoDigits(q, 0), TwoDigits(q, 2) - 1, TwoDigits(q, 4))) == q
  {
    var d := CalendarDate(2000 + TwoDigits(q, 0), TwoDigits(q, 2) - 1, TwoDigits(q, 4));
    TwoDigitsSplit(q, 0);
    TwoDigitsSplit(q, 2);
    TwoDigitsSplit(q, 4);
    assert DateKey(d) == [q[0], q[1], q[2], q[3], q[4], q[5]];
  }

  /** The two digits read as a number are written back as the same two. */
  lemma TwoDigitsSplit(q: string, j: nat)
    requires j + 1 < |q| && IsDigit(q[j]) && IsDigit(q[j + 1])
    ensures DigitChar(TwoDigits(q, j) / 10) == q[j] && DigitChar(TwoDigits(q, j) % 10) == q[j + 1]
  {
    var t := TwoDigits(q, j);
    assert t / 10 == DigitValue(q[j]) && t % 10 == DigitValue(q[j + 1]);
  }

  /** A decoded date is the one the key's own digits name: its key is the
      date part read, with a one-digit day padded. */
  lemma CourseDateReadsKeyDigits(key: string)
    requires CourseDate(key).Some?
    ensures 5 <= |DatePart(key)| && DateKey(CourseDate(key).value) == Padded(DatePart(key))
  {
    var q := Padded(DatePart(key));
    assert AllDigits(q);
    DateKeyOfDigits(q);
  }

  /** Decoding inverts `DateKey` whatever follows the six digits (a file
      extension, more characters, nothing). */
  lemma CourseDateOfDateKey(d: CalendarDate, rest: string)
    requires IsValidDate(d) && 2000 <= d.year <= 2099
    ensures CourseDate(DateKey(d) + rest) == Some(d)
  {
    var k := DateKey(d);
    assert forall i :: 0 <= i < |k| ==> k[i] != '.';
    BeforeFirstOfPrefix(k, rest, '.');
    var p := DatePart(k + rest);
    assert p == k;
    assert TwoDigits(p, 0) == d.year - 2000;
    assert TwoDigits(p, 2) == d.month + 1;
    assert TwoDigits(p, 4) == d.day;
  }

  /** A date part of five digits has a one-digit day: the key of a day from
      1 to 9 without its day's leading '0' decodes to that day. */
  lemma CourseDateOfShortDay(d: CalendarDate, rest: string)
    requires IsValidDate(d) && 2000 <= d.year <= 2099 && d.day < 10
    requires rest == [] || rest[0] == '.'
    ensures CourseDate(DateKey(d)[..4] + DateKey(d)[5..] + rest) == Some(d)
  {
    var k := DateKey(d);
    var short := k[..4] + k[5..];
    assert forall i :: 0 <= i < |short| ==> short[i] != '.';
    BeforeFirstOfPrefix(short, rest, '.');
    var p := DatePart(short + rest);
    assert p == short;
    assert Padded(p) == k;
    var q := Padded(p);
    assert TwoDigits(q, 0) == d.year - 2000;
    assert TwoDigits(q, 2) == d.month + 1;
    assert TwoDigits(q, 4) == d.day;
  }

  /** The decodings the page shows for typical keys. */
  lemma CourseDateExamples()
    ensures CourseDate("240426.wav") == Some(CalendarDate(2024, 3, 26))
    ensures CourseDate("991231") == Some(CalendarDate(2099, 11, 31))
  {
    CourseDateOfDateKey(CalendarDate(2024, 3, 26), ".wav");
    AprilKey();
    CourseDateOfDateKey(CalendarDate(2099, 11, 31), "");
    DecemberKey();
  }

  lemma AprilKey()
    ensures DateKey(CalendarDate(2024, 3, 26)) + ".wav" == "240426.wav"
  {
    assert DateKey(CalendarDate(2024, 3, 26)) == "240426";
  }

  lemma DecemberKey()
    ensures DateKey(CalendarDate(2099, 11, 31)) + "" == "991231"
  {
    assert DateKey(CalendarDate(2099, 11, 31)) == "991231";
  }

  /** A five-character date part: "24042" is 2 April 2024. */
  lemma ShortDayExample()
    ensures CourseDate("24042.wav") == Some(CalendarDate(2024, 3, 2))
  {
    var k := DateKey(CalendarDate(2024, 3, 2));
    assert k == "240402";
    CourseDateOfShortDay(CalendarDate(2024, 3, 2), ".wav");
    assert k[..4] + k[5..] + ".wav" == "24042.wav";
  }

  /** `isProcessed`: some lesson's video_id equals the key exactly. */
  predicate IsProcessed(lessons: seq<Lesson>, key: string)
    ensures IsProcessed(lessons, key) <==> key in LessonKeys(lessons)
  {
    exists i :: 0 <= i < |lessons| && lessons[i].videoId == key
  }

  /** `processedCourses`: one row per lesson, in lesson order, whether or not
      a recording with that key exists. */
  function ProcessedCourses(lessons: seq<Lesson>): (r: seq<CourseEntry>)
    ensures |r| == |lessons|
    ensures forall i :: 0 <= i < |lessons| ==>
              r[i] == CourseEntry(lessons[i].videoId, lessons[i].title, lessons[i].teacherName,
                                  CourseDate(lessons[i].videoId))
  {
    seq(|lessons|, i requires 0 <= i < |lessons| =>
      CourseEntry(lessons[i].videoId, lessons[i].title, lessons[i].teacherName, CourseDate(lessons[i].videoId)))
  }

  /** The recordings behind `unprocessedCourses`: those no lesson claims, in
      the order of the recording list. */
  function UnprocessedRecordings(audioFiles: seq<Recording>, lessons: seq<Lesson>): (r: seq<Recording>)
    ensures IsSubsequence(r, audioFiles)
    ensures forall a :: a in r <==> a in audioFiles && !IsProcessed(lessons, a.key)
    ensures forall a :: multiset(r)[a] == if IsProcessed(lessons, a.key) then 0 else multiset(audioFiles)[a]
  {
    FilterMultiplicity(audioFiles, (a: Recording) => !IsProcessed(lessons, a.key));
    Filter(audioFiles, (a: Recording) => !IsProcessed(lessons, a.key))
  }

  /** `unprocessedCourses`: a key-only row per unclaimed recording. */
  function UnprocessedCourses(audioFiles: seq<Recording>, lessons: seq<Lesson>): (r: seq<CourseEntry>)
    ensures |r| == |UnprocessedRecordings(audioFiles, lessons)|
    ensures forall i :: 0 <= i < |r| ==>
              var a := UnprocessedRecordings(audioFiles, lessons)[i];
              r[i] == CourseEntry(a.key, "", "", CourseDate(a.key))
  {
    var u := UnprocessedRecordings(audioFiles, lessons);
    seq(|u|, i requires 0 <= i < |u| => CourseEntry(u[i].key, "", "", CourseDate(u[i].key)))
  }

  /** The row the processed list shows for a lesson. */
  function LessonRow(l: Lesson): CourseEntry {
    CourseEntry(l.videoId, l.title, l.teacherName, CourseDate(l.videoId))
  }

  /** The row the unprocessed list shows for a recording. */
  function UnclaimedRow(a: Recording): CourseEntry {
    CourseEntry(a.key, "", "", CourseDate(a.key))
  }

  /** The processed list holds exactly the lessons' rows. */
  lemma ProcessedRows(lessons: seq<Lesson>)
    ensures forall c :: c in ProcessedCourses(lessons) <==> exists l :: l in lessons && c == LessonRow(l)
  {
    var r := ProcessedCourses(lessons);
    forall c | c in r
      ensures exists l :: l in lessons && c == LessonRow(l)
    {
      var i :| 0 <= i < |r| && r[i] == c;
      assert lessons[i] in lessons && c == LessonRow(lessons[i]);
    }
    forall l | l in lessons
      ensures LessonRow(l) in r
    {
      var i :| 0 <= i < |lessons| && lessons[i] == l;
      assert r[i] == LessonRow(l);
    }
  }

  /** The unprocessed list holds exactly the rows of unclaimed recordings. */
  lemma UnprocessedRows(audioFiles: seq<Recording>, lessons: seq<Lesson>)
    ensures forall c :: c in UnprocessedCourses(audioFiles, lessons) <==>
              exists a :: a in audioFiles && !IsProcessed(lessons, a.key) && c == UnclaimedRow(a)
  {
    var u := UnprocessedRecordings(audioFiles, lessons);
    var r := UnprocessedCourses(audioFiles, lessons);
    forall c | c in r
      ensures exists a :: a in audioFiles && !IsProcessed(lessons, a.key) && c == UnclaimedRow(a)
    {
      var i :| 0 <= i < |r| && r[i] == c;
      assert u[i] in u && c == UnclaimedRow(u[i]);
    }
    forall a | a in audioFiles && !IsProcessed(lessons, a.key)
      ensures UnclaimedRow(a) in r
    {
      assert a in u;
      var i :| 0 <= i < |u| && u[i] == a;
      assert r[i] == UnclaimedRow(a);
    }
  }

  /** A recording is listed as unprocessed exactly when no lesson has its key
      as video_id. */
  lemma UnprocessedIffUnclaimed(audioFiles: seq<Recording>, lessons: seq<Lesson>, key: string)
    requires Recording(key) in audioFiles
    ensures (exists e :: e in UnprocessedCourses(audioFiles, lessons) && e.key == key)
            <==> !IsProcessed(lessons, key)
  {
    var u := UnprocessedRecordings(audioFiles, lessons);
    var r := UnprocessedCourses(audioFiles, lessons);
    if !IsProcessed(lessons, key) {
      assert Recording(key) in u;
      var i :| 0 <= i < |u| && u[i] == Recording(key);
      assert r[i].key == key;
    }
    if exists e :: e in r && e.key == key {
      var e :| e in r && e.key == key;
      var i :| 0 <= i < |r| && r[i] == e;
      assert u[i] in u;
    }
  }

  /** Search mode is on when the query has a non-whitespace character. */
  predicate InSearchMode(query: string) {
    Trim(query) != ""
  }

  /** The search predicate: with a title, the title or (when present) the
      teacher name contains the query; without one, the key does. The query
      is lower-cased but not trimmed. */
  predicate SearchMatches(c: CourseEntry, query: string) {
    var q := ToLower(query);
    if c.title != "" then
      Includes(ToLower(c.title), q) || (c.teacherName != "" && Includes(ToLower(c.teacherName), q))
    else
      Includes(ToLower(c.key), q)
  }

  /** The date predicate: the decoded month and year equal the selected ones;
      undecodable entries never match. */
  predicate DateMatches(c: CourseEntry, selected: CalendarDate) {
    c.uploadDate.Some? && c.uploadDate.value.month == selected.month && c.uploadDate.value.year == selected.year
  }

  /** The predicate `filterCourses` applies in the mode the query selects. */
  predicate Selected(c: CourseEntry, query: string, selected: CalendarDate) {
    if InSearchMode(query) then SearchMatches(c, query) else DateMatches(c, selected)
  }

  /** `filterCourses`: keeps, in order, exactly the entries the active mode
      accepts. */
  function FilterCourses(courses: seq<CourseEntry>, query: string, selected: CalendarDate): (r: seq<CourseEntry>)
    ensures IsSubsequence(r, courses)
    ensures forall c :: c in r <==> c in courses && Selected(c, query, selected)
    ensures forall c :: multiset(r)[c] == if Selected(c, query, selected) then multiset(courses)[c] else 0
  {
    if InSearchMode(query) then
      FilterMultiplicity(courses, (c: CourseEntry) => SearchMatches(c, query));
      Filter(courses, (c: CourseEntry) => SearchMatches(c, query))
    else
      FilterMultiplicity(courses, (c: CourseEntry) => DateMatches(c, selected));
      Filter(courses, (c: CourseEntry) => DateMatches(c, selected))
  }

  /** In search mode the selected month and year play no part. */
  lemma SearchIgnoresSelectedDate(courses: seq<CourseEntry>, query: string, d1: CalendarDate, d2: CalendarDate)
    requires InSearchMode(query)
    ensures FilterCourses(courses, query, d1) == FilterCourses(courses, query, d2)
  {
  }

  /** In date mode no undecodable entry survives. */
  lemma DateModeDropsUndecodable(courses: seq<CourseEntry>, query: string, selected: CalendarDate)
    requires !InSearchMode(query)
    ensures forall c :: c in FilterCourses(courses, query, selected) ==> c.uploadDate.Some?
  {
  }

  /** The search is case-insensitive: lower-casing the query changes neither
      the mode nor the result. */
  lemma SearchIgnoresQueryCase(courses: seq<CourseEntry>, query: string, selected: CalendarDate)
    ensures FilterCourses(courses, ToLower(query), selected) == FilterCourses(courses, query, selected)
  {
    TrimEmptyIffBlank(query);
    TrimEmptyIffBlank(ToLower(query));
    ToLowerKeepsBlankness(query);
    ToLowerIdempotent(query);
    if InSearchMode(query) {
      FilterAgreeing(courses, (c: CourseEntry) => SearchMatches(c, ToLower(query)), (c: CourseEntry) => SearchMatches(c, query));
    }
  }

  /** The year decoded from a key, as a set of zero or one years. */
  function YearOf(key: string): set<int> {
    match CourseDate(key)
    case Some(d) => {d.year}
    case None => {}
  }

  /** The years decoded from a list of keys. */
  function DecodedYears(keys: seq<string>): set<int> {
    if keys == [] then {} else DecodedYears(keys[..|keys| - 1]) + YearOf(keys[|keys| - 1])
  }

  /** One more key adds the year it decodes to, when there is one. */
  lemma DecodedYearsStep(keys: seq<string>, i: nat)
    requires i < |keys|
    ensures DecodedYears(keys[..i + 1]) ==
            DecodedYears(keys[..i]) + (if CourseDate(keys[i]).Some? then {CourseDate(keys[i]).value.year} else {})
  {
    assert keys[..i + 1][..i] == keys[..i];
  }

  lemma {:induction false} DecodedYearsIff(keys: seq<string>, y: int)
    ensures y in DecodedYears(keys) <==>
            exists i :: 0 <= i < |keys| && CourseDate(keys[i]).Some? && CourseDate(keys[i]).value.year == y
  {
    if keys != [] {
      var init := keys[..|keys| - 1];
      DecodedYearsIff(init, y);
      if exists i :: 0 <= i < |init| && CourseDate(init[i]).Some? && CourseDate(init[i]).value.year == y {
        var i :| 0 <= i < |init| && CourseDate(init[i]).Some? && CourseDate(init[i]).value.year == y;
        assert keys[i] == init[i];
      }
      if exists i :: 0 <= i < |keys| && CourseDate(keys[i]).Some? && CourseDate(keys[i]).value.year == y {
        var i :| 0 <= i < |keys| && CourseDate(keys[i]).Some? && CourseDate(keys[i]).value.year == y;
        if i < |keys| - 1 { assert init[i] == keys[i]; }
      }
    }
  }

  function LessonKeys(lessons: seq<Lesson>): (r: seq<string>)
    ensures |r| == |lessons| && forall i :: 0 <= i < |lessons| ==> r[i] == lessons[i].videoId
  {
    seq(|lessons|, i requires 0 <= i < |lessons| => lessons[i].videoId)
  }

  function RecordingKeys(audioFiles: seq<Recording>): (r: seq<string>)
    ensures |r| == |audioFiles| && forall i :: 0 <= i < |audioFiles| ==> r[i] == audioFiles[i].key
  {
    seq(|audioFiles|, i requires 0 <= i < |audioFiles| => audioFiles[i].key)
  }

  predicate StrictlyAscending(s: seq<int>) {
    forall i, j :: 0 <= i < j < |s| ==> s[i] < s[j]
  }

  lemma {:induction false} HasMinimum(s: set<int>)
    requires s != {}
    ensures exists m :: m in s && forall z :: z in s ==> m <= z
    decreases |s|
  {
    assert exists x :: x in s by {
      if forall x :: x !in s {
        assert false;
      }
    }
    var x :| x in s;
    var rest := s - {x};
    if rest == {} {
      assert forall z :: z in s ==> z == x || z in rest;
      assert forall z :: z in s ==> x <= z;
    } else {
      HasMinimum(rest);
      var m :| m in rest && forall z :: z in rest ==> m <= z;
      assert forall z :: z in s ==> z == x || z in rest;
      if x < m {
        assert forall z :: z in s ==> x <= z;
      } else {
        assert forall z :: z in s ==> m <= z;
      }
    }
  }

  /** `Array.from(set).sort((a, b) => a - b)`: the elements in ascending order,
      each once. */
  function SortedYears(s: set<int>): (r: seq<int>)
    ensures StrictlyAscending(r)
    ensures forall z :: z in r <==> z in s
    decreases s
  {
    if s == {} then []
    else
      HasMinimum(s);
      var m :| m in s && forall z :: z in s ==> m <= z;
      [m] + SortedYears(s - {m})
  }

  /** One `forEach` of `getYears`: the decoded year of each key, when there
      is one, joins the set. */
  method AddDecodedYears(keys: seq<string>, years: set<int>) returns (r: set<int>)
    ensures r == years + DecodedYears(keys)
  {
    r := years;
    var i := 0;
    while i < |keys|
      invariant 0 <= i <= |keys|
      invariant r == years + DecodedYears(keys[..i])
    {
      DecodedYearsStep(keys, i);
      var date := CourseDate(keys[i]);
      if date.Some? {
        r := r + {date.value.year};
      }
      i := i + 1;
    }
    assert keys[..|keys|] == keys;
  }

  /** `getYears`: the decoded years of every lesson and every recording plus
      the ten-year window around the current year, ascending and without
      repetition. Undecodable keys contribute nothing. */
  method GetYears(lessons: seq<Lesson>, audioFiles: seq<Recording>, currentYear: int) returns (yearList: seq<int>)
    ensures StrictlyAscending(yearList)
    ensures forall y :: y in yearList <==>
              (currentYear - 5 <= y <= currentYear + 5 ||
               y in DecodedYears(LessonKeys(lessons)) || y in DecodedYears(RecordingKeys(audioFiles)))
  {
    var years := AddDecodedYears(LessonKeys(lessons), {});
    years := AddDecodedYears(RecordingKeys(audioFiles), years);
    years := AddYearWindow(years, currentYear);
    yearList := SortedYears(years);
  }

  /** The loop of `getYears` over the current year and the five years on
      either side of it. */
  method AddYearWindow(years: set<int>, currentYear: int) returns (r: set<int>)
    ensures forall z :: z in r <==> z in years || currentYear - 5 <= z <= currentYear + 5
  {
    r := years;
    var y := currentYear - 5;
    while y <= currentYear + 5
      invariant currentYear - 5 <= y <= currentYear + 6
      invariant forall z :: z in r <==> z in years || currentYear - 5 <= z < y
    {
      r := r + {y};
      y := y + 1;
    }
  }

  /** What the loading fetches deliver: both lists, or the first error. */
  datatype CatalogFetch = Loaded(audioFiles: seq<Recording>, lessons: seq<Lesson>) | Failed(message: string)

  /** `new Date(y, m, 1)` reads a year of 0..99 as 1900 + y. */
  function DateConstructorYear(y: int): int {
    if 0 <= y <= 99 then 1900 + y else y
  }

  /** The page component's state. */
  class CourseSelection {
    var selectedDate: CalendarDate
    var audioFiles: seq<Recording>
    var lessons: seq<Lesson>
    var searchQuery: string
    var loading: bool
    var error: Option<string>

    /** The selected date always comes from the Date constructor, so its year
        is never one of 0..99 and its month is a real month. */
    predicate Valid()
      reads this
    {
      !(0 <= selectedDate.year <= 99) && 0 <= selectedDate.month < 12
    }

    constructor (today: CalendarDate)
      requires IsValidDate(today) && today.year >= 100
      ensures Valid()
      ensures selectedDate == today && audioFiles == [] && lessons == []
      ensures searchQuery == "" && loading && error == None
    {
      selectedDate := today;
      audioFiles := [];
      lessons := [];
      searchQuery := "";
      loading := true;
      error := None;
    }

    /** The end of the two parallel fetches: both lists are taken, or the
        error message is shown and the lists keep their previous values (the
        empty lists of the first load). */
    method DataFetched(outcome: CatalogFetch)
      requires Valid()
      modifies this
      ensures Valid() && !loading
      ensures outcome.Loaded? ==> audioFiles == outcome.audioFiles && lessons == outcome.lessons && error == old(error)
      ensures outcome.Failed? ==> error == Some(outcome.message) && audioFiles == old(audioFiles) && lessons == old(lessons)
      ensures selectedDate == old(selectedDate) && searchQuery == old(searchQuery)
    {
      match outcome {
        case Loaded(a, l) =>
          audioFiles := a;
          lessons := l;
        case Failed(m) =>
          error := Some(m);
      }
      loading := false;
    }

    /** Typing in the search box. */
    method SearchInput(query: string)
      modifies this
      ensures searchQuery == query
      ensures selectedDate == old(selectedDate) && audioFiles == old(audioFiles) && lessons == old(lessons)
      ensures loading == old(loading) && error == old(error)
    {
      searchQuery := query;
    }

    /** The clear button next to the search box. */
    method ClearSearch()
      modifies this
      ensures searchQuery == ""
      ensures selectedDate == old(selectedDate) && audioFiles == old(audioFiles) && lessons == old(lessons)
      ensures loading == old(loading) && error == old(error)
    {
      searchQuery := "";
    }

    /** `handleMonthChange`: same year, the chosen month, day 1; a query that
        is not blank is cleared (a blank one is left as it is). */
    method MonthChange(newMonth: int)
      requires Valid() && 0 <= newMonth < 12
      modifies this
      ensures Valid()
      ensures selectedDate == CalendarDate(old(selectedDate.year), newMonth, 1)
      ensures searchQuery == if InSearchMode(old(searchQuery)) then "" else old(searchQuery)
      ensures audioFiles == old(audioFiles) && lessons == old(lessons)
      ensures loading == old(loading) && error == old(error)
    {
      selectedDate := CalendarDate(DateConstructorYear(selectedDate.year), newMonth, 1);
      if Trim(searchQuery) != "" {
        searchQuery := "";
      }
    }

    /** `handleYearChange`: the chosen year, same month, day 1; a query that is
        not blank is cleared. */
    method YearChange(newYear: int)
      requires Valid()
      modifies this
      ensures Valid()
      ensures selectedDate == CalendarDate(DateConstructorYear(newYear), old(selectedDate.month), 1)
      ensures !(0 <= newYear <= 99) ==> selectedDate.year == newYear
      ensures searchQuery == if InSearchMode(old(searchQuery)) then "" else old(searchQuery)
      ensures audioFiles == old(audioFiles) && lessons == old(lessons)
      ensures loading == old(loading) && error == old(error)
    {
      selectedDate := CalendarDate(DateConstructorYear(newYear), selectedDate.month, 1);
      if Trim(searchQuery) != "" {
        searchQuery := "";
      }
    }

    /** The unprocessed list as the page shows it: a key-only row for each
        recording no lesson claims, kept when the active mode selects it. */
    function FilteredUnprocessedCourses(): (r: seq<CourseEntry>)
      reads this
      ensures IsSubsequence(r, UnprocessedCourses(audioFiles, lessons))
      ensures forall c :: c in r <==>
                (exists a :: a in audioFiles && !IsProcessed(lessons, a.key) && c == UnclaimedRow(a)) &&
                Selected(c, searchQuery, selectedDate)
      ensures forall c :: multiset(r)[c] ==
                if Selected(c, searchQuery, selectedDate) then multiset(UnprocessedCourses(audioFiles, lessons))[c] else 0
    {
      UnprocessedRows(audioFiles, lessons);
      FilterCourses(UnprocessedCourses(audioFiles, lessons), searchQuery, selectedDate)
    }

    /** The processed list as the page shows it: the row of each lesson, kept
        when the active mode selects it. */
    function FilteredProcessedCourses(): (r: seq<CourseEntry>)
      reads this
      ensures IsSubsequence(r, ProcessedCourses(lessons))
      ensures forall c :: c in r <==>
                (exists l :: l in lessons && c == LessonRow(l)) && Selected(c, searchQuery, selectedDate)
      ensures forall c :: multiset(r)[c] ==
                if Selected(c, searchQuery, selectedDate) then multiset(ProcessedCourses(lessons))[c] else 0
    {
      ProcessedRows(lessons);
      FilterCourses(ProcessedCourses(lessons), searchQuery, selectedDate)
    }

    /** The year selector's options, for the current year of the clock. */
    method Years(currentYear: int) returns (yearList: seq<int>)
      ensures StrictlyAscending(yearList)
      ensures forall y :: y in yearList <==>
                (currentYear - 5 <= y <= currentYear + 5 ||
                 y in DecodedYears(LessonKeys(lessons)) || y in DecodedYears(RecordingKeys(audioFiles)))
    {
      yearList := GetYears(lessons, audioFiles, currentYear);
    }
  }
}
