/** The course-information sidebar: the lesson form, its loading from the
    lessons API, and saving and deleting it with the resulting message. */
module CourseInfo {
  import opened Options
  import opened JsStrings
  import opened JsValues

  /** The ten columns of a lesson, in the order the form declares them. */
  datatype Field =
    | VideoId | Title | TeacherName | Description | Keywords
    | Sections | SubtitlesStatus | NotesLink | Tags | ComprehensionLevel

  /** The two columns that hold numbers; the other eight hold text. */
  predicate IsNumeric(f: Field) {
    f == SubtitlesStatus || f == ComprehensionLevel
  }

  /** The property name of a field in the JSON objects. */
  function Name(f: Field): string {
    match f
    case VideoId => "video_id"
    case Title => "title"
    case TeacherName => "teacher_name"
    case Description => "description"
    case Keywords => "keywords"
    case Sections => "sections"
    case SubtitlesStatus => "subtitles_status"
    case NotesLink => "notes_link"
    case Tags => "tags"
    case ComprehensionLevel => "comprehension_level"
  }

  /** The `formData` object: exactly the ten fields. */
  datatype LessonForm = LessonForm(
    videoId: JsValue, title: JsValue, teacherName: JsValue, description: JsValue,
    keywords: JsValue, sections: JsValue, subtitlesStatus: JsValue,
    notesLink: JsValue, tags: JsValue, comprehensionLevel: JsValue)

  function Get(form: LessonForm, f: Field): JsValue {
    match f
    case VideoId => form.videoId
    case Title => form.title
    case TeacherName => form.teacherName
    case Description => form.description
    case Keywords => form.keywords
    case Sections => form.sections
    case SubtitlesStatus => form.subtitlesStatus
    case NotesLink => form.notesLink
    case Tags => form.tags
    case ComprehensionLevel => form.comprehensionLevel
  }

  /** `{ ...form, [name]: value }`: the named field takes the value and every
      other field keeps its own. */
  function With(form: LessonForm, f: Field, v: JsValue): (r: LessonForm)
    ensures Get(r, f) == v
    ensures forall g :: g != f ==> Get(r, g) == Get(form, g)
  {
    match f
    case VideoId => form.(videoId := v)
    case Title => form.(title := v)
    case TeacherName => form.(teacherName := v)
    case Description => form.(description := v)
    case Keywords => form.(keywords := v)
    case Sections => form.(sections := v)
    case SubtitlesStatus => form.(subtitlesStatus := v)
    case NotesLink => form.(notesLink := v)
    case Tags => form.(tags := v)
    case ComprehensionLevel => form.(comprehensionLevel := v)
  }

  /** Writing a field with the value it already has changes nothing. */
  lemma WithOwnValue(form: LessonForm, f: Field)
    ensures With(form, f, Get(form, f)) == form
  {
  }

  /** The blank form for a course: its id, empty texts and both numbers 0.
      It is the initial state and the state after a delete. */
  function BlankForm(courseId: string): (r: LessonForm)
    ensures Get(r, VideoId) == Str(courseId)
    ensures forall f :: f != VideoId && !IsNumeric(f) ==> Get(r, f) == Str("")
    ensures forall f :: IsNumeric(f) ==> Get(r, f) == Number(0.0)
  {
    LessonForm(Str(courseId), Str(""), Str(""), Str(""), Str(""), Str(""),
               Number(0.0), Str(""), Str(""), Number(0.0))
  }

  /** A property read from a parsed object: undefined when absent. */
  function Prop(obj: map<string, JsValue>, name: string): JsValue {
    if name in obj then obj[name] else Undefined
  }

  /** What `sanitizeFormData` guarantees: text fields are truthy or '', and
      number fields are neither null nor undefined. */
  predicate Sanitized(form: LessonForm) {
    forall f :: (IsNumeric(f) ==> !IsNullish(Get(form, f))) &&
                (!IsNumeric(f) ==> Truthy(Get(form, f)) || Get(form, f) == Str(""))
  }

  function SanitizeText(v: JsValue): JsValue { Or(v, Str("")) }

  function SanitizeNumber(v: JsValue): JsValue {
    if IsNullish(v) then Number(0.0) else v
  }

  /** `sanitizeFormData(data)`. A text field keeps a truthy value and
      otherwise becomes ''; a number field keeps any value but null and
      undefined (0 included) and otherwise becomes 0. */
  function Sanitize(data: map<string, JsValue>): (r: LessonForm)
    ensures Sanitized(r)
    ensures forall f :: !IsNumeric(f) ==>
              Get(r, f) == (if Truthy(Prop(data, Name(f))) then Prop(data, Name(f)) else Str(""))
    ensures forall f :: IsNumeric(f) ==>
              Get(r, f) == (if IsNullish(Prop(data, Name(f))) then Number(0.0) else Prop(data, Name(f)))
  {
    var r := LessonForm(
      SanitizeText(Prop(data, "video_id")),
      SanitizeText(Prop(data, "title")),
      SanitizeText(Prop(data, "teacher_name")),
      SanitizeText(Prop(data, "description")),
      SanitizeText(Prop(data, "keywords")),
      SanitizeText(Prop(data, "sections")),
      SanitizeNumber(Prop(data, "subtitles_status")),
      SanitizeText(Prop(data, "notes_link")),
      SanitizeText(Prop(data, "tags")),
      SanitizeNumber(Prop(data, "comprehension_level")));
    assert forall f :: Get(r, f) == if IsNumeric(f) then SanitizeNumber(Prop(data, Name(f))) else SanitizeText(Prop(data, Name(f)));
    r
  }

  /** A stored 0 survives: it is not replaced as an empty text would be. */
  lemma SanitizeKeepsZero(data: map<string, JsValue>)
    requires Prop(data, "comprehension_level") == Number(0.0)
    requires Prop(data, "subtitles_status") == Number(0.0)
    ensures Get(Sanitize(data), ComprehensionLevel) == Number(0.0)
    ensures Get(Sanitize(data), SubtitlesStatus) == Number(0.0)
  {
  }

  /** The form as an object with its ten properties. */
  function AsObject(form: LessonForm): (obj: map<string, JsValue>)
    ensures forall f :: Prop(obj, Name(f)) == Get(form, f)
  {
    map["video_id" := form.videoId, "title" := form.title,
        "teacher_name" := form.teacherName, "description" := form.description,
        "keywords" := form.keywords, "sections" := form.sections,
        "subtitles_status" := form.subtitlesStatus, "notes_link" := form.notesLink,
        "tags" := form.tags, "comprehension_level" := form.comprehensionLevel]
  }

  lemma SanitizeFixesField(form: LessonForm, f: Field)
    requires Sanitized(form)
    ensures Get(Sanitize(AsObject(form)), f) == Get(form, f)
  {
    assert Prop(AsObject(form), Name(f)) == Get(form, f);
    assert (IsNumeric(f) ==> !IsNullish(Get(form, f))) &&
           (!IsNumeric(f) ==> Truthy(Get(form, f)) || Get(form, f) == Str(""));
  }

  /** A sanitized form is left alone by a second sanitizing. */
  lemma SanitizeFixesSanitized(form: LessonForm)
    requires Sanitized(form)
    ensures Sanitize(AsObject(form)) == form
  {
    forall f
      ensures Get(Sanitize(AsObject(form)), f) == Get(form, f)
    {
      SanitizeFixesField(form, f);
    }
    FormsAgree(Sanitize(AsObject(form)), form);
  }

  /** Two forms with the same value in every field are the same form. */
  lemma FormsAgree(a: LessonForm, b: LessonForm)
    requires forall f :: Get(a, f) == Get(b, f)
    ensures a == b
  {
    assert Get(a, VideoId) == Get(b, VideoId) && Get(a, Title) == Get(b, Title);
    assert Get(a, TeacherName) == Get(b, TeacherName) && Get(a, Description) == Get(b, Description);
    assert Get(a, Keywords) == Get(b, Keywords) && Get(a, Sections) == Get(b, Sections);
    assert Get(a, SubtitlesStatus) == Get(b, SubtitlesStatus) && Get(a, NotesLink) == Get(b, NotesLink);
    assert Get(a, Tags) == Get(b, Tags) && Get(a, ComprehensionLevel) == Get(b, ComprehensionLevel);
  }

  /** `sanitizeFormData` is idempotent. */
  lemma SanitizeIdempotent(data: map<string, JsValue>)
    ensures Sanitize(AsObject(Sanitize(data))) == Sanitize(data)
  {
    SanitizeFixesSanitized(Sanitize(data));
  }

  /** The save body: the form with both number fields passed through
      `Number(...)`; the text fields go as they are. */
  function RequestBody(form: LessonForm): (body: LessonForm)
    ensures forall f :: IsNumeric(f) ==> Get(body, f).Number? || Get(body, f).NaN?
    ensures forall f :: !IsNumeric(f) ==> Get(body, f) == Get(form, f)
    ensures forall f :: IsNumeric(f) && Get(form, f).Number? ==> Get(body, f) == Get(form, f)
  {
    form.(comprehensionLevel := ToNumber(form.comprehensionLevel),
          subtitlesStatus := ToNumber(form.subtitlesStatus))
  }

  /** A number typed into the form (the input and the select produce digit
      strings) reaches the server as that number. */
  lemma TypedNumberIsSent(form: LessonForm, f: Field, n: nat)
    requires IsNumeric(f)
    ensures Get(RequestBody(With(form, f, Str(NatToString(n)))), f) == Number(n as real)
  {
    NumberOfDigitString(n);
  }

  /** HTML's "valid floating-point number", the only non-empty value a number
      input holds: an optional '-', then digits with an optional fraction or a
      fraction alone, then optionally 'e' or 'E' and an exponent with an
      optional sign. */
  predicate IsFloatingPointNumber(s: string) {
    var body := if s != [] && s[0] == '-' then s[1..] else s;
    var m := ExponentMark(body);
    IsFloatingPointMantissa(body[..m]) && (m == |body| || ParseExponent(body[m + 1..]).Some?)
  }

  /** `d+`, `d+.d+` or `.d+`. */
  predicate IsFloatingPointMantissa(mantissa: string) {
    var whole := BeforeFirst(mantissa, '.');
    AllDigits(whole) &&
    if |whole| == |mantissa| then whole != []
    else var frac := mantissa[|whole| + 1..]; frac != [] && AllDigits(frac)
  }

  /** A valid floating-point number starts with '-', a digit or '.', and
      ends with a digit. */
  lemma FloatingPointNumberEnds(s: string)
    requires IsFloatingPointNumber(s)
    ensures s != [] && (s[0] == '-' || s[0] == '.' || IsDigit(s[0])) && IsDigit(s[|s| - 1])
  {
    var body := if s != [] && s[0] == '-' then s[1..] else s;
    var m := ExponentMark(body);
    MantissaEnds(body[..m]);
    assert body[0] == body[..m][0];
    if m == |body| {
      assert body[|body| - 1] == body[..m][m - 1];
    } else {
      ExponentEnds(body[m + 1..]);
      assert body[|body| - 1] == body[m + 1..][|body| - m - 2];
    }
    assert s[|s| - 1] == body[|body| - 1];
  }

  /** An allowed mantissa starts with '.' or a digit and ends with a digit. */
  lemma MantissaEnds(mantissa: string)
    requires IsFloatingPointMantissa(mantissa)
    ensures mantissa != [] && (mantissa[0] == '.' || IsDigit(mantissa[0])) && IsDigit(mantissa[|mantissa| - 1])
  {
    var whole := BeforeFirst(mantissa, '.');
    if |whole| == |mantissa| {
      assert whole == mantissa;
    } else {
      var frac := mantissa[|whole| + 1..];
      assert mantissa[|mantissa| - 1] == frac[|frac| - 1];
      if whole != [] {
        assert mantissa[0] == whole[0];
      }
    }
  }

  /** An exponent ends with a digit. */
  lemma ExponentEnds(e: string)
    requires ParseExponent(e).Some?
    ensures e != [] && IsDigit(e[|e| - 1])
  {
    var digits := if e[0] == '+' || e[0] == '-' then e[1..] else e;
    assert e[|e| - 1] == digits[|digits| - 1];
  }

  /** The mantissa forms HTML allows are decimal literals. */
  lemma MantissaParses(mantissa: string)
    requires IsFloatingPointMantissa(mantissa)
    ensures ParseUnsignedDecimal(mantissa).Some?
  {
    var whole := BeforeFirst(mantissa, '.');
    if |whole| == |mantissa| {
      assert whole == mantissa;
    }
  }

  /** Without its sign, a valid floating-point number is an unsigned literal
      `Number(...)` accepts. */
  lemma FloatingPointNumberBodyParses(s: string)
    requires IsFloatingPointNumber(s)
    ensures ParseUnsignedLiteral(if s != [] && s[0] == '-' then s[1..] else s).Some?
  {
    var body := if s != [] && s[0] == '-' then s[1..] else s;
    var m := ExponentMark(body);
    MantissaParses(body[..m]);
    UnsignedLiteralParses(body);
  }

  /** Every value the browser lets a number input hold is a number to
      `Number(...)`. */
  lemma FloatingPointNumberIsRead(s: string)
    requires IsFloatingPointNumber(s)
    ensures StringToNumber(s).Number?
  {
    FloatingPointNumberEnds(s);
    FloatingPointNumberBodyParses(s);
    var body := if s[0] == '-' then s[1..] else s;
    SignedLiteralIsRead(s, ParseUnsignedLiteral(body).value);
  }

  /** A whole number from 0 to 100, as `min="0"`, `max="100"` and the default
      step of 1 from a base of 0 require. */
  predicate InLevelRange(x: real) {
    0.0 <= x <= 100.0 && x.Floor as real == x
  }

  /** Whether the comprehension-level input lets the form submit while the
      form holds `v` for it. React writes `String(v)` into the input; a number
      must be in range; a string that is not a valid floating-point number is
      replaced by "" (which passes, as the input is not required) and any
      other string must be in range; the remaining values show as "". */
  predicate LevelAllowsSubmit(v: JsValue) {
    match v
    case Number(x) => InLevelRange(x)
    case Str(s) => !IsFloatingPointNumber(s) || (StringToNumber(s).Number? && InLevelRange(StringToNumber(s).x))
    case _ => true
  }

  /** Typed digits let the form submit exactly when they name at most 100. */
  lemma TypedLevelAllowsSubmitIffInRange(n: nat)
    ensures LevelAllowsSubmit(Str(NatToString(n))) <==> n <= 100
  {
    var s := NatToString(n);
    assert ExponentMark(s) == |s|;
    assert forall i :: 0 <= i < |s| ==> s[i] != '.';
    BeforeFirstWithoutSeparator(s, '.');
    assert s[..|s|] == s;
    assert IsFloatingPointNumber(s);
    NumberOfDigitString(n);
  }

  /** A fraction is held back by the step. */
  lemma FractionalLevelHeldBack()
    ensures !LevelAllowsSubmit(Str("1.5"))
  {
    FractionIsFloatingPointNumber();
    FractionIsRead();
    HalfOffStep();
  }

  lemma HalfOffStep()
    ensures !InLevelRange(1.5)
  {
    assert (1.5).Floor == 1;
  }

  lemma FractionIsRead()
    ensures StringToNumber("1.5") == Number(1.5)
  {
    FractionIsFloatingPointNumber();
    SignedLiteralIsRead("1.5", 1.5);
  }

  lemma FractionIsFloatingPointNumber()
    ensures IsFloatingPointNumber("1.5")
    ensures ParseUnsignedLiteral("1.5") == Some(1.5)
  {
    var s := "1.5";
    assert ExponentMark(s) == 3;
    assert s[..3] == s;
    assert BeforeFirst(s, '.') == "1";
    assert s[2..] == "5";
    assert ParseUnsignedDecimal(s) == Some(1.5);
  }

  /** Exponent notation within range, and an empty input, let it submit. */
  lemma ExponentLevelAllowed()
    ensures LevelAllowsSubmit(Str("1e2"))
    ensures LevelAllowsSubmit(Str(""))
  {
    ExponentExamples();
  }

  /** The parsed body: not JSON, or a JSON value seen through its
      properties (a JSON primitive has none, so it is an empty map). */
  datatype Parsed = NotJson | Json(props: map<string, JsValue>)

  /** The outcome of a request: it failed to complete (the error's message),
      or a response with its `ok` flag, its text and that text parsed. */
  datatype HttpOutcome =
    | NetworkError(message: string)
    | Response(ok: bool, text: string, parsed: Parsed)

  /** `x.message` as a usable message; a missing or empty message is "". */
  function MessageOf(props: map<string, JsValue>): (m: string)
    ensures m != "" ==> Prop(props, "message") == Str(m)
  {
    var v := Prop(props, "message");
    if v.Str? then v.s else ""
  }

  /** The message after a successful save or delete: the JSON `message` when
      the body parses; the raw text when it does not; `fallback` when that
      comes out empty. */
  function SuccessMessage(text: string, parsed: Parsed, fallback: string): (m: string)
    requires fallback != ""
    ensures m != ""
    ensures parsed.Json? && MessageOf(parsed.props) != "" ==> m == MessageOf(parsed.props)
    ensures parsed.NotJson? && text != "" ==> m == text
    ensures parsed.Json? && MessageOf(parsed.props) == "" ==> m == fallback
    ensures parsed.NotJson? && text == "" ==> m == fallback
  {
    var message := if parsed.Json? then MessageOf(parsed.props) else text;
    if message != "" then message else fallback
  }

  /** The reason after a failed save or delete: the JSON `message`, else the
      raw text, else '未知错误'. */
  function FailureReason(text: string, parsed: Parsed): (m: string)
    ensures m != ""
    ensures parsed.Json? && MessageOf(parsed.props) != "" ==> m == MessageOf(parsed.props)
    ensures (parsed.NotJson? || MessageOf(parsed.props) == "") && text != "" ==> m == text
    ensures (parsed.NotJson? || MessageOf(parsed.props) == "") && text == "" ==> m == "未知错误"
  {
    var message := if parsed.Json? && MessageOf(parsed.props) != "" then MessageOf(parsed.props) else text;
    if message != "" then message else "未知错误"
  }

  const SaveFailed: string := "保存失败: "
  const DeleteFailed: string := "删除失败: "

  /** The page shows a message in green exactly when it starts with
      '保存成功' or '删除成功'. */
  predicate ShownAsSuccess(message: string)
    ensures ShownAsSuccess(message) <==> |message| >= 4 && (message[..4] == "保存成功" || message[..4] == "删除成功")
  {
    assert |"保存成功"| == 4 && |"删除成功"| == 4;
    "保存成功" <= message || "删除成功" <= message
  }

  /** A failure message is never shown in green, and the two fallbacks
      always are. A server's own success message is green only when it
      happens to start with one of the two phrases. */
  lemma MessageColours(text: string, parsed: Parsed, reason: string)
    ensures !ShownAsSuccess(SaveFailed + reason) && !ShownAsSuccess(DeleteFailed + reason)
    ensures ShownAsSuccess(SuccessMessage("", NotJson, "保存成功"))
    ensures ShownAsSuccess(SuccessMessage("", NotJson, "删除成功"))
    ensures !ShownAsSuccess(SuccessMessage("Lesson updated", NotJson, "保存成功"))
  {
    assert (SaveFailed + reason)[2] != "保存成功"[2];
    assert (SaveFailed + reason)[0] != "删除成功"[0];
    assert (DeleteFailed + reason)[0] != "保存成功"[0];
    assert (DeleteFailed + reason)[2] != "删除成功"[2];
    assert "Lesson updated"[0] != "保存成功"[0];
    assert "Lesson updated"[0] != "删除成功"[0];
  }

  /** The text that marks a missing lesson. */
  const LessonNotFound: string := "Lesson not found"

  /** The opening of the error shown when the lesson body is not JSON. */
  const NotJsonPrefix: string := "期望 JSON 格式的数据，但收到: "

  /** The error shown when the lesson body is not JSON: the fixed opening,
      then the body received, which can be read back from it. */
  function ExpectedJson(text: string): (r: string)
    ensures NotJsonPrefix <= r && r[|NotJsonPrefix|..] == text
  {
    NotJsonPrefix + text
  }

  datatype HttpMethod = Put | Post

  datatype SaveRequest = SaveRequest(verb: HttpMethod, url: string, body: LessonForm)

  const UpdateUrl: string := "https://masluz-api.edwin-abel-3.workers.dev/api/lecciones/update"
  const CreateUrl: string := "https://masluz-api.edwin-abel-3.workers.dev/api/lecciones/create"

  /** The request a save sends: PUT to the update endpoint for an existing
      lesson, POST to the create endpoint for a new one. */
  function SaveRequestFor(form: LessonForm, existing: bool): (req: SaveRequest)
    ensures req.verb == Put <==> existing
    ensures req.url == UpdateUrl <==> existing
    ensures req.url == CreateUrl <==> !existing
    ensures req.body == RequestBody(form)
  {
    if existing then SaveRequest(Put, UpdateUrl, RequestBody(form))
    else SaveRequest(Post, CreateUrl, RequestBody(form))
  }

  class CourseInfoSidebar {
    const courseId: string
    var formData: LessonForm
    var isSaving: bool
    var saveMessage: string
    var isLoading: bool
    var error: Option<string>
    var isExistingLesson: bool

    /** The form is on screen (and so can be edited and submitted) once
        loading is over and no error replaced it. */
    predicate FormShown()
      reads this
    {
      !isLoading && error.None?
    }

    constructor (courseId: string)
      ensures this.courseId == courseId
      ensures formData == BlankForm(courseId)
      ensures !isSaving && saveMessage == "" && isLoading && error == None && isExistingLesson
    {
      this.courseId := courseId;
      formData := BlankForm(courseId);
      isSaving := false;
      saveMessage := "";
      isLoading := true;
      error := None;
      isExistingLesson := true;
    }

    /** `fetchCourseInfo` once its request has settled. A body reading
        "Lesson not found" (after trimming) marks the lesson as new and keeps
        the form; a body that is not JSON, an error status or a failed
        request sets the error; an ok JSON body replaces the form with its
        sanitized copy. Loading ends in every case. */
    method FetchCompleted(outcome: HttpOutcome)
      modifies this
      ensures !isLoading
      ensures outcome.Response? && Trim(outcome.text) == LessonNotFound ==>
                !isExistingLesson && formData == old(formData) && error == old(error)
      ensures outcome.Response? && Trim(outcome.text) != LessonNotFound && outcome.parsed.NotJson? ==>
                error == Some(ExpectedJson(outcome.text)) &&
                formData == old(formData) && isExistingLesson == old(isExistingLesson)
      ensures outcome.Response? && Trim(outcome.text) != LessonNotFound && outcome.parsed.Json? ==>
                if outcome.ok then
                  formData == Sanitize(outcome.parsed.props) && isExistingLesson && error == old(error)
                else
                  error == Some(if MessageOf(outcome.parsed.props) != "" then MessageOf(outcome.parsed.props) else "未知错误") &&
                  formData == old(formData) && isExistingLesson == old(isExistingLesson)
      ensures outcome.NetworkError? ==>
                error == Some(outcome.message) &&
                formData == old(formData) && isExistingLesson == old(isExistingLesson)
      ensures isSaving == old(isSaving) && saveMessage == old(saveMessage)
    {
      match outcome {
        case NetworkError(message) =>
          error := Some(message);
        case Response(ok, text, parsed) =>
          ResponseArrived(ok, text, parsed);
      }
      isLoading := false;
    }

    /** The part of `fetchCourseInfo` that handles a response whose text
        has been received, before loading ends. */
    method ResponseArrived(ok: bool, text: string, parsed: Parsed)
      modifies this
      ensures Trim(text) == LessonNotFound ==>
                !isExistingLesson && formData == old(formData) && error == old(error)
      ensures Trim(text) != LessonNotFound && parsed.NotJson? ==>
                error == Some(ExpectedJson(text)) &&
                formData == old(formData) && isExistingLesson == old(isExistingLesson)
      ensures Trim(text) != LessonNotFound && parsed.Json? ==>
                if ok then
                  formData == Sanitize(parsed.props) && isExistingLesson && error == old(error)
                else
                  error == Some(if MessageOf(parsed.props) != "" then MessageOf(parsed.props) else "未知错误") &&
                  formData == old(formData) && isExistingLesson == old(isExistingLesson)
      ensures isLoading == old(isLoading) && isSaving == old(isSaving) && saveMessage == old(saveMessage)
    {
      if Trim(text) == LessonNotFound {
        isExistingLesson := false;
      } else {
        BodyArrived(ok, text, parsed);
      }
    }

    /** A response that is not "Lesson not found": a body that is not JSON
        sets the error that says so; a parsed body goes on to its status. */
    method BodyArrived(ok: bool, text: string, parsed: Parsed)
      modifies this
      ensures parsed.NotJson? ==>
                error == Some(ExpectedJson(text)) &&
                formData == old(formData) && isExistingLesson == old(isExistingLesson)
      ensures parsed.Json? ==>
                if ok then
                  formData == Sanitize(parsed.props) && isExistingLesson && error == old(error)
                else
                  error == Some(if MessageOf(parsed.props) != "" then MessageOf(parsed.props) else "未知错误") &&
                  formData == old(formData) && isExistingLesson == old(isExistingLesson)
      ensures isLoading == old(isLoading) && isSaving == old(isSaving) && saveMessage == old(saveMessage)
    {
      if parsed.NotJson? {
        error := Some(ExpectedJson(text));
      } else {
        JsonBodyArrived(ok, parsed.props);
      }
    }

    /** A response body that parsed: with an ok status the form takes its
        sanitized copy; otherwise its `message`, or '未知错误' when it has
        none, becomes the error. */
    method JsonBodyArrived(ok: bool, props: map<string, JsValue>)
      modifies this
      ensures ok ==> formData == Sanitize(props) && isExistingLesson && error == old(error)
      ensures !ok ==>
                error == Some(if MessageOf(props) != "" then MessageOf(props) else "未知错误") &&
                formData == old(formData) && isExistingLesson == old(isExistingLesson)
      ensures isLoading == old(isLoading) && isSaving == old(isSaving) && saveMessage == old(saveMessage)
    {
      if ok {
        formData := Sanitize(props);
        isExistingLesson := true;
      } else {
        var m := MessageOf(props);
        error := Some(if m != "" then m else "未知错误");
      }
    }

    /** `handleChange` from one of the form's inputs (there is none for
        `video_id`); inputs deliver strings. */
    method Change(f: Field, value: string)
      requires FormShown() && f != VideoId
      modifies this
      ensures formData == With(old(formData), f, Str(value))
      ensures isSaving == old(isSaving) && saveMessage == old(saveMessage) && isLoading == old(isLoading)
      ensures error == old(error) && isExistingLesson == old(isExistingLesson)
    {
      formData := With(formData, f, Str(value));
    }

    /** Submitting the form. The browser withholds the submit while the
        required title is empty, while the comprehension level is out of
        range or not a whole number, or while the save button is disabled (a
        save in progress). Otherwise the message is cleared, saving starts,
        and the request is returned. */
    method BeginSave() returns (req: Option<SaveRequest>)
      requires FormShown()
      modifies this
      ensures req.Some? <==> !old(isSaving) && old(formData).title != Str("") &&
                             LevelAllowsSubmit(old(formData).comprehensionLevel)
      ensures req.Some? ==> req.value == SaveRequestFor(formData, isExistingLesson) && isSaving && saveMessage == ""
      ensures req.None? ==> isSaving == old(isSaving) && saveMessage == old(saveMessage)
      ensures formData == old(formData) && isLoading == old(isLoading)
      ensures error == old(error) && isExistingLesson == old(isExistingLesson)
    {
      req := None;
      if !isSaving && formData.title != Str("") && LevelAllowsSubmit(formData.comprehensionLevel) {
        isSaving := true;
        saveMessage := "";
        req := Some(SaveRequestFor(formData, isExistingLesson));
      }
    }

    /** The save request has settled and the message is set. On failure
        saving ends. On success `refetch` is true: the fetch runs again inside
        the save, so saving lasts until `RefetchAfterSaveCompleted`. */
    method FinishSave(outcome: HttpOutcome) returns (refetch: bool)
      modifies this
      ensures refetch <==> outcome.Response? && outcome.ok
      ensures outcome.NetworkError? ==> saveMessage == SaveFailed + outcome.message
      ensures outcome.Response? && outcome.ok ==>
                saveMessage == SuccessMessage(outcome.text, outcome.parsed, "保存成功")
      ensures outcome.Response? && !outcome.ok ==>
                saveMessage == SaveFailed + FailureReason(outcome.text, outcome.parsed)
      ensures isSaving <==> outcome.Response? && outcome.ok
      ensures formData == old(formData) && isLoading == old(isLoading)
      ensures error == old(error) && isExistingLesson == old(isExistingLesson)
    {
      refetch := false;
      match outcome {
        case NetworkError(message) =>
          saveMessage := SaveFailed + message;
        case Response(ok, text, parsed) =>
          if ok {
            saveMessage := SuccessMessage(text, parsed, "保存成功");
            refetch := true;
          } else {
            saveMessage := SaveFailed + FailureReason(text, parsed);
          }
      }
      isSaving := refetch;
    }

    /** The fetch that a successful save awaits has settled: the form,
        error and lesson flag change as `FetchCompleted` states, and then
        the save's `finally` ends saving. The save message is kept. */
    method RefetchAfterSaveCompleted(outcome: HttpOutcome)
      modifies this
      ensures !isLoading && !isSaving && saveMessage == old(saveMessage)
      ensures outcome.Response? && Trim(outcome.text) == LessonNotFound ==>
                !isExistingLesson && formData == old(formData) && error == old(error)
      ensures outcome.Response? && Trim(outcome.text) != LessonNotFound && outcome.parsed.NotJson? ==>
                error == Some(ExpectedJson(outcome.text)) &&
                formData == old(formData) && isExistingLesson == old(isExistingLesson)
      ensures outcome.Response? && Trim(outcome.text) != LessonNotFound && outcome.parsed.Json? ==>
                if outcome.ok then
                  formData == Sanitize(outcome.parsed.props) && isExistingLesson && error == old(error)
                else
                  error == Some(if MessageOf(outcome.parsed.props) != "" then MessageOf(outcome.parsed.props) else "未知错误") &&
                  formData == old(formData) && isExistingLesson == old(isExistingLesson)
      ensures outcome.NetworkError? ==>
                error == Some(outcome.message) &&
                formData == old(formData) && isExistingLesson == old(isExistingLesson)
    {
      FetchCompleted(outcome);
      isSaving := false;
    }

    /** The delete button. Without an existing lesson with a truthy
        `video_id` it refuses with a message; if the user does not confirm
        nothing happens; otherwise the id to delete is returned. */
    method BeginDelete(confirmed: bool) returns (target: Option<JsValue>)
      requires FormShown()
      modifies this
      ensures !old(isExistingLesson) || !Truthy(old(formData).videoId) ==>
                target == None && saveMessage == "没有可删除的课程信息"
      ensures old(isExistingLesson) && Truthy(old(formData).videoId) ==>
                saveMessage == old(saveMessage) &&
                (target.Some? <==> confirmed) &&
                (target.Some? ==> target.value == formData.videoId)
      ensures formData == old(formData) && isSaving == old(isSaving) && isLoading == old(isLoading)
      ensures error == old(error) && isExistingLesson == old(isExistingLesson)
    {
      target := None;
      if !isExistingLesson || !Truthy(formData.videoId) {
        saveMessage := "没有可删除的课程信息";
        return;
      }
      if confirmed {
        target := Some(formData.videoId);
      }
    }

    /** The delete request has settled. On success the message is set, the
        form goes back to the blank form for this course and the lesson
        counts as new; on failure only the message changes. */
    method FinishDelete(outcome: HttpOutcome)
      modifies this
      ensures outcome.NetworkError? ==> saveMessage == DeleteFailed + outcome.message
      ensures outcome.Response? && outcome.ok ==>
                saveMessage == SuccessMessage(outcome.text, outcome.parsed, "删除成功") &&
                formData == BlankForm(courseId) && !isExistingLesson
      ensures outcome.Response? && !outcome.ok ==>
                saveMessage == DeleteFailed + FailureReason(outcome.text, outcome.parsed)
      ensures !(outcome.Response? && outcome.ok) ==>
                formData == old(formData) && isExistingLesson == old(isExistingLesson)
      ensures isSaving == old(isSaving) && isLoading == old(isLoading) && error == old(error)
    {
      match outcome
      case NetworkError(message) =>
        saveMessage := DeleteFailed + message;
      case Response(ok, text, parsed) =>
        if ok {
          saveMessage := SuccessMessage(text, parsed, "删除成功");
          formData := BlankForm(courseId);
          isExistingLesson := false;
        } else {
          saveMessage := DeleteFailed + FailureReason(text, parsed);
        }
    }
  }

  /** While the fetch that a successful save awaits is in flight, the save
      button stays disabled and a second submit is refused; once that fetch
      settles, saving has ended. */
  method SaveLockHeldUntilRefetch(form: CourseInfoSidebar, text: string, parsed: Parsed, fetched: HttpOutcome)
      returns (second: Option<SaveRequest>)
    requires form.FormShown() && !form.isSaving
    requires form.formData.title != Str("") && LevelAllowsSubmit(form.formData.comprehensionLevel)
    modifies form
    ensures second == None
    ensures !form.isSaving
  {
    var first := form.BeginSave();
    var refetch := form.FinishSave(Response(true, text, parsed));
    second := form.BeginSave();
    form.RefetchAfterSaveCompleted(fetched);
  }

  /** After a successful delete, a second delete is refused: the lesson no
      longer counts as existing. */
  method DeleteThenDeleteAgain(form: CourseInfoSidebar, text: string, parsed: Parsed)
    requires form.FormShown()
    modifies form
    ensures form.saveMessage == "没有可删除的课程信息"
  {
    var target := form.BeginDelete(true);
    form.FinishDelete(Response(true, text, parsed));
    var again := form.BeginDelete(true);
    assert again == None;
  }
}
