/**
 * The page: the table of beats and frames, the script download, the
 * settings it starts from and the state it keeps. Numbers are exact reals
 * here; `parseFloat`, `String` on numbers and the cookie functions are
 * parameters.
 */
module App {
  import opened Wrappers
  import opened Strings
  import opened Decimal
  import opened JsonValue
  import opened Cookie
  import opened DownloadScript
  import opened DownloadText

  /** The table always has this many rows. */
  const RowCount := 512

  // ---------------------------------------------------------------------
  // Form input

  /** `parseNum`: the number read from the text when it is finite, otherwise the previous value. */
  function ParseNum(value: string, fallback: real, parseFloat: string -> Num): (r: real)
    ensures parseFloat(value).Finite? ==> r == parseFloat(value).value
    ensures parseFloat(value).NonFinite? ==> r == fallback
  {
    match parseFloat(value)
    case Finite(n) => n
    case NonFinite => fallback
  }

  /** The five numeric inputs of the form. */
  datatype NumberField = BeatInterval | BeatOffset | Fps | Bpm | FrameOffset

  function FieldValue(s: Settings, f: NumberField): real
  {
    match f
    case BeatInterval => s.beatInterval
    case BeatOffset => s.beatOffset
    case Fps => s.fps
    case Bpm => s.bpm
    case FrameOffset => s.frameOffset
  }

  /** The settings with one number replaced; the language and the other four stay. */
  function WithField(s: Settings, f: NumberField, v: real): (r: Settings)
    ensures FieldValue(r, f) == v
    ensures r.lang == s.lang
    ensures forall g :: g != f ==> FieldValue(r, g) == FieldValue(s, g)
  {
    match f
    case BeatInterval => s.(beatInterval := v)
    case BeatOffset => s.(beatOffset := v)
    case Fps => s.(fps := v)
    case Bpm => s.(bpm := v)
    case FrameOffset => s.(frameOffset := v)
  }

  // ---------------------------------------------------------------------
  // The table

  /** `bpm || 1`: a zero tempo is read as 1; any other value, negative ones included, is kept. */
  function EffectiveBpm(bpm: real): (r: real)
    ensures r != 0.0
    ensures bpm != 0.0 ==> r == bpm
    ensures bpm == 0.0 ==> r == 1.0
  {
    if bpm == 0.0 then 1.0 else bpm
  }

  /** `Math.round`: the integer nearest to `x`, halves rounded up. */
  function JsRound(x: real): (r: int)
    ensures x - 0.5 < r as real <= x + 0.5
  {
    (x + 0.5).Floor
  }

  /** Rounding keeps order. */
  lemma JsRoundMonotone(x: real, y: real)
    requires x <= y
    ensures JsRound(x) <= JsRound(y)
  {
  }

  /** The beat of row `x`: the row number times the interval, plus the offset. */
  function Beat(s: Settings, x: int): real
  {
    x as real * s.beatInterval + s.beatOffset
  }

  /** The exact frame of row `x`: frames per beat at the tempo, times the beat, plus the frame offset. */
  function ExactFrame(s: Settings, x: int): real
  {
    FramesPerBeat(s) * Beat(s, x) + s.frameOffset
  }

  /**
   * One row of the table: the beat, the text of the whole-frame cell, the
   * frame rounded to hundredths (as a number, not its cell text) and the
   * whole frame.
   */
  datatype Row = Row(beat: real, frameInt: string, frameDec: real, frameIntNum: int)

  /**
   * Row `x`: its beat, its frame rounded to a whole frame, and its frame
   * rounded to hundredths.
   */
  function RowAt(s: Settings, x: int): (row: Row)
    ensures row.beat == Beat(s, x)
    ensures ExactFrame(s, x) - 0.5 < row.frameIntNum as real <= ExactFrame(s, x) + 0.5
    ensures ExactFrame(s, x) - 0.005 < row.frameDec <= ExactFrame(s, x) + 0.005
    ensures (row.frameDec * 100.0).Floor as real == row.frameDec * 100.0
    ensures row.frameInt == IntToString(row.frameIntNum) + " f"
  {
    var frame := ExactFrame(s, x);
    var frameIntNum := JsRound(frame * 1.0) / 1;
    Row(Beat(s, x), IntToString(frameIntNum) + " f", JsRound(frame * 100.0) as real / 100.0, frameIntNum)
  }

  /** The body of the table loop: row `x` computed step by step. */
  method ComputeRow(s: Settings, x: int) returns (row: Row)
    ensures row == RowAt(s, x)
  {
    var beat := x as real * s.beatInterval + s.beatOffset;
    var frame := ((60.0 * s.fps) / EffectiveBpm(s.bpm)) * beat + s.frameOffset;
    var frameIntNum := JsRound(frame * 1.0) / 1;
    var frameDec := JsRound(frame * 100.0) as real / 100.0;
    assert beat == Beat(s, x) && frame == ExactFrame(s, x);
    row := Row(beat, IntToString(frameIntNum) + " f", frameDec, frameIntNum);
  }

  /** The loop that builds the table: one row for each of the 512 row numbers, in order. */
  method ComputeRows(s: Settings) returns (rows: seq<Row>)
    ensures |rows| == RowCount
    ensures forall x :: 0 <= x < RowCount ==> rows[x] == RowAt(s, x)
  {
    var result: seq<Row> := [];
    for x := 0 to RowCount
      invariant |result| == x
      invariant forall k :: 0 <= k < x ==> result[k] == RowAt(s, k)
    {
      var row := ComputeRow(s, x);
      result := result + [row];
    }
    rows := result;
  }

  /** With a positive interval the beats strictly increase down the table. */
  lemma BeatsIncreasing(s: Settings, i: int, j: int)
    requires s.beatInterval > 0.0 && i < j
    ensures RowAt(s, i).beat < RowAt(s, j).beat
  {
    assert Beat(s, j) - Beat(s, i) == (j - i) as real * s.beatInterval;
  }

  /**
   * With a positive interval, a positive frame rate and a tempo that is
   * positive or zero, the whole frames never decrease down the table.
   */
  lemma FramesNonDecreasing(s: Settings, i: int, j: int)
    requires s.beatInterval > 0.0 && s.fps > 0.0 && s.bpm >= 0.0 && i <= j
    ensures RowAt(s, i).frameIntNum <= RowAt(s, j).frameIntNum
  {
    ExactFramesNonDecreasing(s, i, j);
    JsRoundMonotone(ExactFrame(s, i), ExactFrame(s, j));
  }

  /** Under the same conditions the exact frames never decrease. */
  lemma ExactFramesNonDecreasing(s: Settings, i: int, j: int)
    requires s.beatInterval > 0.0 && s.fps > 0.0 && s.bpm >= 0.0 && i <= j
    ensures ExactFrame(s, i) <= ExactFrame(s, j)
  {
    BeatsNonDecreasing(s, i, j);
    ScaleMonotone(FramesPerBeat(s), Beat(s, i), Beat(s, j), s.frameOffset, ExactFrame(s, i), ExactFrame(s, j));
  }

  /** With a positive interval a later row's beat is never earlier. */
  lemma BeatsNonDecreasing(s: Settings, i: int, j: int)
    requires s.beatInterval > 0.0 && i <= j
    ensures Beat(s, i) <= Beat(s, j)
  {
    if i < j {
      BeatsIncreasing(s, i, j);
    }
  }

  /** Frames per beat at the form's frame rate and tempo. */
  function FramesPerBeat(s: Settings): (k: real)
    ensures s.fps > 0.0 && s.bpm >= 0.0 ==> k > 0.0
  {
    var b := EffectiveBpm(s.bpm);
    var n := 60.0 * s.fps;
    assert s.fps > 0.0 && s.bpm >= 0.0 ==> b > 0.0 && n > 0.0;
    n / b
  }

  /** Scaling by a positive factor and then shifting keeps order. */
  lemma ScaleMonotone(k: real, a: real, b: real, c: real, fa: real, fb: real)
    requires k > 0.0 && a <= b
    requires fa == k * a + c && fb == k * b + c
    ensures fa <= fb
  {
    assert k * b - k * a == k * (b - a);
  }

  /** A tempo of 0 gives the same table as a tempo of 1. */
  lemma BpmZeroLikeOne(s: Settings, x: int)
    ensures RowAt(s.(bpm := 0.0), x) == RowAt(s.(bpm := 1.0), x)
  {
    assert ExactFrame(s.(bpm := 0.0), x) == ExactFrame(s.(bpm := 1.0), x);
  }

  // ---------------------------------------------------------------------
  // The script download

  /** `rows.map((row) => row.frameIntNum)`. */
  function ScriptFrames(rows: seq<Row>): (frames: seq<int>)
    ensures |frames| == |rows|
    ensures forall i :: 0 <= i < |rows| ==> frames[i] == rows[i].frameIntNum
  {
    seq(|rows|, i requires 0 <= i < |rows| => rows[i].frameIntNum)
  }

  /** The whole frames of the 512 rows, in order. */
  function RoundedFrames(s: Settings): (frames: seq<int>)
    ensures |frames| == RowCount
    ensures forall x :: 0 <= x < RowCount ==> frames[x] == RowAt(s, x).frameIntNum
  {
    seq(RowCount, x => RowAt(s, x).frameIntNum)
  }

  /**
   * `handleDownloadScript`: the script for the table's whole frames at the
   * form's frame rate (`fpsText` being its `String(fps)`), saved as
   * `AddKeyframes.jsx`. The frames written into the script read back as
   * the table's 512 whole frames.
   */
  method HandleDownloadScript(s: Settings, numberText: real -> string) returns (script: string, name: string)
    ensures script == GenerateJsxScript(RoundedFrames(s), numberText(s.fps))
    ensures ExtractTimes(script) == Some(RoundedFrames(s))
    ensures name == "AddKeyframes.jsx"
  {
    var rows := ComputeRows(s);
    var frames := ScriptFrames(rows);
    assert frames == RoundedFrames(s);
    script := GenerateJsxScript(frames, numberText(s.fps));
    ScriptRoundTrip(frames, numberText(s.fps));
    name := DownloadName("AddKeyframes", "jsx");
    ScriptFileName();
  }

  // ---------------------------------------------------------------------
  // The initial form

  /** The form the page starts with: the stored settings when they read back, otherwise the defaults. */
  function InitialForm(raw: Option<string>, parse: string -> Option<Json>): (s: Settings)
    ensures ReadSettingsFrom(raw, parse).Some? ==> s == ReadSettingsFrom(raw, parse).value
    ensures ReadSettingsFrom(raw, parse).None? ==> s == GetDefaultForm()
  {
    match ReadSettingsFrom(raw, parse)
    case Some(stored) => stored
    case None => GetDefaultForm()
  }

  /** `getInitialForm()` with `document.cookie` equal to `cookie`. */
  method GetInitialForm(cookie: string, decode: string -> Option<string>, parse: string -> Option<Json>)
    returns (s: Settings)
    ensures s == InitialForm(CookieValue(cookie, CookieName, decode), parse)
  {
    var stored := ReadSettings(cookie, decode, parse);
    if stored.Some? {
      return stored.value;
    }
    return GetDefaultForm();
  }

  /** Settings the page wrote are the form it starts with next time (under the conditions of `WrittenSettingsReadBack`). */
  lemma InitialFormRestoresWritten(s: Settings, before: seq<string>, ws: string, encoded: string, after: seq<string>,
                                   stringify: Json -> string, parse: string -> Option<Json>,
                                   decode: string -> Option<string>)
    requires forall j :: 0 <= j < |before| ==> ';' !in before[j] && KeyOf(before[j]) != CookieName
    requires forall j :: 0 <= j < |after| ==> ';' !in after[j]
    requires forall k :: 0 <= k < |ws| ==> IsJsSpace(ws[k])
    requires ';' !in encoded && Trimmed(encoded)
    requires decode(encoded) == Some(stringify(SettingsJson(s))) && stringify(SettingsJson(s)) != ""
    requires parse(stringify(SettingsJson(s))) == Some(SettingsJson(s))
    ensures InitialForm(CookieValue(Join(before + [ws + CookieName + "=" + encoded] + after, ';'),
                                    CookieName, decode), parse) == s
  {
    WrittenSettingsReadBack(s, before, ws, encoded, after, stringify, parse, decode);
  }

  /** Without a settings cookie the page starts from the defaults. */
  lemma NoCookieGivesDefaults(cookie: string, decode: string -> Option<string>, parse: string -> Option<Json>)
    requires forall j :: 0 <= j < |Split(cookie, ';')| ==> KeyOf(Split(cookie, ';')[j]) != CookieName
    ensures InitialForm(CookieValue(cookie, CookieName, decode), parse) == GetDefaultForm()
  {
    NoMatchIsNone(Split(cookie, ';'), CookieName, decode);
    NoValueGivesDefaults(CookieValue(cookie, CookieName, decode), parse);
  }

  /** No cookie value gives the defaults. */
  lemma NoValueGivesDefaults(raw: Option<string>, parse: string -> Option<Json>)
    requires raw.None?
    ensures InitialForm(raw, parse) == GetDefaultForm()
  {
  }

  // ---------------------------------------------------------------------
  // The page state

  /** The values the settings effect depends on. */
  datatype Deps = Deps(beatInterval: real, beatOffset: real, fps: real, bpm: real, frameOffset: real,
                       language: string)

  function DepsOf(s: Settings, language: string): Deps
  {
    Deps(s.beatInterval, s.beatOffset, s.fps, s.bpm, s.frameOffset, language)
  }

  /** The language the effect stores: the current i18n language when it is `ja` or `en`, otherwise `ja`. */
  function EffectLang(language: string): (l: Lang)
    ensures language == "en" <==> l == En
  {
    if language == "ja" then Ja else if language == "en" then En else Ja
  }

  /** The record the effect writes. */
  function EffectRecord(s: Settings, language: string): (r: Settings)
    ensures r.lang == EffectLang(language)
    ensures DepsOf(r, language) == DepsOf(s, language)
    ensures language == LangText(s.lang) ==> r == s
  {
    s.(lang := EffectLang(language))
  }

  /**
   * The state of the `App` component: the form values, the language i18n
   * is set to, the `isFirstWrite` ref, the dependencies of the last run
   * of the settings effect, and the records handed to `writeSettings`.
   */
  class Page {
    var form: Settings
    var language: string
    var isFirstWrite: bool
    var lastDeps: Option<Deps>
    var written: seq<Settings>

    /** Mounting with the initial form while i18n is at `i18nLanguage`. */
    constructor(initial: Settings, i18nLanguage: string)
      ensures form == initial && language == i18nLanguage
      ensures isFirstWrite && lastDeps == None && written == []
    {
      form := initial;
      language := i18nLanguage;
      isFirstWrite := true;
      lastDeps := None;
      written := [];
    }

    /** The language check at every render: i18n is switched to the form's language when it differs. */
    method Render()
      modifies this
      ensures language == LangText(form.lang)
      ensures form == old(form) && isFirstWrite == old(isFirstWrite)
      ensures lastDeps == old(lastDeps) && written == old(written)
    {
      if language != LangText(form.lang) {
        language := LangText(form.lang);
      }
    }

    /** The body of the settings effect: the first run only clears the flag; later runs write the form. */
    method WriteEffect()
      modifies this
      ensures !isFirstWrite
      ensures old(isFirstWrite) ==> written == old(written)
      ensures !old(isFirstWrite) ==> written == old(written) + [EffectRecord(form, language)]
      ensures form == old(form) && language == old(language) && lastDeps == old(lastDeps)
    {
      if isFirstWrite {
        isFirstWrite := false;
        return;
      }
      var lang := EffectLang(language);
      written := written + [form.(lang := lang)];
    }

    /** After a render is committed the effect runs when it never ran or a dependency changed. */
    method Commit()
      modifies this
      ensures lastDeps == Some(DepsOf(form, language))
      ensures old(lastDeps) == Some(DepsOf(old(form), old(language))) ==>
        written == old(written) && isFirstWrite == old(isFirstWrite)
      ensures old(lastDeps) != Some(DepsOf(old(form), old(language))) ==>
        && !isFirstWrite
        && (old(isFirstWrite) ==> written == old(written))
        && (!old(isFirstWrite) ==> written == old(written) + [EffectRecord(form, language)])
      ensures form == old(form) && language == old(language)
    {
      var deps := DepsOf(form, language);
      if lastDeps != Some(deps) {
        lastDeps := Some(deps);
        WriteEffect();
      }
    }

    /** The change handler of a numeric field: the text's number when finite, otherwise the old value. */
    method Edit(field: NumberField, text: string, parseFloat: string -> Num)
      modifies this
      ensures form == WithField(old(form), field, ParseNum(text, FieldValue(old(form), field), parseFloat))
      ensures language == old(language) && isFirstWrite == old(isFirstWrite)
      ensures lastDeps == old(lastDeps) && written == old(written)
    {
      form := WithField(form, field, ParseNum(text, FieldValue(form, field), parseFloat));
    }

    /**
     * `handleChangeLanguage`: `ja` and `en` switch the form and i18n and
     * write the settings at once; any other value changes nothing.
     */
    method ChangeLanguage(value: string)
      modifies this
      ensures value != "ja" && value != "en" ==>
        form == old(form) && language == old(language) && written == old(written)
      ensures value == "ja" || value == "en" ==>
        && form == old(form).(lang := if value == "ja" then Ja else En)
        && language == value
        && written == old(written) + [form]
      ensures isFirstWrite == old(isFirstWrite) && lastDeps == old(lastDeps)
    {
      if value == "ja" || value == "en" {
        var newLang := if value == "ja" then Ja else En;
        form := form.(lang := newLang);
        language := value;
        written := written + [form];
      }
    }
  }

  /**
   * Mounting writes nothing; editing the frame rate afterwards writes the
   * edited settings once if the value changed, and nothing if it did not.
   */
  method MountThenEditFps(initial: Settings, text: string, parseFloat: string -> Num)
    returns (afterMount: seq<Settings>, afterEdit: seq<Settings>)
    ensures afterMount == []
    ensures var edited := WithField(initial, Fps, ParseNum(text, initial.fps, parseFloat));
      afterEdit == if edited.fps == initial.fps then [] else [edited]
  {
    var page := new Page(initial, "ja");
    page.Render();
    page.Commit();
    afterMount := page.written;
    page.Edit(Fps, text, parseFloat);
    page.Render();
    page.Commit();
    afterEdit := page.written;
  }
}
