/**
 * The settings cookie: finding a cookie in the `document.cookie` text,
 * writing one, and turning the stored JSON record into settings and back.
 * `decodeURIComponent`, `encodeURIComponent`, `JSON.parse` and
 * `JSON.stringify` are parameters; `None` from the first three stands for
 * the exception each can throw.
 */
module Cookie {
  import opened Wrappers
  import opened Strings
  import opened Decimal
  import opened JsonValue

  const CookieName := "ahoframe_settings"
  const MaxAgeDays := 30

  datatype Lang = Ja | En

  function LangText(l: Lang): string
  {
    match l
    case Ja => "ja"
    case En => "en"
  }

  /** `StoredSettings`: the language and the five numbers of the form, all finite. */
  datatype Settings = Settings(
    lang: Lang,
    beatInterval: real,
    beatOffset: real,
    fps: real,
    bpm: real,
    frameOffset: real)

  /** `getDefaultForm()`: a fresh copy of `DEFAULT_FORM`. */
  function GetDefaultForm(): (s: Settings)
    ensures s.lang == Ja && s.fps == 30.0 && s.bpm == 176.0
    ensures s.beatInterval == 1.0 && s.beatOffset == 0.0 && s.frameOffset == 0.0
  {
    Settings(Ja, 1.0, 0.0, 30.0, 176.0, 0.0)
  }

  // ---------------------------------------------------------------------
  // getCookie

  /** The name of a `name=value` pair: the text before its first `=`, trimmed. */
  function KeyOf(part: string): string
  {
    Trim(Split(part, '=')[0])
  }

  /** The value of a pair: everything after its first `=`, joined back with `=` and trimmed. */
  function RawValueOf(part: string): string
  {
    Trim(Join(Split(part, '=')[1..], '='))
  }

  /** The decoded value; the empty string counts as no value and a decoding error gives no value. */
  function Decoded(raw: string, decode: string -> Option<string>): (r: Option<string>)
    ensures r.Some? <==> decode(raw).Some? && decode(raw).value != ""
    ensures r.Some? ==> r == decode(raw)
  {
    match decode(raw)
    case None => None
    case Some(v) => if v == "" then None else Some(v)
  }

  /** The value of the first pair named `name`; no later pair is looked at once one is found. */
  function LookupParts(parts: seq<string>, name: string, decode: string -> Option<string>): Option<string>
  {
    if parts == [] then None
    else if KeyOf(parts[0]) == name then Decoded(RawValueOf(parts[0]), decode)
    else LookupParts(parts[1..], name, decode)
  }

  /** What `getCookie(name)` returns when `document.cookie` is `cookie`. */
  function CookieValue(cookie: string, name: string, decode: string -> Option<string>): Option<string>
  {
    LookupParts(Split(cookie, ';'), name, decode)
  }

  /** The `for (const part of parts)` loop of `getCookie`: returns at the first pair whose name matches. */
  method FindPair(parts: seq<string>, name: string, decode: string -> Option<string>) returns (r: Option<string>)
    ensures r == LookupParts(parts, name, decode)
  {
    var i := 0;
    while i < |parts|
      invariant 0 <= i <= |parts|
      invariant LookupParts(parts[i..], name, decode) == LookupParts(parts, name, decode)
    {
      var part := parts[i];
      assert parts[i..][0] == part && parts[i..][1..] == parts[i + 1..];
      var pieces := Split(part, '=');
      if Trim(pieces[0]) == name {
        var decoded := decode(Trim(Join(pieces[1..], '=')));
        if decoded.None? || decoded.value == "" {
          return None;
        }
        return decoded;
      }
      i := i + 1;
    }
    return None;
  }

  /** `getCookie(name)` with `document.cookie` equal to `cookie`. */
  method GetCookie(cookie: string, name: string, decode: string -> Option<string>) returns (r: Option<string>)
    ensures r == CookieValue(cookie, name, decode)
  {
    var parts := Split(cookie, ';');
    r := FindPair(parts, name, decode);
  }

  /** The first pair whose name matches decides the result, whatever follows it. */
  lemma {:induction false} FirstMatchWins(parts: seq<string>, name: string, decode: string -> Option<string>, k: nat)
    requires k < |parts| && KeyOf(parts[k]) == name
    requires forall j :: 0 <= j < k ==> KeyOf(parts[j]) != name
    ensures LookupParts(parts, name, decode) == Decoded(RawValueOf(parts[k]), decode)
  {
    if k > 0 {
      FirstMatchWins(parts[1..], name, decode, k - 1);
    }
  }

  /** With no pair of that name the result is no value. */
  lemma {:induction false} NoMatchIsNone(parts: seq<string>, name: string, decode: string -> Option<string>)
    requires forall j :: 0 <= j < |parts| ==> KeyOf(parts[j]) != name
    ensures LookupParts(parts, name, decode) == None
  {
    if parts != [] {
      NoMatchIsNone(parts[1..], name, decode);
    }
  }

  /** A pair splits at its first `=`: a value that itself holds `=` is kept whole. */
  lemma PairFields(key: string, value: string)
    requires '=' !in key
    ensures KeyOf(key + "=" + value) == Trim(key)
    ensures RawValueOf(key + "=" + value) == Trim(value)
  {
    SplitAtSeparator(key, value, '=');
    assert Split(key + "=" + value, '=')[1..] == Split(value, '=');
    JoinSplit(value, '=');
  }

  /**
   * White space before a name (none for the first pair of `document.cookie`,
   * one space after each `;` for the others) is not part of the name, and
   * holds neither `;` nor `=`.
   */
  lemma SpacedName(ws: string, name: string)
    requires forall k :: 0 <= k < |ws| ==> IsJsSpace(ws[k])
    requires Trimmed(name)
    ensures Trim(ws + name) == name
    ensures ';' !in ws && '=' !in ws
  {
    TrimLeadingSpace(ws, name);
    forall k | 0 <= k < |ws|
      ensures ws[k] != ';' && ws[k] != '='
    {
      assert IsJsSpace(ws[k]);
    }
  }

  /** Joining pieces without `;` and splitting again gives the pieces. */
  lemma CookieParts(before: seq<string>, entry: string, after: seq<string>)
    requires forall j :: 0 <= j < |before| ==> ';' !in before[j]
    requires forall j :: 0 <= j < |after| ==> ';' !in after[j]
    requires ';' !in entry
    ensures var parts := before + [entry] + after;
      && Split(Join(parts, ';'), ';') == parts
      && parts[|before|] == entry
      && forall j :: 0 <= j < |before| ==> parts[j] == before[j]
  {
    var parts := before + [entry] + after;
    forall j | 0 <= j < |parts|
      ensures ';' !in parts[j]
    {
      if j < |before| {
        assert parts[j] == before[j];
      } else if j > |before| {
        assert parts[j] == after[j - |before| - 1];
      }
    }
    SplitJoin(parts, ';');
  }

  /**
   * A pair `name=encoded`, preceded by white space `ws` (none when it is
   * the first pair), among other pairs as `document.cookie` lists them, is
   * found when no earlier pair has that name, and its value is the decoded
   * `encoded`.
   */
  lemma StoredValueReadBack(before: seq<string>, ws: string, name: string, encoded: string, after: seq<string>,
                            decode: string -> Option<string>)
    requires forall j :: 0 <= j < |before| ==> ';' !in before[j] && KeyOf(before[j]) != name
    requires forall j :: 0 <= j < |after| ==> ';' !in after[j]
    requires forall k :: 0 <= k < |ws| ==> IsJsSpace(ws[k])
    requires ';' !in name && '=' !in name && Trimmed(name)
    requires ';' !in encoded
    ensures CookieValue(Join(before + [ws + name + "=" + encoded] + after, ';'), name, decode)
         == Decoded(Trim(encoded), decode)
  {
    var entry := ws + name + "=" + encoded;
    SpacedName(ws, name);
    assert ';' !in entry;
    CookieParts(before, entry, after);
    PairFields(ws + name, encoded);
    FirstMatchWins(before + [entry] + after, name, decode, |before|);
  }

  // ---------------------------------------------------------------------
  // setCookie

  /** The `max-age` attribute: the number of days in seconds. */
  function MaxAgeSeconds(days: int): (r: int)
    ensures r == days * 86400
  {
    days * 24 * 60 * 60
  }

  /** The text `setCookie` assigns to `document.cookie`. */
  function CookieAssignment(name: string, encoded: string, maxAgeDays: int): string
  {
    name + "=" + encoded + "; path=/; max-age=" + IntToString(MaxAgeSeconds(maxAgeDays)) + "; samesite=lax"
  }

  /**
   * The assignment is the pair and three attributes, `;`-separated: the
   * path is the whole site, the age is given in seconds and cross-site
   * requests are lax.
   */
  lemma AssignmentAttributes(name: string, encoded: string, maxAgeDays: int)
    requires ';' !in name && ';' !in encoded
    ensures Split(CookieAssignment(name, encoded, maxAgeDays), ';')
         == [name + "=" + encoded, " path=/", " max-age=" + IntToString(MaxAgeSeconds(maxAgeDays)), " samesite=lax"]
  {
    var pair := name + "=" + encoded;
    var digits := IntToString(MaxAgeSeconds(maxAgeDays));
    var age := " max-age=" + digits;
    assert ';' !in digits by {
      forall k | 0 <= k < |digits|
        ensures digits[k] != ';'
      {
        assert IsIntegerChar(digits[k]);
      }
    }
    assert CookieAssignment(name, encoded, maxAgeDays) == pair + [';'] + " path=/" + [';'] + age + [';'] + " samesite=lax";
    SplitFour(pair, " path=/", age, " samesite=lax", ';');
  }

  /** The settings cookie lives for 30 days, written as 2592000 seconds. */
  lemma SettingsMaxAge()
    ensures IntToString(MaxAgeSeconds(MaxAgeDays)) == "2592000"
  {
    assert MaxAgeSeconds(MaxAgeDays) == 2592000;
    assert NatToString(2) == "2";
    assert NatToString(25) == "25";
    assert NatToString(259) == "259";
    assert NatToString(2592) == "2592";
    assert NatToString(25920) == "25920";
    assert NatToString(259200) == "259200";
  }

  /** The assignment's own pair, read like any cookie text, gives back the decoded value. */
  lemma AssignmentReadBack(name: string, encoded: string, maxAgeDays: int, decode: string -> Option<string>)
    requires ';' !in name && '=' !in name && Trimmed(name) && ';' !in encoded
    ensures CookieValue(CookieAssignment(name, encoded, maxAgeDays), name, decode) == Decoded(Trim(encoded), decode)
  {
    var assignment := CookieAssignment(name, encoded, maxAgeDays);
    var parts := Split(assignment, ';');
    AssignmentAttributes(name, encoded, maxAgeDays);
    JoinSplit(assignment, ';');
    assert parts[0] == "" + name + "=" + encoded;
    assert parts == [] + [parts[0]] + parts[1..];
    StoredValueReadBack([], "", name, encoded, parts[1..], decode);
  }

  /** What the page writes through `document.cookie`, in order. */
  class CookieStore {
    var assignments: seq<string>

    constructor()
      ensures assignments == []
    {
      assignments := [];
    }

    /** `setCookie`: an encoding error is swallowed and nothing is written. */
    method SetCookie(name: string, value: string, maxAgeDays: int, encode: string -> Option<string>)
      modifies this
      ensures encode(value).None? ==> assignments == old(assignments)
      ensures encode(value).Some? ==>
        assignments == old(assignments) + [CookieAssignment(name, encode(value).value, maxAgeDays)]
    {
      var encoded := encode(value);
      if encoded.Some? {
        assignments := assignments + [CookieAssignment(name, encoded.value, maxAgeDays)];
      }
    }

    /** `writeSettings`: the record as JSON text, under the settings cookie name, for 30 days. */
    method WriteSettings(s: Settings, stringify: Json -> string, encode: string -> Option<string>)
      modifies this
      ensures encode(stringify(SettingsJson(s))).None? ==> assignments == old(assignments)
      ensures encode(stringify(SettingsJson(s))).Some? ==>
        assignments == old(assignments)
          + [CookieAssignment(CookieName, encode(stringify(SettingsJson(s))).value, MaxAgeDays)]
    {
      var value := stringify(SettingsJson(s));
      SetCookie(CookieName, value, MaxAgeDays, encode);
    }
  }

  // ---------------------------------------------------------------------
  // readSettings and writeSettings

  /** `isFiniteNumber`: a number other than `NaN` and the infinities. */
  predicate IsFiniteNumber(x: Option<Json>)
  {
    x.Some? && x.value.JNum? && x.value.n.Finite?
  }

  /** `isValidLang`: exactly the string `ja` or `en`. */
  predicate IsValidLang(x: Option<Json>)
  {
    x.Some? && x.value.JStr? && (x.value.s == "ja" || x.value.s == "en")
  }

  /** `isRecord`: an object that is neither `null` nor an array. */
  predicate IsRecord(j: Json)
  {
    j.JObj?
  }

  function NumberOf(x: Option<Json>): real
    requires IsFiniteNumber(x)
  {
    x.value.n.value
  }

  function LangOf(x: Option<Json>): (l: Lang)
    requires IsValidLang(x)
    ensures LangText(l) == x.value.s
  {
    if x.value.s == "ja" then Ja else En
  }

  /** The six fields that `readSettings` reads. */
  const SettingsKeys: set<string> := {"lang", "beatInterval", "beatOffset", "fps", "bpm", "frameOffset"}

  /**
   * The checks of `readSettings` on the parsed value: a record whose five
   * numbers are all finite numbers and whose `lang` is `ja` or `en`; any
   * one failing rejects the whole record. On success exactly the six
   * fields are copied.
   */
  function ValidateSettings(parsed: Json): (r: Option<Settings>)
    ensures r.Some? <==>
      && IsRecord(parsed)
      && IsFiniteNumber(Property(parsed, "beatInterval"))
      && IsFiniteNumber(Property(parsed, "beatOffset"))
      && IsFiniteNumber(Property(parsed, "fps"))
      && IsFiniteNumber(Property(parsed, "bpm"))
      && IsFiniteNumber(Property(parsed, "frameOffset"))
      && IsValidLang(Property(parsed, "lang"))
    ensures r.Some? ==>
      && JStr(LangText(r.value.lang)) == parsed.fields["lang"]
      && JNum(Finite(r.value.beatInterval)) == parsed.fields["beatInterval"]
      && JNum(Finite(r.value.beatOffset)) == parsed.fields["beatOffset"]
      && JNum(Finite(r.value.fps)) == parsed.fields["fps"]
      && JNum(Finite(r.value.bpm)) == parsed.fields["bpm"]
      && JNum(Finite(r.value.frameOffset)) == parsed.fields["frameOffset"]
  {
    if !IsRecord(parsed) then None
    else
      var beatInterval := Property(parsed, "beatInterval");
      var beatOffset := Property(parsed, "beatOffset");
      var fps := Property(parsed, "fps");
      var bpm := Property(parsed, "bpm");
      var frameOffset := Property(parsed, "frameOffset");
      var lang := Property(parsed, "lang");
      if !IsFiniteNumber(beatInterval) || !IsFiniteNumber(beatOffset) || !IsFiniteNumber(fps)
         || !IsFiniteNumber(bpm) || !IsFiniteNumber(frameOffset) || !IsValidLang(lang) then
        None
      else
        Some(Settings(LangOf(lang), NumberOf(beatInterval), NumberOf(beatOffset), NumberOf(fps),
                      NumberOf(bpm), NumberOf(frameOffset)))
  }

  /** `readSettings` given what `getCookie` returned: no value or the empty string, a parse error and a failed check all give no settings. */
  function ReadSettingsFrom(raw: Option<string>, parse: string -> Option<Json>): Option<Settings>
  {
    if raw.None? || raw.value == "" then None
    else
      match parse(raw.value)
      case None => None
      case Some(parsed) => ValidateSettings(parsed)
  }

  /** `readSettings()` with `document.cookie` equal to `cookie`. */
  method ReadSettings(cookie: string, decode: string -> Option<string>, parse: string -> Option<Json>)
    returns (r: Option<Settings>)
    ensures r == ReadSettingsFrom(CookieValue(cookie, CookieName, decode), parse)
    ensures r.Some? ==> CookieValue(cookie, CookieName, decode).Some?
  {
    var raw := GetCookie(cookie, CookieName, decode);
    if raw.None? || raw.value == "" {
      return None;
    }
    var parsed := parse(raw.value);
    if parsed.None? {
      return None;
    }
    r := ValidateSettings(parsed.value);
  }

  /** The record `writeSettings` serialises: the six fields under their own names, nothing else. */
  function SettingsJson(s: Settings): (j: Json)
    ensures j.JObj? && j.fields.Keys == SettingsKeys
  {
    JObj(map[
      "beatInterval" := JNum(Finite(s.beatInterval)),
      "beatOffset" := JNum(Finite(s.beatOffset)),
      "fps" := JNum(Finite(s.fps)),
      "bpm" := JNum(Finite(s.bpm)),
      "frameOffset" := JNum(Finite(s.frameOffset)),
      "lang" := JStr(LangText(s.lang))])
  }

  /** Checking the record `writeSettings` serialises gives back the same settings. */
  lemma SettingsJsonRoundTrip(s: Settings)
    ensures ValidateSettings(SettingsJson(s)) == Some(s)
  {
    var r := ValidateSettings(SettingsJson(s));
    assert r.Some?;
    assert LangText(r.value.lang) == LangText(s.lang);
    assert r.value.lang == s.lang;
  }

  /** Fields other than the six do not affect the result: extra fields are ignored and not copied. */
  lemma ExtraFieldsIgnored(fields: map<string, Json>, key: string, v: Json)
    requires key !in SettingsKeys
    ensures ValidateSettings(JObj(fields[key := v])) == ValidateSettings(JObj(fields))
  {
    var a, b := JObj(fields[key := v]), JObj(fields);
    forall k | k in SettingsKeys
      ensures Property(a, k) == Property(b, k)
    {
    }
    assert Property(a, "lang") == Property(b, "lang");
    assert Property(a, "fps") == Property(b, "fps");
  }

  /**
   * Settings written to the cookie are read back unchanged, given that
   * parsing undoes printing, decoding undoes encoding, and the encoded
   * text holds no `;` and no surrounding space (as `encodeURIComponent`
   * guarantees).
   */
  lemma WrittenSettingsReadBack(s: Settings, before: seq<string>, ws: string, encoded: string, after: seq<string>,
                                stringify: Json -> string, parse: string -> Option<Json>,
                                decode: string -> Option<string>)
    requires forall j :: 0 <= j < |before| ==> ';' !in before[j] && KeyOf(before[j]) != CookieName
    requires forall j :: 0 <= j < |after| ==> ';' !in after[j]
    requires forall k :: 0 <= k < |ws| ==> IsJsSpace(ws[k])
    requires ';' !in encoded && Trimmed(encoded)
    requires decode(encoded) == Some(stringify(SettingsJson(s))) && stringify(SettingsJson(s)) != ""
    requires parse(stringify(SettingsJson(s))) == Some(SettingsJson(s))
    ensures ReadSettingsFrom(CookieValue(Join(before + [ws + CookieName + "=" + encoded] + after, ';'),
                                         CookieName, decode), parse) == Some(s)
  {
    var text := stringify(SettingsJson(s));
    var cookie := Join(before + [ws + CookieName + "=" + encoded] + after, ';');
    assert CookieValue(cookie, CookieName, decode) == Some(text) by {
      CookieNameIsPlain();
      StoredValueReadBack(before, ws, CookieName, encoded, after, decode);
    }
    ParsedSettings(text, parse, s);
  }

  /** The cookie name needs no quoting: no `;`, no `=`, no surrounding space. */
  lemma CookieNameIsPlain()
    ensures ';' !in CookieName && '=' !in CookieName && Trimmed(CookieName)
  {
    forall k | 0 <= k < |CookieName|
      ensures CookieName[k] != ';' && CookieName[k] != '='
    {
      assert 'a' <= CookieName[k] <= 'z' || CookieName[k] == '_';
    }
  }

  /** Text that parses to the record of `s` is read as `s`. */
  lemma ParsedSettings(text: string, parse: string -> Option<Json>, s: Settings)
    requires text != "" && parse(text) == Some(SettingsJson(s))
    ensures ReadSettingsFrom(Some(text), parse) == Some(s)
  {
    SettingsJsonRoundTrip(s);
  }
}
