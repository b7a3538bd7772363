# aho-frame, modelled in Dafny

aho-frame is a single-page tool for After Effects users. From a beat
interval, a beat offset, a frame rate, a tempo (BPM) and a frame offset,
it builds a table of 512 beats. Each row shows the beat, its frame
rounded to a whole frame and its frame rounded to hundredths. The page
can download an After Effects script (`AddKeyframes.jsx`) that puts a
keyframe at each of those whole frames. It remembers the form and the
interface language in a cookie, `ahoframe_settings`, for 30 days.

This project models that core in Dafny:

- `Strings` (`strings.dfy`): the JavaScript string operations the page relies on. These are `split`/`join` on one character, `indexOf`, `replace` with a string pattern, `endsWith` and `trim`.
- `Decimal` (`decimal.dfy`): `String(n)` for integers and the integer form of a JSON number token.
- `Timecode` (`timecode.dfy`): `formatTimecode`.
- `DownloadScript` (`download_script.dfy`): the script template, character for character, and `generateJsxScript`.
- `JsonValue` (`json.dfy`): JSON values as `JSON.parse` returns them.
- `Cookie` (`cookie.dfy`): `getCookie`, `setCookie`, `readSettings`, `writeSettings` and the defaults.
- `App` (`app.dfy`): `parseNum`, the row loop, the script download, `getInitialForm`, and the component's state as the class `Page`. The state covers the form, the i18n language, the `isFirstWrite` ref, the settings effect and the language handler.
- `DownloadText` (`download_text.dfy`): the download file name.
- `NumericTextInput` (`numeric_text_input.dfy`): the arrow-key stepping of the numeric text field.

Several things outside the model are parameters:

- `decodeURIComponent`, `encodeURIComponent`, `JSON.parse` and `parseFloat` are function parameters. `None` stands for the exception the first three can throw.
- `JSON.stringify` and `String` on non-integer numbers are function parameters too.
- The browser's `document.cookie` is a parameter. For reads it is the cookie text; for writes it is the list of assignments made, the field of `Cookie.CookieStore`.

Numbers are exact: the form's numbers are `real` and the whole frames are `int`.

## Model

| member | source | states |
|---|---|---|
| Strings.Split | src/cookie.ts:24 | `s.split(sep)` on one character: at least one piece, and no piece contains the separator; its inverse is `Join` (see `JoinSplit`, `SplitJoin`). |
| Strings.Join | src/cookie.ts:28 | `parts.join(sep)`: no contract of its own; `JoinSplit` and `SplitJoin` prove it inverse to `Split`. |
| Strings.JoinSplit | src/cookie.ts:26-28 | Re-joining with `=` every piece after the first split gives the value back whole, so a value containing `=` is not cut. |
| Strings.SplitJoin | src/cookie.ts:24 | Splitting a `;`-join of pieces without `;` gives back the pieces. |
| Strings.IndexOf | src/downloadScript.ts:42-45 | The first index at which the pattern occurs, or none when it occurs nowhere. |
| Strings.ReplaceAfterFree | src/downloadScript.ts:42-45 | `replace` with a string pattern replaces the first occurrence only and keeps the text around it. |
| Strings.ReplaceFirst | src/downloadScript.ts:42-45 | `s.replace(p, rep)` with a string pattern: no contract of its own; `ReplaceAfterFree` states that the first occurrence is replaced and the text around it kept, built on the first-occurrence contract of `IndexOf`. |
| Strings.EndsWith | src/downloadText.ts:6 | `s.endsWith(suffix)`: no contract of its own; `DownloadText.DownloadName` states its use. |
| Strings.Trim | src/cookie.ts:27-28 | The trimmed text has no white space at either end, is no longer than the input, and a text already trimmed is unchanged. |
| Strings.TrimKeepsInner | src/cookie.ts:27-28 | Trimming removes only white space at the two ends: the result is one contiguous piece of the input, with only white space before and after it. |
| Strings.TrimLeadingSpace | src/cookie.ts:27 | Leading white space (as after `; ` in a cookie string) does not change the trimmed key. |
| Decimal.NatToStringValue | src/formatTimecode.ts:2 | The decimal digits printed for a natural number denote that number. |
| Decimal.ParseIntToString | src/downloadScript.ts:44 | An integer printed by `String` reads back as the same integer. |
| Decimal.IntToString | src/App.tsx:101 | `String(n)` for an integer (also `JSON.stringify` of an integer and `pad`'s `String`): non-empty, only digits and `-`, and a leading `-` exactly for negatives; `ParseIntToString` proves it reads back. |
| Timecode.JsRem | src/formatTimecode.ts:6-7 | JavaScript `%`: the remainder lies strictly between `-b` and `b`, takes the sign of the dividend, and differs from it by a multiple of `b`. |
| Timecode.Pad | src/formatTimecode.ts:2 | A field is all digits and at least two long: exactly two below 10, otherwise as long as the magnitude's own digits, so nothing is cut. |
| Timecode.PadValue | src/formatTimecode.ts:2 | The padded digits still denote the magnitude of the number. |
| Timecode.Components | src/formatTimecode.ts:3-7 | The leftover frames lie in `0 .. fps-1` and the count minus them is a whole number of seconds. |
| Timecode.Render | src/formatTimecode.ts:8 | The output contains no `-` and is at least 11 characters long. |
| Timecode.FormatTimecode | src/formatTimecode.ts:1-9 | `formatTimecode`: no contract of its own, it is `Render(Components(..))`; `FormatFields`, `ComponentsInRange`, `TimecodeRoundTrip` and the example lemmas state its properties. |
| Timecode.FormatFields | src/formatTimecode.ts:1-9 | The output is exactly four `:`-separated fields of at least two digits each, holding the magnitudes of hours, minutes, seconds and frames; hours are not reduced modulo 24. |
| Timecode.ComponentsInRange | src/formatTimecode.ts:3-7 | For a count of 0 or more: minutes and seconds in 0..59, frames in 0..fps-1, and the fields denote the count. |
| Timecode.TimecodeRoundTrip | src/formatTimecode.ts:1-9 | For a count of 0 or more, reading the timecode back gives the count. |
| Timecode.FormatExample95 | src/formatTimecode.ts:1-9 | 95 frames at 30 fps is `00:00:03:05`. |
| Timecode.FormatExampleZero | src/formatTimecode.ts:1-9 | 0 frames at 30 fps is `00:00:00:00`. |
| Timecode.FormatExampleHundredHours | src/formatTimecode.ts:5 | 100 hours prints as `100:00:00:00`. |
| Timecode.NegativeLosesSign | src/formatTimecode.ts:2-7 | -1 frame at 30 fps prints `01:01:01:29`, the same as 3661 s 29 frames: the sign is lost. |
| DownloadScript.PlaceholdersOnce | src/downloadScript.ts:20-21 | The template holds `<TIMES_ARRAY>` exactly once and `<FPS>` exactly once, `<TIMES_ARRAY>` first. |
| DownloadScript.ArrayLiteral | src/downloadScript.ts:44 | `JSON.stringify(frames)` starts with `[`, ends with its only `]`, and has no `<` and no `$`. |
| DownloadScript.ArrayLiteralRoundTrip | src/downloadScript.ts:44 | Parsing the array literal gives the frames back element for element; no frames give `[]`. |
| DownloadScript.GenerateJsxScript | src/downloadScript.ts:41-47 | The script is the template with the array literal at `<TIMES_ARRAY>` and the fps text at `<FPS>`; every other character is kept, in order. Its length is the template's minus 18 plus the two inserted texts. |
| DownloadScript.ScriptRoundTrip | src/downloadScript.ts:41-47 | The frames read back out of any generated script are exactly the frames given. |
| DownloadScript.ScriptLength | src/downloadScript.ts:2-39 | The template is 698 characters, so a script is 680 characters plus the two inserted texts. |
| Cookie.GetDefaultForm | src/cookie.ts:13-20 | The defaults: language `ja`, interval 1, offset 0, 30 fps, 176 BPM, frame offset 0. |
| Cookie.Decoded | src/cookie.ts:28 | A value exists exactly when decoding succeeds with a non-empty text, and it is that text. |
| Cookie.LookupParts | src/cookie.ts:25-34 | The loop of `getCookie` as recursion: no contract of its own; `FirstMatchWins` and `NoMatchIsNone` state that the first pair with the name decides and no such pair gives no value. |
| Cookie.CookieValue | src/cookie.ts:22-35 | `getCookie(name)` for a given cookie text: no contract of its own, it is `LookupParts` of the `;`-split text; `StoredValueReadBack` and `AssignmentReadBack` state what it finds. |
| Cookie.FindPair | src/cookie.ts:25-30 | The loop returns what `LookupParts` specifies: the decoded value of the first pair whose trimmed name matches. |
| Cookie.GetCookie | src/cookie.ts:22-35 | `getCookie` returns the `CookieValue` of the cookie text. |
| Cookie.FirstMatchWins | src/cookie.ts:25-29 | The first pair whose name matches decides the result, even if its value is empty or does not decode. |
| Cookie.NoMatchIsNone | src/cookie.ts:34 | With no pair of that name the result is no value. |
| Cookie.PairFields | src/cookie.ts:26-28 | A pair splits at its first `=`: the key is trimmed, and the value (which may contain `=`) is kept whole and trimmed. |
| Cookie.StoredValueReadBack | src/cookie.ts:22-35 | A pair `name=encoded` among other pairs is found when no earlier pair has that name, and its value is the decoded text. The pair may have any white space before it: none when it is the first pair, one space after a `;`. |
| Cookie.AssignmentAttributes | src/cookie.ts:37-45 | The assignment is `name=encoded`, ` path=/`, ` max-age=` with the days in seconds, and ` samesite=lax`, separated by `;`. |
| Cookie.MaxAgeSeconds | src/cookie.ts:40 | `maxAgeDays * 24 * 60 * 60` is the days times 86400 seconds. |
| Cookie.CookieAssignment | src/cookie.ts:41 | The assignment text: no contract of its own; `AssignmentAttributes` states its four `;`-separated parts and `AssignmentReadBack` that it reads back. |
| Cookie.SettingsMaxAge | src/cookie.ts:2 | The settings cookie's age is written as `2592000` (30 days). |
| Cookie.AssignmentReadBack | src/cookie.ts:37-45 | The assignment's own pair, read as cookie text, gives back the decoded value. |
| Cookie.CookieStore.SetCookie | src/cookie.ts:37-45 | One assignment is appended, or nothing when encoding fails. |
| Cookie.CookieStore.WriteSettings | src/cookie.ts:94-101 | The JSON text of the record is set as the settings cookie for 30 days. |
| Cookie.ValidateSettings | src/cookie.ts:47-57 | `isFiniteNumber`, `isValidLang` and `isRecord`: settings come back exactly when the value is a record whose five numbers are all finite and whose `lang` is `ja` or `en`. Each field is then copied unchanged. |
| Cookie.ReadSettingsFrom | src/cookie.ts:61-91 | `readSettings` after `getCookie`: no contract of its own; `Cookie.ReadSettings`, `ParsedSettings`, `WrittenSettingsReadBack` and `App.NoValueGivesDefaults` state its cases. |
| Cookie.ReadSettings | src/cookie.ts:59-92 | `readSettings` is `ReadSettingsFrom` of the cookie value. There are no settings without a cookie value, for the empty text, on a parse error, or when a check fails. |
| Cookie.SettingsJson | src/cookie.ts:94-96 | The serialised record has exactly the six setting keys. |
| Cookie.SettingsJsonRoundTrip | src/cookie.ts:81-88 | Validating the record `writeSettings` serialises gives back the same settings. |
| Cookie.ExtraFieldsIgnored | src/cookie.ts:65-88 | Keys other than the six do not change the outcome: extras are dropped, never copied. |
| Cookie.WrittenSettingsReadBack | src/cookie.ts:59-101 | Settings written to the cookie are read back unchanged, whether the settings pair comes first or after other pairs, given that parsing undoes printing and decoding undoes encoding. |
| App.ParseNum | src/App.tsx:14-17 | The parsed number when it is finite, otherwise the previous value. |
| App.WithField | src/App.tsx:165-218 | A field edit changes that one number and keeps the language and the other four. |
| App.EffectiveBpm | src/App.tsx:96 | `bpm \|\| 1`: never zero; 0 becomes 1; any other tempo, negative ones included, is used unchanged. |
| App.JsRound | src/App.tsx:97-98 | `Math.round`: the result is the integer in the half-open interval `(x - 1/2, x + 1/2]`. |
| App.JsRoundMonotone | src/App.tsx:97 | Rounding keeps order. |
| App.Beat | src/App.tsx:95 | `x * beatInterval + beatOffset`: no contract of its own; `BeatsIncreasing` and `BeatsNonDecreasing` state its order. |
| App.ExactFrame | src/App.tsx:96 | `((60 * fps) / (bpm \|\| 1)) * beat + frameOffset`: no contract of its own; `RowAt` bounds the rounded frames by it and `ExactFramesNonDecreasing` states its order. |
| App.RowAt | src/App.tsx:95-104 | A row's beat is `x * interval + offset`. Its whole frame is within 1/2 of the exact frame. Its frame in hundredths is a whole number of hundredths within 1/200 of the exact frame, which fixes it as `Math.round(frame * 100) / 100`. The cell text is the whole frame followed by ` f`. |
| App.ComputeRow | src/App.tsx:95-104 | The loop body computes `RowAt`. |
| App.ComputeRows | src/App.tsx:94-106 | There are 512 rows, row `x` being `RowAt(x)`, in order. |
| App.BeatsIncreasing | src/App.tsx:95 | With a positive interval the beats strictly increase down the table. |
| App.BeatsNonDecreasing | src/App.tsx:95 | With a positive interval a later row's beat is never earlier. |
| App.ExactFramesNonDecreasing | src/App.tsx:96 | With a positive interval, positive fps and a tempo of 0 or more, the exact frames never decrease. |
| App.FramesNonDecreasing | src/App.tsx:96-97 | Under the same conditions the whole frames never decrease. |
| App.FramesPerBeat | src/App.tsx:96 | `(60 * fps) / (bpm \|\| 1)` is positive whenever the frame rate is positive and the tempo is not negative. |
| App.BpmZeroLikeOne | src/App.tsx:96 | A tempo of 0 gives the same rows as a tempo of 1. |
| App.ScriptFrames | src/App.tsx:110 | The frames are the rows' whole frames, one per row, in order. |
| App.RoundedFrames | src/App.tsx:94-110 | The 512 whole frames of the table, in order. |
| App.HandleDownloadScript | src/App.tsx:109-113 | The script embeds the table's 512 whole frames, which read back exactly, and it is saved as `AddKeyframes.jsx`. |
| App.InitialForm | src/App.tsx:19-44 | The stored settings when they read back, otherwise the defaults. |
| App.GetInitialForm | src/App.tsx:19-44 | `getInitialForm` is `InitialForm` of the cookie value. |
| App.InitialFormRestoresWritten | src/App.tsx:19-44 | Settings the page wrote are the form it starts with next time, wherever the settings pair stands in the cookie text. |
| App.NoCookieGivesDefaults | src/App.tsx:43 | Without a settings cookie the page starts from the defaults. |
| App.NoValueGivesDefaults | src/App.tsx:43 | No cookie value gives the defaults. |
| App.EffectLang | src/App.tsx:67-68 | The stored language is `en` exactly when i18n is at `en`; otherwise it is `ja`. |
| App.EffectRecord | src/App.tsx:67-76 | The effect writes the form's five numbers with the language `EffectLang` picks from i18n (its own when `ja` or `en`, otherwise `ja`); after the render-time sync this is the form itself. |
| App.Page.constructor | src/App.tsx:48-60 | The page mounts with the initial form, i18n at its own language, `isFirstWrite` set and nothing written. |
| App.Page.Render | src/App.tsx:56-58 | After a render, i18n is at the form's language and nothing else changes. |
| App.Page.WriteEffect | src/App.tsx:61-77 | The first run only clears `isFirstWrite`; later runs append the effect record. |
| App.Page.Commit | src/App.tsx:61-77 | The effect runs when it never ran or a dependency changed, and otherwise nothing is written. |
| App.Page.Edit | src/App.tsx:165-218 | A field's change handler stores `parseNum` of the text with the old value as fallback, and nothing else changes. |
| App.Page.ChangeLanguage | src/App.tsx:115-129 | `ja` and `en` switch the form and i18n and append the new settings; any other value changes nothing. |
| App.MountThenEditFps | src/App.tsx:60-77 | Mounting writes nothing. A later fps edit writes the edited settings once if the value changed, and nothing otherwise. |
| DownloadText.DownloadName | src/downloadText.ts:6-8 | The name always ends with `.ext` and starts with the given name. It equals the given name exactly when that already ends with `.ext`, and is otherwise the given name followed by `.ext`. |
| DownloadText.DownloadNameIdempotent | src/downloadText.ts:6-8 | Naming an already named file changes nothing. |
| DownloadText.ScriptFileName | src/downloadText.ts:4 | With the default extension `jsx`, `AddKeyframes` becomes `AddKeyframes.jsx`. |
| NumericTextInput.CurrentNumber | src/components/NumericTextInput.tsx:21-22 | The number in the field, with unreadable text counting as 0. |
| NumericTextInput.HandleKeyDown | src/components/NumericTextInput.tsx:18-30 | ArrowUp emits the number plus one and ArrowDown minus one, both preventing the default. Any other key does nothing and does not prevent the default. |
| NumericTextInput.HandleChange | src/components/NumericTextInput.tsx:37 | A change hands the raw text on unparsed. |
| NumericTextInput.UpThenDown | src/components/NumericTextInput.tsx:18-30 | ArrowUp then ArrowDown brings back the number shown, when the printed number reads back as itself. |
| NumericTextInput.UnreadableStepsFromZero | src/components/NumericTextInput.tsx:21-22 | Unreadable text steps to 1 and -1. |

## Left out

- `formatTimecode` takes an integer frame count and a positive integer frame rate. Non-integer rates, `fps == 0` and the `Math.round` of line 4 (the identity on integers) are not modelled.
- Timecode.Components: the `Math.round` of the leftover frames is not modelled, because with integer inputs the leftover is already whole.
- Number formatting: `String(fps)` for the script and `String(n)` in the arrow-key handler are parameters. The `${frameDec} f` and `beat` cell texts are not produced: `Row.frameDec` and `Row.beat` hold the numbers.
- Integers are printed in plain decimal wherever JavaScript turns an integer-valued number into text: `JSON.stringify(frames)`, the `${frameIntNum} f` cell and `String` in `pad`. Exponent notation for magnitudes of 10^21 or more, which all three would produce, is not modelled.
- DownloadScript.GenerateJsxScript: `$` patterns in the replacement text are not interpreted. The array literal has no `$` (proved). The fps text is the decimal form of a number and holds none.
- IEEE-754 arithmetic is not modelled: the row arithmetic is exact over the reals, so overflow to Infinity, `NaN` and rounding error are out.
- JSON text: parsing and printing are parameters, and key order in the serialised record is not modelled. Only the round-trip assumption is stated, in the read-back lemmas.
- The cookie jar: how the browser turns assignments into the `document.cookie` text, expiry and the path scope are not modelled. The read-back lemmas take the cookie text as `;`-separated pairs, each preceded by any white space (none for the first pair). A `document.cookie` that throws is not modelled.
- `encodeURIComponent`/`decodeURIComponent`: their escaping is not modelled. The read-back lemmas assume decoding undoes encoding and that the encoded text holds no `;` and no surrounding space.
- The React machinery is not modelled: hooks, memoisation, re-render scheduling, strict-mode double effects and the JSX markup. `console.log`/`console.error`, the Blob, the object URL and the link click are out as well.
- `i18n.ts` is not part of this model; the page's i18n language is a plain field.
- App.Page.Render: `i18n.changeLanguage` takes effect at once; its asynchronous completion is not modelled.
- App.ComputeRows: the rows are recomputed from the form when needed, rather than memoised on the form's five numbers.
