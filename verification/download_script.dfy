/**
 * The After Effects script template and `generateJsxScript`: the frame
 * numbers go in as a JSON array literal at `<TIMES_ARRAY>`, the frame rate
 * as text at `<FPS>`, each by a single first-occurrence `replace`.
 */
module DownloadScript {
  import opened Wrappers
  import opened Strings
  import opened Decimal

  /** Template text in which no placeholder can start. */
  type Plain = s: string | '<' !in s

  // The template, line by line (lines 2 to 38 of the source file); long
  // lines and lines around a placeholder or a `<` are cut in two.

  const Blank: Plain := "\n"

  const Line02: Plain := "// ✓ Add Keyframes\n"
  const Line03: Plain := "app.beginUndoGroup(\"Add Keyframes\");\n"
  const Line05: Plain := "function main() {\n"
  const Line06: Plain := "  var comp = app.project.activeItem;\n"
  const Line07: Plain := "  if (!(comp instanceof CompItem)) {\n"
  const Line08: Plain := "    alert(\"コンポジションを選択してください\");\n"
  const Line09: Plain := "    app.endUndoGroup();\n"
  const Line10: Plain := "    return;\n"
  const Line11: Plain := "  }\n"
  const Line13: Plain := "  var props = comp.selectedProperties;\n"
  const Line14: Plain := "  if (props.length === 0) {\n"
  const Line15: Plain := "    alert(\"プロパティを選択してください\");\n"
  const Line20Start: Plain := "  var times = "
  const Line20End: Plain := "; // seconds\n"
  const Line21Start: Plain := "  var fps = "
  const Line21End: Plain := ";\n"
  const Line23Start: Plain := "  for (var i = 0; i "
  const Line23End: Plain := "props.length; i++) {\n"
  const Line24: Plain := "    var p = props[i];\n"
  const Line26Start: Plain := "    if (p instanceof Property"
  const Line26End: Plain := " && p.canVaryOverTime) {\n"
  const Line27: Plain := "      var v = 0;\n"
  const Line29Start: Plain := "      for (var t = 0; t "
  const Line29End: Plain := "times.length; t++) {\n"
  const Line30Start: Plain := "        p.setValueAtTime("
  const Line30End: Plain := "times[t] / fps, v);\n"
  const Line31: Plain := "      }\n"
  const Line32: Plain := "    }\n"
  const Line34: Plain := "}\n"
  const Line36: Plain := "main();\n"
  const Line38: Plain := "app.endUndoGroup();\n"

  const TimesKey := "<TIMES_ARRAY>"
  const FpsKey := "<FPS>"
  /** The only `<` of the template outside the placeholders, each followed by a space (lines 23 and 29). */
  const Less := "< "

  /** Everything before `<TIMES_ARRAY>`. */
  const Head: Plain :=
    Line02 + Line03 + Blank + Line05 + Line06 + Line07 + Line08 + Line09 + Line10 + Line11
    + Blank + Line13 + Line14 + Line15 + Line09 + Line10 + Line11 + Blank + Line20Start

  /** Everything between `<TIMES_ARRAY>` and `<FPS>`. */
  const Middle: Plain := Line20End + Line21Start

  /** Everything after `<FPS>`, in three `<`-free stretches separated by `Less`. */
  const TailStart: Plain := Line21End + Blank + Line23Start
  const TailMiddle: Plain :=
    Line23End + Line24 + Blank + Line26Start + Line26End + Line27 + Blank + Line29Start
  const TailEnd: Plain :=
    Line29End + Line30Start + Line30End + Line31 + Line32 + Line11 + Line34 + Blank + Line36 + Blank + Line38
  const Tail: string := TailStart + Less + TailMiddle + Less + TailEnd

  /** `ADD_KEYFRAMES_SCRIPT`. */
  const Template: string := Head + TimesKey + Middle + FpsKey + Tail

  /** Where the two placeholders start in the template. */
  const TimesAt: nat := |Head|
  const FpsAt: nat := |Head| + |TimesKey| + |Middle|

  // ---------------------------------------------------------------------
  // The template's placeholders

  /** The shape of the template: two placeholders, then text whose only `<` signs are each followed by a space. */
  function Layout(h: Plain, m: Plain, a: Plain, b: Plain, c: Plain): string
  {
    h + TimesKey + m + FpsKey + (a + Less + b + Less + c)
  }

  /** In that shape every `<` starts a placeholder or is followed by a space. */
  lemma LessSigns(h: Plain, m: Plain, a: Plain, b: Plain, c: Plain, i: int)
    requires 0 <= i < |Layout(h, m, a, b, c)| && Layout(h, m, a, b, c)[i] == '<'
    ensures var s := Layout(h, m, a, b, c);
      || i == |h|
      || i == |h| + |TimesKey| + |m|
      || (i + 1 < |s| && s[i + 1] == ' ')
  {
    var s := Layout(h, m, a, b, c);
    var f := |h| + |TimesKey| + |m|;
    var t1 := f + |FpsKey|;
    var t2 := t1 + |a|;
    var t3 := t2 + |Less| + |b|;
    if i < |h| {
      assert false;
    } else if i < |h| + |TimesKey| {
      assert s[i] == TimesKey[i - |h|];
    } else if i < f {
      assert false;
    } else if i < t1 {
      assert s[i] == FpsKey[i - f];
    } else if i < t2 {
      assert false;
    } else if i < t2 + |Less| {
      assert s[i] == Less[i - t2];
      assert s[i + 1] == Less[i + 1 - t2];
    } else if i < t3 {
      assert false;
    } else if i < t3 + |Less| {
      assert s[i] == Less[i - t3];
      assert s[i + 1] == Less[i + 1 - t3];
    } else {
      assert false;
    }
  }

  /** A string that occurs at `i` supplies the characters at `i` and `i + 1`. */
  lemma OccurrenceStart(s: string, p: string, i: int)
    requires |p| >= 2 && OccursAt(s, p, i)
    ensures s[i] == p[0] && s[i + 1] == p[1]
  {
    assert s[i..i + |p|][0] == s[i] && s[i..i + |p|][1] == s[i + 1];
  }

  /** In that shape each placeholder occurs once, `<TIMES_ARRAY>` first. */
  lemma PlaceholdersOnceIn(h: Plain, m: Plain, a: Plain, b: Plain, c: Plain)
    ensures var s := Layout(h, m, a, b, c);
      && (forall i :: OccursAt(s, TimesKey, i) <==> i == |h|)
      && (forall i :: OccursAt(s, FpsKey, i) <==> i == |h| + |TimesKey| + |m|)
  {
    var s := Layout(h, m, a, b, c);
    var f := |h| + |TimesKey| + |m|;
    assert OccursAt(s, TimesKey, |h|) by {
      assert s == h + TimesKey + (m + FpsKey + (a + Less + b + Less + c));
      assert s[|h|..|h| + |TimesKey|] == TimesKey;
    }
    assert OccursAt(s, FpsKey, f) by {
      assert s == (h + TimesKey + m) + FpsKey + (a + Less + b + Less + c);
      assert s[f..f + |FpsKey|] == FpsKey;
    }
    forall i | OccursAt(s, TimesKey, i)
      ensures i == |h|
    {
      OccurrenceStart(s, TimesKey, i);
      LessSigns(h, m, a, b, c, i);
      if i == f {
        OccurrenceStart(s, FpsKey, i);
      }
    }
    forall i | OccursAt(s, FpsKey, i)
      ensures i == f
    {
      OccurrenceStart(s, FpsKey, i);
      LessSigns(h, m, a, b, c, i);
      if i == |h| {
        OccurrenceStart(s, TimesKey, i);
      }
    }
  }

  /**
   * The template holds `<TIMES_ARRAY>` exactly once and `<FPS>` exactly
   * once, `<TIMES_ARRAY>` first.
   */
  lemma PlaceholdersOnce()
    ensures forall i :: OccursAt(Template, TimesKey, i) <==> i == TimesAt
    ensures forall i :: OccursAt(Template, FpsKey, i) <==> i == FpsAt
    ensures TimesAt < FpsAt
  {
    assert Template == Layout(Head, Middle, TailStart, TailMiddle, TailEnd);
    PlaceholdersOnceIn(Head, Middle, TailStart, TailMiddle, TailEnd);
  }

  // ---------------------------------------------------------------------
  // The frame array literal

  /** `String` of each frame number, in order. */
  function IntStrings(xs: seq<int>): (r: seq<string>)
    ensures |r| == |xs|
    ensures forall i :: 0 <= i < |xs| ==> r[i] == IntToString(xs[i])
  {
    if xs == [] then [] else [IntToString(xs[0])] + IntStrings(xs[1..])
  }

  /** A character that `String` never prints for an integer is absent from the joined numbers. */
  lemma JoinedIntsFree(xs: seq<int>, c: char)
    requires c != ',' && !IsIntegerChar(c)
    ensures c !in Join(IntStrings(xs), ',')
  {
    var parts := IntStrings(xs);
    forall i | 0 <= i < |parts|
      ensures c !in parts[i]
    {
      var p := parts[i];
      forall k | 0 <= k < |p|
        ensures p[k] != c
      {
        assert IsIntegerChar(p[k]);
      }
    }
    JoinFree(parts, ',', c);
  }

  /**
   * `JSON.stringify(frames)` for an array of integers: `[`, the numbers
   * joined by `,` without spaces, `]`. It contains no `<` (so it cannot
   * make a placeholder) and no `$` (so `replace` inserts it as is), and
   * its only `]` is the last character.
   */
  function ArrayLiteral(frames: seq<int>): (r: string)
    ensures |r| >= 2 && r[0] == '[' && r[|r| - 1] == ']'
    ensures '<' !in r && '$' !in r
    ensures ']' !in r[..|r| - 1]
  {
    var body := Join(IntStrings(frames), ',');
    JoinedIntsFree(frames, '<');
    JoinedIntsFree(frames, '$');
    JoinedIntsFree(frames, ']');
    assert ("[" + body + "]")[..|body| + 1] == "[" + body;
    "[" + body + "]"
  }

  /** Reads each piece as an integer JSON number; fails if any piece is not one. */
  function ParseInts(parts: seq<string>): Option<seq<int>>
  {
    if parts == [] then Some([])
    else
      match (ParseInt(parts[0]), ParseInts(parts[1..]))
      case (Some(x), Some(xs)) => Some([x] + xs)
      case _ => None
  }

  /**
   * Reads a JSON array of integers written without spaces: `[]`, or
   * integers separated by `,` between brackets.
   */
  function ParseArrayLiteral(s: string): Option<seq<int>>
  {
    if |s| < 2 || s[0] != '[' || s[|s| - 1] != ']' then None
    else
      var body := s[1..|s| - 1];
      if body == [] then Some([]) else ParseInts(Split(body, ','))
  }

  lemma {:induction false} ParseIntStrings(xs: seq<int>)
    ensures ParseInts(IntStrings(xs)) == Some(xs)
  {
    if xs != [] {
      ParseIntToString(xs[0]);
      ParseIntStrings(xs[1..]);
      assert IntStrings(xs)[1..] == IntStrings(xs[1..]);
      assert [xs[0]] + xs[1..] == xs;
    }
  }

  /** Parsing the array literal gives back the frames, element for element; no frames give `[]`. */
  lemma ArrayLiteralRoundTrip(frames: seq<int>)
    ensures ParseArrayLiteral(ArrayLiteral(frames)) == Some(frames)
    ensures frames == [] ==> ArrayLiteral(frames) == "[]"
  {
    var parts := IntStrings(frames);
    var body := Join(parts, ',');
    assert ArrayLiteral(frames)[1..|ArrayLiteral(frames)| - 1] == body;
    if frames != [] {
      assert |parts[0]| >= 1;
      assert body != [] by {
        if |parts| > 1 {
          assert body == parts[0] + [','] + Join(parts[1..], ',');
        }
      }
      forall i | 0 <= i < |parts|
        ensures ',' !in parts[i]
      {
        var p := parts[i];
        forall k | 0 <= k < |p|
          ensures p[k] != ','
        {
          assert IsIntegerChar(p[k]);
        }
      }
      SplitJoin(parts, ',');
      ParseIntStrings(frames);
    }
  }

  // ---------------------------------------------------------------------
  // generateJsxScript

  /**
   * `generateJsxScript(frames, fps)`, with `fpsText` the caller's
   * `String(fps)`: the template with the array literal in place of
   * `<TIMES_ARRAY>` and `fpsText` in place of `<FPS>`; every other
   * character of the template is kept, in order.
   */
  function GenerateJsxScript(frames: seq<int>, fpsText: string): (r: string)
    ensures r == Head + ArrayLiteral(frames) + Middle + fpsText + Tail
    ensures |r| == |Template| - |TimesKey| - |FpsKey| + |ArrayLiteral(frames)| + |fpsText|
  {
    var literal := ArrayLiteral(frames);
    ReplaceBoth(Head, Middle, Tail, literal, fpsText);
    ReplaceFirst(ReplaceFirst(Template, TimesKey, literal), FpsKey, fpsText)
  }

  /**
   * The two replacements on any text of the template's shape: as neither
   * `h` nor `m` nor the inserted literal holds a `<`, each placeholder
   * found is the one after `h` and after `m`.
   */
  lemma ReplaceBoth(h: Plain, m: Plain, t: string, literal: Plain, fpsText: string)
    ensures ReplaceFirst(ReplaceFirst(h + TimesKey + m + FpsKey + t, TimesKey, literal), FpsKey, fpsText)
         == h + literal + m + fpsText + t
  {
    assert h + TimesKey + m + FpsKey + t == h + TimesKey + (m + FpsKey + t);
    ReplaceAfterFree(h, TimesKey, m + FpsKey + t, literal);
    assert h + literal + (m + FpsKey + t) == (h + literal + m) + FpsKey + t;
    ReplaceAfterFree(h + literal + m, FpsKey, t, fpsText);
  }

  /** The text up to and including the first `]`, read as an array literal. */
  function ReadLiteral(rest: string): Option<seq<int>>
  {
    match IndexOf(rest, "]")
    case None => None
    case Some(k) => ParseArrayLiteral(rest[..k + 1])
  }

  /**
   * The array literal read back out of a generated script: the text after
   * the template's opening part, up to and including the first `]`.
   */
  function ExtractTimes(script: string): Option<seq<int>>
  {
    if |script| < |Head| || script[..|Head|] != Head then None
    else ReadLiteral(script[|Head|..])
  }

  /** Whatever follows it, an array literal is read back as its frames. */
  lemma ReadLiteralRoundTrip(frames: seq<int>, after: string)
    ensures ReadLiteral(ArrayLiteral(frames) + after) == Some(frames)
  {
    var literal := ArrayLiteral(frames);
    var opening := literal[..|literal| - 1];
    assert literal == opening + "]";
    IndexOfAfterFree(opening, "]", after);
    assert (opening + "]" + after)[..|literal|] == literal;
    ArrayLiteralRoundTrip(frames);
  }

  /** A text that starts with `h` splits back into `h` and the rest. */
  lemma PrefixSplit(h: string, l: string, m: string, f: string, t: string)
    ensures var s := h + l + m + f + t;
      |s| >= |h| && s[..|h|] == h && s[|h|..] == l + (m + f + t)
  {
  }

  /** The frames embedded in a generated script read back as exactly the frames given. */
  lemma ScriptRoundTrip(frames: seq<int>, fpsText: string)
    ensures ExtractTimes(GenerateJsxScript(frames, fpsText)) == Some(frames)
  {
    PrefixSplit(Head, ArrayLiteral(frames), Middle, fpsText, Tail);
    ReadLiteralRoundTrip(frames, Middle + fpsText + Tail);
  }

  /** The template is 698 characters long, so a script is 680 characters plus the two inserted texts. */
  lemma ScriptLength(frames: seq<int>, fpsText: string)
    ensures |Template| == 698
    ensures |GenerateJsxScript(frames, fpsText)| == 680 + |ArrayLiteral(frames)| + |fpsText|
  {
  }
}
