/**
 * The JavaScript string operations the page relies on, over `seq<char>`:
 * `split` and `join` on a one-character separator, `indexOf`, `replace`
 * with a string pattern, `endsWith` and `trim`.
 */
module Strings {
  import opened Wrappers

  // ---------------------------------------------------------------------
  // split and join

  /**
   * `s.split(sep)` for a one-character separator: the separator-free pieces
   * between separators, in order. There is always at least one piece
   * (`"".split(";")` is `[""]`).
   */
  function Split(s: string, sep: char): (r: seq<string>)
    ensures |r| >= 1
    ensures forall i :: 0 <= i < |r| ==> sep !in r[i]
  {
    if s == [] then [[]]
    else
      var rest := Split(s[1..], sep);
      if s[0] == sep then [[]] + rest
      else [[s[0]] + rest[0]] + rest[1..]
  }

  /** `parts.join(sep)`; the empty array joins to the empty string. */
  function Join(parts: seq<string>, sep: char): string
  {
    if |parts| == 0 then []
    else if |parts| == 1 then parts[0]
    else parts[0] + [sep] + Join(parts[1..], sep)
  }

  /** Joining the pieces of a split gives back the original string. */
  lemma {:induction false} JoinSplit(s: string, sep: char)
    ensures Join(Split(s, sep), sep) == s
  {
    if s != [] {
      var rest := Split(s[1..], sep);
      JoinSplit(s[1..], sep);
      if s[0] == sep {
        assert Split(s, sep)[1..] == rest;
      } else if |rest| > 1 {
        var parts := Split(s, sep);
        assert parts[1..] == rest[1..];
        assert Join(rest, sep) == rest[0] + [sep] + Join(rest[1..], sep);
        assert Join(parts, sep) == [s[0]] + rest[0] + [sep] + Join(rest[1..], sep);
      }
    }
  }

  /** A string without the separator splits into itself alone. */
  lemma {:induction false} SplitFree(a: string, sep: char)
    requires sep !in a
    ensures Split(a, sep) == [a]
  {
    if a != [] {
      SplitFree(a[1..], sep);
      assert [a[0]] + a[1..] == a;
    }
  }

  /** The text before the first separator is the first piece; the rest is split on its own. */
  lemma {:induction false} SplitAtSeparator(a: string, b: string, sep: char)
    requires sep !in a
    ensures Split(a + [sep] + b, sep) == [a] + Split(b, sep)
  {
    var s := a + [sep] + b;
    if a == [] {
      assert s[1..] == b;
    } else {
      assert s[1..] == a[1..] + [sep] + b;
      SplitAtSeparator(a[1..], b, sep);
      assert [a[0]] + a[1..] == a;
    }
  }

  /** Splitting a join of separator-free pieces gives back the pieces. */
  lemma {:induction false} SplitJoin(parts: seq<string>, sep: char)
    requires |parts| >= 1
    requires forall i :: 0 <= i < |parts| ==> sep !in parts[i]
    ensures Split(Join(parts, sep), sep) == parts
  {
    if |parts| == 1 {
      SplitFree(parts[0], sep);
    } else {
      SplitJoin(parts[1..], sep);
      SplitAtSeparator(parts[0], Join(parts[1..], sep), sep);
    }
  }

  /** Four separator-free pieces joined by the separator split back into those four. */
  lemma SplitFour(a: string, b: string, c: string, d: string, sep: char)
    requires sep !in a && sep !in b && sep !in c && sep !in d
    ensures Split(a + [sep] + b + [sep] + c + [sep] + d, sep) == [a, b, c, d]
  {
    assert a + [sep] + b + [sep] + c + [sep] + d == a + [sep] + (b + [sep] + (c + [sep] + d));
    SplitFree(d, sep);
    SplitAtSeparator(c, d, sep);
    SplitAtSeparator(b, c + [sep] + d, sep);
    SplitAtSeparator(a, b + [sep] + (c + [sep] + d), sep);
  }
  /** A character that is neither the separator nor in any piece is not in the join. */
  lemma {:induction false} JoinFree(parts: seq<string>, sep: char, c: char)
    requires c != sep
    requires forall i :: 0 <= i < |parts| ==> c !in parts[i]
    ensures c !in Join(parts, sep)
  {
    if |parts| > 1 {
      JoinFree(parts[1..], sep, c);
    }
  }

  // ---------------------------------------------------------------------
  // indexOf and replace

  /** `p` occurs in `s` starting at index `i`. */
  predicate OccursAt(s: string, p: string, i: int)
  {
    0 <= i && i + |p| <= |s| && s[i..i + |p|] == p
  }

  /** `s.indexOf(p)`: the first index at which `p` occurs, `None` standing for -1. */
  function IndexOf(s: string, p: string): (r: Option<nat>)
    ensures r.Some? ==> OccursAt(s, p, r.value)
    ensures r.Some? ==> forall j :: 0 <= j < r.value ==> !OccursAt(s, p, j)
    ensures r.None? ==> forall j :: !OccursAt(s, p, j)
  {
    if |s| < |p| then None
    else if OccursAt(s, p, 0) then Some(0)
    else
      var tail := IndexOf(s[1..], p);
      assert forall j :: 1 <= j ==> (OccursAt(s, p, j) <==> OccursAt(s[1..], p, j - 1)) by {
        forall j | 1 <= j
          ensures OccursAt(s, p, j) <==> OccursAt(s[1..], p, j - 1)
        {
          if j + |p| <= |s| {
            assert s[1..][j - 1..j - 1 + |p|] == s[j..j + |p|];
          }
        }
      }
      match tail
      case None => None
      case Some(k) => Some(k + 1)
  }

  /**
   * `s.replace(p, rep)` with a string pattern: the first occurrence of `p`,
   * if there is one, becomes `rep`; the replacement text is inserted as is.
   */
  function ReplaceFirst(s: string, p: string, rep: string): string
  {
    match IndexOf(s, p)
    case None => s
    case Some(i) => s[..i] + rep + s[i + |p|..]
  }

  /** When the first character of `p` does not occur in `h`, the first occurrence of `p` in `h + p + t` is right after `h`. */
  lemma IndexOfAfterFree(h: string, p: string, t: string)
    requires |p| > 0 && p[0] !in h
    ensures IndexOf(h + p + t, p) == Some(|h|)
  {
    var s := h + p + t;
    assert OccursAt(s, p, |h|) by {
      assert s[|h|..|h| + |p|] == p;
    }
    forall j | 0 <= j < |h|
      ensures !OccursAt(s, p, j)
    {
      assert j + |p| <= |s|;
      assert s[j..j + |p|][0] == h[j] != p[0];
    }
  }

  /** Replacing in `h + p + t` where `p` cannot start inside `h` keeps `h` and `t` and puts `rep` between them. */
  lemma ReplaceAfterFree(h: string, p: string, t: string, rep: string)
    requires |p| > 0 && p[0] !in h
    ensures ReplaceFirst(h + p + t, p, rep) == h + rep + t
  {
    IndexOfAfterFree(h, p, t);
    var s := h + p + t;
    assert s[..|h|] == h;
    assert s[|h| + |p|..] == t;
  }

  // ---------------------------------------------------------------------
  // endsWith

  /** `s.endsWith(suffix)`. */
  predicate EndsWith(s: string, suffix: string)
  {
    |suffix| <= |s| && s[|s| - |suffix|..] == suffix
  }

  // ---------------------------------------------------------------------
  // trim

  /**
   * The characters `String.prototype.trim` removes: WhiteSpace (tab,
   * vertical tab, form feed, space, no-break space, byte order mark and the
   * Unicode space separators) and LineTerminator (LF, CR, LS, PS).
   */
  predicate IsJsSpace(c: char)
  {
    || c == '\t' || c == '\n' || c == '\U{000B}' || c == '\U{000C}' || c == '\r'
    || c == ' ' || c == '\U{00A0}' || c == '\U{1680}' || ('\U{2000}' <= c <= '\U{200A}')
    || c == '\U{2028}' || c == '\U{2029}' || c == '\U{202F}' || c == '\U{205F}'
    || c == '\U{3000}' || c == '\U{FEFF}'
  }

  /** Neither end of `s` is white space. */
  predicate Trimmed(s: string)
  {
    s == [] || (!IsJsSpace(s[0]) && !IsJsSpace(s[|s| - 1]))
  }

  /** `s.trimStart()`: the suffix left after dropping the leading white space. */
  function TrimStart(s: string): (r: string)
    ensures |r| <= |s| && r == s[|s| - |r|..]
    ensures forall i :: 0 <= i < |s| - |r| ==> IsJsSpace(s[i])
    ensures r == [] || !IsJsSpace(r[0])
  {
    if s != [] && IsJsSpace(s[0]) then TrimStart(s[1..]) else s
  }

  /** `s.trimEnd()`: the prefix left after dropping the trailing white space. */
  function TrimEnd(s: string): (r: string)
    ensures |r| <= |s| && r == s[..|r|]
    ensures forall i :: |r| <= i < |s| ==> IsJsSpace(s[i])
    ensures r == [] || !IsJsSpace(r[|r| - 1])
  {
    if s != [] && IsJsSpace(s[|s| - 1]) then TrimEnd(s[..|s| - 1]) else s
  }

  /** `s.trim()`: white space removed from both ends, nothing else (see `TrimKeepsInner`). */
  function Trim(s: string): (r: string)
    ensures Trimmed(r)
    ensures Trimmed(s) ==> r == s
    ensures |r| <= |s|
  {
    var t := TrimStart(s);
    var r := TrimEnd(t);
    assert r != [] ==> r[0] == t[0];
    r
  }

  /**
   * Trimming removes only white space, and only at the two ends: the
   * result is one piece of `s` with nothing but white space before and
   * after it.
   */
  lemma TrimKeepsInner(s: string)
    ensures exists i :: TrimmedAt(s, Trim(s), i)
  {
    var t := TrimStart(s);
    var r := TrimEnd(t);
    var i := |s| - |t|;
    assert Trim(s) == r;
    assert r == s[i..i + |r|];
    forall k | i + |r| <= k < |s|
      ensures IsJsSpace(s[k])
    {
      assert s[k] == t[k - i];
    }
    assert TrimmedAt(s, r, i);
  }

  /**
   * `r` is the piece of `s` starting at `i`, and everything of `s` before
   * and after that piece is white space.
   */
  predicate TrimmedAt(s: string, r: string, i: int)
  {
    && 0 <= i && i + |r| <= |s| && r == s[i..i + |r|]
    && (forall k :: 0 <= k < i ==> IsJsSpace(s[k]))
    && (forall k :: i + |r| <= k < |s| ==> IsJsSpace(s[k]))
  }

  /** Leading white space does not change what `trimStart` leaves. */
  lemma {:induction false} TrimStartLeadingSpace(ws: string, s: string)
    requires forall i :: 0 <= i < |ws| ==> IsJsSpace(ws[i])
    ensures TrimStart(ws + s) == TrimStart(s)
  {
    if ws != [] {
      var t := ws + s;
      assert t != [] && IsJsSpace(t[0]) by {
        assert t[0] == ws[0];
      }
      assert t[1..] == ws[1..] + s;
      TrimStartLeadingSpace(ws[1..], s);
      assert TrimStart(t) == TrimStart(t[1..]);
    } else {
      assert ws + s == s;
    }
  }

  /** Leading white space does not change the trimmed text. */
  lemma TrimLeadingSpace(ws: string, s: string)
    requires forall i :: 0 <= i < |ws| ==> IsJsSpace(ws[i])
    ensures Trim(ws + s) == Trim(s)
  {
    TrimStartLeadingSpace(ws, s);
  }
}
