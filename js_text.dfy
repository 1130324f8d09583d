/** The string operations of the JavaScript standard library that the
    forms and review screens rely on: trim, case mapping, split/join and
    the `/\s+/g` replacement. */
module JsText {

  /** The characters that `String.prototype.trim` and the regular-expression
      class `\s` treat as white space: ECMAScript's WhiteSpace and
      LineTerminator code points. */
  predicate IsWhitespace(c: char) {
    || c == ' ' || c == '\t' || c == '\n' || c == '\r' || c == '\U{B}' || c == '\U{C}'
    || c == '\U{A0}' || c == '\U{1680}' || ('\U{2000}' <= c <= '\U{200A}')
    || c == '\U{2028}' || c == '\U{2029}' || c == '\U{202F}' || c == '\U{205F}'
    || c == '\U{3000}' || c == '\U{FEFF}'
  }

  /** Text made of white space only (the empty text included). */
  predicate IsBlank(s: string) {
    forall i :: 0 <= i < |s| ==> IsWhitespace(s[i])
  }

  predicate NoWhitespace(s: string) {
    forall i :: 0 <= i < |s| ==> !IsWhitespace(s[i])
  }

  /** `s.trimStart()`: the longest suffix of `s` that does not start with white space. */
  function TrimStart(s: string): (r: string)
    ensures |r| <= |s| && r == s[|s| - |r|..]
    ensures forall i :: 0 <= i < |s| - |r| ==> IsWhitespace(s[i])
    ensures r == [] || !IsWhitespace(r[0])
  {
    if s != [] && IsWhitespace(s[0]) then TrimStart(s[1..]) else s
  }

  /** trimStart cuts exactly the run of white space in front of the first
      other character. */
  lemma {:induction false} TrimStartAt(s: string, k: nat)
    requires k <= |s| && forall i :: 0 <= i < k ==> IsWhitespace(s[i])
    requires k == |s| || !IsWhitespace(s[k])
    ensures TrimStart(s) == s[k..]
    decreases k
  {
    if k > 0 {
      TrimStartAt(s[1..], k - 1);
      assert s[1..][k - 1..] == s[k..];
    }
  }

  /** Text that does not start with white space is its own trimStart. */
  lemma TrimStartKeeps(s: string)
    requires s == [] || !IsWhitespace(s[0])
    ensures TrimStart(s) == s
  {
  }

  /** `s.trimEnd()`: the longest prefix of `s` that does not end with white space. */
  function TrimEnd(s: string): (r: string)
    ensures |r| <= |s| && r == s[..|r|]
    ensures forall i :: |r| <= i < |s| ==> IsWhitespace(s[i])
    ensures r == [] || !IsWhitespace(r[|r| - 1])
  {
    if s != [] && IsWhitespace(s[|s| - 1]) then TrimEnd(s[..|s| - 1]) else s
  }

  /** Text that does not end with white space is its own trimEnd. */
  lemma TrimEndKeeps(s: string)
    requires s == [] || !IsWhitespace(s[|s| - 1])
    ensures TrimEnd(s) == s
  {
  }

  /** `s.trim()`. */
  function Trim(s: string): string {
    TrimEnd(TrimStart(s))
  }

  /** `!s.trim()` holds exactly for blank text: trimming leaves nothing
      of a string precisely when every character in it is white space. */
  lemma TrimEmptyIffBlank(s: string)
    ensures Trim(s) == "" <==> IsBlank(s)
  {
    var t := TrimStart(s);
    if Trim(s) == "" {
      assert IsBlank(t[0..]);
      assert s[..|s|] == s;
    }
  }

  /** A trimmed string neither starts nor ends with white space, and
      trimming it again changes nothing. */
  lemma TrimProperties(s: string)
    ensures Trim(s) == [] || (!IsWhitespace(Trim(s)[0]) && !IsWhitespace(Trim(s)[|Trim(s)| - 1]))
    ensures Trim(Trim(s)) == Trim(s)
  {
    var t := TrimStart(s);
    var r := TrimEnd(t);
    if r != [] {
      assert r[0] == t[0];
    }
    assert TrimStart(r) == r;
  }

  predicate IsAsciiLower(c: char) { 'a' <= c <= 'z' }
  predicate IsAsciiUpper(c: char) { 'A' <= c <= 'Z' }

  /** `toUpperCase` on one character, restricted to the ASCII letters. */
  function UpperChar(c: char): char {
    if IsAsciiLower(c) then (c as int - 32) as char else c
  }

  /** `toLowerCase` on one character, restricted to the ASCII letters. */
  function LowerChar(c: char): char {
    if IsAsciiUpper(c) then (c as int + 32) as char else c
  }

  function ToUpper(s: string): (r: string)
    ensures |r| == |s| && forall i :: 0 <= i < |s| ==> r[i] == UpperChar(s[i])
  {
    seq(|s|, i requires 0 <= i < |s| => UpperChar(s[i]))
  }

  function ToLower(s: string): (r: string)
    ensures |r| == |s| && forall i :: 0 <= i < |s| ==> r[i] == LowerChar(s[i])
  {
    seq(|s|, i requires 0 <= i < |s| => LowerChar(s[i]))
  }

  /** Lower-casing is idempotent, so a lookup keyed by `s.toLowerCase()`
      gives the same answer for every casing of `s`. */
  lemma LowerIdempotent(s: string)
    ensures ToLower(ToLower(s)) == ToLower(s)
  {
    assert forall i :: 0 <= i < |s| ==> LowerChar(LowerChar(s[i])) == LowerChar(s[i]);
  }

  /** `s.charAt(0).toUpperCase() + s.slice(1)`. */
  function Capitalize(s: string): (r: string)
    ensures |r| == |s|
    ensures s != "" ==> r[0] == UpperChar(s[0]) && r[1..] == s[1..]
  {
    if s == "" then "" else [UpperChar(s[0])] + s[1..]
  }

  /** `s.split(sep)` for a one-character separator: the pieces between
      separators, in order; there is always at least one piece. */
  function Split(s: string, sep: char): (parts: seq<string>)
    ensures |parts| >= 1
    ensures forall k, j :: 0 <= k < |parts| && 0 <= j < |parts[k]| ==> parts[k][j] != sep
    decreases |s|
  {
    if s == [] then [""]
    else
      var rest := Split(s[1..], sep);
      if s[0] == sep then [""] + rest
      else [[s[0]] + rest[0]] + rest[1..]
  }

  /** `parts.join(sep)`. */
  function Join(parts: seq<string>, sep: char): string {
    if parts == [] then ""
    else if |parts| == 1 then parts[0]
    else parts[0] + [sep] + Join(parts[1..], sep)
  }

  /** Splitting and joining with the same separator gives back the string. */
  lemma {:induction false} JoinSplit(s: string, sep: char)
    ensures Join(Split(s, sep), sep) == s
    decreases |s|
  {
    if s != [] {
      var rest := Split(s[1..], sep);
      JoinSplit(s[1..], sep);
      if s[0] == sep {
        JoinCons("", rest, sep);
        assert s == "" + [sep] + s[1..];
      } else {
        JoinFirstGrows(s[0], rest, sep);
        assert s == [s[0]] + s[1..];
      }
    }
  }

  /** Joining a piece in front of at least one more puts a separator between. */
  lemma JoinCons(p: string, rest: seq<string>, sep: char)
    requires |rest| >= 1
    ensures Join([p] + rest, sep) == p + [sep] + Join(rest, sep)
  {
    assert ([p] + rest)[1..] == rest;
  }

  /** Growing the first piece by a character grows the joined text by it. */
  lemma JoinFirstGrows(c: char, rest: seq<string>, sep: char)
    requires |rest| >= 1
    ensures Join([[c] + rest[0]] + rest[1..], sep) == [c] + Join(rest, sep)
  {
    var parts := [[c] + rest[0]] + rest[1..];
    if |rest| == 1 {
      assert parts == [[c] + rest[0]];
    } else {
      JoinCons([c] + rest[0], rest[1..], sep);
      JoinCons(rest[0], rest[1..], sep);
      assert rest == [rest[0]] + rest[1..];
    }
  }

  /** The first piece of `s.split(sep)` is the part of `s` before the first
      separator: a prefix of `s` that holds no separator. */
  lemma FirstPieceIsPrefix(s: string, sep: char)
    ensures var p := Split(s, sep)[0]; |p| <= |s| && p == s[..|p|] && sep !in p
    ensures sep !in s ==> Split(s, sep) == [s]
    decreases |s|
  {
    if s != [] {
      FirstPieceIsPrefix(s[1..], sep);
      assert [s[0]] + s[1..] == s;
    }
  }

  /** The first piece of `s.split(sep)` ends where `s` ends or where a
      separator stands. */
  lemma {:induction false} FirstPieceEndsAtSeparator(s: string, sep: char)
    ensures var p := Split(s, sep)[0]; |p| <= |s| && (|p| == |s| || s[|p|] == sep)
    decreases |s|
  {
    if s != [] && s[0] != sep {
      FirstPieceEndsAtSeparator(s[1..], sep);
      var q := Split(s[1..], sep)[0];
      assert Split(s, sep)[0] == [s[0]] + q;
      assert |q| == |s[1..]| || s[1..][|q|] == sep;
    }
  }

  /** Splitting a piece without separators, a separator and more text
      gives the piece followed by the pieces of the rest. */
  lemma {:induction false} SplitAfterPiece(a: string, sep: char, t: string)
    requires sep !in a
    ensures Split(a + [sep] + t, sep) == [a] + Split(t, sep)
    decreases |a|
  {
    if a != [] {
      SplitAfterPiece(a[1..], sep, t);
      assert (a + [sep] + t)[1..] == a[1..] + [sep] + t;
      assert (a + [sep] + t)[0] == a[0] && a[0] != sep;
      var rest := Split(a[1..] + [sep] + t, sep);
      assert rest[0] == a[1..] && rest[1..] == Split(t, sep);
      assert [a[0]] + a[1..] == a;
    } else {
      assert a + [sep] + t == [sep] + t;
    }
  }

  /** A piece without separators that is followed by a separator (or by
      nothing) is the first piece of the split. */
  lemma {:induction false} FirstPieceOf(a: string, sep: char, t: string)
    requires sep !in a && (t == [] || t[0] == sep)
    ensures Split(a + t, sep)[0] == a
    decreases |a|
  {
    if a == [] {
      assert a + t == t;
    } else {
      FirstPieceOf(a[1..], sep, t);
      assert (a + t)[1..] == a[1..] + t;
      assert (a + t)[0] == a[0] && a[0] != sep;
      assert [a[0]] + a[1..] == a;
    }
  }

  /** `s.replace(/\s+/g, rep)`: every maximal run of white space is replaced
      by one `rep`. */
  function CollapseWhitespace(s: string, rep: char): (r: string)
    requires !IsWhitespace(rep)
    ensures |r| <= |s|
    decreases |s|
  {
    if s == [] then []
    else if IsWhitespace(s[0]) then [rep] + CollapseWhitespace(TrimStart(s), rep)
    else [s[0]] + CollapseWhitespace(s[1..], rep)
  }

  /** No white space is left after the replacement. */
  lemma {:induction false} CollapseLeavesNoWhitespace(s: string, rep: char)
    requires !IsWhitespace(rep)
    ensures NoWhitespace(CollapseWhitespace(s, rep))
    decreases |s|
  {
    if s != [] {
      if IsWhitespace(s[0]) {
        CollapseLeavesNoWhitespace(TrimStart(s), rep);
      } else {
        CollapseLeavesNoWhitespace(s[1..], rep);
      }
    }
  }

  /** Text without white space is left as it is. */
  lemma {:induction false} CollapseKeepsWord(s: string, rep: char)
    requires !IsWhitespace(rep) && NoWhitespace(s)
    ensures CollapseWhitespace(s, rep) == s
    decreases |s|
  {
    if s != [] {
      CollapseKeepsWord(s[1..], rep);
      assert [s[0]] + s[1..] == s;
    }
  }
}
