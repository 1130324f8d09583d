/** A submission as the review screens receive it, and the display helpers
    the submission list, the submission modal and the admin dashboard
    share: data lookup, key humanising, status caption and badge class. */
module Submissions {
  import opened JsValue
  import opened JsText
  import opened Collections

  /** A submission. `data` lists the entries of the data object in
      `Object.entries` order. */
  datatype Submission = Submission(
    id: string,
    status: string,
    data: seq<(string, Value)>,
    pdfUrl: Value,
    adminMessage: Value)

  /** `data[key]`: the value stored under `key`, `undefined` if none. A
      list with the key twice reads the first entry. */
  function Get(data: seq<(string, Value)>, key: string): (v: Value)
    ensures (forall i :: 0 <= i < |data| ==> data[i].0 != key) ==> v == Undefined
    ensures v != Undefined ==> exists i :: 0 <= i < |data| && data[i] == (key, v)
    ensures forall i :: FirstKeyAt(data, key, i) ==> v == data[i].1
    decreases |data|
  {
    if data == [] then Undefined
    else if data[0].0 == key then
      if data[0].1 != Undefined then assert data[0] == (key, data[0].1); data[0].1 else Undefined
    else
      var v := Get(data[1..], key);
      assert forall i :: FirstKeyAt(data, key, i) ==> FirstKeyAt(data[1..], key, i - 1);
      if v != Undefined then
        var i :| 0 <= i < |data[1..]| && data[1..][i] == (key, v);
        assert data[i + 1] == (key, v);
        v
      else v
  }

  /** Entry `i` is the first one with `key`. */
  predicate FirstKeyAt(data: seq<(string, Value)>, key: string, i: int) {
    0 <= i < |data| && data[i].0 == key && forall j :: 0 <= j < i ==> data[j].0 != key
  }

  /** `key.replace(/([A-Z])/g, ' $1')`: a space inserted before every
      capital letter. */
  function SpaceBeforeCapitals(s: string): (r: string)
    ensures CapitalsSpaced(r)
    ensures DropSpaces(r) == DropSpaces(s)
    ensures NoWhitespace(s) ==> OnlySpaces(r)
    ensures |r| == |s| + CountUpper(s)
    decreases |s|
  {
    if s == [] then []
    else
      var head := if IsAsciiUpper(s[0]) then [' ', s[0]] else [s[0]];
      var rest := SpaceBeforeCapitals(s[1..]);
      DropSpacesConcat(head, rest);
      DropSpacesConcat([s[0]], s[1..]);
      assert [s[0]] + s[1..] == s;
      SpacedConcat(head, rest);
      OnlySpacesConcat(head, rest);
      head + rest
  }

  /** The number of capital letters in the text. */
  function CountUpper(s: string): nat
    decreases |s|
  {
    if s == [] then 0 else (if IsAsciiUpper(s[0]) then 1 else 0) + CountUpper(s[1..])
  }

  /** The text with the space in front of each capital letter removed. */
  function Unspace(r: string): string
    decreases |r|
  {
    if r == [] then []
    else if |r| >= 2 && r[0] == ' ' && IsAsciiUpper(r[1]) then [r[1]] + Unspace(r[2..])
    else [r[0]] + Unspace(r[1..])
  }

  /** Removing the space in front of each capital undoes the spacing, so
      different keys are spaced differently. */
  lemma {:induction false} UnspaceUndoesSpacing(s: string)
    ensures Unspace(SpaceBeforeCapitals(s)) == s
    decreases |s|
  {
    if s != [] {
      var rest := SpaceBeforeCapitals(s[1..]);
      UnspaceUndoesSpacing(s[1..]);
      SpacingCons(s);
      if IsAsciiUpper(s[0]) {
        UnspaceSpacedCapital(s[0], rest);
      } else {
        assert rest != [] ==> !IsAsciiUpper(rest[0]);
        UnspaceCons(s[0], rest);
      }
      HeadThenTail(s);
    }
  }

  /** The spaced key ends with the key's last character. */
  lemma {:induction false} SpacingKeepsLast(s: string)
    requires s != []
    ensures SpaceBeforeCapitals(s)[|SpaceBeforeCapitals(s)| - 1] == s[|s| - 1]
    decreases |s|
  {
    SpacingCons(s);
    if |s| > 1 {
      SpacingKeepsLast(s[1..]);
    }
  }

  lemma SpacingCons(s: string)
    requires s != []
    ensures SpaceBeforeCapitals(s)
      == (if IsAsciiUpper(s[0]) then [' ', s[0]] else [s[0]]) + SpaceBeforeCapitals(s[1..])
  {
  }

  lemma UnspaceSpacedCapital(c: char, t: string)
    requires IsAsciiUpper(c)
    ensures Unspace([' ', c] + t) == [c] + Unspace(t)
  {
    assert ([' ', c] + t)[2..] == t;
  }

  lemma UnspaceCons(c: char, t: string)
    requires c != ' ' || t == [] || !IsAsciiUpper(t[0])
    ensures Unspace([c] + t) == [c] + Unspace(t)
  {
    assert ([c] + t)[1..] == t;
  }

  /** Every capital letter has a space right before it. */
  predicate CapitalsSpaced(r: string) {
    forall i :: 0 <= i < |r| && IsAsciiUpper(r[i]) ==> i > 0 && r[i - 1] == ' '
  }

  /** The only white space in the text is the space character. */
  predicate OnlySpaces(r: string) {
    forall i :: 0 <= i < |r| && IsWhitespace(r[i]) ==> r[i] == ' '
  }

  lemma SpacedConcat(x: string, y: string)
    requires CapitalsSpaced(x) && CapitalsSpaced(y)
    ensures CapitalsSpaced(x + y)
  {
    var z := x + y;
    forall i | 0 <= i < |z| && IsAsciiUpper(z[i]) ensures i > 0 && z[i - 1] == ' ' {
      if i >= |x| {
        assert z[i] == y[i - |x|];
        assert z[i - 1] == y[i - |x| - 1];
      } else {
        assert z[i] == x[i] && z[i - 1] == x[i - 1];
      }
    }
  }

  lemma OnlySpacesConcat(x: string, y: string)
    ensures OnlySpaces(x) && OnlySpaces(y) ==> OnlySpaces(x + y)
  {
    var z := x + y;
    assert forall i :: 0 <= i < |z| ==> z[i] == if i < |x| then x[i] else y[i - |x|];
  }

  /** The text with every space character removed. */
  function DropSpaces(s: string): string
    decreases |s|
  {
    if s == [] then [] else if s[0] == ' ' then DropSpaces(s[1..]) else [s[0]] + DropSpaces(s[1..])
  }

  lemma {:induction false} DropSpacesConcat(a: string, b: string)
    ensures DropSpaces(a + b) == DropSpaces(a) + DropSpaces(b)
    decreases |a|
  {
    if a == [] {
      assert a + b == b;
    } else {
      var t := a[1..] + b;
      assert a + b == [a[0]] + t;
      DropSpacesCons(a[0], t);
      DropSpacesCons(a[0], a[1..]);
      DropSpacesConcat(a[1..], b);
      assert a == [a[0]] + a[1..];
    }
  }

  /** The first character is dropped if it is a space and kept otherwise. */
  lemma DropSpacesCons(c: char, t: string)
    ensures DropSpaces([c] + t) == (if c == ' ' then [] else [c]) + DropSpaces(t)
  {
    assert ([c] + t)[1..] == t;
  }

  lemma {:induction false} DropSpacesOfBlank(s: string)
    requires IsBlank(s) && forall i :: 0 <= i < |s| && IsWhitespace(s[i]) ==> s[i] == ' '
    ensures DropSpaces(s) == []
    decreases |s|
  {
    if s != [] {
      assert s[0] == ' ';
      DropSpacesOfBlank(s[1..]);
    }
  }

  lemma {:induction false} DropSpacesKeeps(s: string)
    requires NoWhitespace(s)
    ensures DropSpaces(s) == s
    decreases |s|
  {
    if s != [] {
      assert s[0] != ' ';
      DropSpacesKeeps(s[1..]);
      assert [s[0]] + s[1..] == s;
    }
  }

  /** The humanised key: spaces before capitals, then trimmed. */
  function Humanise(key: string): (r: string)
    ensures r == [] || (!IsWhitespace(r[0]) && !IsWhitespace(r[|r| - 1]))
    ensures |r| <= |key| + CountUpper(key)
  {
    Trim(SpaceBeforeCapitals(key))
  }

  /** `Trim(s)` is the piece `s[a..b]`, with only white space cut off on
      either side. */
  lemma TrimBounds(s: string) returns (a: nat, b: nat)
    ensures a <= b <= |s| && Trim(s) == s[a..b]
    ensures IsBlank(s[..a]) && IsBlank(s[b..])
  {
    var t := TrimStart(s);
    a := |s| - |t|;
    var r := TrimEnd(t);
    b := a + |r|;
    assert t == s[a..];
    assert r == s[a..b];
    forall j | b <= j < |s| ensures IsWhitespace(s[j]) {
      assert s[j] == t[j - a];
    }
    BlankSlice(s, 0, a);
    BlankSlice(s, b, |s|);
  }

  /** A stretch of white space, cut out, is blank text. */
  lemma BlankSlice(s: string, a: nat, b: nat)
    requires a <= b <= |s| && forall j :: a <= j < b ==> IsWhitespace(s[j])
    ensures IsBlank(s[a..b])
    ensures a == 0 ==> IsBlank(s[..b])
    ensures b == |s| ==> IsBlank(s[a..])
  {
    assert forall i :: 0 <= i < b - a ==> s[a..b][i] == s[a + i];
  }

  /** Humanising keeps every capital after the first character behind a space. */
  lemma HumaniseSpacesCapitals(key: string)
    ensures var h := Humanise(key);
      forall i :: 0 < i < |h| && IsAsciiUpper(h[i]) ==> h[i - 1] == ' '
  {
    var r := SpaceBeforeCapitals(key);
    var a, b := TrimBounds(r);
    SliceKeepsSpacing(r, a, b);
  }

  lemma SliceKeepsSpacing(r: string, a: nat, b: nat)
    requires a <= b <= |r|
    requires CapitalsSpaced(r)
    ensures var h := r[a..b];
      forall i :: 0 < i < |h| && IsAsciiUpper(h[i]) ==> h[i - 1] == ' '
  {
    var h := r[a..b];
    forall i | 0 < i < |h| && IsAsciiUpper(h[i]) ensures h[i - 1] == ' ' {
      assert h[i] == r[a + i] && h[i - 1] == r[a + i - 1];
    }
  }

  /** For a key without white space, the caption is the spaced key with
      only the space in front of a leading capital trimmed: it has one
      character more per capital after the first character, and removing
      the space in front of each capital gives back the key. */
  lemma HumaniseUndoneByUnspace(key: string)
    requires NoWhitespace(key)
    ensures |Humanise(key)| == |key| + CountUpper(key) - (if key != [] && IsAsciiUpper(key[0]) then 1 else 0)
    ensures Unspace(Humanise(key)) == key
  {
    UnspaceUndoesSpacing(key);
    if key != [] {
      var rest := SpaceBeforeCapitals(key[1..]);
      SpacingCons(key);
      SpacingKeepsLast(key);
      if IsAsciiUpper(key[0]) {
        HumaniseTrimsLeadingSpace(key);
        UnspaceSpacedCapital(key[0], rest);
        UnspaceCons(key[0], rest);
      } else {
        TrimStartKeeps(SpaceBeforeCapitals(key));
      }
    }
  }

  /** A key starting with a capital loses only the space put in front of it. */
  lemma HumaniseTrimsLeadingSpace(key: string)
    requires NoWhitespace(key) && key != [] && IsAsciiUpper(key[0])
    ensures Humanise(key) == [key[0]] + SpaceBeforeCapitals(key[1..])
  {
    var rest := SpaceBeforeCapitals(key[1..]);
    SpacingCons(key);
    DropFirstOfTwo(' ', key[0], rest);
    TrimStartAt([' ', key[0]] + rest, 1);
    SpacedTailEndsWithWord(key);
    TrimEndKeeps([key[0]] + rest);
  }

  /** The key's first character followed by the rest spaced ends with the
      key's last character, so not with white space. */
  lemma SpacedTailEndsWithWord(key: string)
    requires NoWhitespace(key) && key != []
    ensures var t := [key[0]] + SpaceBeforeCapitals(key[1..]); !IsWhitespace(t[|t| - 1])
  {
    if |key| > 1 {
      SpacingKeepsLast(key[1..]);
      LastAfterCons(key[0], SpaceBeforeCapitals(key[1..]));
    }
  }

  /** For a key without white space, humanising only ever adds spaces:
      dropping the spaces gives back the key. */
  lemma HumaniseOnlyAddsSpaces(key: string)
    requires NoWhitespace(key)
    ensures DropSpaces(Humanise(key)) == key
  {
    var r := SpaceBeforeCapitals(key);
    var a, b := TrimBounds(r);
    DropSpacesOfTrimmed(r, a, b);
    DropSpacesKeeps(key);
  }

  /** Cutting blank ends made of spaces off a text does not change what is
      left once the spaces are dropped. */
  lemma DropSpacesOfTrimmed(r: string, a: nat, b: nat)
    requires a <= b <= |r| && IsBlank(r[..a]) && IsBlank(r[b..])
    requires OnlySpaces(r)
    ensures DropSpaces(r[a..b]) == DropSpaces(r)
  {
    BlankEndsAreSpaces(r, a, b);
    DropSpacesAround(r, a, b);
  }

  lemma DropSpacesAround(r: string, a: nat, b: nat)
    requires a <= b <= |r| && DropSpaces(r[..a]) == [] && DropSpaces(r[b..]) == []
    ensures DropSpaces(r[a..b]) == DropSpaces(r)
  {
    assert r == r[..a] + r[a..b] + r[b..];
    DropSpacesConcat(r[..a] + r[a..b], r[b..]);
    DropSpacesConcat(r[..a], r[a..b]);
  }

  lemma BlankEndsAreSpaces(r: string, a: nat, b: nat)
    requires a <= b <= |r| && IsBlank(r[..a]) && IsBlank(r[b..])
    requires OnlySpaces(r)
    ensures DropSpaces(r[..a]) == [] && DropSpaces(r[b..]) == []
  {
    assert forall i :: 0 <= i < a ==> r[..a][i] == r[i];
    assert forall i :: 0 <= i < |r| - b ==> r[b..][i] == r[b + i];
    DropSpacesOfBlank(r[..a]);
    DropSpacesOfBlank(r[b..]);
  }

  /** `status.charAt(0).toUpperCase() + status.slice(1)`. */
  function StatusCaption(status: string): (r: string)
    ensures |r| == |status|
    ensures status != "" ==> r[0] == UpperChar(status[0]) && r[1..] == status[1..]
  {
    Capitalize(status)
  }

  /** `getStatusBadge(status)`: `badge badge-<status>` for the three known
      statuses, `badge` for anything else. */
  function StatusBadgeClass(status: string): (c: string)
    ensures status in {"pending", "approved", "rejected"} ==> c == "badge badge-" + status
    ensures status !in {"pending", "approved", "rejected"} ==> c == "badge"
  {
    match status
    case "pending" => "badge badge-pending"
    case "approved" => "badge badge-approved"
    case "rejected" => "badge badge-rejected"
    case _ => "badge"
  }

  /** `data.clientName || data.fullName || fallback`: the first truthy of
      the two names, else the fallback. */
  function NameOr(data: seq<(string, Value)>, fallback: string): (v: Value)
    ensures Truthy(Get(data, "clientName")) ==> v == Get(data, "clientName")
    ensures !Truthy(Get(data, "clientName")) && Truthy(Get(data, "fullName")) ==> v == Get(data, "fullName")
    ensures !Truthy(Get(data, "clientName")) && !Truthy(Get(data, "fullName")) ==> v == Str(fallback)
  {
    Or(Or(Get(data, "clientName"), Get(data, "fullName")), Str(fallback))
  }

  /** With a non-empty fallback, some name is always shown. */
  lemma NameAlwaysShown(data: seq<(string, Value)>, fallback: string)
    requires fallback != ""
    ensures Truthy(NameOr(data, fallback))
  {
  }
}
