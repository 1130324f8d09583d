/** The shared page chrome: the avatar initials and the name shown for the
    signed-in user, and the status badge lookup. */
module Ui {
  import opened JsValue
  import opened JsText

  /** The signed-in user; either property may be missing. */
  datatype User = User(name: Option<string>, email: Option<string>)

  /** `user?.p` is truthy: the user and the property exist and the text is
      not empty. */
  predicate Given(user: Option<User>, name: bool) {
    user.Some? && var p := if name then user.value.name else user.value.email;
    p.Some? && p.value != ""
  }

  function NameOf(user: Option<User>): string
    requires Given(user, true)
  {
    user.value.name.value
  }

  function EmailOf(user: Option<User>): string
    requires Given(user, false)
  {
    user.value.email.value
  }

  /** `pieces.map(n => n[0]).join('')`: the first character of every piece;
      an empty piece contributes nothing (`undefined` joins as ""). */
  function FirstChars(pieces: seq<string>): (r: string)
    ensures |r| <= |pieces|
  {
    if pieces == [] then ""
    else (if pieces[0] == "" then "" else [pieces[0][0]]) + FirstChars(pieces[1..])
  }

  /** Initials of a joined list are the initials of each part, joined. */
  lemma {:induction false} FirstCharsConcat(a: seq<string>, b: seq<string>)
    ensures FirstChars(a + b) == FirstChars(a) + FirstChars(b)
  {
    if a == [] {
      assert a + b == b;
    } else {
      assert (a + b)[0] == a[0];
      assert (a + b)[1..] == a[1..] + b;
      FirstCharsConcat(a[1..], b);
    }
  }

  /** One piece contributes its first character, or nothing when empty. */
  lemma FirstCharsOfOne(w: string)
    ensures FirstChars([w]) == if w == "" then "" else [w[0]]
  {
    assert [w][1..] == [];
  }

  /** `s.slice(0, 2)`. */
  function TakeTwo(s: string): (r: string)
    ensures |r| <= 2 && |r| <= |s| && r == s[..|r|]
    ensures |s| >= 2 ==> |r| == 2
  {
    if |s| <= 2 then s else s[..2]
  }

  /** `getUserInitials(user)`. */
  function Initials(user: Option<User>): (r: string)
    ensures |r| <= 2
    ensures forall i :: 0 <= i < |r| ==> !IsAsciiLower(r[i])
    ensures Given(user, true) ==> r == TakeTwo(ToUpper(FirstChars(Split(NameOf(user), ' '))))
    ensures !Given(user, true) && Given(user, false) ==> r == [UpperChar(EmailOf(user)[0])]
    ensures !Given(user, true) && !Given(user, false) ==> r == "U"
  {
    if Given(user, true) then TakeTwo(ToUpper(FirstChars(Split(NameOf(user), ' '))))
    else if Given(user, false) then [UpperChar(EmailOf(user)[0])]
    else "U"
  }

  /** A one-word name gives the upper-cased first letter. */
  lemma InitialOfOneWord(user: Option<User>)
    requires Given(user, true) && ' ' !in NameOf(user)
    ensures Initials(user) == [UpperChar(NameOf(user)[0])]
  {
    FirstPieceIsPrefix(NameOf(user), ' ');
  }

  /** A name of two words or more gives the upper-cased first letters of
      the first two words. */
  lemma InitialsOfTwoWords(user: Option<User>, first: string, second: string, rest: string)
    requires Given(user, true) && NameOf(user) == first + " " + second + rest
    requires first != "" && second != "" && ' ' !in first && ' ' !in second
    requires rest == "" || rest[0] == ' '
    ensures Initials(user) == [UpperChar(first[0]), UpperChar(second[0])]
  {
    var name := first + " " + second + rest;
    assert name == first + [' '] + (second + rest);
    SplitAfterPiece(first, ' ', second + rest);
    var tail := Split(second + rest, ' ');
    FirstPieceOf(second, ' ', rest);
    assert tail == [second] + tail[1..];
    FirstCharsOfTwo(first, second, tail[1..]);
    TakeTwoUpper(first[0], second[0], FirstChars(tail[1..]));
  }

  lemma FirstCharsOfTwo(a: string, b: string, more: seq<string>)
    requires a != "" && b != ""
    ensures FirstChars([a] + ([b] + more)) == [a[0], b[0]] + FirstChars(more)
  {
    assert ([a] + ([b] + more))[1..] == [b] + more;
    assert ([b] + more)[1..] == more;
  }

  lemma TakeTwoUpper(x: char, y: char, t: string)
    ensures TakeTwo(ToUpper([x, y] + t)) == [UpperChar(x), UpperChar(y)]
  {
    var u := ToUpper([x, y] + t);
    assert u[..2] == [u[0], u[1]];
  }

  /** The header's label: `user?.name || user?.email?.split('@')[0] || 'User'`. */
  function UserLabel(user: Option<User>): (caption: string)
    ensures caption != ""
    ensures Given(user, true) ==> caption == NameOf(user)
    ensures !Given(user, true) && Given(user, false) && EmailOf(user)[0] != '@' ==>
      (var e := EmailOf(user);
       |caption| <= |e| && caption == e[..|caption|] && '@' !in caption && (|caption| == |e| || e[|caption|] == '@'))
    ensures !Given(user, true) && !(Given(user, false) && EmailOf(user)[0] != '@') ==> caption == "User"
  {
    if Given(user, true) then NameOf(user)
    else if Given(user, false) then
      var local := Split(EmailOf(user), '@')[0];
      LocalPart(EmailOf(user));
      if local != "" then local else "User"
    else "User"
  }

  /** The part of an address before its first '@'; it is empty exactly when
      the address starts with '@'. */
  lemma LocalPart(e: string)
    requires e != ""
    ensures var p := Split(e, '@')[0];
      |p| <= |e| && p == e[..|p|] && '@' !in p && (|p| == |e| || e[|p|] == '@') && (p == "" <==> e[0] == '@')
  {
    FirstPieceIsPrefix(e, '@');
    FirstPieceEndsAtSeparator(e, '@');
  }

  /** The dropdown's heading: `user?.name || 'User'`. */
  function DropdownName(user: Option<User>): (name: string)
    ensures name != ""
    ensures Given(user, true) ==> name == NameOf(user)
    ensures !Given(user, true) ==> name == "User"
  {
    if Given(user, true) then NameOf(user) else "User"
  }

  /** An entry of the badge table. */
  datatype Badge = Badge(cssClass: string, caption: string)

  /** The badge table, keyed by lower-case status. */
  function BadgeFor(key: string): Option<Badge> {
    match key
    case "draft" => Some(Entry(key, "Draft"))
    case "pending" => Some(Entry(key, "Pending"))
    case "approved" => Some(Entry(key, "Approved"))
    case "final" => Some(Entry(key, "Final"))
    case "rejected" => Some(Entry(key, "Rejected"))
    case "sent" => Some(Entry(key, "Sent"))
    case _ => None
  }

  /** Each entry's class is "badge-" and its key. */
  function Entry(key: string, caption: string): Badge {
    Badge("badge-" + key, caption)
  }

  const DraftBadge := Entry("draft", "Draft")

  /** `StatusBadge`: the entry for the lower-cased status, the draft entry
      for a status that is missing or not in the table. */
  function StatusBadge(status: Option<string>): (b: Badge)
    ensures status.Some? && BadgeFor(ToLower(status.value)).Some? ==> b == BadgeFor(ToLower(status.value)).value
    ensures (status.None? || BadgeFor(ToLower(status.value)).None?) ==> b == DraftBadge
  {
    if status.Some? && BadgeFor(ToLower(status.value)).Some? then BadgeFor(ToLower(status.value)).value
    else DraftBadge
  }

  /** The keys of the badge table. */
  const BadgeKeys: set<string> := {"draft", "pending", "approved", "final", "rejected", "sent"}

  /** The rendered class: `badge ${config.class}`, so "badge badge-" and
      the lower-cased status when that is a key of the table, the draft
      class for anything else. */
  function StatusBadgeClass(status: Option<string>): (c: string)
    ensures status.Some? && ToLower(status.value) in BadgeKeys ==> c == "badge badge-" + ToLower(status.value)
    ensures (status.None? || ToLower(status.value) !in BadgeKeys) ==> c == "badge badge-draft"
  {
    BadgeKeysAndClasses(if status.Some? then ToLower(status.value) else "");
    "badge " + StatusBadge(status).cssClass
  }

  /** The table has an entry exactly for its six keys, and the entry's
      class is "badge-" and the key. */
  lemma BadgeKeysAndClasses(key: string)
    ensures BadgeFor(key).Some? <==> key in BadgeKeys
    ensures BadgeFor(key).Some? ==> BadgeFor(key).value.cssClass == "badge-" + key
  {
  }

  /** The lookup ignores case: a status and its lower-cased form give the
      same badge, and every badge shown is one of the table's. */
  lemma BadgeIgnoresCase(status: string)
    ensures StatusBadge(Some(status)) == StatusBadge(Some(ToLower(status)))
    ensures exists key :: BadgeFor(key) == Some(StatusBadge(Some(status)))
  {
    LowerIdempotent(status);
    if BadgeFor(ToLower(status)).None? {
      assert BadgeFor("draft") == Some(DraftBadge);
    }
  }
}
