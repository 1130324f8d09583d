/** The user's own submission list: one card per submission, with its
    status notices and a details panel that opens one card at a time. */
module SubmissionsList {
  import opened JsValue
  import opened Submissions

  /** `getDisplayName`: client name, else full name, else "N/A". */
  function DisplayName(data: seq<(string, Value)>): (name: Value)
    ensures Truthy(name)
    ensures name == NameOr(data, "N/A")
  {
    NameAlwaysShown(data, "N/A");
    NameOr(data, "N/A")
  }

  /** What a details cell shows for a value: "Yes"/"No" for a boolean,
      otherwise the value itself when truthy and "N/A" when not. */
  function DetailValue(value: Value): (shown: Value)
    ensures Truthy(shown)
    ensures value.Bool? ==> shown == Str(if value.b then "Yes" else "No")
    ensures !value.Bool? && Truthy(value) ==> shown == value
    ensures !value.Bool? && !Truthy(value) ==> shown == Str("N/A")
  {
    if value.Bool? then Str(if value.b then "Yes" else "No") else Or(value, Str("N/A"))
  }

  /** The details panel: one row per data entry, in entry order, with the
      key humanised and the value as `DetailValue` shows it. */
  function DetailRows(data: seq<(string, Value)>): (rows: seq<(string, Value)>)
    ensures |rows| == |data|
    ensures forall i :: 0 <= i < |data| ==> rows[i] == (Humanise(data[i].0), DetailValue(data[i].1))
  {
    seq(|data|, i requires 0 <= i < |data| => (Humanise(data[i].0), DetailValue(data[i].1)))
  }

  /** The status notices a card can show. `ZeroText` is the "0" a guard
      on a numeric zero prints in a notice's place. */
  datatype Notice = UnderReview | Download(url: Value) | Declined(message: Value) | ZeroText

  /** What a guarded notice leaves on the page. */
  function OnPage(g: Guarded<Notice>): seq<Notice> {
    match g
    case Present(n) => [n]
    case StrayZero => [ZeroText]
    case Absent => []
  }

  /** The notices of one card, in page order. */
  function Notices(s: Submission): (ns: seq<Notice>)
    ensures UnderReview in ns <==> s.status == "pending"
    ensures Download(s.pdfUrl) in ns <==> s.status == "approved" && Truthy(s.pdfUrl)
    ensures Declined(s.adminMessage) in ns <==> s.status == "rejected" && Truthy(s.adminMessage)
    ensures ZeroText in ns <==>
      (s.status == "approved" && s.pdfUrl == Int(0)) || (s.status == "rejected" && s.adminMessage == Int(0))
    ensures forall n :: n in ns ==>
      n == UnderReview || n == Download(s.pdfUrl) || n == Declined(s.adminMessage) || n == ZeroText
  {
    (if s.status == "pending" then [UnderReview] else [])
    + (if s.status == "approved" then OnPage(Guard(s.pdfUrl, Download(s.pdfUrl))) else [])
    + (if s.status == "rejected" then OnPage(Guard(s.adminMessage, Declined(s.adminMessage))) else [])
  }

  /** The statuses exclude one another, so a card shows at most one notice,
      and a download link only ever points at the submission's own file. */
  lemma AtMostOneNotice(s: Submission)
    ensures |Notices(s)| <= 1
    ensures forall n :: n in Notices(s) && n.Download? ==> Truthy(n.url) && n.url == s.pdfUrl
  {
  }

  /** The details of card `s` are open while the selected submission has its id. */
  predicate ShowsDetails(selected: Option<Submission>, s: Submission) {
    selected.Some? && selected.value.id == s.id
  }

  /** The card's toggle button: the selection a click on card `s` leaves. */
  function Toggled(selected: Option<Submission>, s: Submission): (next: Option<Submission>)
    ensures ShowsDetails(selected, s) ==> next.None?
    ensures !ShowsDetails(selected, s) ==> next == Some(s)
  {
    if ShowsDetails(selected, s) then None else Some(s)
  }

  /** A click opens a closed card and closes an open one; afterwards no
      card with another id is open; and two clicks on a card that was
      closed leave every card closed again. */
  lemma ToggleLaws(selected: Option<Submission>, s: Submission, t: Submission)
    ensures ShowsDetails(Toggled(selected, s), s) <==> !ShowsDetails(selected, s)
    ensures t.id != s.id ==> !ShowsDetails(Toggled(selected, s), t)
    ensures !ShowsDetails(selected, s) ==> Toggled(Toggled(selected, s), s).None?
  {
  }

  /** The caption of the toggle button. */
  function ToggleCaption(selected: Option<Submission>, s: Submission): (c: string)
    ensures c == "Hide Details" <==> ShowsDetails(selected, s)
    ensures c == "Hide Details" || c == "View Details"
  {
    var c := (if ShowsDetails(selected, s) then "Hide" else "View") + " Details";
    assert c[0] == 'H' <==> ShowsDetails(selected, s);
    c
  }

  /** One card as rendered. */
  datatype Card = Card(
    title: Value,
    badgeClass: string,
    caption: string,
    destination: Guarded<Value>,
    notices: seq<Notice>,
    toggleCaption: string,
    details: Option<seq<(string, Value)>>)

  function CardFor(selected: Option<Submission>, s: Submission): (c: Card)
    ensures c.title == DisplayName(s.data) && c.badgeClass == StatusBadgeClass(s.status)
    ensures c.caption == StatusCaption(s.status)
    ensures c.destination.Present? <==> Truthy(Get(s.data, "destination"))
    ensures c.destination.Present? ==> c.destination.element == Get(s.data, "destination")
    ensures c.destination.StrayZero? <==> Get(s.data, "destination") == Int(0)
    ensures c.notices == Notices(s) && c.toggleCaption == ToggleCaption(selected, s)
    ensures c.details.Some? <==> ShowsDetails(selected, s)
    ensures c.details.Some? ==> c.details.value == DetailRows(s.data)
  {
    var destination := Get(s.data, "destination");
    Card(DisplayName(s.data), StatusBadgeClass(s.status), StatusCaption(s.status),
         Guard(destination, destination),
         Notices(s), ToggleCaption(selected, s),
         if ShowsDetails(selected, s) then Some(DetailRows(s.data)) else None)
  }

  /** The list: an empty-state panel when there is no submission, else one
      card per submission in list order. */
  datatype ListView = NoSubmissions | Cards(cards: seq<Card>)

  function View(submissions: seq<Submission>, selected: Option<Submission>): (v: ListView)
    ensures v.NoSubmissions? <==> submissions == []
    ensures v.Cards? ==> |v.cards| == |submissions|
    ensures v.Cards? ==> forall i :: 0 <= i < |submissions| ==> v.cards[i] == CardFor(selected, submissions[i])
  {
    if submissions == [] then NoSubmissions
    else Cards(seq(|submissions|, i requires 0 <= i < |submissions| => CardFor(selected, submissions[i])))
  }

  /** Only the cards that share the selected id show details, so with
      distinct ids at most one card is open. */
  lemma AtMostOneOpen(submissions: seq<Submission>, selected: Option<Submission>, i: nat, j: nat)
    requires i < |submissions| && j < |submissions| && submissions[i].id != submissions[j].id
    ensures var v := View(submissions, selected);
      !(v.cards[i].details.Some? && v.cards[j].details.Some?)
  {
  }

  class SubmissionsListState {
    var selected: Option<Submission>

    constructor ()
      ensures selected.None?
    {
      selected := None;
    }

    /** A click on the toggle button of card `s`. */
    method Toggle(s: Submission)
      modifies this
      ensures selected == Toggled(old(selected), s)
    {
      if selected.Some? && selected.value.id == s.id {
        selected := None;
      } else {
        selected := Some(s);
      }
    }
  }
}
