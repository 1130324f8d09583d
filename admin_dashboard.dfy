/** The admin dashboard: the status counts over the fetched list, the
    status filter, and what happens after an approve or reject settles. */
module AdminDashboard {
  import opened JsValue
  import opened JsNumber
  import opened Submissions

  /** The number of submissions whose status is `status`. */
  function CountStatus(subs: seq<Submission>, status: string): (n: nat)
    ensures n <= |subs|
    ensures n == 0 <==> forall i :: 0 <= i < |subs| ==> subs[i].status != status
    decreases |subs|
  {
    if subs == [] then 0
    else CountStatus(subs[..|subs| - 1], status) + (if subs[|subs| - 1].status == status then 1 else 0)
  }

  datatype Stats = Stats(total: nat, pending: nat, approved: nat, rejected: nat)

  /** `stats`. */
  function StatsOf(subs: seq<Submission>): (s: Stats)
    ensures s.total == |subs|
    ensures s.pending == CountStatus(subs, "pending") && s.approved == CountStatus(subs, "approved")
      && s.rejected == CountStatus(subs, "rejected")
  {
    Stats(|subs|, CountStatus(subs, "pending"), CountStatus(subs, "approved"), CountStatus(subs, "rejected"))
  }

  predicate KnownStatus(status: string) {
    status == "pending" || status == "approved" || status == "rejected"
  }

  /** The three counts never add up to more than the total, and they add
      up to exactly the total when every status is one of the three. */
  lemma {:induction false} StatsBound(subs: seq<Submission>)
    ensures var s := StatsOf(subs); s.pending + s.approved + s.rejected <= s.total
    ensures var s := StatsOf(subs);
      s.pending + s.approved + s.rejected == s.total <==> forall i :: 0 <= i < |subs| ==> KnownStatus(subs[i].status)
    decreases |subs|
  {
    if subs != [] {
      var init := subs[..|subs| - 1];
      StatsBound(init);
      var s, t := StatsOf(subs), StatsOf(init);
      assert s.pending + s.approved + s.rejected
        == t.pending + t.approved + t.rejected + (if KnownStatus(subs[|subs| - 1].status) then 1 else 0);
      AllKnownSplit(subs);
    }
  }

  predicate AllKnown(subs: seq<Submission>) {
    forall i :: 0 <= i < |subs| ==> KnownStatus(subs[i].status)
  }

  lemma AllKnownSplit(subs: seq<Submission>)
    requires subs != []
    ensures AllKnown(subs) <==> AllKnown(subs[..|subs| - 1]) && KnownStatus(subs[|subs| - 1].status)
  {
    assert forall i :: 0 <= i < |subs| - 1 ==> subs[..|subs| - 1][i] == subs[i];
  }

  /** The filter tabs. */
  datatype Filter = All | Pending | Approved | Rejected

  /** The value sent with the list request. */
  function FilterValue(f: Filter): (v: string)
    ensures v in {"all", "pending", "approved", "rejected"}
  {
    match f
    case All => "all"
    case Pending => "pending"
    case Approved => "approved"
    case Rejected => "rejected"
  }

  /** Different tabs request different lists. */
  lemma FilterValuesDistinct(f: Filter, g: Filter)
    ensures FilterValue(f) == FilterValue(g) ==> f == g
  {
  }

  /** The text of an empty list. */
  function EmptyListText(f: Filter): (t: string)
    ensures f.All? ==> t == "No submissions yet."
    ensures !f.All? ==> t == "No " + FilterValue(f) + " submissions."
  {
    if f.All? then "No submissions yet." else "No " + FilterValue(f) + " submissions."
  }

  /** Each tab has its own empty-list text, and a filtered tab's text
      names the filter's value. */
  lemma EmptyListTextsDistinct(f: Filter, g: Filter)
    ensures EmptyListText(f) == EmptyListText(g) ==> f == g
    ensures !f.All? ==> EmptyListText(f)[3..3 + |FilterValue(f)|] == FilterValue(f)
  {
  }

  /** A card's title: client name, else full name, else "Unknown". */
  function CardTitle(s: Submission): (title: Value)
    ensures Truthy(title)
    ensures title == NameOr(s.data, "Unknown")
  {
    NameAlwaysShown(s.data, "Unknown");
    NameOr(s.data, "Unknown")
  }

  datatype NotificationKind = Success | Error
  datatype Notification = Notification(message: string, kind: NotificationKind)

  /** A decision the modal hands back. */
  datatype Decision = Approval | Rejection

  function SuccessMessage(d: Decision): string {
    match d
    case Approval => "Submission approved successfully!"
    case Rejection => "Submission rejected"
  }

  function FailureFallback(d: Decision): string {
    match d
    case Approval => "Failed to approve submission"
    case Rejection => "Failed to reject submission"
  }

  class AdminDashboardState {
    var submissions: seq<Submission>
    var loading: bool
    var filter: Filter
    var selected: Option<Submission>
    var notification: Option<Notification>

    /** The dashboard opens on the pending tab and starts fetching. */
    constructor ()
      ensures submissions == [] && loading && filter == Pending && selected.None? && notification.None?
    {
      submissions := [];
      loading := true;
      filter := Pending;
      selected := None;
      notification := None;
    }

    /** A filter tab. The list is fetched again, with the tab's value, only
        when the filter actually changes: the fetch runs as an effect of
        the filter, and setting a state to its current value re-renders
        nothing. */
    method SetFilter(f: Filter) returns (request: Option<string>)
      modifies this`filter, this`loading
      ensures filter == f
      ensures f == old(filter) ==> request.None? && loading == old(loading)
      ensures f != old(filter) ==> request == Some(FilterValue(f)) && loading
    {
      if f == filter {
        return None;
      }
      filter := f;
      loading := true;
      request := Some(FilterValue(f));
    }

    /** The list request settled. */
    method FetchSettled(outcome: Outcome<seq<Submission>>)
      modifies this`submissions, this`loading, this`notification
      ensures !loading
      ensures outcome.Succeeded? ==> submissions == outcome.value && notification == old(notification)
      ensures outcome.Failed? ==>
        (submissions == old(submissions) && notification == Some(Notification("Failed to fetch submissions", Error)))
    {
      match outcome {
        case Succeeded(list) =>
          submissions := list;
        case Failed(_) =>
          notification := Some(Notification("Failed to fetch submissions", Error));
      }
      loading := false;
    }

    method Select(s: Submission)
      modifies this`selected
      ensures selected == Some(s)
    {
      selected := Some(s);
    }

    method CloseModal()
      modifies this`selected
      ensures selected.None?
    {
      selected := None;
    }

    /** An approve or reject request settled. On success the notice is
        shown, the modal closes and the list is fetched again (the
        returned flag); on failure the modal stays open and the server's
        error, or the default message, is shown. */
    method DecisionSettled(d: Decision, outcome: Outcome<()>) returns (refetch: bool)
      modifies this`notification, this`selected, this`loading
      ensures refetch <==> outcome.Succeeded?
      ensures outcome.Succeeded? ==>
        notification == Some(Notification(SuccessMessage(d), Success)) && selected.None? && loading
      ensures outcome.Failed? ==>
        (notification == Some(Notification(ErrorText(outcome.serverError, FailureFallback(d)), Error))
         && selected == old(selected) && loading == old(loading))
    {
      match outcome {
        case Succeeded(_) =>
          notification := Some(Notification(SuccessMessage(d), Success));
          selected := None;
          loading := true;
          refetch := true;
        case Failed(serverError) =>
          notification := Some(Notification(ErrorText(serverError, FailureFallback(d)), Error));
          refetch := false;
      }
    }
  }
}
