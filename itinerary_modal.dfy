/** The admin's itinerary modal: the decision footer, which only a pending
    submission gets, and the loading flag the decision handlers keep. */
module ItineraryModal {
  import opened JsValue
  import opened JsText
  import opened Submissions

  /** The footer's controls. */
  datatype Control = Reject | Approve | CancelReject | ConfirmRejection | Close

  /** What the footer shows: the decision controls for a pending
      submission, otherwise the status chip and Close. */
  datatype Footer = Decision(controls: set<Control>) | Decided(chipClass: string, caption: string, controls: set<Control>)

  function FooterFor(s: Submission, showRejectForm: bool): (f: Footer)
    ensures f.Decision? <==> s.status == "pending"
    ensures f.Decision? ==> f.controls == if showRejectForm then {CancelReject, ConfirmRejection} else {Reject, Approve}
    ensures f.Decided? ==> f.controls == {Close} && f.caption == StatusCaption(s.status)
    ensures f.Decided? ==> f.chipClass == if s.status == "approved" then "bg-green-100 text-green-800" else "bg-red-100 text-red-800"
  {
    if s.status == "pending" then
      Decision(if showRejectForm then {CancelReject, ConfirmRejection} else {Reject, Approve})
    else
      Decided(if s.status == "approved" then "bg-green-100 text-green-800" else "bg-red-100 text-red-800",
              StatusCaption(s.status), {Close})
  }

  /** A decided submission offers no decision, only Close. */
  lemma NoDecisionOnceDecided(s: Submission, showRejectForm: bool)
    requires s.status != "pending"
    ensures var f := FooterFor(s, showRejectForm);
      Approve !in f.controls && ConfirmRejection !in f.controls && Reject !in f.controls && f.controls == {Close}
  {
  }

  /** `disabled={loading || !rejectMessage.trim()}`. */
  function ConfirmDisabled(loading: bool, rejectMessage: string): (disabled: bool)
    ensures disabled <==> loading || IsBlank(rejectMessage)
  {
    TrimEmptyIffBlank(rejectMessage);
    loading || Trim(rejectMessage) == ""
  }

  const BlankReasonAlert := "Please provide a reason for rejection"

  class ItineraryModalState {
    var rejectMessage: string
    var showRejectForm: bool
    var loading: bool

    constructor ()
      ensures rejectMessage == "" && !showRejectForm && !loading
    {
      rejectMessage := "";
      showRejectForm := false;
      loading := false;
    }

    method OpenRejectForm()
      modifies this`showRejectForm
      ensures showRejectForm
    {
      showRejectForm := true;
    }

    method SetRejectMessage(message: string)
      modifies this`rejectMessage
      ensures rejectMessage == message
    {
      rejectMessage := message;
    }

    /** Cancel in the reason form hides it; the reason typed so far is kept. */
    method CancelReject()
      modifies this`showRejectForm
      ensures !showRejectForm
    {
      showRejectForm := false;
    }

    /** The Approve button (disabled while loading): `handleApprove` up to
        its `await` sets loading and calls `onApprove` with the id. */
    method HandleApprove(s: Submission) returns (onApprove: Option<string>)
      modifies this`loading
      ensures old(loading) ==> onApprove.None? && loading
      ensures !old(loading) ==> onApprove == Some(s.id) && loading
    {
      if loading {
        return None;
      }
      loading := true;
      onApprove := Some(s.id);
    }

    /** `handleReject` up to its `await`: a blank reason only raises the
        alert; otherwise set loading and call `onReject` with the id and
        the reason as typed. */
    method HandleReject(s: Submission) returns (onReject: Option<(string, string)>, alert: Option<string>)
      modifies this`loading
      ensures IsBlank(rejectMessage) ==> onReject.None? && alert == Some(BlankReasonAlert) && loading == old(loading)
      ensures !IsBlank(rejectMessage) ==> onReject == Some((s.id, rejectMessage)) && alert.None? && loading
    {
      if IsBlank(rejectMessage) {
        return None, Some(BlankReasonAlert);
      }
      loading := true;
      onReject, alert := Some((s.id, rejectMessage)), None;
    }

    /** The awaited callback settled, resolved or rejected: the `finally`
        clears loading either way. */
    method DecisionSettled(outcome: Outcome<()>)
      modifies this`loading
      ensures !loading
    {
      loading := false;
    }
  }

  /** A confirm button that is enabled never hits the blank-reason alert. */
  lemma EnabledConfirmPassesGuard(loading: bool, rejectMessage: string)
    requires !ConfirmDisabled(loading, rejectMessage)
    ensures !loading && Trim(rejectMessage) != ""
  {
    TrimEmptyIffBlank(rejectMessage);
  }
}
