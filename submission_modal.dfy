/** The admin's submission modal: field labels and value formatting for
    the data table, and the approve/reject controls with their state. */
module SubmissionModal {
  import opened JsValue
  import opened JsText
  import opened JsNumber
  import opened Submissions

  /** `fieldLabels`: the fixed captions of the known data keys. */
  function KnownLabel(key: string): (l: Option<string>)
    ensures l.Some? ==> l.value != ""
  {
    match key
    case "clientName" => Some("Client Name")
    case "email" => Some("Email Address")
    case "contactNo" => Some("Contact Number")
    case "destination" => Some("Destination")
    case "duration" => Some("Duration (Nights)")
    case "checkInDate" => Some("Check-in Date")
    case "checkOutDate" => Some("Check-out Date")
    case "numberOfAdults" => Some("Number of Adults")
    case "packageType" => Some("Package Type")
    case "mealPlan" => Some("Meal Plan")
    case "costPerAdult" => Some("Cost per Adult (INR)")
    case "additionalServices" => Some("Additional Services")
    case "advanceAmount" => Some("Advance Amount (INR)")
    case "paymentMode" => Some("Payment Mode")
    case "terms" => Some("Terms Accepted")
    case "fullName" => Some("Full Name")
    case "phone" => Some("Phone Number")
    case "dateOfBirth" => Some("Date of Birth")
    case "address" => Some("Address")
    case "occupation" => Some("Occupation")
    case "country" => Some("Country")
    case "experience" => Some("Years of Experience")
    case "comments" => Some("Additional Comments")
    case _ => None
  }

  /** `fieldLabels[key] || humanise(key)`. Every caption of the table is
      non-empty, so the humanised key is used exactly for unknown keys. */
  function FieldLabel(key: string): (caption: string)
    ensures KnownLabel(key).Some? ==> caption == KnownLabel(key).value && caption != ""
    ensures KnownLabel(key).None? ==> caption == Humanise(key)
  {
    match KnownLabel(key)
    case Some(c) => c
    case None => Humanise(key)
  }

  function PackageTypeName(v: string): (n: Option<string>)
    ensures n.Some? ==> n.value != ""
  {
    match v
    case "deluxe" => Some("Deluxe")
    case "standard" => Some("Standard")
    case "premium" => Some("Premium")
    case "luxury" => Some("Luxury")
    case _ => None
  }

  function MealPlanName(v: string): (n: Option<string>)
    ensures n.Some? ==> n.value != ""
  {
    match v
    case "MAP" => Some("MAP (Breakfast & Dinner)")
    case "CP" => Some("CP (Breakfast Only)")
    case "AP" => Some("AP (All Meals)")
    case "EP" => Some("EP (No Meals)")
    case _ => None
  }

  function CountryName(v: string): (n: Option<string>)
    ensures n.Some? ==> n.value != ""
  {
    match v
    case "us" => Some("United States")
    case "uk" => Some("United Kingdom")
    case "ca" => Some("Canada")
    case "au" => Some("Australia")
    case "other" => Some("Other")
    case _ => None
  }

  /** The table a key's values are mapped through, if any. A value is
      looked up by its text, as a property key is. */
  function MappedName(key: string, value: Value): (n: Option<string>)
    ensures n.Some? ==> n.value != ""
    ensures key != "packageType" && key != "mealPlan" && key != "country" ==> n.None?
  {
    if key == "packageType" then PackageTypeName(ToText(value))
    else if key == "mealPlan" then MealPlanName(ToText(value))
    else if key == "country" then CountryName(ToText(value))
    else None
  }

  predicate IsDateKey(key: string) {
    key == "checkInDate" || key == "checkOutDate" || key == "dateOfBirth"
  }

  predicate IsCurrencyKey(key: string) {
    key == "costPerAdult" || key == "advanceAmount"
  }

  /** What a data cell shows: a value, or a date or an amount that the
      browser's locale formatting renders from the raw value. */
  datatype Display = Shown(value: Value) | LocaleDate(raw: Value) | LocaleCurrency(raw: Value)

  /** `formatValue(key, value)`. */
  function FormatValue(key: string, value: Value): (d: Display)
    ensures key == "terms" ==> d == Shown(Str(if Truthy(value) then "Yes" else "No"))
    ensures key != "terms" && MappedName(key, value).Some? ==> d == Shown(Str(MappedName(key, value).value))
    ensures IsDateKey(key) ==> d == (if Truthy(value) then LocaleDate(value) else Shown(Str("N/A")))
    ensures IsCurrencyKey(key) ==> d == (if Truthy(value) then LocaleCurrency(value) else Shown(Str("N/A")))
    ensures key == "duration" ==> d == Shown(if Truthy(value) then Str(ToText(value) + " Nights") else Str("N/A"))
    ensures key != "terms" && MappedName(key, value).None? && !IsDateKey(key) && !IsCurrencyKey(key) && key != "duration"
      ==> d == Shown(Or(value, Str("N/A")))
  {
    if key == "terms" then Shown(Str(if Truthy(value) then "Yes" else "No"))
    else if MappedName(key, value).Some? then Shown(Str(MappedName(key, value).value))
    else if IsDateKey(key) && Truthy(value) then LocaleDate(value)
    else if IsCurrencyKey(key) && Truthy(value) then LocaleCurrency(value)
    else if key == "duration" && Truthy(value) then Shown(Str(ToText(value) + " Nights"))
    else Shown(Or(value, Str("N/A")))
  }

  /** Whether React draws anything for a value placed in the page: `true`,
      `false`, `null` and `undefined` draw nothing. */
  predicate Drawn(v: Value) {
    match v
    case Undefined => false
    case Null => false
    case Bool(_) => false
    case Int(_) => true
    case Str(s) => s != ""
    case Composite(t) => t != ""
  }

  /** Whatever a cell shows as a value is truthy, and apart from arrays and
      objects it is drawn unless it is the boolean `true`. */
  lemma ShownCellsTruthy(key: string, value: Value)
    ensures FormatValue(key, value).Shown? ==> Truthy(FormatValue(key, value).value)
    ensures FormatValue(key, value).Shown? && !FormatValue(key, value).value.Composite? ==>
      (Drawn(FormatValue(key, value).value) <==> FormatValue(key, value).value != Bool(true))
  {
  }

  /** A `true` under a key with no formatting of its own (a ticked box such
      as `acceptTerms`) passes through `value || 'N/A'` unchanged, so its
      cell is left blank. */
  lemma TrueCellIsBlank(key: string)
    requires key != "terms" && key != "duration" && !IsDateKey(key) && !IsCurrencyKey(key)
    ensures FormatValue(key, Bool(true)) == Shown(Bool(true))
    ensures !Drawn(FormatValue(key, Bool(true)).value)
  {
    assert ToText(Bool(true)) == "true";
    assert MappedName(key, Bool(true)).None?;
  }

  /** The class of the status badge: anything that is neither pending nor
      approved is styled as rejected. */
  function ModalBadgeClass(status: string): (c: string)
    ensures status == "pending" ==> c == "badge badge-pending"
    ensures status == "approved" ==> c == "badge badge-approved"
    ensures status != "pending" && status != "approved" ==> c == "badge badge-rejected"
  {
    if status == "pending" then "badge badge-pending"
    else if status == "approved" then "badge badge-approved"
    else "badge badge-rejected"
  }

  /** The modal's badge agrees with the list's for the three known
      statuses; for any other status the list shows a plain badge while
      the modal shows the rejected one. */
  lemma ModalBadgeMatchesList(status: string)
    ensures status in {"pending", "approved", "rejected"} ==> ModalBadgeClass(status) == StatusBadgeClass(status)
    ensures status !in {"pending", "approved", "rejected"} ==> ModalBadgeClass(status) != StatusBadgeClass(status)
  {
  }

  /** The footer's controls. */
  datatype Control = Approve | OpenReject | ConfirmRejection | CancelReject | CancelModal | Close

  /** The footer: the decision controls only for a pending submission,
      otherwise only Close. */
  function FooterControls(status: string, showRejectForm: bool): (cs: set<Control>)
    ensures status != "pending" ==> cs == {Close}
    ensures status == "pending" && !showRejectForm ==> cs == {Approve, OpenReject, CancelModal}
    ensures status == "pending" && showRejectForm ==> cs == {ConfirmRejection, CancelReject}
  {
    if status != "pending" then {Close}
    else if !showRejectForm then {Approve, OpenReject, CancelModal}
    else {ConfirmRejection, CancelReject}
  }

  /** A decision control is on offer only while the submission is pending. */
  lemma DecisionsOnlyWhilePending(status: string, showRejectForm: bool)
    ensures Approve in FooterControls(status, showRejectForm) || ConfirmRejection in FooterControls(status, showRejectForm)
      ==> status == "pending"
    ensures status != "pending" ==>
      (Approve !in FooterControls(status, showRejectForm) && ConfirmRejection !in FooterControls(status, showRejectForm)
       && Close in FooterControls(status, showRejectForm))
  {
  }

  /** The message `alert` shows when the rejection reason is blank. */
  const BlankReasonAlert := "Please provide a rejection message"

  class SubmissionModalState {
    var showRejectForm: bool
    var rejectMessage: string
    var processing: bool

    constructor ()
      ensures !showRejectForm && rejectMessage == "" && !processing
    {
      showRejectForm := false;
      rejectMessage := "";
      processing := false;
    }

    /** The Reject button: show the reason form. */
    method OpenRejectForm()
      modifies this`showRejectForm
      ensures showRejectForm
    {
      showRejectForm := true;
    }

    method SetRejectMessage(message: string)
      modifies this`rejectMessage
      ensures rejectMessage == message
    {
      rejectMessage := message;
    }

    /** Cancel in the reason form: hide it and clear the reason. */
    method CancelReject()
      modifies this`showRejectForm, this`rejectMessage
      ensures !showRejectForm && rejectMessage == ""
    {
      showRejectForm := false;
      rejectMessage := "";
    }

    /** Approve & Generate PDF (disabled while processing): mark processing
        and call `onApprove` with the submission's id. */
    method HandleApprove(s: Submission) returns (onApprove: Option<string>)
      modifies this`processing
      ensures old(processing) ==> onApprove.None? && processing
      ensures !old(processing) ==> onApprove == Some(s.id) && processing
    {
      if processing {
        return None;
      }
      processing := true;
      onApprove := Some(s.id);
    }

    /** Confirm Rejection (disabled while processing): a blank reason only
        raises the alert; otherwise mark processing and call `onReject`
        with the id and the reason as typed. */
    method HandleReject(s: Submission) returns (onReject: Option<(string, string)>, alert: Option<string>)
      modifies this`processing
      ensures old(processing) ==> onReject.None? && alert.None? && processing
      ensures !old(processing) && IsBlank(rejectMessage) ==> onReject.None? && alert == Some(BlankReasonAlert) && !processing
      ensures !old(processing) && !IsBlank(rejectMessage) ==> onReject == Some((s.id, rejectMessage)) && alert.None? && processing
    {
      if processing {
        return None, None;
      }
      if IsBlank(rejectMessage) {
        return None, Some(BlankReasonAlert);
      }
      processing := true;
      onReject, alert := Some((s.id, rejectMessage)), None;
    }

    /** The awaited callback settled. There is no `finally`: processing is
        cleared only when the callback resolves. */
    method DecisionSettled(outcome: Outcome<()>)
      modifies this`processing
      ensures outcome.Succeeded? ==> !processing
      ensures outcome.Failed? ==> processing == old(processing)
    {
      if outcome.Succeeded? {
        processing := false;
      }
    }
  }
}
