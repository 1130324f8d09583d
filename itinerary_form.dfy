/** The itinerary form: its editable lists of days and hotels, the
    catalogue preselection made when the schema loads, the field rules it
    declares, and the order of checks that decides whether a submission is
    sent. */
module ItineraryForm {
  import opened JsValue
  import opened JsText
  import opened JsNumber
  import opened Collections
  import D = DayItinerarySection
  import H = HotelSection

  // ---------------------------------------------------------------------
  // Days

  /** The day a new form starts with, and the day `addDay` appends. */
  function NewDay(n: int): D.Day {
    D.Day(n, None, "", "", None, None)
  }

  /** Day `i` carries day number `i + 1`. */
  predicate DaysNumbered(days: seq<D.Day>) {
    forall i :: 0 <= i < |days| ==> days[i].dayNumber == i + 1
  }

  /** `addDay`: one day appended, numbered one past the old length, with an
      empty title and description; the earlier days are unchanged. */
  function WithNewDay(days: seq<D.Day>): (r: seq<D.Day>)
    ensures |r| == |days| + 1 && r[..|days|] == days
    ensures r[|days|].dayNumber == |days| + 1 && r[|days|].title == "" && r[|days|].description == ""
  {
    days + [NewDay(|days| + 1)]
  }

  /** The list with day `i` numbered `i + 1` and nothing else changed. */
  function RenumberedDays(days: seq<D.Day>): (r: seq<D.Day>)
    ensures |r| == |days| && DaysNumbered(r)
    ensures forall i :: 0 <= i < |r| ==> r[i] == days[i].(dayNumber := i + 1)
  {
    seq(|days|, i requires 0 <= i < |days| => days[i].(dayNumber := i + 1))
  }

  /** What `removeDay(index)` leaves: with more than one day, the list
      without position `index`, renumbered; otherwise the list itself. */
  function WithoutDay(days: seq<D.Day>, index: int): seq<D.Day> {
    if |days| > 1 then RenumberedDays(RemoveAt(days, index)) else days
  }

  /** An edit the day cards can make to the list. */
  datatype DayEdit =
    | AddDay
    | RemoveDay(position: int)
    | EditDay(index: nat, field: D.DayField, value: string)

  /** The list after one edit; a field edit goes through the card's
      `handleChange` and then the form's `handleDayChange`. A card exists
      only for a position of the list, so an edit elsewhere does nothing. */
  function ApplyDayEdit(days: seq<D.Day>, e: DayEdit): seq<D.Day> {
    match e
    case AddDay => WithNewDay(days)
    case RemoveDay(index) => WithoutDay(days, index)
    case EditDay(index, field, value) =>
      if index < |days| then days[index := D.HandleChange(days[index], field, value)] else days
  }

  function ApplyDayEdits(days: seq<D.Day>, edits: seq<DayEdit>): seq<D.Day>
    decreases |edits|
  {
    if edits == [] then days else ApplyDayEdits(ApplyDayEdit(days, edits[0]), edits[1..])
  }

  /** One edit keeps the list non-empty and numbered `1..n`. */
  lemma DayEditKeepsNumbering(days: seq<D.Day>, e: DayEdit)
    requires |days| >= 1 && DaysNumbered(days)
    ensures |ApplyDayEdit(days, e)| >= 1 && DaysNumbered(ApplyDayEdit(days, e))
  {
    match e
    case AddDay =>
      var r := WithNewDay(days);
      forall i | 0 <= i < |r| ensures r[i].dayNumber == i + 1 {
        if i < |days| { assert r[i] == r[..|days|][i]; }
      }
    case RemoveDay(index) =>
    case EditDay(index, field, value) =>
  }

  /** Whatever the sequence of adds, removes and field edits, the form's
      days stay non-empty and day `i` is numbered `i + 1`. */
  lemma {:induction false} NumberingSurvivesEdits(days: seq<D.Day>, edits: seq<DayEdit>)
    requires |days| >= 1 && DaysNumbered(days)
    ensures |ApplyDayEdits(days, edits)| >= 1 && DaysNumbered(ApplyDayEdits(days, edits))
    decreases |edits|
  {
    if edits != [] {
      DayEditKeepsNumbering(days, edits[0]);
      NumberingSurvivesEdits(ApplyDayEdit(days, edits[0]), edits[1..]);
    }
  }

  /** A day card offers removal only while there is more than one day, so a
      removal it makes deletes exactly that day and keeps the others in order. */
  lemma RemovalFromCard(days: seq<D.Day>, index: nat)
    requires index < |days| && D.RemoveAction(|days| > 1, index).Some?
    ensures var r := ApplyDayEdit(days, RemoveDay(index));
      |r| == |days| - 1 >= 1 && DaysNumbered(r)
      && forall i :: 0 <= i < |r| ==> r[i] == (if i < index then days[i] else days[i + 1]).(dayNumber := i + 1)
  {
  }

  // ---------------------------------------------------------------------
  // Hotels

  /** The entry the form's hotel list starts with, in the booking shape. */
  const SeedHotel: H.Hotel :=
    H.Hotel(None, None, None, "", Some("3*"), None, None, None, None, None, None, Some(0), Some(0))

  /** The seeded entry has no night number, so the list the form starts
      with is not numbered 1..n, nor is it after a night is added; the
      numbers that are present still sit at their positions. */
  lemma SeedListUnnumbered()
    ensures !H.NightsNumbered([SeedHotel]) && H.NightsAtPositions([SeedHotel])
    ensures !H.NightsNumbered(H.AddHotel([SeedHotel])) && H.NightsAtPositions(H.AddHotel([SeedHotel]))
  {
    assert [SeedHotel][0].nightNumber.None?;
    assert H.AddHotel([SeedHotel])[0].nightNumber.None?;
    H.AddHotelKeepsPositions([SeedHotel]);
  }

  /** A removal from a list of two or more numbers every entry, the seeded
      one included. */
  lemma RemovalNumbersSeed(index: int)
    ensures var r := H.Renumbered(RemoveAt(H.AddHotel([SeedHotel]), index));
      H.NightsNumbered(r) && (index != 0 ==> r[0] == SeedHotel.(nightNumber := Some(1)))
  {
    var l := H.AddHotel([SeedHotel]);
    if index != 0 {
      assert RemoveAt(l, index)[0] == l[0];
    }
  }

  /** `!h.name.trim() || h.packageCostPerPerson <= 0`. A missing price is
      `undefined`, and `undefined <= 0` is false. */
  predicate HotelUnpriced(h: H.Hotel) {
    IsBlank(h.name) || (h.packageCostPerPerson.Some? && h.packageCostPerPerson.value <= 0)
  }

  /** No input of the hotel editor sets a price, so the seeded entry, whose
      price is 0, fails the pricing check whatever is typed into it. */
  lemma SeedStaysUnpriced(h: H.Hotel, f: H.HotelField, value: string)
    requires h.packageCostPerPerson == Some(0)
    ensures HotelUnpriced(H.SetField(h, f, value))
    ensures HotelUnpriced(SeedHotel)
  {
  }

  /** An entry appended by the hotel editor has no price at all, so it
      passes the pricing check as soon as its name is not blank. */
  lemma NightEntryPricedByName(h: H.Hotel)
    requires h.packageCostPerPerson.None?
    ensures HotelUnpriced(h) <==> IsBlank(h.name)
  {
  }

  // ---------------------------------------------------------------------
  // Field rules declared to react-hook-form

  /** The registered fields. Number inputs hold `None` while empty. */
  datatype FormData = FormData(
    destination: string,
    travelDate: string,
    duration: Option<int>,
    adults: Option<int>,
    children: Option<int>,
    infants: Option<int>,
    hotelCategory: string,
    mealPlan: string,
    transferPlan: string,
    acceptTerms: bool)

  const DefaultFormData: FormData :=
    FormData("", "", Some(3), Some(2), Some(0), Some(0), "3*", "BREAKFAST", "PRIVATE", false)

  datatype FormField = Destination | TravelDate | Duration | Adults | Children | Infants | AcceptTerms

    /** A rule as registered: an optional required message and an optional
      minimum with its message. */
  datatype Rule = Rule(required: Option<string>, min: Option<(int, string)>)

  const DestinationRequired := "Destination is required"
  const TravelDateRequired := "Travel date is required"
  const DurationRequired := "Duration is required"
  const AdultsRequired := "Number of adults is required"
  const TermsRequired := "You must accept the terms"
  const MinimumNight := "Minimum 1 night"
  const MinimumAdult := "Minimum 1 adult"
  const NotNegative := "Cannot be negative"

  function RuleFor(f: FormField): (r: Rule)
    ensures r.required.Some? || r.min.Some?
    ensures r.required.Some? <==> f !in {Children, Infants}
    ensures r.min.Some? <==> f in {Duration, Adults, Children, Infants}
    ensures r.min.Some? ==> r.min.value.0 == if f in {Children, Infants} then 0 else 1
  {
    match f
    case Destination => Rule(Some(DestinationRequired), None)
    case TravelDate => Rule(Some(TravelDateRequired), None)
    case Duration => Rule(Some(DurationRequired), Some((1, MinimumNight)))
    case Adults => Rule(Some(AdultsRequired), Some((1, MinimumAdult)))
    case Children => Rule(None, Some((0, NotNegative)))
    case Infants => Rule(None, Some((0, NotNegative)))
    case AcceptTerms => Rule(Some(TermsRequired), None)
  }

  /** A field's value as react-hook-form sees it: empty, a number, text or a tick. */
  datatype Input = EmptyInput | NumberInput(n: int) | TextInput(s: string) | Tick(checked: bool)

  function InputOf(form: FormData, f: FormField): Input {
    match f
    case Destination => if form.destination == "" then EmptyInput else TextInput(form.destination)
    case TravelDate => if form.travelDate == "" then EmptyInput else TextInput(form.travelDate)
    case Duration => if form.duration.None? then EmptyInput else NumberInput(form.duration.value)
    case Adults => if form.adults.None? then EmptyInput else NumberInput(form.adults.value)
    case Children => if form.children.None? then EmptyInput else NumberInput(form.children.value)
    case Infants => if form.infants.None? then EmptyInput else NumberInput(form.infants.value)
    case AcceptTerms => Tick(form.acceptTerms)
  }

  /** The message of the first rule a value breaks: an empty value (or an
      unticked box) breaks `required`; a number below the minimum breaks
      `min`; the minimum is not checked on an empty value. */
  function RuleError(rule: Rule, v: Input): Option<string> {
    var empty := v.EmptyInput? || (v.Tick? && !v.checked);
    if empty && rule.required.Some? then Some(rule.required.value)
    else if v.NumberInput? && rule.min.Some? && v.n < rule.min.value.0 then Some(rule.min.value.1)
    else None
  }

  datatype FieldError = FieldError(field: FormField, message: string)

  /** Some rule of field `f` is broken by the form's value. */
  predicate Broken(form: FormData, f: FormField) {
    RuleError(RuleFor(f), InputOf(form, f)).Some?
  }

  /** The message of the first rule field `f` breaks. */
  function Message(form: FormData, f: FormField): string
    requires Broken(form, f)
  {
    RuleError(RuleFor(f), InputOf(form, f)).value
  }

  /** The error a field reports, if its rule is broken. */
  function ErrorOf(form: FormData, f: FormField): (r: seq<FieldError>)
    ensures Broken(form, f) ==> r == [FieldError(f, Message(form, f))]
    ensures !Broken(form, f) ==> r == []
  {
    match RuleError(RuleFor(f), InputOf(form, f))
    case None => []
    case Some(m) => [FieldError(f, m)]
  }

  /** The place of a field in registration order. */
  function Registered(f: FormField): (n: nat)
    ensures n < 7
  {
    match f
    case Destination => 0
    case TravelDate => 1
    case Duration => 2
    case Adults => 3
    case Children => 4
    case Infants => 5
    case AcceptTerms => 6
  }

  /** Every entry of `r` is a broken field registered before place `n`,
      with that field's message. */
  predicate SoundUpTo(form: FormData, r: seq<FieldError>, n: nat) {
    forall i :: 0 <= i < |r| ==>
      Registered(r[i].field) < n && Broken(form, r[i].field) && r[i].message == Message(form, r[i].field)
  }

  /** Every broken field registered before place `n` is in `r`, with its
      message. */
  predicate CompleteUpTo(form: FormData, r: seq<FieldError>, n: nat) {
    forall f :: Registered(f) < n && Broken(form, f) ==> FieldError(f, Message(form, f)) in r
  }

  /** The entries of `r` follow registration order, each field at most once. */
  predicate InRegistrationOrder(r: seq<FieldError>) {
    forall i, j :: 0 <= i < j < |r| ==> Registered(r[i].field) < Registered(r[j].field)
  }

  /** `r` reports, in registration order and each with its rule's
      message, exactly the broken fields registered before place `n`. */
  predicate ReportsUpTo(form: FormData, r: seq<FieldError>, n: nat) {
    SoundUpTo(form, r, n) && CompleteUpTo(form, r, n) && InRegistrationOrder(r)
  }

  lemma SoundNext(form: FormData, r: seq<FieldError>, f: FormField, n: nat)
    requires n == Registered(f) && SoundUpTo(form, r, n)
    ensures SoundUpTo(form, r + ErrorOf(form, f), n + 1)
  {
  }

  lemma CompleteNext(form: FormData, r: seq<FieldError>, f: FormField, n: nat)
    requires n == Registered(f) && CompleteUpTo(form, r, n)
    ensures CompleteUpTo(form, r + ErrorOf(form, f), n + 1)
  {
  }

  lemma OrderNext(form: FormData, r: seq<FieldError>, f: FormField, n: nat)
    requires n == Registered(f) && SoundUpTo(form, r, n) && InRegistrationOrder(r)
    ensures InRegistrationOrder(r + ErrorOf(form, f))
  {
  }

  /** Validating the field registered at place `n` extends the report by
      its error. */
  lemma ReportNext(form: FormData, r: seq<FieldError>, f: FormField, n: nat)
    requires n == Registered(f) && ReportsUpTo(form, r, n)
    ensures ReportsUpTo(form, r + ErrorOf(form, f), n + 1)
  {
    SoundNext(form, r, f, n);
    CompleteNext(form, r, f, n);
    OrderNext(form, r, f, n);
  }

  /** Validating the destination, the first registered field. */
  lemma ReportFirst(form: FormData)
    ensures ReportsUpTo(form, ErrorOf(form, Destination), 1)
  {
  }

  /** Validating destination, travel date and duration. */
  lemma ReportFirstThree(form: FormData)
    ensures ReportsUpTo(form, ErrorOf(form, Destination) + ErrorOf(form, TravelDate) + ErrorOf(form, Duration), 3)
  {
    ReportFirst(form);
    ReportNext(form, ErrorOf(form, Destination), TravelDate, 1);
    ReportNext(form, ErrorOf(form, Destination) + ErrorOf(form, TravelDate), Duration, 2);
  }

  /** Validating the head counts after the first three fields. */
  lemma ReportFirstFive(form: FormData)
    ensures ReportsUpTo(form, ErrorOf(form, Destination) + ErrorOf(form, TravelDate) + ErrorOf(form, Duration)
      + ErrorOf(form, Adults) + ErrorOf(form, Children), 5)
  {
    ReportFirstThree(form);
    var c := ErrorOf(form, Destination) + ErrorOf(form, TravelDate) + ErrorOf(form, Duration);
    ReportNext(form, c, Adults, 3);
    ReportNext(form, c + ErrorOf(form, Adults), Children, 4);
  }

  /** Validating the seven fields in registration order reports every
      broken one. */
  lemma ReportAll(form: FormData)
    ensures ReportsUpTo(form, ErrorOf(form, Destination) + ErrorOf(form, TravelDate) + ErrorOf(form, Duration)
      + ErrorOf(form, Adults) + ErrorOf(form, Children) + ErrorOf(form, Infants)
      + ErrorOf(form, AcceptTerms), 7)
  {
    ReportFirstFive(form);
    var e := ErrorOf(form, Destination) + ErrorOf(form, TravelDate) + ErrorOf(form, Duration)
      + ErrorOf(form, Adults) + ErrorOf(form, Children);
    ReportNext(form, e, Infants, 5);
    ReportNext(form, e + ErrorOf(form, Infants), AcceptTerms, 6);
  }

  /** The errors react-hook-form reports for a submission, one per broken
      field, in registration order. */
  function FieldErrors(form: FormData): (r: seq<FieldError>)
    ensures forall i :: 0 <= i < |r| ==> Broken(form, r[i].field) && r[i].message == Message(form, r[i].field)
    ensures forall f :: Broken(form, f) ==> FieldError(f, Message(form, f)) in r
    ensures forall i, j :: 0 <= i < j < |r| ==> Registered(r[i].field) < Registered(r[j].field)
  {
    ReportAll(form);
    ErrorOf(form, Destination) + ErrorOf(form, TravelDate) + ErrorOf(form, Duration)
    + ErrorOf(form, Adults) + ErrorOf(form, Children) + ErrorOf(form, Infants)
    + ErrorOf(form, AcceptTerms)
  }

  /** The declared rules, stated outright: the form passes them exactly
      when destination and travel date are filled in, duration and adults
      are given and at least 1, children and infants are not negative when
      given, and the terms are accepted. */
  lemma FieldRulesMeaning(form: FormData)
    ensures FieldErrors(form) == [] <==>
      && form.destination != "" && form.travelDate != ""
      && form.duration.Some? && form.duration.value >= 1
      && form.adults.Some? && form.adults.value >= 1
      && (form.children.None? || form.children.value >= 0)
      && (form.infants.None? || form.infants.value >= 0)
      && form.acceptTerms
  {
    NoErrorsIffEach(form);
  }

  /** No error is reported exactly when no field reports one. */
  lemma NoErrorsIffEach(form: FormData)
    ensures FieldErrors(form) == [] <==>
      && ErrorOf(form, Destination) == [] && ErrorOf(form, TravelDate) == []
      && ErrorOf(form, Duration) == [] && ErrorOf(form, Adults) == []
      && ErrorOf(form, Children) == [] && ErrorOf(form, Infants) == []
      && ErrorOf(form, AcceptTerms) == []
  {
    assert |FieldErrors(form)| == |ErrorOf(form, Destination)| + |ErrorOf(form, TravelDate)|
      + |ErrorOf(form, Duration)| + |ErrorOf(form, Adults)| + |ErrorOf(form, Children)|
      + |ErrorOf(form, Infants)| + |ErrorOf(form, AcceptTerms)|;
  }

  /** An untouched form breaks exactly three rules: destination, travel
      date and the terms. */
  lemma UntouchedFormErrors()
    ensures FieldErrors(DefaultFormData) == [
      FieldError(Destination, DestinationRequired),
      FieldError(TravelDate, TravelDateRequired),
      FieldError(AcceptTerms, TermsRequired)]
  {
    var form := DefaultFormData;
    assert ErrorOf(form, Destination) == [FieldError(Destination, DestinationRequired)];
    assert ErrorOf(form, TravelDate) == [FieldError(TravelDate, TravelDateRequired)];
    assert ErrorOf(form, Duration) == [] && ErrorOf(form, Adults) == [];
    assert ErrorOf(form, Children) == [] && ErrorOf(form, Infants) == [];
    assert ErrorOf(form, AcceptTerms) == [FieldError(AcceptTerms, TermsRequired)];
  }

  // ---------------------------------------------------------------------
  // The checks of `onSubmit`

  predicate DayIncomplete(d: D.Day) {
    IsBlank(d.title) || IsBlank(d.description)
  }

  /** `days.find(...)` from position `from` on: the position of the first
      day with a blank title or description. */
  function FirstIncompleteFrom(days: seq<D.Day>, from: nat): (r: Option<nat>)
    requires from <= |days|
    ensures r.Some? ==> from <= r.value < |days| && DayIncomplete(days[r.value])
                        && forall j :: from <= j < r.value ==> !DayIncomplete(days[j])
    ensures r.None? ==> forall j :: from <= j < |days| ==> !DayIncomplete(days[j])
    decreases |days| - from
  {
    if from == |days| then None
    else if DayIncomplete(days[from]) then Some(from)
    else FirstIncompleteFrom(days, from + 1)
  }

  function FirstIncompleteDay(days: seq<D.Day>): Option<nat> {
    FirstIncompleteFrom(days, 0)
  }

  const NoDaysMessage := "Please add at least one day to the itinerary"
  const NoHotelsMessage := "Please add at least one hotel option"
  const UnpricedHotelMessage := "Please fill in all hotel details with valid pricing"
  const NoInclusionsMessage := "Please add at least one inclusion"

  function IncompleteDayMessage(dayNumber: int): string {
    "Day " + IntToString(dayNumber) + ": Please fill in both title and description"
  }

  /** The checks, in the order `onSubmit` makes them. */
  datatype DraftCheck = HasDays | DaysComplete | HasHotels | HotelsPriced | HasInclusions

    predicate Passes(c: DraftCheck, days: seq<D.Day>, hotels: seq<H.Hotel>, inclusions: seq<string>) {
    match c
    case HasDays => |days| != 0
    case DaysComplete => forall i :: 0 <= i < |days| ==> !DayIncomplete(days[i])
    case HasHotels => |hotels| != 0
    case HotelsPriced => forall i :: 0 <= i < |hotels| ==> !HotelUnpriced(hotels[i])
    case HasInclusions => |inclusions| != 0
  }

  /** The message a failed check shows; the day check names the number of
      the first incomplete day. */
  function FailureMessage(c: DraftCheck, days: seq<D.Day>): string {
    match c
    case HasDays => NoDaysMessage
    case DaysComplete =>
      var first := FirstIncompleteDay(days);
      if first.Some? then IncompleteDayMessage(days[first.value].dayNumber) else ""
    case HasHotels => NoHotelsMessage
    case HotelsPriced => UnpricedHotelMessage
    case HasInclusions => NoInclusionsMessage
  }

  /** `onSubmit`'s checks: the message of the first check, in order, that
      fails, and `None` when all of them pass. */
  function ValidateDraft(days: seq<D.Day>, hotels: seq<H.Hotel>, inclusions: seq<string>): (r: Option<string>)
    ensures !Passes(HasDays, days, hotels, inclusions) ==> r == Some(NoDaysMessage)
    ensures (Passes(HasDays, days, hotels, inclusions) && !Passes(DaysComplete, days, hotels, inclusions))
      ==> r == Some(FailureMessage(DaysComplete, days))
    ensures (Passes(HasDays, days, hotels, inclusions) && Passes(DaysComplete, days, hotels, inclusions)
             && !Passes(HasHotels, days, hotels, inclusions))
      ==> r == Some(NoHotelsMessage)
    ensures (Passes(HasDays, days, hotels, inclusions) && Passes(DaysComplete, days, hotels, inclusions)
             && Passes(HasHotels, days, hotels, inclusions) && !Passes(HotelsPriced, days, hotels, inclusions))
      ==> r == Some(UnpricedHotelMessage)
    ensures (Passes(HasDays, days, hotels, inclusions) && Passes(DaysComplete, days, hotels, inclusions)
             && Passes(HasHotels, days, hotels, inclusions) && Passes(HotelsPriced, days, hotels, inclusions)
             && !Passes(HasInclusions, days, hotels, inclusions))
      ==> r == Some(NoInclusionsMessage)
    ensures r.None? <==> (Passes(HasDays, days, hotels, inclusions) && Passes(DaysComplete, days, hotels, inclusions)
                          && Passes(HasHotels, days, hotels, inclusions) && Passes(HotelsPriced, days, hotels, inclusions)
                          && Passes(HasInclusions, days, hotels, inclusions))
  {
    if |days| == 0 then Some(NoDaysMessage)
    else if FirstIncompleteDay(days).Some? then Some(FailureMessage(DaysComplete, days))
    else if |hotels| == 0 then Some(NoHotelsMessage)
    else if exists i :: 0 <= i < |hotels| && HotelUnpriced(hotels[i]) then Some(UnpricedHotelMessage)
    else if |inclusions| == 0 then Some(NoInclusionsMessage)
    else
      None
  }

  /** What `onSubmit` sends: the registered fields and the form's lists, as they are. */
  datatype Payload = Payload(
    form: FormData,
    days: seq<D.Day>,
    hotels: seq<H.Hotel>,
    inclusions: seq<string>,
    customInclusions: string,
    exclusions: seq<string>,
    customExclusions: string)

  /** The outcome of pressing submit: stopped by the field rules, stopped by
      `onSubmit`'s checks with a message, or sent. */
  datatype SubmitVerdict = FieldRulesBroken(errors: seq<FieldError>) | Rejected(message: string) | Send(payload: Payload)

  /** react-hook-form runs the field rules first and calls `onSubmit` only
      when none is broken; `onSubmit` runs its checks and, when they all
      pass, sends every list unmodified. */
  function SubmitCheck(form: FormData, days: seq<D.Day>, hotels: seq<H.Hotel>, inclusions: seq<string>,
                       customInclusions: string, exclusions: seq<string>, customExclusions: string): (v: SubmitVerdict)
    ensures v.FieldRulesBroken? <==> FieldErrors(form) != []
    ensures v.FieldRulesBroken? ==> v.errors == FieldErrors(form)
    ensures v.Rejected? <==> FieldErrors(form) == [] && ValidateDraft(days, hotels, inclusions).Some?
    ensures v.Rejected? ==> v.message == ValidateDraft(days, hotels, inclusions).value
    ensures v.Send? ==> v.payload == Payload(form, days, hotels, inclusions, customInclusions, exclusions, customExclusions)
  {
    var errors := FieldErrors(form);
    if errors != [] then FieldRulesBroken(errors)
    else
      match ValidateDraft(days, hotels, inclusions)
      case Some(m) => Rejected(m)
      case None => Send(Payload(form, days, hotels, inclusions, customInclusions, exclusions, customExclusions))
  }

  /** The terms are a field rule, so an unaccepted terms box is reported
      before any day, hotel or inclusion check, and nothing is sent. */
  lemma TermsCheckedFirst(form: FormData, days: seq<D.Day>, hotels: seq<H.Hotel>, inclusions: seq<string>,
                          customInclusions: string, exclusions: seq<string>, customExclusions: string)
    requires !form.acceptTerms
    ensures SubmitCheck(form, days, hotels, inclusions, customInclusions, exclusions, customExclusions).FieldRulesBroken?
  {
    FieldRulesMeaning(form);
  }

  /** The first failing check wins: once the field rules pass, an
      incomplete day is reported by its number even when the hotels and
      inclusions are wrong as well. */
  lemma IncompleteDayReportedFirst(form: FormData, days: seq<D.Day>, hotels: seq<H.Hotel>, inclusions: seq<string>,
                                   customInclusions: string, exclusions: seq<string>, customExclusions: string, i: nat)
    requires FieldErrors(form) == []
    requires i < |days| && DayIncomplete(days[i]) && forall j :: 0 <= j < i ==> !DayIncomplete(days[j])
    ensures SubmitCheck(form, days, hotels, inclusions, customInclusions, exclusions, customExclusions)
         == Rejected(IncompleteDayMessage(days[i].dayNumber))
  {
    FirstIncompleteIs(days, i);
    assert !Passes(DaysComplete, days, hotels, inclusions) by {
      assert DayIncomplete(days[i]);
    }
    assert ValidateDraft(days, hotels, inclusions) == Some(IncompleteDayMessage(days[i].dayNumber));
  }

  /** The first incomplete day is the one before which every day is complete. */
  lemma FirstIncompleteIs(days: seq<D.Day>, i: nat)
    requires i < |days| && DayIncomplete(days[i]) && forall j :: 0 <= j < i ==> !DayIncomplete(days[j])
    ensures FirstIncompleteDay(days) == Some(i)
  {
  }

  /** With the seeded entry still in the list and everything before the
      hotel check in order, the pricing message is shown. */
  lemma SeedBlocksSubmission(days: seq<D.Day>, hotels: seq<H.Hotel>, inclusions: seq<string>)
    requires |days| > 0 && forall j :: 0 <= j < |days| ==> !DayIncomplete(days[j])
    requires SeedHotel in hotels
    ensures ValidateDraft(days, hotels, inclusions) == Some(UnpricedHotelMessage)
  {
    var i :| 0 <= i < |hotels| && hotels[i] == SeedHotel;
    assert HotelUnpriced(hotels[i]);
  }

  /** The day message names the day's position, one-based, in a numbered list. */
  lemma DayMessageNamesPosition(days: seq<D.Day>, hotels: seq<H.Hotel>, inclusions: seq<string>)
    requires DaysNumbered(days) && FirstIncompleteDay(days).Some?
    ensures ValidateDraft(days, hotels, inclusions) == Some(IncompleteDayMessage(FirstIncompleteDay(days).value + 1))
  {
  }

  /** On the form's numbered list, a submission with clean field rules
      and an incomplete day is refused with the message naming that day's
      position, one-based. */
  lemma SubmitNamesDayPosition(form: FormData, days: seq<D.Day>, hotels: seq<H.Hotel>, inclusions: seq<string>,
                               customInclusions: string, exclusions: seq<string>, customExclusions: string)
    requires DaysNumbered(days) && FieldErrors(form) == [] && FirstIncompleteDay(days).Some?
    ensures SubmitCheck(form, days, hotels, inclusions, customInclusions, exclusions, customExclusions)
      == Rejected(IncompleteDayMessage(FirstIncompleteDay(days).value + 1))
  {
    DayMessageNamesPosition(days, hotels, inclusions);
  }

  // ---------------------------------------------------------------------
  // Catalogue preselection

  /** The lists of the schema's metadata; `None` when absent. */
  datatype Schema = Schema(inclusionsList: Option<seq<string>>, exclusionsList: Option<seq<string>>)

  /** `if (list) selected = list.slice(0, count)`. */
  function Preselect(list: Option<seq<string>>, count: nat, current: seq<string>): (r: seq<string>)
    ensures list.None? ==> r == current
    ensures list.Some? ==> |r| == Min(count, |list.value|) && r == list.value[..|r|]
  {
    match list
    case None => current
    case Some(items) =>
      var r := Slice(items, 0, count);
      assert r == items[..|r|];
      r
  }

  // ---------------------------------------------------------------------
  // The form's state

  /** What the form renders as a whole. */
  datatype Screen = Spinner | LoadFailed(message: string) | Editor

  class ItineraryFormState {
    var loading: bool
    var schema: Option<Schema>
    var error: string
    var submitting: bool
    var days: seq<D.Day>
    var hotels: seq<H.Hotel>
    var inclusions: seq<string>
    var customInclusions: string
    var exclusions: seq<string>
    var customExclusions: string
    var fieldErrors: seq<FieldError>

    /** Both lists always hold at least one entry, since the editors never
        remove the last one, and day `i` always carries number `i + 1`.
        Hotel `i` carries night number `i + 1` whenever it carries one: the
        seeded entry has none until a removal renumbers the list. */
    predicate Valid()
      reads this`days, this`hotels
    {
      |days| >= 1 && |hotels| >= 1 && DaysNumbered(days) && H.NightsAtPositions(hotels)
    }

    constructor ()
      ensures Valid()
      ensures loading && schema.None? && error == "" && !submitting && fieldErrors == []
      ensures days == [NewDay(1)] && hotels == [SeedHotel]
      ensures inclusions == [] && customInclusions == "" && exclusions == [] && customExclusions == ""
    {
      loading := true;
      schema := None;
      error := "";
      submitting := false;
      days := [NewDay(1)];
      hotels := [SeedHotel];
      inclusions := [];
      customInclusions := "";
      exclusions := [];
      customExclusions := "";
      fieldErrors := [];
    }

    /** The spinner while loading, the error alone when the schema failed
        to load, the editor otherwise. */
    function View(): (s: Screen)
      reads this
      ensures s.Spinner? <==> loading
      ensures s.LoadFailed? <==> !loading && error != "" && schema.None?
      ensures s.LoadFailed? ==> s.message == error
    {
      if loading then Spinner
      else if error != "" && schema.None? then LoadFailed(error)
      else Editor
    }

    /** The schema request settled: on success the schema is kept and the
        first three catalogue inclusions and first two exclusions are
        selected (each only if its list is present); on failure the load
        error is set. Loading ends either way. */
    method FetchSchemaSettled(outcome: Outcome<Schema>)
      modifies this`loading, this`schema, this`error, this`inclusions, this`exclusions
      ensures !loading
      ensures outcome.Succeeded? ==> (schema == Some(outcome.value) && error == old(error)
        && inclusions == Preselect(outcome.value.inclusionsList, 3, old(inclusions))
        && exclusions == Preselect(outcome.value.exclusionsList, 2, old(exclusions)))
      ensures outcome.Failed? ==> (schema == old(schema) && error == "Failed to load form"
        && inclusions == old(inclusions) && exclusions == old(exclusions))
    {
      match outcome {
        case Succeeded(s) =>
          schema := Some(s);
          if s.inclusionsList.Some? {
            inclusions := Slice(s.inclusionsList.value, 0, 3);
          }
          if s.exclusionsList.Some? {
            exclusions := Slice(s.exclusionsList.value, 0, 2);
          }
        case Failed(_) =>
          error := "Failed to load form";
      }
      loading := false;
    }

    /** `handleDayChange`: copy the list and write the card's day into slot
        `index`. The card hands back its own day with one field changed, so
        the day keeps its number and the numbering survives. */
    method HandleDayChange(index: nat, updatedDay: D.Day)
      requires Valid() && index < |days| && updatedDay.dayNumber == index + 1
      modifies this`days
      ensures Valid()
      ensures days == old(days)[index := updatedDay]
    {
      var current := days;
      var copy := new D.Day[|current|](i requires 0 <= i < |current| => current[i]);
      copy[index] := updatedDay;
      days := copy[..];
    }

    /** A card's field edit, handed through `onChange` to `handleDayChange`. */
    method EditDay(index: nat, field: D.DayField, value: string)
      requires Valid() && index < |days|
      modifies this`days
      ensures Valid()
      ensures days == ApplyDayEdit(old(days), DayEdit.EditDay(index, field, value))
    {
      HandleDayChange(index, D.HandleChange(days[index], field, value));
    }

    /** `addDay`. */
    method AddDay()
      requires Valid()
      modifies this`days
      ensures Valid()
      ensures days == ApplyDayEdit(old(days), DayEdit.AddDay)
    {
      days := days + [NewDay(|days| + 1)];
      DayEditKeepsNumberingIfNumbered(old(days));
    }

    /** `removeDay`: with more than one day, filter out position `index` and
        renumber the remaining days in place, in a loop. */
    method RemoveDay(index: int)
      requires Valid()
      modifies this`days
      ensures Valid()
      ensures days == ApplyDayEdit(old(days), DayEdit.RemoveDay(index))
      ensures |old(days)| == 1 ==> days == old(days)
    {
      if |days| > 1 {
        var kept := RemoveAt(days, index);
        var a := new D.Day[|kept|](i requires 0 <= i < |kept| => kept[i]);
        var i := 0;
        while i < a.Length
          invariant 0 <= i <= a.Length
          invariant forall j :: 0 <= j < i ==> a[j] == kept[j].(dayNumber := j + 1)
          invariant forall j :: i <= j < a.Length ==> a[j] == kept[j]
        {
          a[i] := a[i].(dayNumber := i + 1);
          i := i + 1;
        }
        days := a[..];
        assert days == RenumberedDays(kept);
      }
    }

    /** The hotel editor's `addHotel`, handed to `setHotels`. */
    method AddHotel()
      requires Valid()
      modifies this`hotels
      ensures Valid() && hotels == H.AddHotel(old(hotels))
    {
      H.AddHotelKeepsPositions(hotels);
      hotels := H.AddHotel(hotels);
    }

    /** The hotel editor's `removeHotel`, handed to `setHotels`. */
    method RemoveHotel(index: int)
      requires Valid()
      modifies this`hotels
      ensures Valid()
      ensures |old(hotels)| == 1 ==> hotels == old(hotels)
      ensures |old(hotels)| > 1 ==> hotels == H.Renumbered(RemoveAt(old(hotels), index))
      ensures |old(hotels)| > 1 ==> H.NightsNumbered(hotels)
    {
      var updated := H.RemoveHotel(hotels, index);
      if |hotels| > 1 {
        H.NumberedAtPositions(updated);
      }
      hotels := updated;
    }

    /** The hotel editor's `handleHotelChange`, handed to `setHotels`. */
    method HandleHotelChange(index: nat, field: H.HotelField, value: string)
      requires Valid() && index < |hotels|
      modifies this`hotels
      ensures Valid()
      ensures hotels == old(hotels)[index := H.SetField(old(hotels)[index], field, value)]
    {
      H.EditKeepsPositions(hotels, index, field, value);
      hotels := H.HandleHotelChange(hotels, index, field, value);
    }

    /** `setInclusions`, `setExclusions` and the two notes' setters, as the
        inclusions and exclusions editors call them. */
    method SetLists(newInclusions: seq<string>, newCustomInclusions: string,
                    newExclusions: seq<string>, newCustomExclusions: string)
      modifies this`inclusions, this`customInclusions, this`exclusions, this`customExclusions
      ensures inclusions == newInclusions && customInclusions == newCustomInclusions
      ensures exclusions == newExclusions && customExclusions == newCustomExclusions
    {
      inclusions, customInclusions := newInclusions, newCustomInclusions;
      exclusions, customExclusions := newExclusions, newCustomExclusions;
    }

    /** Pressing submit. The button is disabled while a submission is in
        flight. The field rules run first and their errors are kept for
        display; if none is broken, `onSubmit` clears the error, runs its
        checks and either shows the first failure or sends the payload,
        leaving `submitting` set until the request settles. */
    method Submit(form: FormData) returns (sent: Option<Payload>)
      requires Valid()
      modifies this`submitting, this`error, this`fieldErrors
      ensures Valid()
      ensures old(submitting) ==> sent.None? && submitting && error == old(error) && fieldErrors == old(fieldErrors)
      ensures !old(submitting) ==>
        var v := SubmitCheck(form, days, hotels, inclusions, customInclusions, exclusions, customExclusions);
        && fieldErrors == FieldErrors(form)
        && (v.FieldRulesBroken? ==> sent.None? && !submitting && error == old(error))
        && (v.Rejected? ==> sent.None? && !submitting && error == v.message)
        && (v.Send? ==> sent == Some(v.payload) && submitting && error == "")
    {
      if submitting {
        return None;
      }
      fieldErrors := FieldErrors(form);
      if fieldErrors != [] {
        return None;
      }
      submitting := true;
      error := "";
      var problem := ValidateDraft(days, hotels, inclusions);
      if problem.Some? {
        error := problem.value;
        submitting := false;
        return None;
      }
      sent := Some(Payload(form, days, hotels, inclusions, customInclusions, exclusions, customExclusions));
    }

    /** The submission request settled: on success the parent's `onSuccess`
        is called (the returned flag); on failure the server's error text,
        or the default message, is shown. `submitting` is cleared either way. */
    method SubmitSettled(outcome: Outcome<()>) returns (notifySuccess: bool)
      modifies this`submitting, this`error
      ensures !submitting
      ensures notifySuccess <==> outcome.Succeeded?
      ensures outcome.Succeeded? ==> error == old(error)
      ensures outcome.Failed? ==> error == ErrorText(outcome.serverError, "Failed to submit itinerary")
    {
      match outcome {
        case Succeeded(_) =>
          notifySuccess := true;
        case Failed(serverError) =>
          error := ErrorText(serverError, "Failed to submit itinerary");
          notifySuccess := false;
      }
      submitting := false;
    }
  }

  /** Opening the form and settling the schema request: the error screen
      with the load error when the request failed, the editor when it
      succeeded. */
  method LoadScreen(outcome: Outcome<Schema>) returns (s: Screen)
    ensures outcome.Failed? ==> s == LoadFailed("Failed to load form")
    ensures outcome.Succeeded? ==> s == Editor
  {
    var form := new ItineraryFormState();
    form.FetchSchemaSettled(outcome);
    s := form.View();
  }

  lemma DayEditKeepsNumberingIfNumbered(days: seq<D.Day>)
    ensures DaysNumbered(days) ==> DaysNumbered(WithNewDay(days))
  {
    if DaysNumbered(days) {
      var r := WithNewDay(days);
      forall i | 0 <= i < |r| ensures r[i].dayNumber == i + 1 {
        if i < |days| { assert r[i] == r[..|days|][i]; }
      }
    }
  }

  /** The form never lets its lists become empty, so the "no days" and "no
      hotels" checks of `onSubmit` can never fire on the form's own state. */
  lemma EmptyListChecksUnreachable(days: seq<D.Day>, hotels: seq<H.Hotel>, inclusions: seq<string>)
    requires |days| >= 1 && |hotels| >= 1
    ensures ValidateDraft(days, hotels, inclusions) != Some(NoDaysMessage)
    ensures ValidateDraft(days, hotels, inclusions) != Some(NoHotelsMessage)
  {
    var r := ValidateDraft(days, hotels, inclusions);
    if r.Some? {
      var first := FirstIncompleteDay(days);
      if first.Some? {
        var m := IncompleteDayMessage(days[first.value].dayNumber);
        assert m[0] == 'D';
        assert NoDaysMessage[0] == 'P' && NoHotelsMessage[0] == 'P';
      }
    }
  }
}
