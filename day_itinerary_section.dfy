/** One day card of the itinerary editor: the single-field patch it hands
    to its parent, the remove action, and the description counter. */
module DayItinerarySection {
  import opened JsValue
  import opened JsNumber
  import opened JsNumberFacts

  /** A day of the itinerary. The form seeds days with only a number, a
      title and a description, so the other fields may be absent. */
  datatype Day = Day(
    dayNumber: int,
    date: Option<string>,
    title: string,
    description: string,
    ticketInclusion: Option<string>,
    imageUrl: Option<string>)

  /** The fields a day card edits; `dayNumber` is not one of them. */
  datatype DayField = Date | Title | Description | TicketInclusion | ImageUrl

  /** What property `f` of a day holds (`None` when it is absent). */
  function FieldValue(d: Day, f: DayField): Option<string> {
    match f
    case Date => d.date
    case Title => Some(d.title)
    case Description => Some(d.description)
    case TicketInclusion => d.ticketInclusion
    case ImageUrl => d.imageUrl
  }

  /** `{ ...day, [field]: value }`: the day with one field set. */
  function HandleChange(day: Day, field: DayField, value: string): (r: Day)
    ensures FieldValue(r, field) == Some(value)
    ensures forall g :: g != field ==> FieldValue(r, g) == FieldValue(day, g)
    ensures r.dayNumber == day.dayNumber
  {
    match field
    case Date => day.(date := Some(value))
    case Title => day.(title := value)
    case Description => day.(description := value)
    case TicketInclusion => day.(ticketInclusion := Some(value))
    case ImageUrl => day.(imageUrl := Some(value))
  }

  /** A day is determined by its number and its fields, so the contract of
      `HandleChange` pins its result down completely. */
  lemma {:induction false} DayDeterminedByFields(d: Day, e: Day)
    requires d.dayNumber == e.dayNumber
    requires forall f :: FieldValue(d, f) == FieldValue(e, f)
    ensures d == e
  {
    assert FieldValue(d, Date) == FieldValue(e, Date);
    assert FieldValue(d, Title) == FieldValue(e, Title);
    assert FieldValue(d, Description) == FieldValue(e, Description);
    assert FieldValue(d, TicketInclusion) == FieldValue(e, TicketInclusion);
    assert FieldValue(d, ImageUrl) == FieldValue(e, ImageUrl);
  }

  /** The last edit of a field wins, and edits of different fields commute. */
  lemma EditLaws(d: Day, f: DayField, g: DayField, a: string, b: string)
    ensures HandleChange(HandleChange(d, f, a), f, b) == HandleChange(d, f, b)
    ensures f != g ==> HandleChange(HandleChange(d, f, a), g, b) == HandleChange(HandleChange(d, g, b), f, a)
  {
    DayDeterminedByFields(HandleChange(HandleChange(d, f, a), f, b), HandleChange(d, f, b));
    if f != g {
      DayDeterminedByFields(HandleChange(HandleChange(d, f, a), g, b), HandleChange(HandleChange(d, g, b), f, a));
    }
  }

  /** The remove button is rendered only when `canRemove`; clicking it calls
      `onRemove(index)`. The result is the call the card can make, if any. */
  function RemoveAction(canRemove: bool, index: nat): (call: Option<nat>)
    ensures call.Some? <==> canRemove
    ensures call.Some? ==> call.value == index
  {
    if canRemove then Some(index) else None
  }

  /** The counter under the description: its text and its colour class. */
  datatype Counter = Counter(text: string, colour: string)

  const LongDescription: nat := 500

  function DescriptionCounter(d: Day): (c: Counter)
    ensures c.colour == "text-primary-600" <==> |d.description| > LongDescription
    ensures c.colour == "text-primary-600" || c.colour == "text-gray-400"
  {
    Counter(NatToString(|d.description|) + " characters",
            if |d.description| > LongDescription then "text-primary-600" else "text-gray-400")
  }

  /** The counter's number reads back as the description's length. */
  lemma CounterShowsLength(d: Day)
    ensures ParseInt(DescriptionCounter(d).text) == Some(|d.description|)
  {
    ParseIntReadsNumeral(|d.description|, " characters");
  }

  /** The badge "Day N" of the card: its text after "Day " reads back as
      the day's number. */
  function Badge(d: Day): (badge: string)
    ensures |badge| > 4 && badge[..4] == "Day "
    ensures ParseInt(badge[4..]) == Some(d.dayNumber)
  {
    var numeral := IntToString(d.dayNumber);
    ParseIntOfIntToString(d.dayNumber);
    assert ("Day " + numeral)[4..] == numeral;
    "Day " + numeral
  }

  /** Days with different numbers carry different badges. */
  lemma BadgesDistinguishDays(d: Day, e: Day)
    ensures Badge(d) == Badge(e) ==> d.dayNumber == e.dayNumber
  {
    if Badge(d) == Badge(e) {
      assert Badge(d)[4..] == IntToString(d.dayNumber);
      assert Badge(e)[4..] == IntToString(e.dayNumber);
      IntToStringInjective(d.dayNumber, e.dayNumber);
    }
  }
}
