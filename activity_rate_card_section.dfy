/** The optional activity rate card: rows with a name, a price per person
    and a note, appended, removed by position and edited one field at a time. */
module ActivityRateCardSection {
  import opened JsValue
  import opened JsNumber
  import opened JsNumberFacts
  import opened Collections

  datatype Activity = Activity(activityName: string, pricePerPerson: real, note: string)

  datatype ActivityField = ActivityName | PricePerPerson | Note

  /** `parseFloat` on the price input's text; `None` stands for `NaN`. It is a
      parameter of the model: floating-point parsing is not modelled. */
  type FloatParser = string -> Option<real>

  /** `parseFloat(value) || 0`: a text that does not parse is a price of 0. */
  function Price(parseFloat: FloatParser, value: string): (p: real)
    ensures parseFloat(value).None? ==> p == 0.0
    ensures parseFloat(value).Some? ==> p == parseFloat(value).value
  {
    match parseFloat(value)
    case None => 0.0
    case Some(x) => x
  }

  /** `{ ...activity, [field]: value }`, with the price parsed. */
  function SetField(parseFloat: FloatParser, a: Activity, f: ActivityField, value: string): (r: Activity)
    ensures f == ActivityName ==> r == Activity(value, a.pricePerPerson, a.note)
    ensures f == PricePerPerson ==> r == Activity(a.activityName, Price(parseFloat, value), a.note)
    ensures f == Note ==> r == Activity(a.activityName, a.pricePerPerson, value)
  {
    match f
    case ActivityName => a.(activityName := value)
    case PricePerPerson => a.(pricePerPerson := Price(parseFloat, value))
    case Note => a.(note := value)
  }

  /** Editing the name or the note keeps the price; only the price input
      changes it. */
  lemma OnlyPriceInputChangesPrice(parseFloat: FloatParser, a: Activity, f: ActivityField, value: string)
    requires f != PricePerPerson
    ensures SetField(parseFloat, a, f, value).pricePerPerson == a.pricePerPerson
  {
  }

  /** `handleActivityChange`: copy the list and write the edited row into
      slot `index`; nothing else changes. */
  method HandleActivityChange(parseFloat: FloatParser, activities: seq<Activity>, index: nat,
                              field: ActivityField, value: string)
    returns (updated: seq<Activity>)
    requires index < |activities|
    ensures |updated| == |activities|
    ensures updated[index] == SetField(parseFloat, activities[index], field, value)
    ensures forall i :: 0 <= i < |activities| && i != index ==> updated[i] == activities[i]
  {
    var copy := new Activity[|activities|](i requires 0 <= i < |activities| => activities[i]);
    copy[index] := SetField(parseFloat, copy[index], field, value);
    updated := copy[..];
  }

  /** `addActivity`: one row appended with an empty name and note and a price of 0. */
  function AddActivity(activities: seq<Activity>): (r: seq<Activity>)
    ensures |r| == |activities| + 1 && r[..|activities|] == activities
    ensures r[|activities|].activityName == "" && r[|activities|].note == ""
    ensures r[|activities|].pricePerPerson == 0.0
  {
    activities + [Activity("", 0.0, "")]
  }

  /** `removeActivity` is `filter` by position: it has no minimum, so the
      only row can be removed, and it undoes an append. */
  lemma RemovalLaws(activities: seq<Activity>, a: Activity)
    ensures RemoveAt([a], 0) == []
    ensures RemoveAt(AddActivity(activities), |activities|) == activities
  {
    RemoveAppended(activities, Activity("", 0.0, ""));
  }

  /** The badge of the row at `index`: "Activity N" with N = index + 1. */
  function ActivityLabel(index: nat): (s: string)
    ensures |s| > 9 && s[..9] == "Activity "
  {
    "Activity " + NatToString(index + 1)
  }

  /** The badge names the row's position, one-based, and no two positions
      share a badge. */
  lemma ActivityLabelNamesPosition(i: nat, j: nat)
    ensures ParseInt(ActivityLabel(i)[9..]) == Some(i + 1)
    ensures ActivityLabel(i) == ActivityLabel(j) ==> i == j
  {
    PrefixedNumeral("Activity ", i + 1, j + 1);
    assert ActivityLabel(i) == "Activity " + NatToString(i + 1);
    assert ActivityLabel(j) == "Activity " + NatToString(j + 1);
  }
}
