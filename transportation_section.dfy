/** The day-wise transport editor: a list of entries with no stored
    ordinal, appended, removed by position and edited one field at a time. */
module TransportationSection {
  import opened JsValue
  import opened JsNumber
  import opened JsNumberFacts
  import opened Collections

  datatype TransportEntry = TransportEntry(
    day: string,
    serviceDescription: string,
    vehicleType: string,
    ticketsIncluded: string,
    ferryDetails: string)

  datatype TransportField = Day | ServiceDescription | VehicleType | TicketsIncluded | FerryDetails

  function FieldValue(e: TransportEntry, f: TransportField): string {
    match f
    case Day => e.day
    case ServiceDescription => e.serviceDescription
    case VehicleType => e.vehicleType
    case TicketsIncluded => e.ticketsIncluded
    case FerryDetails => e.ferryDetails
  }

  /** `{ ...entry, [field]: value }`. */
  function SetField(e: TransportEntry, f: TransportField, value: string): (r: TransportEntry)
    ensures FieldValue(r, f) == value
    ensures forall g :: g != f ==> FieldValue(r, g) == FieldValue(e, g)
  {
    match f
    case Day => e.(day := value)
    case ServiceDescription => e.(serviceDescription := value)
    case VehicleType => e.(vehicleType := value)
    case TicketsIncluded => e.(ticketsIncluded := value)
    case FerryDetails => e.(ferryDetails := value)
  }

  /** An entry is its five fields: equal fields make equal entries. */
  lemma {:induction false} EntryDeterminedByFields(e: TransportEntry, k: TransportEntry)
    requires forall f :: FieldValue(e, f) == FieldValue(k, f)
    ensures e == k
  {
    assert FieldValue(e, Day) == FieldValue(k, Day);
    assert FieldValue(e, ServiceDescription) == FieldValue(k, ServiceDescription);
    assert FieldValue(e, VehicleType) == FieldValue(k, VehicleType);
    assert FieldValue(e, TicketsIncluded) == FieldValue(k, TicketsIncluded);
    assert FieldValue(e, FerryDetails) == FieldValue(k, FerryDetails);
  }

  /** Setting a field to the value it has changes nothing. */
  lemma SetSameValue(e: TransportEntry, f: TransportField)
    ensures SetField(e, f, FieldValue(e, f)) == e
  {
    EntryDeterminedByFields(SetField(e, f, FieldValue(e, f)), e);
  }

  /** `handleTransportChange`: copy the list and write the edited entry into
      slot `index`; nothing else changes. */
  method HandleTransportChange(entries: seq<TransportEntry>, index: nat, field: TransportField, value: string)
    returns (updated: seq<TransportEntry>)
    requires index < |entries|
    ensures |updated| == |entries|
    ensures updated[index] == SetField(entries[index], field, value)
    ensures forall i :: 0 <= i < |entries| && i != index ==> updated[i] == entries[i]
  {
    var copy := new TransportEntry[|entries|](i requires 0 <= i < |entries| => entries[i]);
    copy[index] := SetField(copy[index], field, value);
    updated := copy[..];
  }

  /** `addTransportation`: one entry appended whose five fields are empty. */
  function AddTransportation(entries: seq<TransportEntry>): (r: seq<TransportEntry>)
    ensures |r| == |entries| + 1 && r[..|entries|] == entries
    ensures forall f :: FieldValue(r[|entries|], f) == ""
  {
    entries + [TransportEntry("", "", "", "", "")]
  }

  /** `removeTransportation` is `filter` by position: it has no minimum, so
      the only entry can be removed, and it undoes an append. */
  lemma RemovalLaws(entries: seq<TransportEntry>, e: TransportEntry)
    ensures RemoveAt([e], 0) == []
    ensures RemoveAt(AddTransportation(entries), |entries|) == entries
  {
    RemoveAppended(entries, TransportEntry("", "", "", "", ""));
  }

  /** The badge of the entry at `index`: "Entry N" with N = index + 1. */
  function EntryLabel(index: nat): (s: string)
    ensures |s| > 6 && s[..6] == "Entry "
  {
    "Entry " + NatToString(index + 1)
  }

  /** The badge names the entry's position, one-based, and no two
      positions share a badge. */
  lemma EntryLabelNamesPosition(i: nat, j: nat)
    ensures ParseInt(EntryLabel(i)[6..]) == Some(i + 1)
    ensures EntryLabel(i) == EntryLabel(j) ==> i == j
  {
    PrefixedNumeral("Entry ", i + 1, j + 1);
    assert EntryLabel(i) == "Entry " + NatToString(i + 1);
    assert EntryLabel(j) == "Entry " + NatToString(j + 1);
  }
}
