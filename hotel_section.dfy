/** The accommodation editor: one entry per night, appended with the next
    night number, removed with renumbering, and edited one field at a time. */
module HotelSection {
  import opened JsValue
  import opened JsNumber
  import opened Collections

  /** A hotel entry. The form seeds its list with an entry in the booking
      shape (name, category and package costs) while this editor appends
      entries in the night shape (night number, location, …); one record
      with optional fields holds both, as a JavaScript object would. */
  datatype Hotel = Hotel(
    nightNumber: Option<int>,
    location: Option<string>,
    checkInDate: Option<string>,
    name: string,
    category: Option<string>,
    starRating: Option<string>,
    roomType: Option<string>,
    numberOfRooms: Option<int>,
    paxDistribution: Option<string>,
    mealPlan: Option<string>,
    imageUrl: Option<string>,
    packageCostPerPerson: Option<int>,
    packageCostPerChild: Option<int>)

  /** The fields the entry's inputs edit. */
  datatype HotelField =
    Location | CheckInDate | Name | StarRating | RoomType | NumberOfRooms | PaxDistribution | MealPlan | ImageUrl

  function TextValue(o: Option<string>): Value {
    match o
    case None => Undefined
    case Some(s) => Str(s)
  }

  /** What property `f` of an entry holds, as a JavaScript value. */
  function FieldValue(h: Hotel, f: HotelField): Value {
    match f
    case Location => TextValue(h.location)
    case CheckInDate => TextValue(h.checkInDate)
    case Name => Str(h.name)
    case StarRating => TextValue(h.starRating)
    case RoomType => TextValue(h.roomType)
    case NumberOfRooms => if h.numberOfRooms.Some? then Int(h.numberOfRooms.value) else Undefined
    case PaxDistribution => TextValue(h.paxDistribution)
    case MealPlan => TextValue(h.mealPlan)
    case ImageUrl => TextValue(h.imageUrl)
  }

  /** The value stored for an input's text: `parseInt(value) || 0` for the
      number of rooms, the text itself for every other field. */
  function Stored(f: HotelField, value: string): (v: Value)
    ensures f == NumberOfRooms ==> v.Int? && (ParseInt(value).None? ==> v.i == 0)
    ensures f != NumberOfRooms ==> v == Str(value)
  {
    if f == NumberOfRooms then Int(ParseIntOrZero(value)) else Str(value)
  }

  /** `{ ...hotel, [field]: stored value }`. */
  function SetField(h: Hotel, f: HotelField, value: string): (r: Hotel)
    ensures FieldValue(r, f) == Stored(f, value)
    ensures f != Location ==> r.location == h.location
    ensures f != CheckInDate ==> r.checkInDate == h.checkInDate
    ensures f != Name ==> r.name == h.name
    ensures f != StarRating ==> r.starRating == h.starRating
    ensures f != RoomType ==> r.roomType == h.roomType
    ensures f != NumberOfRooms ==> r.numberOfRooms == h.numberOfRooms
    ensures f != PaxDistribution ==> r.paxDistribution == h.paxDistribution
    ensures f != MealPlan ==> r.mealPlan == h.mealPlan
    ensures f != ImageUrl ==> r.imageUrl == h.imageUrl
    ensures r.nightNumber == h.nightNumber && r.category == h.category
    ensures r.packageCostPerPerson == h.packageCostPerPerson && r.packageCostPerChild == h.packageCostPerChild
  {
    match f
    case Location => h.(location := Some(value))
    case CheckInDate => h.(checkInDate := Some(value))
    case Name => h.(name := value)
    case StarRating => h.(starRating := Some(value))
    case RoomType => h.(roomType := Some(value))
    case NumberOfRooms => h.(numberOfRooms := Some(ParseIntOrZero(value)))
    case PaxDistribution => h.(paxDistribution := Some(value))
    case MealPlan => h.(mealPlan := Some(value))
    case ImageUrl => h.(imageUrl := Some(value))
  }

  /** Editing one field leaves what every other input shows unchanged. */
  lemma SetFieldKeepsOthers(h: Hotel, f: HotelField, value: string, g: HotelField)
    requires g != f
    ensures FieldValue(SetField(h, f, value), g) == FieldValue(h, g)
  {
  }

  /** Every property of an entry edited by an input is visible through
      `FieldValue`, so the contract of `SetField` determines its result. */
  lemma {:induction false} HotelDeterminedByFields(h: Hotel, k: Hotel)
    requires h.nightNumber == k.nightNumber && h.category == k.category
    requires h.packageCostPerPerson == k.packageCostPerPerson && h.packageCostPerChild == k.packageCostPerChild
    requires forall f :: FieldValue(h, f) == FieldValue(k, f)
    ensures h == k
  {
    assert FieldValue(h, Location) == FieldValue(k, Location);
    TextValueInjective(h.location, k.location);
    assert FieldValue(h, CheckInDate) == FieldValue(k, CheckInDate);
    TextValueInjective(h.checkInDate, k.checkInDate);
    assert FieldValue(h, Name) == FieldValue(k, Name);
    assert FieldValue(h, StarRating) == FieldValue(k, StarRating);
    TextValueInjective(h.starRating, k.starRating);
    assert FieldValue(h, RoomType) == FieldValue(k, RoomType);
    TextValueInjective(h.roomType, k.roomType);
    assert FieldValue(h, NumberOfRooms) == FieldValue(k, NumberOfRooms);
    assert FieldValue(h, PaxDistribution) == FieldValue(k, PaxDistribution);
    TextValueInjective(h.paxDistribution, k.paxDistribution);
    assert FieldValue(h, MealPlan) == FieldValue(k, MealPlan);
    TextValueInjective(h.mealPlan, k.mealPlan);
    assert FieldValue(h, ImageUrl) == FieldValue(k, ImageUrl);
    TextValueInjective(h.imageUrl, k.imageUrl);
    assert h.numberOfRooms == k.numberOfRooms;
  }

  /** Different optional texts show as different values. */
  lemma TextValueInjective(a: Option<string>, b: Option<string>)
    requires TextValue(a) == TextValue(b)
    ensures a == b
  {
  }

  /** The last edit of a field wins. */
  lemma LastEditWins(h: Hotel, f: HotelField, a: string, b: string)
    ensures SetField(SetField(h, f, a), f, b) == SetField(h, f, b)
  {
    HotelDeterminedByFields(SetField(SetField(h, f, a), f, b), SetField(h, f, b));
  }

  /** A rooms input that is not a number is stored as 0; so is "0". */
  lemma UnparsedRoomsAreZero(h: Hotel, value: string)
    requires ParseInt(value).None? || ParseInt(value) == Some(0)
    ensures SetField(h, NumberOfRooms, value).numberOfRooms == Some(0)
  {
  }

  /** `handleHotelChange`: copy the list and write the edited entry into
      slot `index`; nothing else changes. */
  method HandleHotelChange(hotels: seq<Hotel>, index: nat, field: HotelField, value: string)
    returns (updated: seq<Hotel>)
    requires index < |hotels|
    ensures |updated| == |hotels|
    ensures updated[index] == SetField(hotels[index], field, value)
    ensures forall i :: 0 <= i < |hotels| && i != index ==> updated[i] == hotels[i]
  {
    var copy := new Hotel[|hotels|](i requires 0 <= i < |hotels| => hotels[i]);
    copy[index] := SetField(copy[index], field, value);
    updated := copy[..];
  }

  /** The entry `addHotel` appends for night `n`. */
  function NewNight(n: int): (h: Hotel)
    ensures h.nightNumber == Some(n)
    ensures FieldValue(h, StarRating) == Str("3*") && FieldValue(h, NumberOfRooms) == Int(1)
    ensures FieldValue(h, MealPlan) == Str("BREAKFAST")
    ensures forall f :: f !in {StarRating, NumberOfRooms, MealPlan} ==> FieldValue(h, f) == Str("")
    ensures h.category.None? && h.packageCostPerPerson.None? && h.packageCostPerChild.None?
  {
    Hotel(Some(n), Some(""), Some(""), "", None, Some("3*"), Some(""), Some(1), Some(""),
          Some("BREAKFAST"), Some(""), None, None)
  }

  /** `addHotel`: one new entry at the end, numbered one past the old
      length, with the default rating, room count and meal plan and every
      other field empty. */
  function AddHotel(hotels: seq<Hotel>): (r: seq<Hotel>)
    ensures |r| == |hotels| + 1 && r[..|hotels|] == hotels
    ensures var h := r[|hotels|];
      && h.nightNumber == Some(|r|)
      && h.starRating == Some("3*") && h.numberOfRooms == Some(1) && h.mealPlan == Some("BREAKFAST")
      && h.name == "" && h.location == Some("") && h.checkInDate == Some("") && h.roomType == Some("")
      && h.paxDistribution == Some("") && h.imageUrl == Some("")
      && h.category.None? && h.packageCostPerPerson.None? && h.packageCostPerChild.None?
  {
    hotels + [NewNight(|hotels| + 1)]
  }

  /** Entry `i` carries night number `i + 1`. */
  predicate NightsNumbered(hotels: seq<Hotel>) {
    forall i :: 0 <= i < |hotels| ==> hotels[i].nightNumber == Some(i + 1)
  }

  /** Appending keeps the night numbering. */
  lemma AddHotelKeepsNumbering(hotels: seq<Hotel>)
    requires NightsNumbered(hotels)
    ensures NightsNumbered(AddHotel(hotels))
  {
    var r := AddHotel(hotels);
    forall i | 0 <= i < |r|
      ensures r[i].nightNumber == Some(i + 1)
    {
      if i < |hotels| {
        assert r[i] == r[..|hotels|][i];
      }
    }
  }

  /** Every entry that carries a night number carries its position plus
      one. Unlike `NightsNumbered`, this also holds of a list that still
      holds entries without a number. */
  predicate NightsAtPositions(hotels: seq<Hotel>) {
    forall i :: 0 <= i < |hotels| && hotels[i].nightNumber.Some? ==> hotels[i].nightNumber == Some(i + 1)
  }

  /** A fully numbered list has its numbers at their positions. */
  lemma NumberedAtPositions(hotels: seq<Hotel>)
    requires NightsNumbered(hotels)
    ensures NightsAtPositions(hotels)
  {
  }

  /** Appending keeps every present night number at its position. */
  lemma AddHotelKeepsPositions(hotels: seq<Hotel>)
    requires NightsAtPositions(hotels)
    ensures NightsAtPositions(AddHotel(hotels))
  {
    var r := AddHotel(hotels);
    forall i | 0 <= i < |r| && r[i].nightNumber.Some?
      ensures r[i].nightNumber == Some(i + 1)
    {
      if i < |hotels| {
        assert r[i] == r[..|hotels|][i];
      }
    }
  }

  /** A field edit of one entry keeps every present night number at its
      position, since no input writes the night number. */
  lemma EditKeepsPositions(hotels: seq<Hotel>, index: nat, field: HotelField, value: string)
    requires index < |hotels| && NightsAtPositions(hotels)
    ensures NightsAtPositions(hotels[index := SetField(hotels[index], field, value)])
  {
    var r := hotels[index := SetField(hotels[index], field, value)];
    forall i | 0 <= i < |r| && r[i].nightNumber.Some?
      ensures r[i].nightNumber == Some(i + 1)
    {
      assert r[i].nightNumber == hotels[i].nightNumber;
    }
  }

  /** Two entries agree on everything but their night number. */
  predicate SameButNight(h: Hotel, k: Hotel) {
    h.(nightNumber := None) == k.(nightNumber := None)
  }

  /** The entry with night number `n`. */
  function WithNight(h: Hotel, n: int): (r: Hotel)
    ensures r.nightNumber == Some(n)
  {
    h.(nightNumber := Some(n))
  }

  /** The list with entry `i` numbered `i + 1` and nothing else changed. */
  function Renumbered(hotels: seq<Hotel>): (r: seq<Hotel>)
    ensures |r| == |hotels| && NightsNumbered(r)
    ensures forall i :: 0 <= i < |r| ==> SameButNight(r[i], hotels[i])
  {
    seq(|hotels|, i requires 0 <= i < |hotels| => WithNight(hotels[i], i + 1))
  }

  /** Renumbering a list that is already numbered changes nothing. */
  lemma RenumberedNumbered(hotels: seq<Hotel>)
    requires NightsNumbered(hotels)
    ensures Renumbered(hotels) == hotels
  {
    var r := Renumbered(hotels);
    forall i | 0 <= i < |r|
      ensures r[i] == hotels[i]
    {
      assert r[i].nightNumber == hotels[i].nightNumber;
    }
  }

  /** `removeHotel`: with more than one entry, drop entry `index` and then
      number the remaining entries in place, in a loop; with one entry or
      none, the list is left as it is. */
  method RemoveHotel(hotels: seq<Hotel>, index: int) returns (updated: seq<Hotel>)
    ensures |hotels| <= 1 ==> updated == hotels
    ensures |hotels| > 1 ==> updated == Renumbered(RemoveAt(hotels, index))
    ensures |hotels| > 1 && 0 <= index < |hotels| ==> |updated| == |hotels| - 1
    ensures |hotels| > 1 ==> NightsNumbered(updated)
  {
    if |hotels| <= 1 {
      return hotels;
    }
    var kept := RemoveAt(hotels, index);
    var a := new Hotel[|kept|](i requires 0 <= i < |kept| => kept[i]);
    assert a[..] == kept;
    NumberInPlace(a);
    updated := a[..];
  }

  /** The renumbering loop of `removeHotel`: entry `i` gets night number
      `i + 1`, in place. */
  method NumberInPlace(a: array<Hotel>)
    modifies a
    ensures a[..] == Renumbered(old(a[..]))
  {
    ghost var orig := a[..];
    var i := 0;
    while i < a.Length
      invariant 0 <= i <= a.Length
      invariant forall j :: 0 <= j < i ==> a[j] == WithNight(orig[j], j + 1)
      invariant forall j :: i <= j < a.Length ==> a[j] == orig[j]
    {
      a[i] := WithNight(a[i], i + 1);
      i := i + 1;
    }
    RenumberedByEntries(orig, a[..]);
  }

  /** A list whose entry `j` is entry `j` of `hotels` numbered `j + 1` is
      the renumbered list. */
  lemma RenumberedByEntries(hotels: seq<Hotel>, u: seq<Hotel>)
    requires |u| == |hotels| && forall j :: 0 <= j < |u| ==> u[j] == WithNight(hotels[j], j + 1)
    ensures u == Renumbered(hotels)
  {
    var r := Renumbered(hotels);
    assert forall j :: 0 <= j < |u| ==> u[j] == r[j];
  }

  /** An option of the meal-plan select. */
  datatype Choice = Choice(value: string, caption: string)

  const DefaultMealPlans: seq<Choice> := [
    Choice("BREAKFAST", "Breakfast Only"),
    Choice("HALF BOARD", "Half Board"),
    Choice("FULL BOARD", "Full Board"),
    Choice("ALL INCLUSIVE", "All Inclusive")]

  const StarRatings: seq<Choice> := [
    Choice("3*", "3 Star"), Choice("4*", "4 Star"), Choice("5*", "5 Star"),
    Choice("Resort", "Resort"), Choice("Budget", "Budget")]

  /** The meal-plan select lists the supplied options when there are any,
      and the four built-in plans otherwise; it is never empty. */
  function MealPlanChoices(options: seq<Choice>): (r: seq<Choice>)
    ensures r != []
    ensures options != [] ==> r == options
    ensures options == [] ==> |r| == 4 && r[0].value == "BREAKFAST" && r[1].value == "HALF BOARD"
                              && r[2].value == "FULL BOARD" && r[3].value == "ALL INCLUSIVE"
  {
    if |options| > 0 then options else DefaultMealPlans
  }

  function Values(cs: seq<Choice>): seq<string> {
    seq(|cs|, i requires 0 <= i < |cs| => cs[i].value)
  }

  /** A new entry's rating and meal plan are among the choices its selects
      offer when no meal-plan options are supplied, as on the itinerary
      form. A supplied list replaces the built-in one, so when it lacks
      "BREAKFAST" the new entry's meal plan is not one of its options. */
  lemma NewNightDefaultsOffered(n: int, options: seq<Choice>)
    ensures NewNight(n).starRating.value in Values(StarRatings)
    ensures NewNight(n).mealPlan.value in Values(MealPlanChoices([]))
    ensures options != [] && "BREAKFAST" !in Values(options) ==>
      NewNight(n).mealPlan.value !in Values(MealPlanChoices(options))
  {
    assert Values(StarRatings)[0] == "3*";
    assert Values(MealPlanChoices([]))[0] == "BREAKFAST";
  }

  /** The remove button is rendered on every entry while there is more than one. */
  predicate RemoveOffered(hotels: seq<Hotel>) {
    |hotels| > 1
  }

  /** A removal reached through an entry's button deletes exactly that entry. */
  lemma RemoveThroughButton(hotels: seq<Hotel>, index: nat)
    requires RemoveOffered(hotels) && index < |hotels|
    ensures |Renumbered(RemoveAt(hotels, index))| == |hotels| - 1 >= 1
    ensures forall i :: 0 <= i < |hotels| - 1 ==>
      SameButNight(Renumbered(RemoveAt(hotels, index))[i], if i < index then hotels[i] else hotels[i + 1])
  {
  }
}
