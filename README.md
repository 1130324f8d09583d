# Travel itinerary front end — a Dafny model

This project models the browser side of a travel-itinerary service. Agents
fill in an itinerary request, and administrators review the submissions.
Nothing here is a React component. Each component's state becomes a Dafny
class or a value, its event handlers become methods or functions, and what
it renders becomes a function from that state to a description of the
screen.

- **Itinerary form** (`ItineraryForm`). It holds the day plan, the hotel
  list, and the inclusion and exclusion lists. The day plan stays numbered
  1..n through every add, remove and edit. Every hotel that carries a night
  number carries its position plus one. Submission runs the form rules,
  where the terms checkbox counts as a form rule. It then runs the handler's
  own checks in their order: days present, every day complete, hotels
  present, every hotel priced or named, at least one inclusion. The
  assembled payload goes out only when all of these pass. The component also
  loads the schema, and when it arrives, preselects the first inclusions.
- **Section editors**:
  - Day cards (`DayItinerarySection`).
  - Hotel nights (`HotelSection`): includes the coercion of the room count
    with `parseInt(...) || 0` and the renumbering after a removal.
  - Transport entries (`TransportationSection`).
  - Activity rate cards (`ActivityRateCardSection`): `parseFloat(...) || 0`.
  - Inclusion/exclusion checklist (`InclusionsExclusionsEditor`): toggle,
    removal by value, trimmed custom items.
- **Schema-driven form** (`DynamicForm`): the validation rules derived from
  each field, how each field type is rendered, the required star, how the
  fields are grouped, and the error shown after a submit.
- **Review screens**:
  - The shared display helpers (`Submissions`).
  - The submitter's list (`SubmissionsList`): cards, notices, one expanded
    card at a time.
  - The administrator's modals (`SubmissionModal`, `ItineraryModal`): which
    footer controls appear, the rejection reason guard, the in-flight flag.
  - The dashboard (`AdminDashboard`): counts, filter switching, the
    notification after a decision.
- **UI kit and image picker**:
  - The avatar initials, user caption and status badge (`Ui`).
  - The image picker's checks, the upload state and the input id
    (`ImageUpload`).

The JavaScript the components rely on is modelled explicitly in shared
modules:
- `JsValue`: values, truthiness, `a || b`, `error.response?.data?.error || fallback`,
  and what `{cond && <element/>}` leaves on the page.
- `JsText`: `trim`, ASCII `toUpperCase`/`toLowerCase`, `split`/`join`,
  `replace(/\s+/g, …)`.
- `JsNumber`: `parseInt` in decimal and `0x` hexadecimal, and number-to-text.
- `Collections`: `filter` by index and by value, `slice`.

An `await` splits an asynchronous handler in two. The part before it is a
method that returns the request it would send. The part after it is a
`…Settled` method that receives the remote outcome as a parameter.

In these places the code behaves in ways that are easy to miss; the model follows the code:
- The terms checkbox is a form rule. So a missing tick is reported before
  any of the day, hotel or inclusion checks (`ItineraryForm.TermsCheckedFirst`).
- The seeded hotel entry has a package price of 0. The hotel editor cannot
  change that price, so the entry always fails the pricing check
  (`ItineraryForm.SeedStaysUnpriced`, `ItineraryForm.SeedBlocksSubmission`).
  Night entries added in the editor have no package price. They pass the
  check once they are named (`ItineraryForm.NightEntryPricedByName`).
- The seeded hotel entry has no night number either, so its card badge
  reads "Night " with no number. The hotel list is therefore not numbered
  1..n at the start, nor after a night is added. It becomes numbered 1..n
  only when the first removal renumbers every entry, the seeded one
  included (`ItineraryForm.SeedListUnnumbered`,
  `ItineraryForm.RemovalNumbersSeed`). Until then, the numbers that are
  present still match their positions (`HotelSection.AddHotelKeepsPositions`,
  `HotelSection.EditKeepsPositions`).
- The dashboard refetches when the filter changes. Choosing the filter that
  is already active sends nothing, because React keeps an equal state and
  the effect does not run again.
- Cancelling the rejection form in `ItineraryModal` keeps the typed reason.
  The same action in `SubmissionModal` clears it.
- A guard `{x && <element/>}` on a value that is the number 0 prints the
  text "0". This happens for a schema field whose `required` is 0, and for
  a submission whose destination, PDF link or admin message is 0
  (`JsValue.Guard`, `DynamicForm.LabelFor`, `SubmissionsList.Notices`,
  `SubmissionsList.CardFor`).

## Model

| member | source | states |
|---|---|---|
| ItineraryForm.WithNewDay | src/components/ItineraryForm.jsx:136-141 | adding a day keeps every earlier day unchanged and appends one empty day numbered one past the old length |
| ItineraryForm.RenumberedDays | src/components/ItineraryForm.jsx:147-149 | after renumbering, day i carries number i+1 and every other field of every day is unchanged |
| ItineraryForm.DayEditKeepsNumbering | src/components/ItineraryForm.jsx:130-152 | each single add, remove or field edit on a non-empty, numbered day list leaves it non-empty and numbered 1..n |
| ItineraryForm.NumberingSurvivesEdits | src/components/ItineraryForm.jsx:130-152 | any sequence of day edits keeps the list non-empty and numbered 1..n (induction over the edits) |
| ItineraryForm.RemovalFromCard | src/components/ItineraryForm.jsx:143-150 | a removal offered by a card deletes exactly that day, keeps the others in order and renumbers them |
| ItineraryForm.SeedStaysUnpriced | src/components/ItineraryForm.jsx:18-20 | the seeded hotel, priced 0, fails the pricing check, and so does every hotel-editor edit of it |
| ItineraryForm.SeedListUnnumbered | src/components/ItineraryForm.jsx:18-20 | the starting hotel list, and the list after one added night, are not numbered 1..n, yet every present night number sits at its position |
| ItineraryForm.RemovalNumbersSeed | src/components/HotelSection.jsx:32-41 | a removal from the seed plus one added night leaves a list numbered 1..n, with the seed itself numbered 1 when it is kept |
| ItineraryForm.NightEntryPricedByName | src/components/ItineraryForm.jsx:95 | an entry without a package price fails the pricing check exactly when its name is blank |
| ItineraryForm.RuleFor | src/components/ItineraryForm.jsx:228-312 | every registered field has a rule; all but children and infants are required; the four number fields have a minimum, 1 for duration and adults and 0 for children and infants |
| ItineraryForm.FieldErrors | src/components/ItineraryForm.jsx:228-312 | each reported error names a broken field with the message of its first broken rule; every broken field is reported; errors follow registration order, so no field appears twice |
| ItineraryForm.FieldRulesMeaning | src/components/ItineraryForm.jsx:228-312 | the form rules report nothing exactly when destination, date, duration >= 1, adults >= 1, children >= 0, infants >= 0 and the terms tick all hold |
| ItineraryForm.UntouchedFormErrors | src/components/ItineraryForm.jsx:32-43 | the default form reports exactly the destination, date and terms messages, in field order |
| ItineraryForm.FirstIncompleteFrom | src/components/ItineraryForm.jsx:81 | finds the first day without a trimmed title or description at or after the start index, or reports that none exists |
| ItineraryForm.ValidateDraft | src/components/ItineraryForm.jsx:74-107 | the handler's checks run in source order; the first one that fails gives its message; None means all pass |
| ItineraryForm.SubmitCheck | src/components/ItineraryForm.jsx:70-118 | form-rule errors come first, then the handler's checks; only when all pass is the assembled payload sent |
| ItineraryForm.TermsCheckedFirst | src/components/ItineraryForm.jsx:473 | without the terms tick the submission stops at the form rules whatever the days, hotels and inclusions |
| ItineraryForm.IncompleteDayReportedFirst | src/components/ItineraryForm.jsx:81-86 | with clean form rules, the first incomplete day is the one reported |
| ItineraryForm.SeedBlocksSubmission | src/components/ItineraryForm.jsx:95-100 | with complete days and the seeded hotel still present, the draft is refused with the pricing message |
| ItineraryForm.DayMessageNamesPosition | src/components/ItineraryForm.jsx:83 | on a numbered list the incomplete-day message names the day's position |
| ItineraryForm.SubmitNamesDayPosition | src/components/ItineraryForm.jsx:81-86 | with a numbered day list and clean form rules, an incomplete day is rejected with the message naming the first incomplete day's position |
| ItineraryForm.EmptyListChecksUnreachable | src/components/ItineraryForm.jsx:75-93 | while the lists are non-empty, as the editors keep them, the no-days and no-hotels messages never appear |
| ItineraryForm.Preselect | src/components/ItineraryForm.jsx:56-61 | a schema list gives at most `count` of its first items; a missing list keeps the current selection |
| ItineraryForm.ItineraryFormState.constructor | src/components/ItineraryForm.jsx:15-24 | starts loading with one empty day numbered 1, the seeded hotel and empty lists |
| ItineraryForm.ItineraryFormState.View | src/components/ItineraryForm.jsx:154-172 | spinner exactly while loading; the error screen, with the stored message, exactly when loading ended with an error and no schema; the editor otherwise |
| ItineraryForm.LoadScreen | src/components/ItineraryForm.jsx:46-67 | a freshly opened form whose schema request fails shows only "Failed to load form"; one whose request succeeds shows the editor |
| ItineraryForm.ItineraryFormState.FetchSchemaSettled | src/components/ItineraryForm.jsx:50-68 | success stores the schema and preselects; failure sets "Failed to load form"; loading ends either way |
| ItineraryForm.ItineraryFormState.HandleDayChange | src/components/ItineraryForm.jsx:130-134 | the given slot is replaced and nothing else; the card's day keeps its position's number, so the list stays numbered 1..n |
| ItineraryForm.ItineraryFormState.EditDay | src/components/ItineraryForm.jsx:391-393 | a card's field edit is the day-edit step on the list, and the list stays numbered 1..n |
| ItineraryForm.ItineraryFormState.AddDay | src/components/ItineraryForm.jsx:136-141 | the list becomes the add-day step of the old list and stays numbered 1..n |
| ItineraryForm.ItineraryFormState.RemoveDay | src/components/ItineraryForm.jsx:143-152 | with more than one day the list is filtered and renumbered 1..n; the last day is never removed |
| ItineraryForm.ItineraryFormState.AddHotel | src/components/ItineraryForm.jsx:412 | the hotel list becomes the editor's add-night result, and every present night number stays at its position |
| ItineraryForm.ItineraryFormState.RemoveHotel | src/components/ItineraryForm.jsx:412 | the hotel list becomes the editor's removal result; a single entry stays; after a removal from two or more, the list is numbered 1..n |
| ItineraryForm.ItineraryFormState.HandleHotelChange | src/components/ItineraryForm.jsx:412 | exactly the given hotel gets the editor's field update, and every present night number stays at its position |
| ItineraryForm.ItineraryFormState.SetLists | src/components/ItineraryForm.jsx:417-435 | the checklist editors' outputs replace the four list and text states |
| ItineraryForm.ItineraryFormState.Submit | src/components/ItineraryForm.jsx:70-118 | ignored while a submit is in flight; otherwise the form-rule errors, the handler's message or the sent payload, following the submission check; an incomplete day is reported by its position, one-based |
| ItineraryForm.ItineraryFormState.SubmitSettled | src/components/ItineraryForm.jsx:120-127 | success notifies the parent; failure shows the server error or "Failed to submit itinerary"; submitting ends |
| DayItinerarySection.HandleChange | src/components/DayItinerarySection.jsx:5-7 | the edited field takes the new value; the other fields and the day number are unchanged |
| DayItinerarySection.EditLaws | src/components/DayItinerarySection.jsx:5-7 | a second edit of a field overrides the first; edits of different fields commute |
| DayItinerarySection.RemoveAction | src/components/DayItinerarySection.jsx:17-20 | the remove button exists exactly when removal is allowed, and it asks to remove its own index |
| DayItinerarySection.DescriptionCounter | src/components/DayItinerarySection.jsx:81-82 | the counter is highlighted exactly when the description is longer than the threshold |
| DayItinerarySection.CounterShowsLength | src/components/DayItinerarySection.jsx:82 | the counter text reads back as the description's length |
| DayItinerarySection.Badge | src/components/DayItinerarySection.jsx:13 | the badge starts with "Day ", and the text after it reads back as the day's number |
| DayItinerarySection.BadgesDistinguishDays | src/components/DayItinerarySection.jsx:13 | equal badges mean equal day numbers |
| HotelSection.Stored | src/components/HotelSection.jsx:9 | the room count is stored as a number, 0 when it does not parse; other fields store the text |
| HotelSection.SetField | src/components/HotelSection.jsx:7-10 | the edited field holds the stored value; every other field, the night number and the prices are unchanged |
| HotelSection.SetFieldKeepsOthers | src/components/HotelSection.jsx:7-10 | what every other input of the entry shows is unchanged by the edit |
| HotelSection.LastEditWins | src/components/HotelSection.jsx:5-12 | editing the same field twice equals the second edit alone |
| HotelSection.UnparsedRoomsAreZero | src/components/HotelSection.jsx:9 | an unparsable or zero room count becomes 0 |
| HotelSection.HandleHotelChange | src/components/HotelSection.jsx:5-12 | exactly the given entry is updated; the length and every other entry are unchanged |
| HotelSection.NewNight | src/components/HotelSection.jsx:17-28 | a new night carries the given number; its inputs show the rating "3*", one room and the meal plan "BREAKFAST", and every other input is empty; it has no category and no package costs |
| HotelSection.AddHotel | src/components/HotelSection.jsx:14-30 | appends one default night numbered one past the old length; earlier entries unchanged |
| HotelSection.AddHotelKeepsNumbering | src/components/HotelSection.jsx:14-30 | adding a night keeps a numbered list numbered |
| HotelSection.NumberedAtPositions | src/components/HotelSection.jsx:36-38 | a list numbered 1..n has every night number at its position |
| HotelSection.AddHotelKeepsPositions | src/components/HotelSection.jsx:14-30 | adding a night keeps every present night number at its position, also in a list that holds unnumbered entries |
| HotelSection.EditKeepsPositions | src/components/HotelSection.jsx:5-12 | a field edit of one entry keeps every present night number at its position |
| HotelSection.Renumbered | src/components/HotelSection.jsx:36-38 | entry i gets night i+1 and keeps every other field |
| HotelSection.RenumberedNumbered | src/components/HotelSection.jsx:36-38 | renumbering a numbered list changes nothing |
| HotelSection.RemoveHotel | src/components/HotelSection.jsx:32-41 | a single entry is kept; otherwise the filtered list is renumbered and is one shorter for an index in range |
| HotelSection.NumberInPlace | src/components/HotelSection.jsx:36-38 | the loop leaves the array equal to the renumbered list of its old contents |
| HotelSection.MealPlanChoices | src/components/HotelSection.jsx:208-219 | the schema's meal plans are used when present, otherwise the four built-in ones |
| HotelSection.NewNightDefaultsOffered | src/components/HotelSection.jsx:22-26 | a new night's default star rating and meal plan are among the built-in options; a supplied meal-plan list without BREAKFAST does not offer the new night's meal plan |
| HotelSection.RemoveThroughButton | src/components/HotelSection.jsx:74-77 | a removal through a shown button drops exactly that entry and leaves at least one |
| TransportationSection.SetField | src/components/TransportationSection.jsx:4-11 | the edited field holds the value; the other fields are unchanged |
| TransportationSection.SetSameValue | src/components/TransportationSection.jsx:4-11 | writing back a field's own value changes nothing |
| TransportationSection.HandleTransportChange | src/components/TransportationSection.jsx:4-11 | exactly the given entry is updated; the length and every other entry are unchanged |
| TransportationSection.AddTransportation | src/components/TransportationSection.jsx:13-24 | appends one entry with every field empty |
| TransportationSection.RemovalLaws | src/components/TransportationSection.jsx:26-29 | removing the entry just added gives back the old list; removing the only entry leaves none |
| TransportationSection.EntryLabel | src/components/TransportationSection.jsx:84 | the label reads "Entry " followed by a number |
| TransportationSection.EntryLabelNamesPosition | src/components/TransportationSection.jsx:84 | the label's number is the position plus one, so labels are distinct |
| ActivityRateCardSection.Price | src/components/ActivityRateCardSection.jsx:8 | an unparsable price becomes 0, a parsed one is kept |
| ActivityRateCardSection.SetField | src/components/ActivityRateCardSection.jsx:4-11 | each input changes only its own field; the price input stores the coerced price |
| ActivityRateCardSection.OnlyPriceInputChangesPrice | src/components/ActivityRateCardSection.jsx:8 | name and note edits leave the price unchanged |
| ActivityRateCardSection.HandleActivityChange | src/components/ActivityRateCardSection.jsx:4-11 | exactly the given card is updated; the length and every other card are unchanged |
| ActivityRateCardSection.AddActivity | src/components/ActivityRateCardSection.jsx:13-22 | appends one card with empty name and note and price 0 |
| ActivityRateCardSection.RemovalLaws | src/components/ActivityRateCardSection.jsx:24-27 | removing the card just added gives back the old list; removing the only card leaves none |
| ActivityRateCardSection.ActivityLabel | src/components/ActivityRateCardSection.jsx:82 | the label reads "Activity " followed by a number |
| ActivityRateCardSection.ActivityLabelNamesPosition | src/components/ActivityRateCardSection.jsx:82 | the label's number is the position plus one, so labels are distinct |
| InclusionsExclusionsEditor.Toggle | src/components/InclusionsExclusionsEditor.jsx:19-25 | flips whether exactly that item is ticked: ticked removes every copy, unticked appends it; other items keep their state |
| InclusionsExclusionsEditor.ToggleTwiceRestores | src/components/InclusionsExclusionsEditor.jsx:19-25 | ticking then unticking an unticked item gives back the list |
| InclusionsExclusionsEditor.ToggleTwiceMovesToEnd | src/components/InclusionsExclusionsEditor.jsx:19-25 | unticking then ticking a ticked item moves one copy to the end, dropping duplicates |
| InclusionsExclusionsEditor.RemoveItem | src/components/InclusionsExclusionsEditor.jsx:34-36 | the item is gone, every other item keeps its multiplicity and order |
| InclusionsExclusionsEditor.RemoveIsUntick | src/components/InclusionsExclusionsEditor.jsx:34-36 | removing a ticked item equals unticking it |
| InclusionsExclusionsEditor.AddCustomItem | src/components/InclusionsExclusionsEditor.jsx:27-32 | blank text adds nothing; otherwise the trimmed text is appended |
| InclusionsExclusionsEditor.CustomItemIsTrimmed | src/components/InclusionsExclusionsEditor.jsx:28-29 | the added item is non-empty and has no white space at either end |
| InclusionsExclusionsEditor.CustomItemMayDuplicate | src/components/InclusionsExclusionsEditor.jsx:27-32 | a custom item equal to a selected one, typed with a space on either side, is appended again, trimmed |
| InclusionsExclusionsEditor.CustomItemInput.constructor | src/components/InclusionsExclusionsEditor.jsx:12 | the input starts empty |
| InclusionsExclusionsEditor.CustomItemInput.SetNewItem | src/components/InclusionsExclusionsEditor.jsx:124 | the input holds the typed text |
| InclusionsExclusionsEditor.CustomItemInput.HandleAddCustomItem | src/components/InclusionsExclusionsEditor.jsx:27-32 | blank input emits nothing and stays; otherwise emits the list with the trimmed item and clears the input |
| DynamicForm.RulesFor | src/components/DynamicForm.jsx:70-74 | a required rule exactly for truthy `required`, with the message "<label> is required"; min and max are passed through |
| DynamicForm.RequiredMessageNamesLabel | src/components/DynamicForm.jsx:71 | the required message starts with the label |
| DynamicForm.RenderField | src/components/DynamicForm.jsx:68-129 | each known type gets its own control, with the field's rules, id and placeholder; unknown types render nothing |
| DynamicForm.DispatchIsTotal | src/components/DynamicForm.jsx:79-129 | a field is rendered exactly when its type is one of the handled ones |
| DynamicForm.LabelFor | src/components/DynamicForm.jsx:187-191 | every type but checkbox gets a label; a star follows exactly when `required` is truthy, and the text "0" follows when it is the number 0 |
| DynamicForm.StarMeansRequiredRule | src/components/DynamicForm.jsx:187-191 | a starred label means a required rule, and back |
| DynamicForm.GroupFields | src/components/DynamicForm.jsx:133-135 | the first three fields, the next seven and the rest; together they give back the field list |
| DynamicForm.GroupsFillInOrder | src/components/DynamicForm.jsx:133-135 | a later group is non-empty only when the earlier ones are full |
| DynamicForm.ErrorAfterSubmit | src/components/DynamicForm.jsx:33-46 | no error after success; the server's message or "Failed to submit form" after a failure |
| Submissions.Get | src/components/SubmissionsList.jsx:8 | an absent key reads as undefined; a defined value is stored under that key; with the key listed more than once, the first entry is read |
| Submissions.SpaceBeforeCapitals | src/components/SubmissionsList.jsx:161 | every capital is preceded by a space, dropping spaces gives back the key, and the text grows by exactly one character per capital |
| Submissions.UnspaceUndoesSpacing | src/components/SubmissionsList.jsx:161 | removing the space in front of each capital gives back the key, so no two keys are spaced alike |
| Submissions.Humanise | src/components/SubmissionsList.jsx:161 | the caption has no white space at either end and is at most one character longer per capital than the key |
| Submissions.HumaniseSpacesCapitals | src/components/SubmissionsList.jsx:161 | after trimming, every capital past the first character is preceded by a space |
| Submissions.HumaniseOnlyAddsSpaces | src/components/SubmissionModal.jsx:153 | for a key without white space, the humanised caption is the key with spaces added |
| Submissions.HumaniseUndoneByUnspace | src/components/SubmissionModal.jsx:153 | for a key without white space, the caption is one character longer per capital, less one for a leading capital, and removing the space in front of each capital gives back the key |
| Submissions.StatusBadgeClass | src/pages/AdminDashboard.jsx:60-67 | "badge badge-<status>" for the three known statuses and "badge" for anything else |
| Submissions.StatusCaption | src/pages/AdminDashboard.jsx:299 | the status with its first character upper-cased and the rest unchanged; an empty status stays empty |
| Submissions.NameOr | src/components/SubmissionsList.jsx:7-9 | the client name if truthy, else the full name if truthy, else the fallback |
| Submissions.NameAlwaysShown | src/pages/AdminDashboard.jsx:296 | with a non-empty fallback the shown name is never empty (truthy) |
| SubmissionsList.DisplayName | src/components/SubmissionsList.jsx:7-9 | a truthy name, falling back to "N/A" |
| SubmissionsList.DetailValue | src/components/SubmissionsList.jsx:164 | booleans read Yes/No, truthy values are shown as they are, anything else is "N/A"; never empty (truthy) |
| SubmissionsList.DetailRows | src/components/SubmissionsList.jsx:158-166 | one row per data entry, in order, with the humanised key and the display value |
| SubmissionsList.Notices | src/components/SubmissionsList.jsx:84-127 | the review notice exactly for pending; the download exactly for approved with a truthy link; the reason exactly for rejected with a truthy message; the text "0" where the link or message is the number 0 |
| SubmissionsList.AtMostOneNotice | src/components/SubmissionsList.jsx:84-127 | a card shows at most one notice, and a download link is always usable |
| SubmissionsList.Toggled | src/components/SubmissionsList.jsx:132 | clicking an open card closes it; clicking another opens that one |
| SubmissionsList.ToggleLaws | src/components/SubmissionsList.jsx:132 | a click flips the card's open state and closes every other card |
| SubmissionsList.ToggleCaption | src/components/SubmissionsList.jsx:135 | "Hide Details" exactly on the open card, "View Details" otherwise |
| SubmissionsList.CardFor | src/components/SubmissionsList.jsx:47-170 | a card shows the name, badge, caption, the destination if truthy or the text "0" if it is the number 0, notices and toggle, with details only when open |
| SubmissionsList.View | src/components/SubmissionsList.jsx:11-47 | the empty notice exactly for no submissions; otherwise one card per submission, in order |
| SubmissionsList.AtMostOneOpen | src/components/SubmissionsList.jsx:147 | two cards with different ids are never open together |
| SubmissionsList.SubmissionsListState.constructor | src/components/SubmissionsList.jsx:4 | no card starts open |
| SubmissionsList.SubmissionsListState.Toggle | src/components/SubmissionsList.jsx:132 | the selection becomes the toggle result |
| SubmissionModal.KnownLabel | src/components/SubmissionModal.jsx:24-48 | every caption of the fixed label table is non-empty |
| SubmissionModal.PackageTypeName | src/components/SubmissionModal.jsx:50-55 | every package type name is non-empty |
| SubmissionModal.MealPlanName | src/components/SubmissionModal.jsx:57-62 | every meal plan name is non-empty |
| SubmissionModal.CountryName | src/components/SubmissionModal.jsx:64-70 | every country name is non-empty |
| SubmissionModal.MappedName | src/components/SubmissionModal.jsx:76-84 | only the package type, meal plan and country keys are mapped, and a mapped name is non-empty, so the `&&` test takes it |
| SubmissionModal.FieldLabel | src/components/SubmissionModal.jsx:24-49 | a known key gets its fixed, non-empty label; any other key its humanised form |
| SubmissionModal.FormatValue | src/components/SubmissionModal.jsx:73-96 | terms read Yes/No; mapped codes read their names; empty dates, prices and durations read "N/A"; a duration reads "<n> Nights" |
| SubmissionModal.ShownCellsTruthy | src/components/SubmissionModal.jsx:73-96 | every value a cell shows directly is truthy; apart from arrays and objects it is drawn exactly when it is not the boolean `true` |
| SubmissionModal.TrueCellIsBlank | src/components/SubmissionModal.jsx:95 | a `true` under a key without its own formatting, such as `acceptTerms`, is passed through unchanged, and React draws nothing for it |
| SubmissionModal.ModalBadgeClass | src/components/SubmissionModal.jsx:133-139 | pending and approved get their badges; every other status shows as rejected |
| SubmissionModal.ModalBadgeMatchesList | src/components/SubmissionModal.jsx:133-139 | the modal's badge is the list's badge for pending, approved and rejected, and differs from it (rejected against plain) for every other status |
| SubmissionModal.FooterControls | src/components/SubmissionModal.jsx:207-257 | pending shows approve/reject/cancel or the reason form; any other status shows only Close |
| SubmissionModal.DecisionsOnlyWhilePending | src/components/SubmissionModal.jsx:207-257 | a decision control is shown only for a pending submission |
| SubmissionModal.SubmissionModalState.constructor | src/components/SubmissionModal.jsx:4-6 | no reason form, empty reason, nothing in flight |
| SubmissionModal.SubmissionModalState.OpenRejectForm | src/components/SubmissionModal.jsx:219 | the reason form shows |
| SubmissionModal.SubmissionModalState.SetRejectMessage | src/components/SubmissionModal.jsx:197 | the reason holds the typed text |
| SubmissionModal.SubmissionModalState.CancelReject | src/components/SubmissionModal.jsx:238-241 | the form hides and the reason is cleared |
| SubmissionModal.SubmissionModalState.HandleApprove | src/components/SubmissionModal.jsx:8-12 | ignored while in flight (button disabled); otherwise calls approve with the id and marks in flight |
| SubmissionModal.SubmissionModalState.HandleReject | src/components/SubmissionModal.jsx:14-22 | ignored while in flight; a blank reason alerts and sends nothing; otherwise sends id and reason |
| SubmissionModal.SubmissionModalState.DecisionSettled | src/components/SubmissionModal.jsx:8-22 | a resolved call ends the in-flight state; a thrown one leaves it, as there is no finally |
| ItineraryModal.FooterFor | src/components/ItineraryModal.jsx:240-316 | pending gives decision controls; otherwise Close with the status chip, green for approved and red otherwise |
| ItineraryModal.NoDecisionOnceDecided | src/components/ItineraryModal.jsx:298-316 | a decided submission offers no approve or reject control |
| ItineraryModal.ConfirmDisabled | src/components/ItineraryModal.jsx:286-287 | the confirm button is disabled exactly while loading or with a blank reason |
| ItineraryModal.EnabledConfirmPassesGuard | src/components/ItineraryModal.jsx:18 | an enabled confirm button always passes the handler's blank-reason guard |
| ItineraryModal.ItineraryModalState.constructor | src/components/ItineraryModal.jsx:4-6 | empty reason, no form, not loading |
| ItineraryModal.ItineraryModalState.OpenRejectForm | src/components/ItineraryModal.jsx:245 | the reason form shows |
| ItineraryModal.ItineraryModalState.SetRejectMessage | src/components/ItineraryModal.jsx:272 | the reason holds the typed text |
| ItineraryModal.ItineraryModalState.CancelReject | src/components/ItineraryModal.jsx:280 | the form hides; the reason is kept |
| ItineraryModal.ItineraryModalState.HandleApprove | src/components/ItineraryModal.jsx:8-11 | ignored while loading (button disabled); otherwise calls approve with the id and starts loading |
| ItineraryModal.ItineraryModalState.HandleReject | src/components/ItineraryModal.jsx:17-24 | a blank reason alerts and sends nothing; otherwise sends id and reason and starts loading |
| ItineraryModal.ItineraryModalState.DecisionSettled | src/components/ItineraryModal.jsx:12-14 | loading ends whatever the outcome (finally) |
| AdminDashboard.CountStatus | src/pages/AdminDashboard.jsx:71-73 | the count is at most the list length and is 0 exactly when no submission has that status |
| AdminDashboard.StatsOf | src/pages/AdminDashboard.jsx:69-74 | the total is the list length, and each count is its status count |
| AdminDashboard.StatsBound | src/pages/AdminDashboard.jsx:69-74 | the three counts add up to at most the total, and to the total exactly when every status is known |
| AdminDashboard.FilterValue | src/pages/AdminDashboard.jsx:204-253 | each filter button requests one of the four filter values |
| AdminDashboard.FilterValuesDistinct | src/pages/AdminDashboard.jsx:204-253 | different buttons request different values |
| AdminDashboard.EmptyListText | src/pages/AdminDashboard.jsx:279 | "No submissions yet." for all, "No <filter> submissions." otherwise |
| AdminDashboard.EmptyListTextsDistinct | src/pages/AdminDashboard.jsx:279 | each tab has its own empty-list text, and a filtered tab's text names the value the tab requests |
| AdminDashboard.CardTitle | src/pages/AdminDashboard.jsx:296 | the card title is never empty (truthy), falling back to "Unknown" |
| AdminDashboard.AdminDashboardState.constructor | src/pages/AdminDashboard.jsx:8-12 | empty list, loading, pending filter, no selection, no notification |
| AdminDashboard.AdminDashboardState.SetFilter | src/pages/AdminDashboard.jsx:14-19 | a new filter is stored and fetched with loading on; the active filter sends nothing |
| AdminDashboard.AdminDashboardState.FetchSettled | src/pages/AdminDashboard.jsx:18-29 | success stores the list; failure shows "Failed to fetch submissions"; loading ends |
| AdminDashboard.AdminDashboardState.Select | src/pages/AdminDashboard.jsx:338 | the clicked submission opens in the modal |
| AdminDashboard.AdminDashboardState.CloseModal | src/pages/AdminDashboard.jsx:357 | the modal closes |
| AdminDashboard.AdminDashboardState.DecisionSettled | src/pages/AdminDashboard.jsx:36-58 | success notifies, closes the modal and refetches; failure shows the server error or the fallback and keeps the modal |
| Ui.FirstChars | src/components/ui/index.jsx:16 | one character at most per piece; what each piece gives is stated by FirstCharsConcat and FirstCharsOfOne |
| Ui.FirstCharsConcat | src/components/ui/index.jsx:16 | the initials of joined piece lists are the initials of each list, joined |
| Ui.FirstCharsOfOne | src/components/ui/index.jsx:16 | a piece gives its first character, and an empty piece gives nothing |
| Ui.Initials | src/components/ui/index.jsx:14-22 | at most two characters, none lower-case; from the name, else the email's first letter, else "U" |
| Ui.InitialOfOneWord | src/components/ui/index.jsx:16 | a one-word name gives its first letter, upper-cased |
| Ui.InitialsOfTwoWords | src/components/ui/index.jsx:16 | a name of two or more words gives the upper-cased first letters of the first two |
| Ui.UserLabel | src/components/ui/index.jsx:76 | the name, else the email's part before '@' when non-empty, else "User"; never empty |
| Ui.LocalPart | src/components/ui/index.jsx:76 | the part before '@' is a prefix of the email without '@' that ends at the first '@' or the end |
| Ui.DropdownName | src/components/ui/index.jsx:91 | the name, else "User" |
| Ui.StatusBadge | src/components/ui/index.jsx:133-162 | the table entry for the lower-cased status, falling back to draft |
| Ui.StatusBadgeClass | src/components/ui/index.jsx:165 | "badge badge-" and the lower-cased status when that is one of the six table keys; "badge badge-draft" for a missing or unknown status |
| Ui.BadgeIgnoresCase | src/components/ui/index.jsx:162 | every casing of a status gives the same badge, and it is always a table entry |
| ImageUpload.CheckFile | src/components/ImageUpload.jsx:10-24 | no file is ignored; a non-image is refused for its type; an image over 10 MiB for its size; anything else is accepted |
| ImageUpload.TypeCheckedFirst | src/components/ImageUpload.jsx:15-24 | the type is checked before the size, and a file of exactly 10 MiB is accepted |
| ImageUpload.InputId | src/components/ImageUpload.jsx:90 | the id starts with "image-upload-" and holds no white space; a label without white space is kept as is |
| ImageUpload.InputIdOfTwoWords | src/components/ImageUpload.jsx:90 | any run of white space between two words becomes one '-' |
| ImageUpload.CollapseByRuns | src/components/ImageUpload.jsx:90 | for a label cut into alternating words and white-space runs, each word is kept and each run becomes one '-' |
| ImageUpload.RunsOf | src/components/ImageUpload.jsx:90 | every label is cut into one such alternating list of runs |
| ImageUpload.InputIdByRuns | src/components/ImageUpload.jsx:90 | for any label, the id is "image-upload-" and the label's runs with every white-space run written as one '-' |
| ImageUpload.ImageUploadState.constructor | src/components/ImageUpload.jsx:5-7 | not uploading, no error, preview from the value or empty |
| ImageUpload.ImageUploadState.HandleFileSelect | src/components/ImageUpload.jsx:10-27 | starts an upload exactly for an accepted file; a refused file sets its message; no file changes nothing |
| ImageUpload.ImageUploadState.UploadSettled | src/components/ImageUpload.jsx:30-63 | success shows and emits the address; upload, read and processing failures set their messages; uploading ends |
| ImageUpload.ImageUploadState.HandleRemove | src/components/ImageUpload.jsx:66-72 | the preview clears, "" is emitted and the picker shows again |
| JsText.TrimEmptyIffBlank | src/components/ItineraryForm.jsx:81 | `!s.trim()` holds exactly when the text is all white space |
| JsText.Capitalize | src/components/SubmissionsList.jsx:61 | the first character is upper-cased and the rest are kept |
| JsValue.Guard | src/components/SubmissionsList.jsx:67 | `{cond && <element/>}` draws the element exactly for a truthy condition and prints "0" exactly for the number 0 |
| JsValue.GuardAbsent | src/components/SubmissionsList.jsx:67 | only undefined, null, false and "" leave nothing on the page |
| JsValue.ErrorText | src/pages/AdminDashboard.jsx:44 | the server's error text when it gave a non-empty one, otherwise the fallback; never empty when the fallback is not |
| JsNumber.ParseInt | src/components/HotelSection.jsx:9 | a number is read only when, after leading white space and one sign, a digit comes first; a negative result needs a leading minus |
| JsNumber.ParseIntOrZero | src/components/HotelSection.jsx:9 | `parseInt(value) \|\| 0`: the parsed integer, or 0 when nothing parses |
| JsNumberFacts.ParseIntOfIntToString | src/components/DayItinerarySection.jsx:82 | a number written as text reads back as the same number |
| JsNumberFacts.PrefixedNumeral | src/components/TransportationSection.jsx:84 | a numeral after a fixed label prefix is recovered by slicing off the prefix, reads back as its number, and different numbers give different labels |
| Collections.RemoveAt | src/components/TransportationSection.jsx:27 | filtering by index drops exactly that entry and shifts the later ones; an index out of range changes nothing |
| Collections.RemoveAll | src/components/InclusionsExclusionsEditor.jsx:21 | filtering by value leaves no copy of it, never lengthens the list, and leaves a list without it unchanged |
| Collections.RemoveAllKeepsOthers | src/components/InclusionsExclusionsEditor.jsx:21 | filtering by value keeps every other entry with its multiplicity and in its order, and shortens the list by exactly the number of copies |

## Left out

- Browser constraint validation is not modelled: the `required` and `min` attributes checked by the browser before the form library runs. The model's gate is the form rules followed by the submit handler's checks.
- I/O is not modelled. The HTTP calls, the schema fetches, `alert`, `console.error`, the 5-second timer that clears the dashboard notification, `FileReader` and routing all become parameters (`Outcome` values) or are dropped.
- Concurrency is not modelled. Overlapping requests and responses arriving out of order are not modelled; each `await` is a split point.
- Floating point is not modelled. `parseFloat` is an abstract parser passed in as a parameter. Numbers in submission data are integers, so fractions, `NaN` and infinities are left out. Date and currency formatting are abstract locale functions.
- JsNumber.ParseInt: reads exact integers. It does not model the precision loss of double-precision results past 2^53.
- Text has no Unicode case mapping. `toUpperCase`/`toLowerCase` are modelled on ASCII letters only, and string lengths count code points rather than UTF-16 units.
- Arrays and objects placed directly in a data cell are not modelled as React draws them. React runs an array's items together and refuses a plain object; the model shows the text `String(v)` gives.
- ItineraryForm.FormData: the duration and the three head counts are modelled as integers. The inputs are registered without `valueAsNumber`, so once a user edits one of them the form hands the submit handler its text (such as "4"), while untouched ones keep their numeric defaults. The posted payload therefore mixes strings and numbers, and the model's payload does not. The `min` rules compare as numbers, so the gate is the same either way.
- Prototype keys are not modelled. Lookups in object tables (labels, code maps, the badge table) treat keys such as `constructor` as absent.
- ItineraryForm.ItineraryFormState.HandleDayChange: requires an index inside the list, and a day that carries its position's number. The only caller, a day card, hands back its own day with one field changed, so both always hold. An out-of-range write, or a day with another number, is not modelled.
- HotelSection.HandleHotelChange: requires an index inside the list. The same applies to `TransportationSection.HandleTransportChange`, `ActivityRateCardSection.HandleActivityChange` and `ItineraryForm.ItineraryFormState.HandleHotelChange`. The components only pass rendered indexes. An out-of-range write would grow the array with holes, and that is not modelled.
- Aliasing is not modelled. `removeHotel` and `removeDay` renumber the filtered objects in place with `forEach`; the model builds new records. An old list that still shares those objects, such as the previous state, would see the change.
- The order of `Object.entries` is taken as the order of the data list; JavaScript's integer-key-first ordering is not modelled.
- Fields of unknown type in the schema-driven form render nothing. What the form library does with the values of such fields is not modelled.
- The file-input reset in `handleRemove` is not modelled. It runs only when the input exists, and the input exists only while there is no preview (`ImageUploadState.PickerShown`). So it has no effect here.
- The picker's `accept="image/*"` filter belongs to the browser dialog and is not modelled; the code's own type check is.
- The dashboard's card details are not modelled: the submitter's email with its "N/A" fallback, and the formatted dates. They are plain display values.
- ItineraryModal.ItineraryModalState.HandleReject: no in-flight guard, because the handler has none. The disabled confirm button is stated separately by `ConfirmDisabled` and `EnabledConfirmPassesGuard`.
- The submission lifecycle on the server (statuses, PDF generation) is not part of this model. The screens only read `status`, `pdfUrl` and `adminMessage`.
- `pages/UserDashboard.jsx` and the service wrapper `services/api` are not part of this model.
