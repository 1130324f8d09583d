/** The booking form built from a server schema: one control per schema
    field chosen by the field's type, the rules each field declares, the
    field labels, and the three positional field groups. */
module DynamicForm {
  import opened JsValue
  import opened Collections

  datatype SelectOption = SelectOption(value: string, caption: string)

  /** A field of the schema. `required`, `min`, `max` and `placeholder`
      are whatever the schema holds; `options` may be absent. */
  datatype Field = Field(
    name: string,
    fieldType: string,
    labelText: string,
    required: Value,
    min: Value,
    max: Value,
    placeholder: Value,
    options: Option<seq<SelectOption>>)

  datatype Schema = Schema(fields: Option<seq<Field>>)

  /** The rules registered with react-hook-form: a required message or
      none, and the schema's `min` and `max` as they are. */
  datatype Rules = Rules(required: Option<string>, min: Value, max: Value)

  function RulesFor(f: Field): (r: Rules)
    ensures r.required.Some? <==> Truthy(f.required)
    ensures r.required.Some? ==> r.required.value == f.labelText + " is required"
    ensures r.min == f.min && r.max == f.max
  {
    Rules(if Truthy(f.required) then Some(f.labelText + " is required") else None, f.min, f.max)
  }

  /** A required rule's message ends with " is required" and starts with
      the field's label. */
  lemma RequiredMessageNamesLabel(f: Field)
    requires Truthy(f.required)
    ensures var m := RulesFor(f).required.value;
      |m| == |f.labelText| + 12 && m[..|f.labelText|] == f.labelText && m[|f.labelText|..] == " is required"
  {
  }

  /** The kinds of control `renderField` can produce. */
  datatype Control =
    | InputControl(inputType: string)
    | TextAreaControl
    | SelectControl(choices: seq<SelectOption>)
    | CheckboxControl(caption: string)

  /** `<option value="">Select an option</option>`. */
  const Placeholder := SelectOption("", "Select an option")

  predicate IsInputType(t: string) {
    t == "text" || t == "email" || t == "number" || t == "date"
  }

  /** A rendered control, carrying the props every control shares. */
  datatype Rendered = Rendered(control: Control, rules: Rules, id: string, placeholder: Value)

  /** `renderField(field)`; `None` is `null`. */
  function RenderField(f: Field): (r: Option<Rendered>)
    ensures r.Some? ==> r.value.rules == RulesFor(f) && r.value.id == f.name && r.value.placeholder == f.placeholder
    ensures IsInputType(f.fieldType) <==> r.Some? && r.value.control.InputControl?
    ensures r.Some? && r.value.control.InputControl? ==> r.value.control.inputType == f.fieldType
    ensures f.fieldType == "textarea" <==> r.Some? && r.value.control.TextAreaControl?
    ensures f.fieldType == "select" <==> r.Some? && r.value.control.SelectControl?
    ensures r.Some? && r.value.control.SelectControl? ==>
      var choices := r.value.control.choices;
      && |choices| >= 1 && choices[0] == Placeholder
      && choices[1..] == (if f.options.Some? then f.options.value else [])
    ensures f.fieldType == "checkbox" <==> r.Some? && r.value.control.CheckboxControl?
    ensures r.Some? && r.value.control.CheckboxControl? ==> r.value.control.caption == f.labelText
  {
    var rules := RulesFor(f);
    var control :=
      if IsInputType(f.fieldType) then Some(InputControl(f.fieldType))
      else if f.fieldType == "textarea" then Some(TextAreaControl)
      else if f.fieldType == "select" then
        Some(SelectControl([Placeholder] + (if f.options.Some? then f.options.value else [])))
      else if f.fieldType == "checkbox" then Some(CheckboxControl(f.labelText))
      else None;
    match control
    case None => None
    case Some(c) => Some(Rendered(c, rules, f.name, f.placeholder))
  }

  /** The dispatch is total: a field gets a control exactly when its type
      is one of the seven known ones. */
  lemma DispatchIsTotal(f: Field)
    ensures RenderField(f).Some? <==>
      (IsInputType(f.fieldType) || f.fieldType == "textarea" || f.fieldType == "select" || f.fieldType == "checkbox")
  {
  }

  /** The label above a control: none for a checkbox (its caption follows
      the box), otherwise the field's label followed by what
      `{field.required && <span>*</span>}` leaves: the star when `required`
      is truthy, the text "0" when it is the number zero. */
  datatype FieldLabel = FieldLabel(text: string, star: Guarded<string>)

  function LabelFor(f: Field): (l: Option<FieldLabel>)
    ensures l.None? <==> f.fieldType == "checkbox"
    ensures l.Some? ==> l.value.text == f.labelText
    ensures l.Some? ==> (l.value.star.Present? <==> Truthy(f.required))
    ensures l.Some? && l.value.star.Present? ==> l.value.star.element == "*"
    ensures l.Some? ==> (l.value.star.StrayZero? <==> f.required == Int(0))
  {
    if f.fieldType == "checkbox" then None else Some(FieldLabel(f.labelText, Guard(f.required, "*")))
  }

  /** A label is starred exactly when the field has a required rule. */
  lemma StarMeansRequiredRule(f: Field)
    requires f.fieldType != "checkbox"
    ensures LabelFor(f).value.star.Present? <==> RulesFor(f).required.Some?
  {
  }

  /** The three sections: fields `[0,3)`, `[3,10)` and `[10,..)`; a
      missing schema or field list gives three empty sections. */
  datatype Groups = Groups(client: seq<Field>, booking: seq<Field>, cost: seq<Field>)

  function GroupFields(schema: Option<Schema>): (g: Groups)
    ensures |g.client| <= 3 && |g.booking| <= 7
    ensures (schema.None? || schema.value.fields.None?) ==> g == Groups([], [], [])
    ensures schema.Some? && schema.value.fields.Some? ==> g.client + g.booking + g.cost == schema.value.fields.value
  {
    if schema.None? || schema.value.fields.None? then Groups([], [], [])
    else
      var fields := schema.value.fields.value;
      SlicesPartition(fields, 3, 10);
      Groups(Slice(fields, 0, 3), Slice(fields, 3, 10), SliceFrom(fields, 10))
  }

  /** The later sections are filled only once the earlier ones are full. */
  lemma GroupsFillInOrder(schema: Option<Schema>)
    ensures var g := GroupFields(schema);
      (|g.booking| > 0 ==> |g.client| == 3) && (|g.cost| > 0 ==> |g.client| == 3 && |g.booking| == 7)
  {
  }

  /** The error shown once a submission settles: cleared on success; the
      server's error text, or the default message, on failure. */
  function ErrorAfterSubmit(outcome: Outcome<()>): (error: string)
    ensures outcome.Succeeded? ==> error == ""
    ensures outcome.Failed? && outcome.serverError.Some? && outcome.serverError.value != "" ==> error == outcome.serverError.value
    ensures outcome.Failed? && (outcome.serverError.None? || outcome.serverError.value == "") ==> error == "Failed to submit form"
  {
    match outcome
    case Succeeded(_) => ""
    case Failed(serverError) => ErrorText(serverError, "Failed to submit form")
  }
}
