/**
 * The transaction form: its fields, the per-field validation messages, field edits that clear
 * their own message, the submitted payload, and the reset after adding.
 */
module TransactionForm {
  import opened Wrappers
  import opened FormInput
  import opened Transactions

  /** `formData`. `date` is `None` when no date is picked; an empty `description` or `category` is falsy. */
  datatype FormData = FormData(amount: Input, date: Option<Date>, description: string, category: string)

  /** `errors`: at most one message per field, `None` meaning no message shown. */
  datatype Errors = Errors(amount: Option<string>, date: Option<string>, description: Option<string>, category: Option<string>)

  datatype FormState = FormState(data: FormData, errors: Errors)

  /** The record being edited (`initialValues`), whose stored date may be missing. */
  datatype InitialValues = InitialValues(id: int, amount: real, date: Option<Date>, description: string, category: string)

  const AmountRequired: string := "Amount is required"
  const AmountNotPositive: string := "Amount must be a positive number"
  const DateRequired: string := "Date is required"
  const DescriptionRequired: string := "Description is required"
  const CategoryRequired: string := "Category is required"

  const NoErrors: Errors := Errors(None, None, None, None)

  /** The blank form `useState` starts with and the form resets to, dated `now`. */
  function EmptyForm(now: Date): FormData {
    FormData(Blank, Some(now), "", "")
  }

  /** The edited record's fields as the form shows them, with `now` for a missing date. */
  function Loaded(v: InitialValues, now: Date): FormData {
    FormData(FromNumber(v.amount), Some(v.date.GetOr(now)), v.description, v.category)
  }

  /**
   * The `useEffect` on `initialValues`: a record to edit replaces the fields and leaves the
   * messages alone; without one (adding, or after Cancel) nothing changes.
   */
  function Load(s: FormState, initial: Option<InitialValues>, now: Date): (t: FormState)
    ensures t.errors == s.errors
    ensures initial.None? ==> t == s
    ensures initial.Some? ==> t.data.amount == FromNumber(initial.value.amount)
    ensures initial.Some? ==> t.data.date == Some(initial.value.date.GetOr(now))
    ensures initial.Some? ==> t.data.description == initial.value.description
    ensures initial.Some? ==> t.data.category == initial.value.category
  {
    match initial
    case None => s
    case Some(v) => FormState(Loaded(v, now), s.errors)
  }

  /** The state on first mount: the blank `useState` form, then the effect's load. */
  function Open(initial: Option<InitialValues>, now: Date): (s: FormState)
    ensures s.errors == NoErrors
    ensures initial.None? ==> s.data == EmptyForm(now)
    ensures initial.Some? ==> s.data.amount == FromNumber(initial.value.amount)
    ensures initial.Some? ==> s.data.date == Some(initial.value.date.GetOr(now))
    ensures initial.Some? ==> s.data.description == initial.value.description
    ensures initial.Some? ==> s.data.category == initial.value.category
  {
    Load(FormState(EmptyForm(now), NoErrors), initial, now)
  }

  function AmountError(a: Input): Option<string> {
    match a
    case Blank => Some(AmountRequired)
    case NotANumber => Some(AmountNotPositive)
    case Numeral(v) => if v <= 0.0 then Some(AmountNotPositive) else None
  }

  /** `validateForm`'s `newErrors`. */
  function Validate(f: FormData): Errors {
    Errors(
      AmountError(f.amount),
      if f.date.None? then Some(DateRequired) else None,
      if f.description == "" || Trim(f.description) == "" then Some(DescriptionRequired) else None,
      if f.category == "" then Some(CategoryRequired) else None)
  }

  predicate Valid(f: FormData) {
    Validate(f) == NoErrors
  }

  /**
   * The form passes exactly when the amount is a positive number, a date is picked, the
   * description has a non-space character and a category is chosen; an empty amount is reported
   * as required and any other bad amount as not positive.
   */
  lemma ValidateSpec(f: FormData)
    ensures Valid(f) <==>
      && f.amount.Numeral? && f.amount.value > 0.0
      && f.date.Some?
      && !AllSpace(f.description)
      && f.category != ""
    ensures Validate(f).amount == Some(AmountRequired) <==> f.amount.Blank?
    ensures Validate(f).amount == Some(AmountNotPositive) <==> f.amount.NotANumber? || (f.amount.Numeral? && f.amount.value <= 0.0)
  {
    TrimEmpty(f.description);
  }

  /** A field edit: `handleChange` for the amount and description, `handleDateSelect`, `handleCategoryChange`. */
  datatype Edit =
    | SetAmount(amount: Input)
    | SetDate(date: Option<Date>)
    | SetDescription(description: string)
    | SetCategory(category: string)

  /** Applies an edit: the edited field takes the new value and its message, if any, is cleared. */
  function Apply(s: FormState, e: Edit): FormState {
    var d, r := s.data, s.errors;
    match e
    case SetAmount(a) => FormState(d.(amount := a), if r.amount.Some? then r.(amount := None) else r)
    case SetDate(t) => FormState(d.(date := t), if r.date.Some? then r.(date := None) else r)
    case SetDescription(x) => FormState(d.(description := x), if r.description.Some? then r.(description := None) else r)
    case SetCategory(c) => FormState(d.(category := c), if r.category.Some? then r.(category := None) else r)
  }

  /** An edit changes its own field and clears its own message; every other field and message stays as it was. */
  lemma ApplyOnlyTouchesItsField(s: FormState, e: Edit)
    ensures var t := Apply(s, e);
      && (if e.SetAmount? then t.data.amount == e.amount && t.errors.amount.None?
          else t.data.amount == s.data.amount && t.errors.amount == s.errors.amount)
      && (if e.SetDate? then t.data.date == e.date && t.errors.date.None?
          else t.data.date == s.data.date && t.errors.date == s.errors.date)
      && (if e.SetDescription? then t.data.description == e.description && t.errors.description.None?
          else t.data.description == s.data.description && t.errors.description == s.errors.description)
      && (if e.SetCategory? then t.data.category == e.category && t.errors.category.None?
          else t.data.category == s.data.category && t.errors.category == s.errors.category)
  {
  }

  /** The payload `{ ...formData, amount: parseFloat(amount), id }`, with `id` absent when adding. */
  function Payload(f: FormData, initial: Option<InitialValues>): Draft
    requires Valid(f)
  {
    Draft(if initial.Some? then Some(initial.value.id) else None, f.amount.value, f.date.value, f.description, f.category)
  }

  /**
   * `handleSubmit`: an invalid form shows its messages and submits nothing; a valid one submits
   * the payload and, when adding, resets to the blank form dated `now`.
   */
  function Submit(s: FormState, initial: Option<InitialValues>, now: Date): (FormState, Option<Draft>) {
    var errors := Validate(s.data);
    if errors != NoErrors then (FormState(s.data, errors), None)
    else
      var next := if initial.None? then EmptyForm(now) else s.data;
      (FormState(next, errors), Some(Payload(s.data, initial)))
  }

  /**
   * Something is submitted exactly when the form is valid; the payload carries the parsed amount
   * and the other fields as entered, the edited record's id when editing and no id when adding.
   * The form is cleared after submitting only when adding, and is otherwise left as it was.
   */
  lemma SubmitSpec(s: FormState, initial: Option<InitialValues>, now: Date)
    ensures var (next, sent) := Submit(s, initial, now);
      && (sent.Some? <==> ValidFields(s.data))
      && next.errors == Validate(s.data)
      && (sent.Some? ==>
            && sent.value.amount > 0.0 && Some(sent.value.amount) == AmountOf(s.data.amount)
            && Some(sent.value.date) == s.data.date
            && sent.value.description == s.data.description && sent.value.category == s.data.category
            && (sent.value.id.Some? <==> initial.Some?)
            && (initial.Some? ==> sent.value.id == Some(initial.value.id)))
      && (sent.Some? && initial.None? ==> next.data == EmptyForm(now))
      && (sent.None? || initial.Some? ==> next.data == s.data)
  {
    ValidateSpec(s.data);
  }

  /** The field checks, written out independently of `Validate`. */
  predicate ValidFields(f: FormData) {
    f.amount.Numeral? && f.amount.value > 0.0 && f.date.Some? && !AllSpace(f.description) && f.category != ""
  }

  function AmountOf(a: Input): Option<real> {
    if a.Numeral? then Some(a.value) else None
  }

  /** The record an edit payload replaces its original with in `updateTransaction`. */
  function Updated(d: Draft, id: int): Transaction {
    Transaction(d.id.GetOr(id), d.amount, d.date, d.description, d.category)
  }

  /** The edit form of a stored record. */
  function EditValues(t: Transaction): InitialValues {
    InitialValues(t.id, t.amount, Some(t.date), t.description, t.category)
  }

  /**
   * Loading a stored record for editing, whatever the form showed before, and submitting it
   * unchanged gives back that very record.
   */
  lemma EditUnchangedPayload(s: FormState, t: Transaction, now: Date)
    requires t.amount > 0.0 && !AllSpace(t.description) && t.category != ""
    ensures var initial := Some(EditValues(t));
      var sent := Submit(Load(s, initial, now), initial, now).1;
      sent.Some? && Updated(sent.value, t.id) == t
  {
    var initial := Some(EditValues(t));
    SubmitSpec(Load(s, initial, now), initial, now);
  }

  /** So when ids are unique, saving an unchanged edit leaves the collection as it was. */
  lemma EditUnchangedRoundTrip(s: FormState, ts: seq<Transaction>, i: int, now: Date)
    requires 0 <= i < |ts|
    requires forall a, b :: 0 <= a < b < |ts| ==> ts[a].id != ts[b].id
    requires ts[i].amount > 0.0 && !AllSpace(ts[i].description) && ts[i].category != ""
    ensures var initial := Some(EditValues(ts[i]));
      var sent := Submit(Load(s, initial, now), initial, now).1;
      sent.Some? && UpdateTransaction(ts, Updated(sent.value, ts[i].id)) == ts
  {
    UpdateUnchanged(ts, i);
    EditUnchangedUpdate(s, ts, ts[i], now);
  }

  /** An unchanged edit of a record whose own update leaves the collection alone leaves it alone too. */
  lemma EditUnchangedUpdate(s: FormState, ts: seq<Transaction>, t: Transaction, now: Date)
    requires t.amount > 0.0 && !AllSpace(t.description) && t.category != ""
    requires UpdateTransaction(ts, t) == ts
    ensures var initial := Some(EditValues(t));
      var sent := Submit(Load(s, initial, now), initial, now).1;
      sent.Some? && UpdateTransaction(ts, Updated(sent.value, t.id)) == ts
  {
    EditUnchangedPayload(s, t, now);
  }

  /**
   * After Cancel the form keeps the edited record's fields and no longer carries its id: a valid
   * submit then adds those fields as a new record instead of updating the old one.
   */
  lemma CancelThenSubmitAdds(s: FormState, t: Transaction, now: Date)
    requires t.amount > 0.0 && !AllSpace(t.description) && t.category != ""
    ensures var edited := Load(s, Some(EditValues(t)), now);
      var sent := Submit(Load(edited, None, now), None, now).1;
      && sent.Some? && sent.value.id.None?
      && sent.value.amount == t.amount && sent.value.date == t.date
      && sent.value.description == t.description && sent.value.category == t.category
  {
    var edited := Load(s, Some(EditValues(t)), now);
    SubmitSpec(edited, None, now);
  }
}
