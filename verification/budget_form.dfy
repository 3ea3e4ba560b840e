/**
 * The budget settings form: one field per budget key, validation that rejects negative or
 * non-numeric limits, saving with empty fields read as 0, and the reset to the defaults.
 */
module BudgetForm {
  import opened Wrappers
  import opened OrderedMap
  import Seqs
  import opened FormInput
  import Constants
  import Budgets

  /** `budgetData`: the text of each budget field, keyed by category. */
  type Fields = OMap<string, Input>

  /** `errors`: a message per rejected key; a cleared message stays as an `undefined` entry (`None`). */
  type ErrorMap = OMap<string, Option<string>>

  datatype FormState = FormState(data: Fields, errors: ErrorMap)

  const NotPositive: string := "Budget must be a positive number"

  /** The fields showing a budget map. */
  function FromBudgets(b: Budgets.BudgetMap): (f: Fields)
    ensures Keys(f) == Keys(b)
    ensures forall i :: 0 <= i < |b| ==> !f[i].1.NotANumber? && NumberOr0(f[i].1) == b[i].1
    ensures forall i :: 0 <= i < |b| ==> (f[i].1.Blank? <==> b[i].1 == 0.0)
  {
    seq(|b|, i requires 0 <= i < |b| => (b[i].0, FromNumber(b[i].1)))
  }

  /** `useEffect(() => setBudgetData(budgets || {}))`: the fields follow the saved budgets. */
  function Sync(s: FormState, b: Budgets.BudgetMap): FormState {
    FormState(FromBudgets(b), s.errors)
  }

  /** `value && (isNaN(value) || parseFloat(value) < 0)`: a blank field is never rejected. */
  predicate Rejected(i: Input) {
    i.NotANumber? || (i.Numeral? && i.value < 0.0)
  }

  function Flag(): ((string, Input)) -> Option<(string, Option<string>)> {
    (e: (string, Input)) => if Rejected(e.1) then Some((e.0, Some(NotPositive))) else None
  }

  /** `validateForm`'s `newErrors`: the rejected keys, in field order, each with the message. */
  function Validate(d: Fields): ErrorMap {
    Seqs.Collect(d, Flag())
  }

  /** The form is accepted exactly when no field is rejected. */
  lemma ValidateEmpty(d: Fields)
    ensures |Validate(d)| == 0 <==> forall i :: 0 <= i < |d| ==> !Rejected(d[i].1)
  {
    if i :| 0 <= i < |d| && Rejected(d[i].1) {
      Seqs.CollectMember(d, Flag(), (d[i].0, Some(NotPositive)));
    }
    if |Validate(d)| > 0 {
      Seqs.CollectMember(d, Flag(), Validate(d)[0]);
    }
  }

  /**
   * Exactly the keys whose field is non-empty and either not a number or negative get the
   * message; empty and zero fields pass.
   */
  lemma ValidateFlags(d: Fields, key: string)
    requires DistinctKeys(d)
    ensures Get(Validate(d), key) == if Get(d, key).Some? && Rejected(Get(d, key).value) then Some(Some(NotPositive)) else None
  {
    var r := Validate(d);
    GetSomeIff(d, key);
    GetSomeIff(r, key);
    if Get(d, key).Some? && Rejected(Get(d, key).value) {
      GetFound(d, key);
      var i :| 0 <= i < |d| && d[i] == (key, Get(d, key).value);
      Seqs.CollectMember(d, Flag(), (key, Some(NotPositive)));
      FlaggedValues(d);
      var j :| 0 <= j < |r| && r[j] == (key, Some(NotPositive));
      assert Keys(r)[j] == key;
      GetFound(r, key);
    } else if Get(r, key).Some? {
      GetFound(r, key);
      var j :| 0 <= j < |r| && r[j] == (key, Get(r, key).value);
      Seqs.CollectMember(d, Flag(), r[j]);
      var i :| 0 <= i < |d| && Flag()(d[i]) == Some(r[j]);
      assert Keys(d)[i] == key;
      EntryIffGet(d, key, d[i].1);
      assert false;
    }
  }

  /** Every entry of `newErrors` carries the message. */
  lemma FlaggedValues(d: Fields)
    ensures forall j :: 0 <= j < |Validate(d)| ==> Validate(d)[j].1 == Some(NotPositive)
  {
    forall j | 0 <= j < |Validate(d)|
      ensures Validate(d)[j].1 == Some(NotPositive)
    {
      Seqs.CollectMember(d, Flag(), Validate(d)[j]);
    }
  }

  /** `processedBudgets`: every field as its number, blank ones as 0. */
  function Normalise(d: Fields): (b: Budgets.BudgetMap)
    requires forall i :: 0 <= i < |d| ==> !d[i].1.NotANumber?
    ensures Keys(b) == Keys(d)
    ensures forall i :: 0 <= i < |d| && d[i].1.Blank? ==> b[i].1 == 0.0
    ensures forall i :: 0 <= i < |d| && d[i].1.Numeral? ==> b[i].1 == d[i].1.value
  {
    seq(|d|, i requires 0 <= i < |d| => (d[i].0, NumberOr0(d[i].1)))
  }

  /** `handleSubmit`: the messages are replaced by `newErrors`, and the budgets are saved only if there are none. */
  function Submit(s: FormState): (FormState, Option<Budgets.BudgetMap>) {
    var errors := Validate(s.data);
    if |errors| == 0 then
      ValidateEmpty(s.data);
      (FormState(s.data, errors), Some(Normalise(s.data)))
    else (FormState(s.data, errors), None)
  }

  /**
   * A save happens exactly when no field is rejected; the saved map has the same keys in the same
   * order, each blank field saved as 0 and every other as its number, so every saved limit is at
   * least 0.
   */
  lemma SubmitSpec(s: FormState)
    ensures var (next, saved) := Submit(s);
      && next.data == s.data
      && next.errors == Validate(s.data)
      && (saved.Some? <==> forall i :: 0 <= i < |s.data| ==> !Rejected(s.data[i].1))
      && (saved.Some? ==>
            && Keys(saved.value) == Keys(s.data)
            && Budgets.NonNegative(saved.value)
            && (forall i :: 0 <= i < |s.data| ==> saved.value[i].1 == if s.data[i].1.Blank? then 0.0 else s.data[i].1.value))
  {
    ValidateEmpty(s.data);
  }

  /** Saving the fields of a budget map saves that same map back, provided no limit in it is negative. */
  lemma SyncThenSave(s: FormState, b: Budgets.BudgetMap)
    ensures Submit(Sync(s, b)).1 == if Budgets.NonNegative(b) then Some(b) else None
  {
    var d := FromBudgets(b);
    ValidateEmpty(d);
    if Budgets.NonNegative(b) {
      assert Normalise(d) == b;
    } else {
      var i :| 0 <= i < |b| && b[i].1 < 0.0;
      assert Rejected(d[i].1);
    }
  }

  /** `handleChange(category, value)`: sets that field and, if it has a message, clears it. */
  function Change(s: FormState, key: string, value: Input): FormState {
    var errors := if Get(s.errors, key).Some? && Get(s.errors, key).value.Some? then Put(s.errors, key, None) else s.errors;
    FormState(Put(s.data, key, value), errors)
  }

  /** A change sets the edited field and leaves it without a message; every other field and message is untouched. */
  lemma ChangeSpec(s: FormState, key: string, value: Input, other: string)
    requires other != key
    ensures var t := Change(s, key, value);
      && Get(t.data, key) == Some(value)
      && Get(t.errors, key).GetOr(None).None?
      && Get(t.data, other) == Get(s.data, other)
      && Get(t.errors, other) == Get(s.errors, other)
  {
  }

  /** `resetToDefaults`: the fields show the default budgets; nothing is saved and the messages stay. */
  function ResetToDefaults(s: FormState): (t: FormState)
    ensures t.errors == s.errors
  {
    FormState(FromBudgets(Constants.DefaultBudgets), s.errors)
  }

  /** Saving right after a reset saves exactly the default budgets. */
  lemma ResetThenSave(s: FormState)
    ensures Submit(ResetToDefaults(s)).1 == Some(Constants.DefaultBudgets)
  {
    Constants.DefaultBudgetsCoverCategories();
    SyncThenSave(s, Constants.DefaultBudgets);
  }
}
