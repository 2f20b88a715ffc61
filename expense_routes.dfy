/** The POST `/expenses` handler of routes/expenses.js: it turns the
    submitted form into the item it hands to `addExpense`. This is the one
    place where the type of a record and the sign of its amount are made to
    agree; the store itself keeps whatever it is given. */
module ExpenseRoutes {
  import opened Values
  import opened ExpenseTable
  import Store

  /** The submitted form: each field may be missing; `amount` is already
      `parseFloat(req.body.amount)`, with `None` for NaN. */
  datatype ExpenseForm = ExpenseForm(
    title: Option<string>, amount: Option<real>, kind: Option<string>,
    category: Option<string>, note: Option<string>)

  /** The item built from a form at time `now` (the ISO timestamp of the
      request): a blank title becomes `Untitled`, NaN becomes 0, the type is
      `income` only when the form says exactly `income`, and the amount takes
      the sign of the type. */
  function Normalize(form: ExpenseForm, now: string): (d: Draft)
    ensures d.title == OrElse(form.title, "Untitled") && d.title != ""
    ensures Abs(d.amount) == Abs(NumberOrZero(form.amount))
    ensures form.amount.None? ==> d.amount == 0.0
    ensures d.kind == "income" <==> form.kind == Some("income")
    ensures d.kind == "income" || d.kind == "expense"
    ensures d.kind == "income" ==> d.amount >= 0.0
    ensures d.kind == "expense" ==> d.amount <= 0.0
    ensures d.category == NullIfFalsy(form.category)
    ensures d.note == OrElse(form.note, "")
    ensures d.date == now
  {
    var title := OrElse(form.title, "Untitled");
    var amount := NumberOrZero(form.amount);
    var kind := if form.kind == Some("income") then "income" else "expense";
    var signed := if kind == "income" then Abs(amount) else -Abs(amount);
    Draft(title, signed, kind, NullIfFalsy(form.category), OrElse(form.note, ""), now)
  }

  /** The form that would submit a normalised item again, field for field. */
  function Resubmission(d: Draft): ExpenseForm {
    ExpenseForm(Some(d.title), Some(d.amount), Some(d.kind), d.category, Some(d.note))
  }

  /** Normalising is idempotent: an already signed amount submitted with
      the same type keeps its value, and a normalised item submitted again
      comes back unchanged. */
  lemma NormalizeIdempotent(form: ExpenseForm, now: string)
    ensures var d := Normalize(form, now);
      Normalize(form.(amount := Some(d.amount)), now).amount == d.amount &&
      Normalize(Resubmission(d), now) == d
  {
  }

  /** The item `addExpense` stores for a POST agrees in type and sign. */
  lemma PostedRowAgreesInSign(form: ExpenseForm, now: string, id: int)
    ensures var e := StoredRow(id, Normalize(form, now));
      (e.kind == "income" ==> e.amount >= 0.0) && (e.kind == "expense" ==> e.amount <= 0.0) &&
      (e.kind == "income" || e.kind == "expense") && e.title != "" && e.date == now
  {
  }

  /** The handler: one `addExpense` call with the normalised item. It adds
      exactly one row, and nothing else in the store changes. */
  method PostExpense(db: Store.Database, form: ExpenseForm, now: string) returns (r: Store.Result<int>)
    requires db.Valid()
    modifies db`expenses, db`expenseSeq
    ensures db.Valid()
    ensures r.Err? <==> !db.initialized
    ensures r.Err? ==> db.expenses == old(db.expenses) && db.expenseSeq == old(db.expenseSeq)
    ensures r.Ok? ==> db.expenseSeq == r.value
    ensures r.Ok? ==> db.expenses == old(db.expenses) + [StoredRow(r.value, Normalize(form, now))]
    ensures r.Ok? ==> forall e :: e in old(db.expenses) ==> e.id < r.value
  {
    r := db.AddExpense(Normalize(form, now));
  }
}
