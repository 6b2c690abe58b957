/** The entry screen: the form that builds a draft expense, and the daily
    budget widget above it. */
module EntryForm {
  import opened Types
  import opened Ledger

  /** The four form fields, as typed. */
  datatype Form = Form(amount: string, description: string, category: string, date: string)

  /** A fresh form: empty text fields, the first registered category (the
      empty label when the registry is empty) and today's date. */
  function OpenForm(categories: seq<string>, today: string): (f: Form)
    ensures f.amount == "" && f.description == "" && f.date == today
    ensures |categories| > 0 ==> f.category == categories[0]
  {
    Form("", "", if |categories| > 0 then categories[0] else "", today)
  }

  /** The form after a submit, and the draft handed to `onAdd`, if any. */
  datatype Submitted = Submitted(form: Form, added: Option<Draft>)

  /** `handleSubmit`, with `parse` standing for `parseFloat`: an empty
      amount or description blocks the submit and changes nothing;
      otherwise the draft carries the parsed amount and the typed
      description, category and date, and the form clears its two text
      fields but keeps the category and date. */
  function Submit(f: Form, parse: string -> real): (r: Submitted)
    ensures r.added.None? <==> f.amount == "" || f.description == ""
    ensures r.added.None? ==> r.form == f
    ensures r.added.Some? ==> r.added.value.amount == parse(f.amount)
    ensures r.added.Some? ==> r.added.value.description == f.description
    ensures r.added.Some? ==> r.added.value.category == f.category && r.added.value.date == f.date
    ensures r.added.Some? ==> r.form == Form("", "", f.category, f.date)
  {
    if f.amount == "" || f.description == "" then Submitted(f, None)
    else
      Submitted(f.(amount := "", description := ""),
                Some(Draft(parse(f.amount), f.description, f.category, f.date)))
  }

  /** An accepted submit adds exactly one record, carrying the form's
      values, in front of the ledger; a second submit of the cleared form
      is blocked. */
  lemma SubmitAddsOne(es: seq<Expense>, f: Form, parse: string -> real, id: string, now: int)
    requires f.amount != "" && f.description != ""
    ensures var r := Submit(f, parse);
            var es' := AddExpense(es, r.added.value, id, now);
            && |es'| == |es| + 1
            && es'[0] == Expense(id, parse(f.amount), f.description, f.category, f.date, now)
            && Submit(r.form, parse).added.None?
  {
  }

  /** The daily buffer widget: hidden without a daily limit; otherwise it
      shows the remaining allowance and, when today's spending passes the
      limit, by how much. */
  datatype Buffer = Hidden | Shown(remaining: real, exceededBy: Option<real>)

  function Abs(x: real): real { if x < 0.0 then -x else x }

  /** `remaining = budget.daily - currentDailyTotal`, `isOverBudget = remaining < 0`,
      the widget rendered when `budget.daily > 0`. */
  function DailyBuffer(b: BudgetConfig, spentToday: real): (w: Buffer)
    ensures w.Hidden? <==> b.daily <= 0.0
    ensures w.Shown? ==> w.remaining + spentToday == b.daily
    ensures w.Shown? ==> (w.exceededBy.Some? <==> spentToday > b.daily)
    ensures w.Shown? && w.exceededBy.Some? ==> w.exceededBy.value == spentToday - b.daily > 0.0
  {
    var remaining := b.daily - spentToday;
    var isOverBudget := remaining < 0.0;
    if b.daily > 0.0 then Shown(remaining, if isOverBudget then Some(Abs(remaining)) else None)
    else Hidden
  }

  /** With a limit set, a new record dated today that costs more than what
      is left turns the widget to "exceeded". */
  lemma AddCanExceed(es: seq<Expense>, b: BudgetConfig, d: Draft, id: string, now: int, today: string)
    requires b.daily > 0.0 && d.date == today
    requires d.amount > b.daily - DayTotal(es, today)
    ensures DailyBuffer(b, DayTotal(AddExpense(es, d, id, now), today)).exceededBy.Some?
  {
    AddExpenseTotals(es, d, id, now, today);
  }
}
