/** The records of the application: an expense, the fields the entry form
    supplies for one, the budget limits, and the default category labels. */
module Types {
  import opened Seqs
  import opened Text

  datatype Option<T> = None | Some(value: T)

  /** One logged transaction. `date` is the "YYYY-MM-DD" text the user picked;
      `timestamp` is the creation instant in milliseconds. */
  datatype Expense = Expense(
    id: string,
    amount: real,
    description: string,
    category: string,
    date: string,
    timestamp: int)

  /** An expense without the two fields the ledger assigns (`id`, `timestamp`). */
  datatype Draft = Draft(amount: real, description: string, category: string, date: string)

  /** Daily and monthly spending limits; 0 means "no limit set". */
  datatype BudgetConfig = BudgetConfig(daily: real, monthly: real)

  const NoLimits := BudgetConfig(0.0, 0.0)

  /** Completes a draft with the identity and creation time chosen by the ledger. */
  function Stamp(d: Draft, id: string, now: int): (e: Expense)
    ensures Unstamp(e) == d
    ensures e.id == id && e.timestamp == now
  {
    Expense(id, d.amount, d.description, d.category, d.date, now)
  }

  /** The caller-supplied part of an expense. */
  function Unstamp(e: Expense): Draft {
    Draft(e.amount, e.description, e.category, e.date)
  }

  /** Every expense is its own draft stamped with its own id and timestamp. */
  lemma StampUnstamp(e: Expense)
    ensures Stamp(Unstamp(e), e.id, e.timestamp) == e
  {
  }

  /** `parseFloat(text) || 0`, given the parse result (`None` for NaN). */
  function ParseOrZero(parsed: Option<real>): (r: real)
    ensures parsed.None? ==> r == 0.0
    ensures parsed.Some? ==> r == parsed.value
    ensures r != 0.0 ==> parsed == Some(r)
  {
    match parsed
    case Some(v) => v
    case None => 0.0
  }

  /** The category labels a fresh install starts with. */
  function DefaultCategories(): (r: seq<string>)
    ensures |r| == 7
    ensures NoDup(r)
    ensures forall c | c in r :: IsUpper(c) && Upper(c) == c
  {
    var r := ["FOOD", "TRANSPORT", "HOUSING", "TECH", "UTILITIES", "HEALTH", "MISC"];
    assert forall c | c in r :: IsUpper(c);
    forall c | c in r ensures Upper(c) == c {
      UpperFixesUpper(c);
    }
    r
  }
}
