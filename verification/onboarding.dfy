/** The first-run wizard: a step counter selecting a screen, the two ways
    out through the budget screen, and the currency search. The tag step
    edits the registry with `Registry.AddTag` and `Registry.RemoveTag`. */
module Onboarding {
  import opened Seqs
  import opened Text
  import opened Types
  import opened App

  /** The number of feature slides between the splash and the currency step. */
  const SlideCount: nat := 3

  datatype Screen = Splash | Slide(index: nat) | PickCurrency | SetupTags | BudgetGoals

  /** The screen the wizard renders for a step value; every value past the
      tag step renders the budget screen. */
  function ScreenOf(step: nat): Screen {
    if step == 0 then Splash
    else if step <= SlideCount then Slide(step - 1)
    else if step == 4 then PickCurrency
    else if step == 5 then SetupTags
    else BudgetGoals
  }

  /** The wizard's only step transition: the splash timer moves 0 to 1, and
      Next or Confirm on a slide, the currency step or the tag step moves
      one step on. The budget screen has no such button. */
  function Advance(step: nat): (next: nat)
    ensures ScreenOf(step) != BudgetGoals ==> next == step + 1
    ensures ScreenOf(step) == BudgetGoals ==> next == step
  {
    match ScreenOf(step)
    case Splash => 1
    case Slide(_) => step + 1
    case PickCurrency => step + 1
    case SetupTags => step + 1
    case BudgetGoals => step
  }

  /** The step after `n` transitions from the initial step 0. */
  function Walk(n: nat): nat {
    if n == 0 then 0 else Advance(Walk(n - 1))
  }

  /** From step 0 the wizard climbs one step per transition and stops at 6. */
  lemma {:induction false} WalkClimbs(n: nat)
    ensures Walk(n) == if n <= 6 then n else 6
  {
    if n > 0 {
      WalkClimbs(n - 1);
    }
  }

  /** The screens the wizard shows, in order, and the budget screen it stays on. */
  lemma WalkScreens(n: nat)
    ensures ScreenOf(Walk(0)) == Splash
    ensures ScreenOf(Walk(1)) == Slide(0) && ScreenOf(Walk(2)) == Slide(1) && ScreenOf(Walk(3)) == Slide(2)
    ensures ScreenOf(Walk(4)) == PickCurrency && ScreenOf(Walk(5)) == SetupTags
    ensures n >= 6 ==> ScreenOf(Walk(n)) == BudgetGoals
  {
    WalkClimbs(0); WalkClimbs(1); WalkClimbs(2); WalkClimbs(3);
    WalkClimbs(4); WalkClimbs(5); WalkClimbs(n);
  }

  /** The progress dots under a slide: slides plus three more steps, only
      the current slide's dot lit. */
  function Dots(slideIndex: nat): (lit: seq<bool>)
    ensures |lit| == 6
    ensures forall i :: 0 <= i < |lit| ==> (lit[i] <==> i == slideIndex)
  {
    seq(SlideCount + 3, i requires 0 <= i < SlideCount + 3 => i == slideIndex)
  }

  /** `handleSkipBudget`: no limits, then the wizard completes. */
  function SkipBudget(s: AppState): (r: AppState)
    ensures r.budget == NoLimits && r.onboarded
    ensures r.expenses == s.expenses && r.categories == s.categories && r.currency == s.currency
    ensures r.themeId == s.themeId && r.deviceId == s.deviceId
  {
    s.(budget := NoLimits, onboarded := true)
  }

  /** `handleSaveBudget`: each limit is its field's number, or 0 when the
      field does not parse; then the wizard completes. */
  function SaveBudget(s: AppState, daily: Option<real>, monthly: Option<real>): (r: AppState)
    ensures r.onboarded
    ensures daily.Some? ==> r.budget.daily == daily.value
    ensures daily.None? ==> r.budget.daily == 0.0
    ensures monthly.Some? ==> r.budget.monthly == monthly.value
    ensures monthly.None? ==> r.budget.monthly == 0.0
    ensures r.expenses == s.expenses && r.categories == s.categories && r.currency == s.currency
    ensures r.themeId == s.themeId && r.deviceId == s.deviceId
  {
    s.(budget := BudgetConfig(ParseOrZero(daily), ParseOrZero(monthly)), onboarded := true)
  }

  /** Saving two empty fields is the same as skipping. */
  lemma SaveEmptyIsSkip(s: AppState)
    ensures SaveBudget(s, None, None) == SkipBudget(s)
  {
  }

  // ---------------------------------------------------------------------
  // Currency search

  datatype Currency = Currency(code: string, symbol: string, name: string)

  /** The entry's code, name or symbol contains the query, ignoring case. */
  predicate Matches(c: Currency, query: string) {
    var q := Lower(query);
    Contains(Lower(c.code), q) || Contains(Lower(c.name), q) || Contains(Lower(c.symbol), q)
  }

  function MatchesQuery(query: string): Currency -> bool {
    (c: Currency) => Matches(c, query)
  }

  /** `filteredCurrencies`: the table entries matching the search text, in
      table order. */
  function FilterCurrencies(table: seq<Currency>, query: string): (r: seq<Currency>)
    ensures Subseq(r, table)
    ensures forall c | c in r :: c in table && Matches(c, query)
    ensures forall c | c in table && Matches(c, query) :: c in r
    ensures query == "" ==> r == table
  {
    forall c | c in table && query == "" ensures Matches(c, query) {
      ContainsEmpty(Lower(c.code));
    }
    FilterKeepsAll(table, MatchesQuery(query));
    Filter(table, MatchesQuery(query))
  }

  /** An entry matches exactly when the lower-cased query occurs in its
      lower-cased code, name or symbol. */
  lemma MatchesIff(c: Currency, query: string)
    ensures Matches(c, query) <==>
              ((exists i :: OccursAt(Lower(c.code), Lower(query), i))
               || (exists i :: OccursAt(Lower(c.name), Lower(query), i))
               || (exists i :: OccursAt(Lower(c.symbol), Lower(query), i)))
  {
    ContainsIff(Lower(c.code), Lower(query));
    ContainsIff(Lower(c.name), Lower(query));
    ContainsIff(Lower(c.symbol), Lower(query));
  }

  /** Typing the query in upper case finds the same entries. */
  lemma SearchIgnoresCase(table: seq<Currency>, query: string)
    ensures FilterCurrencies(table, Upper(query)) == FilterCurrencies(table, query)
  {
    assert Lower(Upper(query)) == Lower(query);
    FilterCongruent(table, MatchesQuery(Upper(query)), MatchesQuery(query));
  }
}
