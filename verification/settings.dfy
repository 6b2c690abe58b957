/** The settings screen's state edits: the two budget fields and the
    confirmed factory reset. (Its tag editing lives in `Registry`.) */
module Settings {
  import opened Types
  import opened App

  /** The daily-limit field: `setBudget({...budget, daily: parseFloat(v) || 0})`.
      A negative number is stored as typed. */
  function EditDaily(b: BudgetConfig, parsed: Option<real>): (r: BudgetConfig)
    ensures r.monthly == b.monthly
    ensures parsed.Some? ==> r.daily == parsed.value
    ensures parsed.None? ==> r.daily == 0.0
  {
    b.(daily := ParseOrZero(parsed))
  }

  /** The monthly-limit field, the mirror image of `EditDaily`. */
  function EditMonthly(b: BudgetConfig, parsed: Option<real>): (r: BudgetConfig)
    ensures r.daily == b.daily
    ensures parsed.Some? ==> r.monthly == parsed.value
    ensures parsed.None? ==> r.monthly == 0.0
  {
    b.(monthly := ParseOrZero(parsed))
  }

  /** The two fields are independent: edits in either order agree, and the
      last edit of a field wins. */
  lemma BudgetEditsCommute(b: BudgetConfig, d: Option<real>, m: Option<real>, d2: Option<real>)
    ensures EditMonthly(EditDaily(b, d), m) == EditDaily(EditMonthly(b, m), d)
    ensures EditDaily(EditDaily(b, d), d2) == EditDaily(b, d2)
  {
  }

  /** The reset button: the wipe happens only when the confirmation dialog
      is accepted. */
  function ConfirmReset(s: AppState, confirmed: bool): (r: AppState)
    ensures !confirmed ==> r == s
    ensures confirmed ==> r.expenses == [] && r.budget == NoLimits && r.categories == DefaultCategories()
    ensures r.currency == s.currency && r.themeId == s.themeId && r.deviceId == s.deviceId
    ensures r.onboarded == s.onboarded
  {
    if confirmed then ResetData(s) else s
  }
}
