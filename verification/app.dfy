/** The application shell: the persisted state, theme lookup, backup
    export and import, and the factory reset. */
module App {
  import opened Seqs
  import opened Text
  import opened Types
  import opened Ledger

  /** Everything the application persists, one stored key per field. */
  datatype AppState = AppState(
    expenses: seq<Expense>,
    categories: seq<string>,
    budget: BudgetConfig,
    themeId: string,
    currency: string,
    deviceId: string,
    onboarded: bool)

  /** What the user-facing operations keep true: unique record ids, a
      duplicate-free upper-case registry, and a selected currency. */
  predicate WellFormed(s: AppState) {
    && UniqueIds(s.expenses)
    && NoDup(s.categories)
    && (forall c | c in s.categories :: IsUpper(c))
    && s.currency != ""
  }

  /** The state of a first run; `deviceId` is the freshly generated uuid. */
  function FirstRun(deviceId: string): (s: AppState)
    ensures WellFormed(s)
    ensures s.expenses == [] && s.categories == DefaultCategories() && s.budget == NoLimits
    ensures s.themeId == "ink-white" && s.currency == "USD" && s.deviceId == deviceId
    ensures !s.onboarded
  {
    AppState([], DefaultCategories(), NoLimits, "ink-white", "USD", deviceId, false)
  }

  // ---------------------------------------------------------------------
  // Themes

  datatype Theme = Theme(id: string, name: string)

  /** `themes.findIndex(t => t.id === id)`, as an option. */
  function FindTheme(themes: seq<Theme>, id: string): (r: Option<nat>)
    ensures r.Some? ==> r.value < |themes| && themes[r.value].id == id
    ensures r.Some? ==> forall j :: 0 <= j < r.value ==> themes[j].id != id
    ensures r.None? ==> forall j :: 0 <= j < |themes| ==> themes[j].id != id
  {
    if |themes| == 0 then None
    else if themes[0].id == id then Some(0)
    else
      match FindTheme(themes[1..], id)
      case None => None
      case Some(k) => Some(k + 1)
  }

  /** `THEMES.find(t => t.id === themeId) || THEMES[0]`: the first theme
      with that id, else the first theme of the table. */
  function CurrentTheme(themes: seq<Theme>, themeId: string): (t: Theme)
    requires |themes| > 0
    ensures t in themes
    ensures (exists i :: 0 <= i < |themes| && themes[i].id == themeId) ==>
              t.id == themeId &&
              exists i :: 0 <= i < |themes| && themes[i] == t && forall j :: 0 <= j < i ==> themes[j].id != themeId
    ensures (forall i :: 0 <= i < |themes| ==> themes[i].id != themeId) ==> t == themes[0]
  {
    match FindTheme(themes, themeId)
    case Some(i) => themes[i]
    case None => themes[0]
  }

  // ---------------------------------------------------------------------
  // Backup export and import

  /** The document `exportData` serialises. */
  datatype Bundle = Bundle(
    expenses: seq<Expense>,
    categories: seq<string>,
    budget: BudgetConfig,
    currency: string,
    deviceId: string)

  /** The backup bundle: the ledger, registry, budget, currency and device
      id as they are; the theme and the onboarding flag stay behind. */
  function ExportData(s: AppState): (b: Bundle)
    ensures b.expenses == s.expenses && b.categories == s.categories
    ensures b.budget == s.budget && b.currency == s.currency && b.deviceId == s.deviceId
  {
    Bundle(s.expenses, s.categories, s.budget, s.currency, s.deviceId)
  }

  /** A list-valued field of a parsed document: absent or falsy, present but
      not an array, or an array. */
  datatype ListField<T> = Missing | NotList | List(items: seq<T>)

  /** A backup document after `JSON.parse`, as far as the importer reads it.
      `budget` is `Some` when the field is truthy; `currency` is the field's
      string value when there is one. */
  datatype Payload = Payload(
    expenses: ListField<Expense>,
    categories: ListField<string>,
    budget: Option<BudgetConfig>,
    currency: Option<string>,
    deviceId: Option<string>)

  /** The document `JSON.parse(JSON.stringify(b))` gives back. */
  function Reparse(b: Bundle): Payload {
    Payload(List(b.expenses), List(b.categories), Some(b.budget), Some(b.currency), Some(b.deviceId))
  }

  /** The notice the importer raises. */
  datatype Notice = Restored | Corrupt

  datatype Imported = Imported(state: AppState, notice: Notice)

  /** A string field is truthy when it is non-empty. */
  predicate TruthyText(v: Option<string>) {
    v.Some? && v.value != ""
  }

  /** `importData` after parsing: `None` is a document `JSON.parse` rejects
      (or `null`, whose field access throws inside the same `try`). Each
      field is applied on its own: arrays replace the ledger and the
      registry, a truthy budget and a non-empty currency replace theirs,
      anything else leaves that part of the state alone. */
  function ImportData(s: AppState, doc: Option<Payload>): (r: Imported)
    ensures doc.None? ==> r == Imported(s, Corrupt)
    ensures doc.Some? ==> r.notice == Restored
    ensures r.state.themeId == s.themeId && r.state.deviceId == s.deviceId
    ensures r.state.onboarded == s.onboarded
    ensures doc.Some? && doc.value.expenses.List? ==> r.state.expenses == doc.value.expenses.items
    ensures doc.None? || !doc.value.expenses.List? ==> r.state.expenses == s.expenses
    ensures doc.Some? && doc.value.categories.List? ==> r.state.categories == doc.value.categories.items
    ensures doc.None? || !doc.value.categories.List? ==> r.state.categories == s.categories
    ensures doc.Some? && doc.value.budget.Some? ==> r.state.budget == doc.value.budget.value
    ensures doc.None? || doc.value.budget.None? ==> r.state.budget == s.budget
    ensures doc.Some? && TruthyText(doc.value.currency) ==> r.state.currency == doc.value.currency.value
    ensures doc.None? || !TruthyText(doc.value.currency) ==> r.state.currency == s.currency
  {
    match doc
    case None => Imported(s, Corrupt)
    case Some(p) =>
      var s1 := if p.expenses.List? then s.(expenses := p.expenses.items) else s;
      var s2 := if p.categories.List? then s1.(categories := p.categories.items) else s1;
      var s3 := if p.budget.Some? then s2.(budget := p.budget.value) else s2;
      var s4 := if TruthyText(p.currency) then s3.(currency := p.currency.value) else s3;
      Imported(s4, Restored)
  }

  /** Re-importing an exported backup restores the ledger, the registry,
      the budget and the currency of the exporting state, and keeps the
      importing state's theme, device id and onboarding flag. */
  lemma ExportImportRoundTrip(s: AppState, t: AppState)
    requires t.currency != ""
    ensures ImportData(s, Some(Reparse(ExportData(t))))
         == Imported(s.(expenses := t.expenses, categories := t.categories,
                        budget := t.budget, currency := t.currency), Restored)
  {
  }

  /** An empty currency string is falsy, so it does not survive the round trip. */
  lemma EmptyCurrencyNotRestored(s: AppState, t: AppState)
    requires t.currency == ""
    ensures ImportData(s, Some(Reparse(ExportData(t)))).state.currency == s.currency
  {
  }

  /** A document without a budget keeps the budget and still applies the
      ledger and registry arrays it carries. */
  lemma ImportWithoutBudget(s: AppState, p: Payload)
    requires p.budget.None? && p.expenses.List? && p.categories.List?
    ensures var r := ImportData(s, Some(p)).state;
            r.budget == s.budget && r.expenses == p.expenses.items && r.categories == p.categories.items
  {
  }

  /** Importing never empties the selected currency. */
  lemma ImportKeepsCurrency(s: AppState, doc: Option<Payload>)
    requires s.currency != ""
    ensures ImportData(s, doc).state.currency != ""
  {
  }

  // ---------------------------------------------------------------------
  // Factory reset

  /** `resetData`: an empty ledger, the default registry and no limits; the
      currency, theme, device id and onboarding flag stay. */
  function ResetData(s: AppState): (r: AppState)
    ensures r.expenses == [] && r.categories == DefaultCategories() && r.budget == NoLimits
    ensures r.currency == s.currency && r.themeId == s.themeId
    ensures r.deviceId == s.deviceId && r.onboarded == s.onboarded
    ensures s.currency != "" ==> WellFormed(r)
  {
    s.(expenses := [], categories := DefaultCategories(), budget := NoLimits)
  }

  /** Resetting twice is resetting once. */
  lemma ResetIdempotent(s: AppState)
    ensures ResetData(ResetData(s)) == ResetData(s)
  {
  }
}
