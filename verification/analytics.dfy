/** The analytics screen: the headline figures, the category breakdown,
    the seven-day bars, the month-to-date figures and the recurring-payment
    detector. The clock enters as parameters: the month prefix
    (`YYYY-MM`) and the date text of "i days ago". */
module Analytics {
  import opened Seqs
  import opened Text
  import opened Types
  import opened Ledger

  // ---------------------------------------------------------------------
  // Headline figures

  /** Every record's amount lies between `lo` and `hi`. */
  predicate AmountsWithin(es: seq<Expense>, lo: real, hi: real) {
    forall e | e in es :: lo <= e.amount <= hi
  }

  /** The lifetime total of records within bounds is within the scaled bounds. */
  lemma {:induction false} TotalWithin(es: seq<Expense>, lo: real, hi: real)
    requires AmountsWithin(es, lo, hi)
    ensures (|es| as real) * lo <= Total(es) <= (|es| as real) * hi
  {
    if |es| > 0 {
      assert es[0] in es;
      assert AmountsWithin(es[1..], lo, hi) by {
        forall e | e in es[1..] ensures lo <= e.amount <= hi {
          assert e in es;
        }
      }
      TotalWithin(es[1..], lo, hi);
      var n := |es[1..]| as real;
      assert Total(es) == es[0].amount + Total(es[1..]);
      assert (|es| as real) * lo == lo + n * lo;
      assert (|es| as real) * hi == hi + n * hi;
    }
  }

  /** The "Avg. Tx" figure: the lifetime total over the number of records,
      and 0 for an empty ledger. */
  function Average(es: seq<Expense>): (avg: real)
    ensures |es| == 0 ==> avg == 0.0
    ensures |es| > 0 ==> avg * (|es| as real) == Total(es)
  {
    if |es| > 0 then Total(es) / (|es| as real) else 0.0
  }

  /** The average lies between the smallest and the largest amount. */
  lemma AverageWithin(es: seq<Expense>, lo: real, hi: real)
    requires |es| > 0 && AmountsWithin(es, lo, hi)
    ensures lo <= Average(es) <= hi
  {
    TotalWithin(es, lo, hi);
    var n := |es| as real;
    var avg := Average(es);
    ScaleCancel(lo, avg, n);
    ScaleCancel(avg, hi, n);
  }

  /** Dividing both sides of an inequality by a positive count. */
  lemma ScaleCancel(a: real, b: real, n: real)
    requires n > 0.0 && n * a <= b * n
    ensures a <= b
  {
  }

  /** With no negative amounts, a filtered part of the ledger never
      exceeds the whole. */
  lemma {:induction false} FilterTotalBound(es: seq<Expense>, keep: Expense -> bool)
    ensures NonNegative(es) ==> 0.0 <= Total(Filter(es, keep)) <= Total(es)
  {
    if |es| > 0 && NonNegative(es) {
      assert es[0] in es;
      assert NonNegative(es[1..]) by {
        forall e | e in es[1..] ensures 0.0 <= e.amount {
          assert e in es;
        }
      }
      FilterTotalBound(es[1..], keep);
    }
  }

  // ---------------------------------------------------------------------
  // Category breakdown

  /** One pie slice: a category label and the total spent under it. */
  datatype Slice = Slice(name: string, value: real)

  function ValueOf(s: Slice): real { s.value }

  /** The slice of every listed category (the entries of the `reduce`
      accumulator, mapped to `{ name, value }`). */
  function SlicesFor(es: seq<Expense>, names: seq<string>): (ss: seq<Slice>)
    ensures |ss| == |names|
    ensures forall i :: 0 <= i < |ss| ==> ss[i].name == names[i]
    ensures forall s | s in ss :: s.value == Total(WithKey(es, CategoryOf, s.name))
  {
    if |names| == 0 then []
    else [Slice(names[0], Total(WithKey(es, CategoryOf, names[0])))] + SlicesFor(es, names[1..])
  }

  lemma {:induction false} SlicesForTotals(es: seq<Expense>, names: seq<string>)
    ensures SumBy(SlicesFor(es, names), ValueOf) == GroupTotals(es, CategoryOf, names)
  {
    if |names| > 0 {
      SlicesForTotals(es, names[1..]);
      assert SlicesFor(es, names)[1..] == SlicesFor(es, names[1..]);
    }
  }

  /** The slices of the ledger's categories, in first-occurrence order. */
  function Sliced(es: seq<Expense>): seq<Slice> {
    SlicesFor(es, KeysOf(es, CategoryOf))
  }

  lemma SliceAtUsed(es: seq<Expense>, k: nat)
    requires k < |Sliced(es)|
    ensures exists e :: e in es && e.category == Sliced(es)[k].name
  {
    var names := KeysOf(es, CategoryOf);
    assert Sliced(es)[k].name == names[k];
    assert names[k] in names;
    var i :| 0 <= i < |es| && CategoryOf(es[i]) == names[k];
    assert es[i] in es;
  }

  lemma SlicedFacts(es: seq<Expense>)
    ensures forall s | s in Sliced(es) :: s.value == Total(WithKey(es, CategoryOf, s.name))
    ensures forall s | s in Sliced(es) :: exists e :: e in es && e.category == s.name
    ensures forall e | e in es :: exists s :: s in Sliced(es) && s.name == e.category
    ensures NoDup(Sliced(es))
  {
    var names := KeysOf(es, CategoryOf);
    var u := Sliced(es);
    forall s | s in u ensures exists e :: e in es && e.category == s.name {
      var k :| 0 <= k < |u| && u[k] == s;
      SliceAtUsed(es, k);
    }
    forall e | e in es ensures exists s :: s in u && s.name == e.category {
      var i :| 0 <= i < |es| && es[i] == e;
      var k :| 0 <= k < |names| && names[k] == CategoryOf(es[i]);
      assert u[k] in u;
    }
    forall i, j | 0 <= i < j < |u| ensures u[i] != u[j] {
      assert u[i].name == names[i] && u[j].name == names[j];
    }
  }

  /** `categoryData`: one slice per category used by the ledger, holding
      that category's total, ordered by value, largest first. */
  function CategoryData(es: seq<Expense>): (r: seq<Slice>)
    ensures SortedDesc(r, ValueOf)
    ensures forall i, j :: 0 <= i < j < |r| ==> r[i].name != r[j].name
    ensures forall s | s in r :: s.value == Total(WithKey(es, CategoryOf, s.name))
    ensures forall s | s in r :: exists e :: e in es && e.category == s.name
    ensures forall e | e in es :: exists s :: s in r && s.name == e.category
  {
    var r := SortDesc(Sliced(es), ValueOf);
    ReorderedSlices(es, r);
    r
  }

  /** Any reordering of the ledger's slices keeps their defining facts. */
  lemma ReorderedSlices(es: seq<Expense>, r: seq<Slice>)
    requires multiset(r) == multiset(Sliced(es))
    ensures forall s | s in r :: s.value == Total(WithKey(es, CategoryOf, s.name))
    ensures forall s | s in r :: exists e :: e in es && e.category == s.name
    ensures forall e | e in es :: exists s :: s in r && s.name == e.category
    ensures forall i, j :: 0 <= i < j < |r| ==> r[i].name != r[j].name
  {
    var u := Sliced(es);
    SameMembers(r, u);
    SameMembers(u, r);
    SlicedFacts(es);
    PermutationKeepsNoDup(u, r);
    DistinctNames(es, r);
  }

  /** Distinct slices of the ledger carry distinct names. */
  lemma DistinctNames(es: seq<Expense>, r: seq<Slice>)
    requires forall s | s in r :: s in Sliced(es)
    requires NoDup(r)
    ensures forall i, j :: 0 <= i < j < |r| ==> r[i].name != r[j].name
  {
    SlicedFacts(es);
    forall i, j | 0 <= i < j < |r| ensures r[i].name != r[j].name {
      assert r[i] in r && r[j] in r;
    }
  }

  /** The slices share out the lifetime total exactly. */
  lemma CategoryShares(es: seq<Expense>)
    ensures SumBy(CategoryData(es), ValueOf) == Total(es)
  {
    var names := KeysOf(es, CategoryOf);
    SortDescSum(Sliced(es), ValueOf, ValueOf);
    SlicesForTotals(es, names);
    GroupsPartition(es, CategoryOf, names);
  }

  // ---------------------------------------------------------------------
  // The seven-day bars

  /** One bar: its axis label, its date and the day's total. */
  datatype DayBar = DayBar(name: string, fullDate: string, amount: real)

  /** `dateStr.slice(5)`: the text after the `YYYY-` prefix, empty when the
      text is shorter. */
  function MonthDay(date: string): (r: string)
    ensures |date| >= 5 ==> date == date[..5] + r
    ensures |date| < 5 ==> r == ""
  {
    if |date| >= 5 then date[5..] else ""
  }

  /** The day total of a ledger grown by one record at the end. */
  lemma DayTotalStep(es: seq<Expense>, j: nat, day: string)
    requires j < |es|
    ensures DayTotal(es[..j + 1], day) == DayTotal(es[..j], day) + (if es[j].date == day then es[j].amount else 0.0)
  {
    assert es[..j + 1] == es[..j] + [es[j]];
    DayTotalSnoc(es[..j], es[j], day);
  }

  lemma DayTotalSnoc(es: seq<Expense>, e: Expense, day: string)
    ensures DayTotal(es + [e], day) == DayTotal(es, day) + (if e.date == day then e.amount else 0.0)
  {
    FilterAppend(es, [e], KeyIs(DateOf, day));
    SumByAppend(WithKey(es, DateOf, day), WithKey([e], DateOf, day), Amount);
    assert [e][1..] == [];
  }

  /** `expenses.filter(e => e.date === dateStr).reduce(...)`, one pass. */
  method SumOfDay(es: seq<Expense>, day: string) returns (amount: real)
    ensures amount == DayTotal(es, day)
  {
    amount := 0.0;
    var j := 0;
    while j < |es|
      invariant 0 <= j <= |es|
      invariant amount == DayTotal(es[..j], day)
    {
      DayTotalStep(es, j, day);
      if es[j].date == day {
        amount := amount + es[j].amount;
      }
      j := j + 1;
    }
    assert es[..|es|] == es;
  }

  /** `dailyData`: seven bars, oldest first, for the dates `daysAgo(6)`
      down to `daysAgo(0)` (today); each bar carries the day's total. */
  method DailyData(es: seq<Expense>, daysAgo: nat -> string) returns (days: seq<DayBar>)
    ensures |days| == 7
    ensures forall k :: 0 <= k < 7 ==> days[k].fullDate == daysAgo(6 - k)
    ensures forall k :: 0 <= k < 7 ==> days[k].name == MonthDay(days[k].fullDate)
    ensures forall k :: 0 <= k < 7 ==> days[k].amount == DayTotal(es, days[k].fullDate)
  {
    days := [];
    var i := 6;
    while i >= 0
      invariant -1 <= i <= 6
      invariant |days| == 6 - i
      invariant forall k :: 0 <= k < |days| ==> days[k].fullDate == daysAgo(6 - k)
      invariant forall k :: 0 <= k < |days| ==> days[k].name == MonthDay(days[k].fullDate)
      invariant forall k :: 0 <= k < |days| ==> days[k].amount == DayTotal(es, days[k].fullDate)
    {
      var dateStr := daysAgo(i);
      var amount := SumOfDay(es, dateStr);
      days := days + [DayBar(MonthDay(dateStr), dateStr, amount)];
      i := i - 1;
    }
  }

  // ---------------------------------------------------------------------
  // Month to date

  function InMonth(month: string): Expense -> bool {
    (e: Expense) => StartsWith(e.date, month)
  }

  /** `monthTotal`: the total of the records whose date starts with the
      month prefix. */
  function MonthTotal(es: seq<Expense>, month: string): (r: real)
    ensures (forall e | e in es :: !StartsWith(e.date, month)) ==> r == 0.0
    ensures NonNegative(es) ==> 0.0 <= r <= Total(es)
  {
    FilterKeepsNone(es, InMonth(month));
    FilterTotalBound(es, InMonth(month));
    Total(Filter(es, InMonth(month)))
  }

  /** A record counts toward a month exactly when its date carries the prefix. */
  lemma MonthTotalCons(e: Expense, es: seq<Expense>, month: string)
    ensures MonthTotal([e] + es, month)
         == (if StartsWith(e.date, month) then e.amount else 0.0) + MonthTotal(es, month)
  {
    assert ([e] + es)[0] == e;
    assert ([e] + es)[1..] == es;
  }

  /** Adding a record changes the month total by its amount exactly when it
      is dated in that month. */
  lemma AddExpenseMonth(es: seq<Expense>, d: Draft, id: string, now: int, month: string)
    ensures MonthTotal(AddExpense(es, d, id, now), month)
         == (if StartsWith(d.date, month) then d.amount else 0.0) + MonthTotal(es, month)
  {
    var r := AddExpense(es, d, id, now);
    assert r == [r[0]] + es;
    MonthTotalCons(r[0], es, month);
  }

  /** `monthBudgetStatus`: what is left of the monthly limit; negative
      exactly when the month's spending passes the limit. */
  function MonthLeft(b: BudgetConfig, es: seq<Expense>, month: string): (left: real)
    ensures left + MonthTotal(es, month) == b.monthly
    ensures left < 0.0 <==> MonthTotal(es, month) > b.monthly
  {
    b.monthly - MonthTotal(es, month)
  }

  /** A January record counts toward January and not toward February. */
  lemma MonthExample()
    ensures var es := [Expense("a", 10.0, "rent", "HOUSING", "2024-01-15", 0),
                       Expense("b", 5.0, "bus", "TRANSPORT", "2024-02-01", 0)];
            MonthTotal(es, "2024-01") == 10.0 && MonthTotal(es, "2024-02") == 5.0
  {
    var es := [Expense("a", 10.0, "rent", "HOUSING", "2024-01-15", 0),
               Expense("b", 5.0, "bus", "TRANSPORT", "2024-02-01", 0)];
    assert es == [es[0]] + [es[1]];
    assert StartsWith(es[0].date, "2024-01") && !StartsWith(es[0].date, "2024-02") by {
      assert es[0].date[..7] == "2024-01";
    }
    assert !StartsWith(es[1].date, "2024-01") && StartsWith(es[1].date, "2024-02") by {
      assert es[1].date[..7] == "2024-02";
    }
    MonthTotalCons(es[0], [es[1]], "2024-01");
    MonthTotalCons(es[0], [es[1]], "2024-02");
    MonthTotalCons(es[1], [], "2024-01");
    MonthTotalCons(es[1], [], "2024-02");
    assert [es[1]] == [es[1]] + [];
  }

  // ---------------------------------------------------------------------
  // Recurring payments

  /** One entry of the `counts` record: the description and amount of the
      first record seen under its key, and how many records share the key. */
  datatype Pattern = Pattern(desc: string, amount: real, count: nat)

  function CountOf(p: Pattern): real { p.count as real }

  /** The counter of key `k` after the `forEach` pass: it is created from
      the first record carrying `k` and incremented once per such record. */
  function Tally<K(==)>(es: seq<Expense>, key: Expense -> K, k: K): (p: Pattern)
    ensures p.count == |WithKey(es, key, k)|
  {
    var g := WithKey(es, key, k);
    if |g| == 0 then Pattern("", 0.0, 0) else Pattern(g[0].description, g[0].amount, |g|)
  }

  /** A counter that counted something names the first record of its key. */
  lemma TallyFirst<K>(es: seq<Expense>, key: Expense -> K, k: K)
    requires Tally(es, key, k).count > 0
    ensures exists i :: 0 <= i < |es| && key(es[i]) == k
                        && Tally(es, key, k).desc == es[i].description
                        && Tally(es, key, k).amount == es[i].amount
                        && forall j :: 0 <= j < i ==> key(es[j]) != k
  {
    FilterFirst(es, KeyIs(key, k));
  }

  /** The counters of the listed keys, in the listed order. */
  function Tallies<K(==)>(es: seq<Expense>, key: Expense -> K, ks: seq<K>): (ts: seq<Pattern>)
    ensures |ts| == |ks|
    ensures forall i :: 0 <= i < |ks| ==> ts[i] == Tally(es, key, ks[i])
  {
    if |ks| == 0 then [] else [Tally(es, key, ks[0])] + Tallies(es, key, ks[1..])
  }

  predicate Repeated(p: Pattern) { p.count > 1 }

  /** `.filter(c => c.count > 1).sort((a, b) => b.count - a.count)`. */
  function Repeats(ts: seq<Pattern>): (r: seq<Pattern>)
    ensures SortedDesc(r, CountOf)
    ensures forall p | p in r :: p in ts && p.count > 1
    ensures forall p | p in ts && p.count > 1 :: p in r
    ensures NoDup(ts) ==> NoDup(r)
  {
    var f := Filter(ts, Repeated);
    var r := SortDesc(f, CountOf);
    SameMembers(r, f);
    SameMembers(f, r);
    FilterKeepsNoDup(ts, Repeated);
    PermutationKeepsNoDup(f, r);
    r
  }

  /** The counters of all keys of the ledger, in first-occurrence order:
      `Object.values(counts)`. */
  function Counters<K(==)>(es: seq<Expense>, key: Expense -> K): seq<Pattern> {
    Tallies(es, key, KeysOf(es, key))
  }

  lemma CountersFacts<K>(es: seq<Expense>, key: Expense -> K)
    ensures forall p | p in Counters(es, key) :: exists e :: e in es && p == Tally(es, key, key(e))
    ensures forall e | e in es :: Tally(es, key, key(e)) in Counters(es, key)
  {
    var ks := KeysOf(es, key);
    var ts := Counters(es, key);
    forall p | p in ts ensures exists e :: e in es && p == Tally(es, key, key(e)) {
      var k :| 0 <= k < |ts| && ts[k] == p;
      assert ks[k] in ks;
      var i :| 0 <= i < |es| && key(es[i]) == ks[k];
      assert es[i] in es;
    }
    forall e | e in es ensures Tally(es, key, key(e)) in ts {
      var i :| 0 <= i < |es| && es[i] == e;
      var k :| 0 <= k < |ks| && ks[k] == key(e);
      assert ts[k] in ts;
    }
  }

  /** The recurring list for a grouping key: every counter seen more than
      once, most frequent first. */
  function Patterns<K(==)>(es: seq<Expense>, key: Expense -> K): (r: seq<Pattern>)
    ensures SortedDesc(r, CountOf)
    ensures forall p | p in r :: p.count > 1 && exists e :: e in es && p == Tally(es, key, key(e))
    ensures forall e | e in es && |WithKey(es, key, key(e))| > 1 :: Tally(es, key, key(e)) in r
  {
    CountersFacts(es, key);
    Repeats(Counters(es, key))
  }

  lemma {:induction false} TalliesSizes<K>(es: seq<Expense>, key: Expense -> K, ks: seq<K>)
    ensures SumBy(Tallies(es, key, ks), CountOf) == GroupSizes(es, key, ks) as real
  {
    if |ks| > 0 {
      TalliesSizes(es, key, ks[1..]);
      assert Tallies(es, key, ks)[1..] == Tallies(es, key, ks[1..]);
    }
  }

  /** The reported counts add up to at most the number of records: each
      record is counted under one key only. */
  lemma PatternsCountBound<K>(es: seq<Expense>, key: Expense -> K)
    ensures SumBy(Patterns(es, key), CountOf) <= |es| as real
  {
    var ks := KeysOf(es, key);
    var ts := Counters(es, key);
    var f := Filter(ts, Repeated);
    SortDescSum(f, CountOf, CountOf);
    FilterSumBound(ts, Repeated, CountOf);
    TalliesSizes(es, key, ks);
    GroupsPartition(es, key, ks);
  }

  lemma RecurringCountBound(es: seq<Expense>, fmt: real -> string)
    ensures SumBy(Recurring(es), CountOf) <= |es| as real
    ensures SumBy(RecurringByText(es, fmt), CountOf) <= |es| as real
  {
    PatternsCountBound(es, PairKey);
    PatternsCountBound(es, TextKey(fmt));
  }

  /** The grouping key the detector means: the (description, amount) pair. */
  function PairKey(e: Expense): (string, real) { (e.description, e.amount) }

  /** The number of records with description `d` and amount `a`, counted
      independently of the grouping machinery. */
  function Occurrences(es: seq<Expense>, d: string, a: real): nat {
    if |es| == 0 then 0
    else (if es[0].description == d && es[0].amount == a then 1 else 0) + Occurrences(es[1..], d, a)
  }

  lemma {:induction false} OccurrencesCount(es: seq<Expense>, d: string, a: real)
    ensures |WithKey(es, PairKey, (d, a))| == Occurrences(es, d, a)
  {
    if |es| > 0 {
      WithKeyCons(es, PairKey, (d, a));
      OccurrencesCount(es[1..], d, a);
    }
  }

  /** The pair counter of a record's own pair names that pair and counts it. */
  lemma PairTally(es: seq<Expense>, e: Expense)
    requires e in es
    ensures Tally(es, PairKey, PairKey(e)) == Pattern(e.description, e.amount, Occurrences(es, e.description, e.amount))
  {
    OccurrencesCount(es, e.description, e.amount);
    assert e in WithKey(es, PairKey, PairKey(e));
    TallyFirst(es, PairKey, PairKey(e));
  }

  /** Pair counters of distinct pairs are distinct. */
  lemma PairCountersNoDup(es: seq<Expense>)
    ensures NoDup(Counters(es, PairKey))
  {
    var ks := KeysOf(es, PairKey);
    var ts := Counters(es, PairKey);
    forall i, j | 0 <= i < j < |ts| ensures ts[i] != ts[j] {
      assert ks[i] in ks && ks[j] in ks;
      var a :| 0 <= a < |es| && PairKey(es[a]) == ks[i];
      var b :| 0 <= b < |es| && PairKey(es[b]) == ks[j];
      PairTally(es, es[a]);
      PairTally(es, es[b]);
    }
  }

  /** When the key is a function of the (description, amount) pair, the
      counters of distinct keys are distinct: each names the pair of the
      first record of its key. */
  lemma CountersNoDupVia<K>(es: seq<Expense>, key: Expense -> K, g: ((string, real)) -> K)
    requires forall e | e in es :: key(e) == g(PairKey(e))
    ensures NoDup(Counters(es, key))
  {
    var ks := KeysOf(es, key);
    var ts := Counters(es, key);
    forall i, j | 0 <= i < j < |ts| ensures ts[i] != ts[j] {
      var a := FirstOfKey(es, key, ks[i]);
      var b := FirstOfKey(es, key, ks[j]);
      assert es[a] in es && es[b] in es;
      assert ks[i] != ks[j];
    }
  }

  /** The position of the record a listed key's counter is created from. */
  lemma FirstOfKey<K>(es: seq<Expense>, key: Expense -> K, k: K) returns (a: nat)
    requires k in KeysOf(es, key)
    ensures a < |es| && key(es[a]) == k
    ensures Tally(es, key, k).desc == es[a].description && Tally(es, key, k).amount == es[a].amount
  {
    var i :| 0 <= i < |es| && key(es[i]) == k;
    assert es[i] in WithKey(es, key, k);
    TallyFirst(es, key, k);
    a :| 0 <= a < |es| && key(es[a]) == k
         && Tally(es, key, k).desc == es[a].description && Tally(es, key, k).amount == es[a].amount;
  }

  /** The recurring list keyed by the (description, amount) pair: one entry
      per pair that occurs more than once, carrying the pair and its exact
      number of occurrences, most frequent first, no pair twice. */
  function Recurring(es: seq<Expense>): (r: seq<Pattern>)
    ensures SortedDesc(r, CountOf)
    ensures forall p | p in r :: p.count == Occurrences(es, p.desc, p.amount) && p.count > 1
    ensures forall p | p in r :: exists e :: e in es && e.description == p.desc && e.amount == p.amount
    ensures forall e | e in es && Occurrences(es, e.description, e.amount) > 1 ::
              Pattern(e.description, e.amount, Occurrences(es, e.description, e.amount)) in r
    ensures forall i, j :: 0 <= i < j < |r| ==> r[i].desc != r[j].desc || r[i].amount != r[j].amount
  {
    var r := Patterns(es, PairKey);
    RecurringFacts(es, r);
    r
  }

  lemma RecurringFacts(es: seq<Expense>, r: seq<Pattern>)
    requires r == Patterns(es, PairKey)
    ensures forall p | p in r :: p.count == Occurrences(es, p.desc, p.amount) && p.count > 1
    ensures forall p | p in r :: exists e :: e in es && e.description == p.desc && e.amount == p.amount
    ensures forall e | e in es && Occurrences(es, e.description, e.amount) > 1 ::
              Pattern(e.description, e.amount, Occurrences(es, e.description, e.amount)) in r
    ensures forall i, j :: 0 <= i < j < |r| ==> r[i].desc != r[j].desc || r[i].amount != r[j].amount
  {
    forall p | p in r
      ensures p.count == Occurrences(es, p.desc, p.amount)
      ensures exists e :: e in es && e.description == p.desc && e.amount == p.amount
    {
      var e :| e in es && p == Tally(es, PairKey, PairKey(e));
      PairTally(es, e);
    }
    forall e | e in es && Occurrences(es, e.description, e.amount) > 1
      ensures Pattern(e.description, e.amount, Occurrences(es, e.description, e.amount)) in r
    {
      PairTally(es, e);
      OccurrencesCount(es, e.description, e.amount);
    }
    PairCountersNoDup(es);
    forall i, j | 0 <= i < j < |r| ensures r[i].desc != r[j].desc || r[i].amount != r[j].amount {
      assert r[i] in r && r[j] in r;
    }
  }

  // ---------------------------------------------------------------------
  // The key as written: `${e.description}-${e.amount}`

  /** The text of a (description, amount) pair joined by a dash, with `fmt`
      standing for JavaScript's conversion of a number to text. */
  function PairText(fmt: real -> string): ((string, real)) -> string {
    (k: (string, real)) => k.0 + "-" + fmt(k.1)
  }

  /** The template-literal key of a record. */
  function TextKey(fmt: real -> string): Expense -> string {
    (e: Expense) => e.description + "-" + fmt(e.amount)
  }

  /** The recurring list as the screen computes it, keyed by the text. Each
      entry names a real record's pair; its count may merge pairs whose
      texts coincide. */
  function RecurringByText(es: seq<Expense>, fmt: real -> string): (r: seq<Pattern>)
    ensures SortedDesc(r, CountOf)
    ensures forall p | p in r :: p.count > 1 && exists e :: e in es && e.description == p.desc && e.amount == p.amount
    ensures forall p | p in r :: exists e :: e in es && p == Tally(es, TextKey(fmt), TextKey(fmt)(e))
    ensures forall e | e in es && |WithKey(es, TextKey(fmt), TextKey(fmt)(e))| > 1 ::
              Tally(es, TextKey(fmt), TextKey(fmt)(e)) in r
    ensures forall e | e in es && Occurrences(es, e.description, e.amount) > 1 ::
              exists p :: p in r && p.count >= Occurrences(es, e.description, e.amount)
    ensures NoDup(r)
  {
    var r := Patterns(es, TextKey(fmt));
    forall e | e in es ensures TextKey(fmt)(e) == PairText(fmt)(PairKey(e)) {
    }
    CountersNoDupVia(es, TextKey(fmt), PairText(fmt));
    forall p | p in r ensures exists e :: e in es && e.description == p.desc && e.amount == p.amount {
      PatternOrigin(es, TextKey(fmt), p);
    }
    forall e | e in es && Occurrences(es, e.description, e.amount) > 1
      ensures exists p :: p in r && p.count >= Occurrences(es, e.description, e.amount)
    {
      TextCountBound(es, fmt, e);
    }
    r
  }

  /** Every entry of a recurring list names the pair of a real record. */
  lemma PatternOrigin<K>(es: seq<Expense>, key: Expense -> K, p: Pattern)
    requires p in Patterns(es, key)
    ensures exists e :: e in es && e.description == p.desc && e.amount == p.amount
  {
    var e :| e in es && p == Tally(es, key, key(e));
    TallyFirst(es, key, key(e));
    var i :| 0 <= i < |es| && key(es[i]) == key(e) && p.desc == es[i].description && p.amount == es[i].amount;
    assert es[i] in es;
  }

  /** The text counter of a record counts at least the records of its pair. */
  lemma TextCountBound(es: seq<Expense>, fmt: real -> string, e: Expense)
    requires e in es
    ensures Tally(es, TextKey(fmt), TextKey(fmt)(e)).count >= Occurrences(es, e.description, e.amount)
  {
    OccurrencesCount(es, e.description, e.amount);
    FilterMonotone(es, KeyIs(PairKey, PairKey(e)), KeyIs(TextKey(fmt), TextKey(fmt)(e)));
  }

  /** The text key tells apart every two pairs occurring in the ledger. */
  predicate Faithful(es: seq<Expense>, fmt: real -> string) {
    forall e1, e2 | e1 in es && e2 in es ::
      TextKey(fmt)(e1) == TextKey(fmt)(e2) ==> PairKey(e1) == PairKey(e2)
  }

  /** On the records `es`, `key2` is `h` applied to `key1`, and `h` loses
      nothing: two records share a `key2` only when they share a `key1`. */
  ghost predicate Refines<K, L>(es: seq<Expense>, key1: Expense -> K, key2: Expense -> L, h: K -> L) {
    && (forall e | e in es :: key2(e) == h(key1(e)))
    && (forall e1, e2 | e1 in es && e2 in es && key2(e1) == key2(e2) :: key1(e1) == key1(e2))
  }

  /** One instance of the loss-free half of `Refines`. */
  lemma SameImage<K, L>(es: seq<Expense>, key1: Expense -> K, key2: Expense -> L, h: K -> L,
                        e1: Expense, e2: Expense)
    requires Refines(es, key1, key2, h)
    requires e1 in es && e2 in es && key2(e1) == key2(e2)
    ensures key1(e1) == key1(e2)
  {
  }

  lemma RefinesFront<K, L>(es: seq<Expense>, key1: Expense -> K, key2: Expense -> L, h: K -> L)
    requires |es| > 0 && Refines(es, key1, key2, h)
    ensures Refines(es[..|es| - 1], key1, key2, h)
  {
    assert forall e | e in es[..|es| - 1] :: e in es;
  }

  /** The last record's `key2` is new exactly when its `key1` is new. */
  lemma LastKeyMapped<K, L>(es: seq<Expense>, key1: Expense -> K, key2: Expense -> L, h: K -> L)
    requires |es| > 0 && Refines(es, key1, key2, h)
    requires KeysOf(es[..|es| - 1], key2) == Map(KeysOf(es[..|es| - 1], key1), h)
    ensures key2(es[|es| - 1]) in KeysOf(es[..|es| - 1], key2)
        <==> key1(es[|es| - 1]) in KeysOf(es[..|es| - 1], key1)
  {
    LastKeyOld(es, key1, key2, h);
    LastKeyNew(es, key1, key2, h);
  }

  /** A `key1` already seen in the front has its image seen there too. */
  lemma LastKeyOld<K, L>(es: seq<Expense>, key1: Expense -> K, key2: Expense -> L, h: K -> L)
    requires |es| > 0 && Refines(es, key1, key2, h)
    requires KeysOf(es[..|es| - 1], key2) == Map(KeysOf(es[..|es| - 1], key1), h)
    ensures key1(es[|es| - 1]) in KeysOf(es[..|es| - 1], key1)
        ==> key2(es[|es| - 1]) in KeysOf(es[..|es| - 1], key2)
  {
    var front := es[..|es| - 1];
    var last := es[|es| - 1];
    var ks1 := KeysOf(front, key1);
    var ks2 := KeysOf(front, key2);
    if key1(last) in ks1 {
      assert key2(last) == h(key1(last)) by {
        assert last in es;
      }
      var n := IndexOf(ks1, key1(last));
      assert ks2[n] == key2(last);
      assert ks2[n] in ks2;
    }
  }

  /** A `key2` already seen in the front comes from a `key1` seen there. */
  lemma LastKeyNew<K, L>(es: seq<Expense>, key1: Expense -> K, key2: Expense -> L, h: K -> L)
    requires |es| > 0 && Refines(es, key1, key2, h)
    requires KeysOf(es[..|es| - 1], key2) == Map(KeysOf(es[..|es| - 1], key1), h)
    ensures key2(es[|es| - 1]) in KeysOf(es[..|es| - 1], key2)
        ==> key1(es[|es| - 1]) in KeysOf(es[..|es| - 1], key1)
  {
    var front := es[..|es| - 1];
    var last := es[|es| - 1];
    var ks1 := KeysOf(front, key1);
    var ks2 := KeysOf(front, key2);
    if key2(last) in ks2 {
      var n := IndexOf(ks2, key2(last));
      KeyImage(es, key1, key2, h, n);
      assert ks1[n] in ks1;
    }
  }

  /** An image key of the front, equal to the last record's, comes from
      the last record's own `key1`. */
  lemma KeyImage<K, L>(es: seq<Expense>, key1: Expense -> K, key2: Expense -> L, h: K -> L, n: nat)
    requires |es| > 0 && Refines(es, key1, key2, h)
    requires KeysOf(es[..|es| - 1], key2) == Map(KeysOf(es[..|es| - 1], key1), h)
    requires n < |KeysOf(es[..|es| - 1], key2)|
    requires KeysOf(es[..|es| - 1], key2)[n] == key2(es[|es| - 1])
    ensures KeysOf(es[..|es| - 1], key1)[n] == key1(es[|es| - 1])
  {
    var front := es[..|es| - 1];
    var ks1 := KeysOf(front, key1);
    var ks2 := KeysOf(front, key2);
    assert ks2[n] == h(ks1[n]);
    var i := KeyOrigin(front, key1, ks1[n]);
    InFront(es, i);
    assert key2(es[i]) == h(key1(es[i]));
    SameImage(es, key1, key2, h, es[i], es[|es| - 1]);
  }

  /** Keys that are a loss-free image of other keys on the ledger list the
      images in the same first-occurrence order. */
  lemma {:induction false} KeysOfMapped<K, L>(es: seq<Expense>, key1: Expense -> K, key2: Expense -> L, h: K -> L)
    requires Refines(es, key1, key2, h)
    ensures KeysOf(es, key2) == Map(KeysOf(es, key1), h)
    decreases |es|
  {
    if |es| > 0 {
      var front := es[..|es| - 1];
      var last := es[|es| - 1];
      RefinesFront(es, key1, key2, h);
      KeysOfMapped(front, key1, key2, h);
      LastKeyMapped(es, key1, key2, h);
      assert last in es;
      var ks1 := KeysOf(front, key1);
      MapSnoc(ks1, key1(last), h);
    }
  }

  /** Under such keys a key's counter is the counter of its image. */
  lemma TallyMapped<K, L>(es: seq<Expense>, key1: Expense -> K, key2: Expense -> L, h: K -> L, k: K)
    requires Refines(es, key1, key2, h)
    requires k in KeysOf(es, key1)
    ensures Tally(es, key2, h(k)) == Tally(es, key1, k)
  {
    var i :| 0 <= i < |es| && key1(es[i]) == k;
    assert es[i] in es;
    forall x | x in es ensures KeyIs(key2, h(k))(x) == KeyIs(key1, k)(x) {
    }
    FilterCongruent(es, KeyIs(key2, h(k)), KeyIs(key1, k));
  }

  /** Such keys produce the same counters, in the same order. */
  lemma CountersMapped<K, L>(es: seq<Expense>, key1: Expense -> K, key2: Expense -> L, h: K -> L)
    requires Refines(es, key1, key2, h)
    ensures Counters(es, key2) == Counters(es, key1)
  {
    KeysOfMapped(es, key1, key2, h);
    TalliesMapped(es, key1, key2, h, KeysOf(es, key1));
  }

  /** The counters of listed keys equal the counters of their images. */
  lemma {:induction false} TalliesMapped<K, L>(es: seq<Expense>, key1: Expense -> K, key2: Expense -> L, h: K -> L,
                                              ks: seq<K>)
    requires Refines(es, key1, key2, h)
    requires forall k | k in ks :: k in KeysOf(es, key1)
    ensures Tallies(es, key2, Map(ks, h)) == Tallies(es, key1, ks)
  {
    if |ks| > 0 {
      assert ks[0] in ks;
      assert Map(ks, h) == [h(ks[0])] + Map(ks[1..], h);
      TallyMapped(es, key1, key2, h, ks[0]);
      assert forall k | k in ks[1..] :: k in ks;
      TalliesMapped(es, key1, key2, h, ks[1..]);
      assert Map(ks, h)[1..] == Map(ks[1..], h);
    }
  }

  /** Such keys produce the same recurring list. */
  lemma PatternsMapped<K, L>(es: seq<Expense>, key1: Expense -> K, key2: Expense -> L, h: K -> L)
    requires Refines(es, key1, key2, h)
    ensures Patterns(es, key2) == Patterns(es, key1)
  {
    CountersMapped(es, key1, key2, h);
  }

  /** Where the text key tells the ledger's pairs apart, the list as
      written is the intended one. */
  lemma FaithfulTextKey(es: seq<Expense>, fmt: real -> string)
    requires Faithful(es, fmt)
    ensures RecurringByText(es, fmt) == Recurring(es)
  {
    forall e | e in es ensures TextKey(fmt)(e) == PairText(fmt)(PairKey(e)) {
    }
    PatternsMapped(es, PairKey, TextKey(fmt), PairText(fmt));
  }

  /** The texts of ("x-", 1) and ("x", -1) coincide as "x--1": the list as
      written reports one pattern seen twice, the pair-keyed list none. */
  lemma TextKeyCollision(fmt: real -> string)
    requires fmt(1.0) == "1" && fmt(-1.0) == "-1"
    ensures var es := [Expense("p", 1.0, "x-", "MISC", "2024-01-01", 0),
                       Expense("q", -1.0, "x", "MISC", "2024-01-01", 0)];
            && Pattern("x-", 1.0, 2) in RecurringByText(es, fmt)
            && Recurring(es) == []
  {
    var es := [Expense("p", 1.0, "x-", "MISC", "2024-01-01", 0),
               Expense("q", -1.0, "x", "MISC", "2024-01-01", 0)];
    var key := TextKey(fmt);
    assert key(es[0]) == "x--1" && key(es[1]) == "x--1";
    FilterKeepsAll(es, KeyIs(key, "x--1"));
    assert Tally(es, key, key(es[0])) == Pattern("x-", 1.0, 2);
    assert es[0] in es;
    assert es[1..] == [es[1]] && es[1..][1..] == [];
    assert Occurrences(es, "x-", 1.0) == 1;
    assert Occurrences(es, "x", -1.0) == 1;
    assert es[1] in es;
    Unrepeated(es);
  }

  /** A ledger where no pair occurs twice has nothing recurring. */
  lemma Unrepeated(es: seq<Expense>)
    requires forall e | e in es :: Occurrences(es, e.description, e.amount) <= 1
    ensures Recurring(es) == []
  {
    CountersFacts(es, PairKey);
    forall p | p in Counters(es, PairKey) ensures !Repeated(p) {
      var e :| e in es && p == Tally(es, PairKey, PairKey(e));
      PairTally(es, e);
    }
    FilterKeepsNone(Counters(es, PairKey), Repeated);
  }
}
