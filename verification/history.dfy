/** The history screen: records grouped by their date, newest date first,
    with a total per day and a delete action per row. */
module History {
  import opened Seqs
  import opened Types
  import opened Ledger

  /** One date heading with its rows (in ledger order) and its total. */
  datatype DayGroup = DayGroup(date: string, items: seq<Expense>, total: real)

  function GroupTotal(g: DayGroup): real { g.total }

  /** Sort rank of a group: the instant `new Date(date).getTime()` of its date. */
  function Recency(instant: string -> int): DayGroup -> real {
    (g: DayGroup) => instant(g.date) as real
  }

  /** The group of every listed date: `grouped[date]` and its `dayTotal`. */
  function GroupsFor(es: seq<Expense>, dates: seq<string>): (gs: seq<DayGroup>)
    ensures |gs| == |dates|
    ensures forall i :: 0 <= i < |gs| ==> gs[i].date == dates[i]
    ensures forall g | g in gs :: g.items == WithKey(es, DateOf, g.date) && g.total == Total(g.items)
  {
    if |dates| == 0 then []
    else
      var items := WithKey(es, DateOf, dates[0]);
      [DayGroup(dates[0], items, Total(items))] + GroupsFor(es, dates[1..])
  }

  lemma {:induction false} GroupsForTotals(es: seq<Expense>, dates: seq<string>)
    ensures SumBy(GroupsFor(es, dates), GroupTotal) == GroupTotals(es, DateOf, dates)
  {
    if |dates| > 0 {
      GroupsForTotals(es, dates[1..]);
      var gs := GroupsFor(es, dates);
      assert gs[1..] == GroupsFor(es, dates[1..]);
    }
  }

  /** The groups of the ledger's distinct dates, in first-occurrence order. */
  function Grouped(es: seq<Expense>): seq<DayGroup> {
    GroupsFor(es, KeysOf(es, DateOf))
  }

  lemma GroupAtNonEmpty(es: seq<Expense>, k: nat)
    requires k < |Grouped(es)|
    ensures |Grouped(es)[k].items| > 0
  {
    var dates := KeysOf(es, DateOf);
    var g := Grouped(es)[k];
    assert g.date == dates[k];
    assert dates[k] in dates;
    assert exists i :: 0 <= i < |es| && DateOf(es[i]) == dates[k];
    var i :| 0 <= i < |es| && DateOf(es[i]) == dates[k];
    assert es[i] in es;
    assert es[i] in WithKey(es, DateOf, g.date);
  }

  lemma GroupedNonEmpty(es: seq<Expense>)
    ensures forall g | g in Grouped(es) :: |g.items| > 0
  {
    var u := Grouped(es);
    forall g | g in u ensures |g.items| > 0 {
      var k :| 0 <= k < |u| && u[k] == g;
      GroupAtNonEmpty(es, k);
    }
  }

  lemma GroupedCovers(es: seq<Expense>)
    ensures forall e | e in es :: exists g :: g in Grouped(es) && g.date == e.date
    ensures |Grouped(es)| == 0 <==> |es| == 0
  {
    var dates := KeysOf(es, DateOf);
    var u := Grouped(es);
    forall e | e in es ensures exists g :: g in u && g.date == e.date {
      var i :| 0 <= i < |es| && es[i] == e;
      var k :| 0 <= k < |dates| && dates[k] == e.date;
      assert u[k] in u;
    }
    assert |es| > 0 ==> es[0].date in dates;
  }

  /** Two groups of the ledger with the same date are the same group. */
  lemma GroupedByDate(es: seq<Expense>, g: DayGroup, h: DayGroup)
    requires g in Grouped(es) && h in Grouped(es) && g.date == h.date
    ensures g == h
  {
  }

  lemma GroupedNoDup(es: seq<Expense>)
    ensures NoDup(Grouped(es))
  {
    var dates := KeysOf(es, DateOf);
    var u := Grouped(es);
    forall i, j | 0 <= i < j < |u| ensures u[i] != u[j] {
      assert u[i].date == dates[i] && u[j].date == dates[j];
    }
  }

  /** The rendered history: one group per distinct date of the ledger,
      ordered newest first by `instant` (the sort of `sortedDates`). */
  function HistoryView(es: seq<Expense>, instant: string -> int): (r: seq<DayGroup>)
    ensures SortedDesc(r, Recency(instant))
    ensures forall g | g in r :: g.items == WithKey(es, DateOf, g.date) && g.total == Total(g.items)
    ensures forall g | g in r :: |g.items| > 0
    ensures forall e | e in es :: exists g :: g in r && g.date == e.date
    ensures forall i, j :: 0 <= i < j < |r| ==> r[i].date != r[j].date
    ensures |r| == 0 <==> |es| == 0
  {
    var u := Grouped(es);
    var r := SortDesc(u, Recency(instant));
    SameMembers(r, u);
    SameMembers(u, r);
    GroupedNonEmpty(es);
    GroupedCovers(es);
    GroupedNoDup(es);
    PermutationKeepsNoDup(u, r);
    forall i, j | 0 <= i < j < |r| ensures r[i].date != r[j].date {
      if r[i].date == r[j].date {
        GroupedByDate(es, r[i], r[j]);
      }
    }
    r
  }

  /** Every record lands in exactly one group: the group of its own date. */
  lemma ExactlyOneGroup(es: seq<Expense>, instant: string -> int, e: Expense)
    requires e in es
    ensures var r := HistoryView(es, instant);
            && (exists i :: 0 <= i < |r| && e in r[i].items)
            && forall i, j :: 0 <= i < |r| && 0 <= j < |r| && e in r[i].items && e in r[j].items ==> i == j
  {
    var r := HistoryView(es, instant);
    var g :| g in r && g.date == e.date;
    var k := IndexOf(r, g);
    assert e in r[k].items;
    OnlyOwnGroup(es, r, e);
  }

  /** In groups with distinct dates, each holding only records of its own
      date, a record lies in one group at most. */
  lemma OnlyOwnGroup(es: seq<Expense>, r: seq<DayGroup>, e: Expense)
    requires forall g | g in r :: g.items == WithKey(es, DateOf, g.date)
    requires forall i, j :: 0 <= i < j < |r| ==> r[i].date != r[j].date
    ensures forall i, j :: 0 <= i < |r| && 0 <= j < |r| && e in r[i].items && e in r[j].items ==> i == j
  {
    forall i, j | 0 <= i < |r| && 0 <= j < |r| && e in r[i].items && e in r[j].items
      ensures i == j
    {
      assert r[i] in r && r[j] in r;
      assert r[i].date == e.date == r[j].date;
    }
  }

  /** The day totals add up to the ledger total. */
  lemma DayTotalsAddUp(es: seq<Expense>, instant: string -> int)
    ensures SumBy(HistoryView(es, instant), GroupTotal) == Total(es)
  {
    var dates := KeysOf(es, DateOf);
    var u := Grouped(es);
    SortDescSum(u, Recency(instant), GroupTotal);
    GroupsForTotals(es, dates);
    GroupsPartition(es, DateOf, dates);
  }

  /** The delete button of a row passes that row's id: afterwards the
      record is in no group. */
  lemma DeleteRowRemovesIt(es: seq<Expense>, instant: string -> int, g: DayGroup, e: Expense)
    requires g in HistoryView(es, instant) && e in g.items
    ensures forall h | h in HistoryView(DeleteExpense(es, e.id), instant) :: e !in h.items
  {
  }
}
