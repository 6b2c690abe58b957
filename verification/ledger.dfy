/** The expense ledger: an ordered sequence of records, newest insertion
    first, with the sums and group-by-key views every screen reads. */
module Ledger {
  import opened Seqs
  import opened Types

  function Amount(e: Expense): real { e.amount }
  function DateOf(e: Expense): string { e.date }
  function CategoryOf(e: Expense): string { e.category }

  /** No record has a negative amount. */
  predicate NonNegative(es: seq<Expense>) {
    forall e | e in es :: 0.0 <= e.amount
  }

  /** The lifetime total: the sum of every record's amount. */
  function Total(es: seq<Expense>): (r: real)
    ensures |es| == 0 ==> r == 0.0
    ensures NonNegative(es) ==> 0.0 <= r
  {
    SumByNonNegative(es, Amount);
    SumBy(es, Amount)
  }

  /** `es.reduce((sum, e) => sum + e.amount, acc)`: the running sum, taken
      from the first record to the last, ends at `acc` plus the total. */
  function Reduce(es: seq<Expense>, acc: real): (r: real)
    ensures r == acc + Total(es)
  {
    if |es| == 0 then acc else Reduce(es[1..], acc + es[0].amount)
  }

  /** The total of a concatenation is the sum of the totals. */
  lemma TotalAppend(a: seq<Expense>, b: seq<Expense>)
    ensures Total(a + b) == Total(a) + Total(b)
  {
    SumByAppend(a, b, Amount);
  }

  /** Record ids are pairwise distinct. */
  predicate UniqueIds(es: seq<Expense>) {
    forall i, j :: 0 <= i < j < |es| ==> es[i].id != es[j].id
  }

  predicate Fresh(es: seq<Expense>, id: string) {
    forall e | e in es :: e.id != id
  }

  // ---------------------------------------------------------------------
  // Grouping by a key (a category, a date, a recurring-pattern key)

  function KeyIs<K(==)>(key: Expense -> K, k: K): Expense -> bool {
    (e: Expense) => key(e) == k
  }

  /** The records whose key is `k`, in ledger order. */
  function WithKey<K(==)>(es: seq<Expense>, key: Expense -> K, k: K): (g: seq<Expense>)
    ensures forall e | e in g :: e in es && key(e) == k
    ensures forall e | e in es && key(e) == k :: e in g
    ensures Subseq(g, es)
  {
    Filter(es, KeyIs(key, k))
  }

  lemma {:induction false} WithKeyCons<K>(es: seq<Expense>, key: Expense -> K, k: K)
    requires |es| > 0
    ensures WithKey(es, key, k)
         == (if key(es[0]) == k then [es[0]] else []) + WithKey(es[1..], key, k)
  {
  }

  /** The distinct keys of the records, in order of first occurrence: the
      key order of a JavaScript object filled by one pass over the ledger. */
  function KeysOf<K(==)>(es: seq<Expense>, key: Expense -> K): (ks: seq<K>)
    ensures NoDup(ks)
    ensures forall i :: 0 <= i < |es| ==> key(es[i]) in ks
    ensures forall k | k in ks :: exists i :: 0 <= i < |es| && key(es[i]) == k
    decreases |es|
  {
    if |es| == 0 then []
    else
      var front := es[..|es| - 1];
      var ks := KeysOf(front, key);
      var last := key(es[|es| - 1]);
      assert forall i :: 0 <= i < |front| ==> front[i] == es[i];
      if last in ks then ks
      else
        SnocKeepsNoDup(ks, last);
        ks + [last]
  }

  /** A position of a record carrying a listed key. */
  lemma KeyOrigin<K>(es: seq<Expense>, key: Expense -> K, k: K) returns (i: nat)
    requires k in KeysOf(es, key)
    ensures i < |es| && key(es[i]) == k
  {
    i :| 0 <= i < |es| && key(es[i]) == k;
  }

  /** The sum, over the keys `ks`, of each key's group total. */
  function GroupTotals<K(==)>(es: seq<Expense>, key: Expense -> K, ks: seq<K>): real {
    if |ks| == 0 then 0.0 else Total(WithKey(es, key, ks[0])) + GroupTotals(es, key, ks[1..])
  }

  /** The sum, over the keys `ks`, of each key's group size. */
  function GroupSizes<K(==)>(es: seq<Expense>, key: Expense -> K, ks: seq<K>): int {
    if |ks| == 0 then 0 else |WithKey(es, key, ks[0])| + GroupSizes(es, key, ks[1..])
  }

  /** Peeling the first record off the ledger: it contributes to the group
      of its own key only, and only when that key is listed once. */
  lemma {:induction false} GroupsPeel<K>(es: seq<Expense>, key: Expense -> K, ks: seq<K>)
    requires |es| > 0 && NoDup(ks)
    ensures GroupTotals(es, key, ks)
         == GroupTotals(es[1..], key, ks) + (if key(es[0]) in ks then es[0].amount else 0.0)
    ensures GroupSizes(es, key, ks)
         == GroupSizes(es[1..], key, ks) + (if key(es[0]) in ks then 1 else 0)
  {
    if |ks| > 0 {
      WithKeyCons(es, key, ks[0]);
      var g := WithKey(es[1..], key, ks[0]);
      if key(es[0]) == ks[0] {
        assert ([es[0]] + g)[1..] == g;
        HeadNotInTail(ks);
      }
      assert NoDup(ks[1..]) by {
        forall i, j | 0 <= i < j < |ks[1..]| ensures ks[1..][i] != ks[1..][j] {
          assert ks[1..][i] == ks[i + 1] && ks[1..][j] == ks[j + 1];
        }
      }
      GroupsPeel(es, key, ks[1..]);
      assert key(es[0]) in ks <==> key(es[0]) == ks[0] || key(es[0]) in ks[1..];
    }
  }

  /** Groups over a duplicate-free list of keys that covers every record
      partition the ledger: their totals add up to the ledger total and
      their sizes to the ledger length. */
  lemma {:induction false} GroupsPartition<K>(es: seq<Expense>, key: Expense -> K, ks: seq<K>)
    requires NoDup(ks)
    requires forall i :: 0 <= i < |es| ==> key(es[i]) in ks
    ensures GroupTotals(es, key, ks) == Total(es)
    ensures GroupSizes(es, key, ks) == |es|
    decreases |es|
  {
    if |es| == 0 {
      GroupsOfEmpty(es, key, ks);
    } else {
      GroupsPeel(es, key, ks);
      assert forall i :: 0 <= i < |es[1..]| ==> es[1..][i] == es[i + 1];
      GroupsPartition(es[1..], key, ks);
    }
  }

  lemma {:induction false} GroupsOfEmpty<K>(es: seq<Expense>, key: Expense -> K, ks: seq<K>)
    requires |es| == 0
    ensures GroupTotals(es, key, ks) == 0.0 && GroupSizes(es, key, ks) == 0
  {
    if |ks| > 0 {
      GroupsOfEmpty(es, key, ks[1..]);
    }
  }

  // ---------------------------------------------------------------------
  // Operations of the application shell

  /** The spending recorded for calendar date `day` (`currentDailyTotal`
      for today's date). */
  function DayTotal(es: seq<Expense>, day: string): (r: real)
    ensures r == DaySum(es, day)
    ensures |es| == 0 ==> r == 0.0
  {
    DayTotalByRecord(es, day);
    Total(WithKey(es, DateOf, day))
  }

  /** The same figure read off record by record: each record dated `day`
      contributes its amount, every other record nothing. */
  function DaySum(es: seq<Expense>, day: string): real {
    if |es| == 0 then 0.0
    else (if es[0].date == day then es[0].amount else 0.0) + DaySum(es[1..], day)
  }

  lemma {:induction false} DayTotalByRecord(es: seq<Expense>, day: string)
    ensures Total(WithKey(es, DateOf, day)) == DaySum(es, day)
    ensures |es| == 0 ==> Total(WithKey(es, DateOf, day)) == 0.0
  {
    if |es| > 0 {
      WithKeyCons(es, DateOf, day);
      DayTotalByRecord(es[1..], day);
      if es[0].date == day {
        TotalAppend([es[0]], WithKey(es[1..], DateOf, day));
        assert [es[0]][1..] == [];
      } else {
        assert [] + WithKey(es[1..], DateOf, day) == WithKey(es[1..], DateOf, day);
      }
    }
  }

  /** `setExpenses(prev => [newExpense, ...prev])`: the new record, with the
      caller's fields and the ledger-chosen id and timestamp, goes first and
      every older record follows unchanged and in order. */
  function AddExpense(es: seq<Expense>, d: Draft, id: string, now: int): (r: seq<Expense>)
    ensures |r| == |es| + 1
    ensures Unstamp(r[0]) == d && r[0].id == id && r[0].timestamp == now
    ensures r[1..] == es
    ensures Fresh(es, id) && UniqueIds(es) ==> UniqueIds(r)
  {
    [Stamp(d, id, now)] + es
  }

  function IdIsNot(id: string): Expense -> bool {
    (e: Expense) => e.id != id
  }

  /** `prev.filter(e => e.id !== id)`. */
  function DeleteExpense(es: seq<Expense>, id: string): (r: seq<Expense>)
    ensures forall e | e in r :: e in es && e.id != id
    ensures forall e | e in es && e.id != id :: e in r
    ensures Subseq(r, es)
    ensures forall e :: multiset(r)[e] == if e.id != id then multiset(es)[e] else 0
    ensures Fresh(es, id) ==> r == es
  {
    FilterKeepsAll(es, IdIsNot(id));
    FilterCount(es, IdIsNot(id));
    Filter(es, IdIsNot(id))
  }

  /** Deleting the same id twice is deleting it once. */
  lemma DeleteTwice(es: seq<Expense>, id: string)
    ensures DeleteExpense(DeleteExpense(es, id), id) == DeleteExpense(es, id)
  {
    FilterIdempotent(es, IdIsNot(id));
  }

  /** Deleting a just-added record (with a fresh id) restores the ledger. */
  lemma DeleteUndoesAdd(es: seq<Expense>, d: Draft, id: string, now: int)
    requires Fresh(es, id)
    ensures DeleteExpense(AddExpense(es, d, id, now), id) == es
  {
    var r := AddExpense(es, d, id, now);
    assert r == [r[0]] + es;
    FilterKeepsAll(es, IdIsNot(id));
  }

  /** Adding changes the lifetime total by the new amount, and today's total
      by the new amount exactly when the new record is dated today. */
  lemma AddExpenseTotals(es: seq<Expense>, d: Draft, id: string, now: int, today: string)
    ensures Total(AddExpense(es, d, id, now)) == d.amount + Total(es)
    ensures DayTotal(AddExpense(es, d, id, now), today)
         == (if d.date == today then d.amount else 0.0) + DayTotal(es, today)
  {
    var r := AddExpense(es, d, id, now);
    assert r[1..] == es;
    WithKeyCons(r, DateOf, today);
    var g := WithKey(es, DateOf, today);
    if d.date == today {
      assert ([r[0]] + g)[1..] == g;
    }
  }

  /** A ledger with unique ids keeps them unique after a delete. */
  lemma DeleteKeepsUniqueIds(es: seq<Expense>, id: string)
    requires UniqueIds(es)
    ensures UniqueIds(DeleteExpense(es, id))
  {
    assert NoDup(es) by {
      forall i, j | 0 <= i < j < |es| ensures es[i] != es[j] {
        assert es[i].id != es[j].id;
      }
    }
    var r := DeleteExpense(es, id);
    FilterKeepsNoDup(es, IdIsNot(id));
    forall i, j | 0 <= i < j < |r| ensures r[i].id != r[j].id {
      assert r[i] in es && r[j] in es;
      var a :| 0 <= a < |es| && es[a] == r[i];
      var b :| 0 <= b < |es| && es[b] == r[j];
      assert a != b;
    }
  }
}
