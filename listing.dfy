/** The month listing that src/pages/Dashboard.tsx and
    src/pages/transactions/TransactionsPage.tsx both compute: the stored
    transactions of the selected year and 0-based month, sorted with the
    comparator `(a, b) => b.date.getTime() - a.date.getTime()`. Array sort is
    stable, so the sort is modelled as a stable insertion sort, newest first. */
module Listing {
  import opened Types
  import opened TransactionContext

  predicate NewestFirst(s: seq<Transaction>) {
    forall i, j :: 0 <= i < j < |s| ==> s[i].date.timestamp >= s[j].date.timestamp
  }

  /** No transaction of `s` is newer than `bound`. */
  predicate NoneNewerThan(bound: int, s: seq<Transaction>) {
    forall k :: 0 <= k < |s| ==> s[k].date.timestamp <= bound
  }

  lemma ConsNewestFirst(t: Transaction, s: seq<Transaction>)
    requires NewestFirst(s) && NoneNewerThan(t.date.timestamp, s)
    ensures NewestFirst([t] + s)
  {
    forall i, j | 0 <= i < j < |[t] + s|
      ensures ([t] + s)[i].date.timestamp >= ([t] + s)[j].date.timestamp
    {
      assert ([t] + s)[j] == s[j - 1];
      if i > 0 { assert ([t] + s)[i] == s[i - 1]; }
    }
  }

  /** Puts `t` before the first transaction that is not newer than it, so `t`
      stays ahead of the equally timed ones that followed it. */
  function InsertNewestFirst(t: Transaction, s: seq<Transaction>): (r: seq<Transaction>)
    ensures multiset(r) == multiset(s) + multiset{t}
  {
    if s == [] then [t]
    else if s[0].date.timestamp <= t.date.timestamp then [t] + s
    else
      assert s == [s[0]] + s[1..];
      [s[0]] + InsertNewestFirst(t, s[1..])
  }

  lemma {:induction false} InsertKeepsBound(t: Transaction, s: seq<Transaction>, bound: int)
    requires NoneNewerThan(bound, s) && t.date.timestamp <= bound
    ensures NoneNewerThan(bound, InsertNewestFirst(t, s))
    decreases |s|
  {
    if s != [] && s[0].date.timestamp > t.date.timestamp {
      InsertKeepsBound(t, s[1..], bound);
    }
  }

  /** Inserting into a newest-first list keeps it newest first. */
  lemma {:induction false} InsertKeepsNewestFirst(t: Transaction, s: seq<Transaction>)
    requires NewestFirst(s)
    ensures NewestFirst(InsertNewestFirst(t, s))
    decreases |s|
  {
    if s == [] {
    } else if s[0].date.timestamp <= t.date.timestamp {
      ConsNewestFirst(t, s);
    } else {
      var tail := s[1..];
      assert NewestFirst(tail) by {
        forall i, j | 0 <= i < j < |tail| ensures tail[i].date.timestamp >= tail[j].date.timestamp {
          assert tail[i] == s[i + 1] && tail[j] == s[j + 1];
        }
      }
      assert NoneNewerThan(s[0].date.timestamp, tail) by {
        forall k | 0 <= k < |tail| ensures tail[k].date.timestamp <= s[0].date.timestamp {
          assert tail[k] == s[k + 1];
        }
      }
      InsertKeepsNewestFirst(t, tail);
      InsertKeepsBound(t, tail, s[0].date.timestamp);
      ConsNewestFirst(s[0], InsertNewestFirst(t, tail));
    }
  }

  /** `[...s].sort((a, b) => b.date.getTime() - a.date.getTime())`: the same
      transactions, newest first. */
  function SortNewestFirst(s: seq<Transaction>): (r: seq<Transaction>)
    ensures NewestFirst(r)
    ensures multiset(r) == multiset(s)
  {
    if s == [] then []
    else
      assert s == [s[0]] + s[1..];
      var sorted := SortNewestFirst(s[1..]);
      InsertKeepsNewestFirst(s[0], sorted);
      InsertNewestFirst(s[0], sorted)
  }

  /** The `filteredTransactions` of both pages: exactly the stored
      transactions of the selected month, each as often as it is stored,
      newest first. */
  function FilteredTransactions(ts: seq<Transaction>, year: int, month0: int): (r: seq<Transaction>)
    ensures NewestFirst(r)
    ensures multiset(r) == multiset(TransactionsByMonth(ts, year, month0))
    ensures forall t :: t in r <==> t in ts && InMonth(t, year, month0)
    ensures |r| == |TransactionsByMonth(ts, year, month0)| <= |ts|
  {
    TransactionsByMonthMembers(ts, year, month0);
    var m := TransactionsByMonth(ts, year, month0);
    var r := SortNewestFirst(m);
    assert |r| == |multiset(r)| == |multiset(m)| == |m|;
    assert forall t :: t in r <==> t in m by {
      forall t ensures t in r <==> t in m {
        assert t in r <==> t in multiset(r);
        assert t in m <==> t in multiset(m);
      }
    }
    r
  }
}
