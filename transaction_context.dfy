/** The transaction store of src/contexts/TransactionContext.tsx: one list of
    transactions that `addTransaction` appends to, `updateTransaction` maps
    over and `deleteTransaction` filters, and the three pure queries over it
    (`getNextTransactionCount`, `getTransaction`, `getTransactionsByMonth`).

    The identifier of a new transaction numbers it among the transactions
    currently stored in its month. While the store only grows, identifiers stay
    distinct (WellNumberedIdsDistinct); a deletion lets a later addition reuse an
    identifier that is still stored (DeleteThenAddReusesId). */
module TransactionContext {
  import opened Types
  import opened Utils

  /** The predicate of `getTransactionsByMonth` and `getNextTransactionCount`:
      the calendar year and 0-based month of the transaction's date. */
  predicate InMonth(t: Transaction, year: int, month0: int) {
    t.date.year == year && t.date.month0 == month0
  }

  /** `getTransactionsByMonth(year, month)`: the stored transactions of that
      month, in stored order. */
  function TransactionsByMonth(ts: seq<Transaction>, year: int, month0: int): (r: seq<Transaction>)
    ensures |r| <= |ts|
  {
    if ts == [] then []
    else
      var last := ts[|ts| - 1];
      TransactionsByMonth(ts[..|ts| - 1], year, month0) + (if InMonth(last, year, month0) then [last] else [])
  }

  /** The month filter keeps exactly the stored transactions of that month. */
  lemma {:induction false} TransactionsByMonthMembers(ts: seq<Transaction>, year: int, month0: int)
    ensures forall t :: t in TransactionsByMonth(ts, year, month0) <==> t in ts && InMonth(t, year, month0)
    decreases |ts|
  {
    if ts != [] {
      var init, last := ts[..|ts| - 1], ts[|ts| - 1];
      TransactionsByMonthMembers(init, year, month0);
      assert ts == init + [last];
    }
  }

  /** The month filter distributes over concatenation, so it keeps the stored
      order. */
  lemma {:induction false} TransactionsByMonthOfConcat(a: seq<Transaction>, b: seq<Transaction>, year: int, month0: int)
    ensures TransactionsByMonth(a + b, year, month0)
         == TransactionsByMonth(a, year, month0) + TransactionsByMonth(b, year, month0)
    decreases |b|
  {
    if b == [] {
      assert a + b == a;
    } else {
      var init, last := b[..|b| - 1], b[|b| - 1];
      TransactionsByMonthOfConcat(a, init, year, month0);
      assert (a + b)[..|a + b| - 1] == a + init;
      assert (a + b)[|a + b| - 1] == last;
      var tail := if InMonth(last, year, month0) then [last] else [];
      assert TransactionsByMonth(a + b, year, month0) == TransactionsByMonth(a + init, year, month0) + tail;
      assert TransactionsByMonth(b, year, month0) == TransactionsByMonth(init, year, month0) + tail;
    }
  }

  /** `getNextTransactionCount(date)`: how many stored transactions share the
      date's year and month. */
  function NextTransactionCount(ts: seq<Transaction>, date: Date): (r: nat)
    ensures r <= |ts|
  {
    |TransactionsByMonth(ts, date.year, date.month0)|
  }

  /** `getTransaction(id)`: the first stored transaction with that id. */
  function FindTransaction(ts: seq<Transaction>, id: string): (r: Option<Transaction>)
    ensures r.None? <==> forall i :: 0 <= i < |ts| ==> ts[i].id != id
    ensures r.Some? ==> exists i :: 0 <= i < |ts| && ts[i] == r.value && r.value.id == id
                                   && forall j :: 0 <= j < i ==> ts[j].id != id
  {
    if ts == [] then None
    else if ts[0].id == id then Some(ts[0])
    else
      var r := FindTransaction(ts[1..], id);
      assert r.Some? ==> exists i :: 0 <= i < |ts| && ts[i] == r.value && r.value.id == id
                                   && forall j :: 0 <= j < i ==> ts[j].id != id by {
        if r.Some? {
          var k :| 0 <= k < |ts| - 1 && ts[1..][k] == r.value && r.value.id == id
                   && forall j :: 0 <= j < k ==> ts[1..][j].id != id;
          assert forall j :: 0 <= j < k + 1 ==> ts[j].id != id by {
            forall j | 0 <= j < k + 1 ensures ts[j].id != id {
              if j > 0 { assert ts[j] == ts[1..][j - 1]; }
            }
          }
        }
      }
      r
  }

  /** Looking up after appending: an earlier holder of the id shadows the
      appended transaction. */
  lemma {:induction false} FindAfterAppend(ts: seq<Transaction>, t: Transaction, id: string)
    ensures FindTransaction(ts + [t], id)
         == if FindTransaction(ts, id).Some? then FindTransaction(ts, id)
            else if t.id == id then Some(t) else None
    decreases |ts|
  {
    if ts != [] {
      assert (ts + [t])[1..] == ts[1..] + [t];
      FindAfterAppend(ts[1..], t, id);
    }
  }

  /** `deleteTransaction(id)`: every stored transaction with that id removed. */
  function RemoveTransactions(ts: seq<Transaction>, id: string): (r: seq<Transaction>)
    ensures |r| <= |ts|
  {
    if ts == [] then []
    else
      var last := ts[|ts| - 1];
      RemoveTransactions(ts[..|ts| - 1], id) + (if last.id != id then [last] else [])
  }

  /** Deletion keeps exactly the stored transactions with another id. */
  lemma {:induction false} RemoveTransactionsMembers(ts: seq<Transaction>, id: string)
    ensures forall t :: t in RemoveTransactions(ts, id) <==> t in ts && t.id != id
    decreases |ts|
  {
    if ts != [] {
      var init, last := ts[..|ts| - 1], ts[|ts| - 1];
      RemoveTransactionsMembers(init, id);
      assert ts == init + [last];
    }
  }

  /** Deleting an id nothing has changes nothing. */
  lemma {:induction false} RemoveMissingIsNoop(ts: seq<Transaction>, id: string)
    requires forall i :: 0 <= i < |ts| ==> ts[i].id != id
    ensures RemoveTransactions(ts, id) == ts
    decreases |ts|
  {
    if ts != [] {
      var init, last := ts[..|ts| - 1], ts[|ts| - 1];
      RemoveMissingIsNoop(init, id);
      assert RemoveTransactions(ts, id) == init + [last];
      assert init + [last] == ts;
    }
  }

  /** Deleting the same id twice leaves what deleting it once left. */
  lemma RemoveIdempotent(ts: seq<Transaction>, id: string)
    ensures RemoveTransactions(RemoveTransactions(ts, id), id) == RemoveTransactions(ts, id)
  {
    var r := RemoveTransactions(ts, id);
    RemoveTransactionsMembers(ts, id);
    assert forall i :: 0 <= i < |r| ==> r[i].id != id by {
      forall i | 0 <= i < |r| ensures r[i].id != id {
        assert r[i] in r;
      }
    }
    RemoveMissingIsNoop(r, id);
  }

  /** Deletion distributes over concatenation, so the survivors keep their
      order. */
  lemma {:induction false} RemoveOfConcat(a: seq<Transaction>, b: seq<Transaction>, id: string)
    ensures RemoveTransactions(a + b, id) == RemoveTransactions(a, id) + RemoveTransactions(b, id)
    decreases |b|
  {
    if b == [] {
      assert a + b == a;
    } else {
      var init, last := b[..|b| - 1], b[|b| - 1];
      RemoveOfConcat(a, init, id);
      assert (a + b)[..|a + b| - 1] == a + init;
      assert (a + b)[|a + b| - 1] == last;
      var tail := if last.id != id then [last] else [];
      assert RemoveTransactions(a + b, id) == RemoveTransactions(a + init, id) + tail;
      assert RemoveTransactions(b, id) == RemoveTransactions(init, id) + tail;
    }
  }

  /** The invariant the derived fields are meant to keep. */
  predicate TotalsConsistent(t: Transaction) {
    CalculateTransactionTotals(t.items) == Totals(t.totalAmount, t.totalCostPrice, t.profit)
  }

  predicate AllTotalsConsistent(ts: seq<Transaction>) {
    forall i :: 0 <= i < |ts| ==> TotalsConsistent(ts[i])
  }

  /** `{ ...t, ...patch }`, then, when the patch carries `items`, the three
      totals recomputed from the merged items. */
  function ApplyPatch(t: Transaction, p: TransactionPatch): (r: Transaction)
    ensures p.items.Present? ==> r.items == p.items.value && TotalsConsistent(r)
    ensures p.items.Absent? ==> r.items == t.items
    ensures p.items.Absent? && p.totalAmount.Absent? ==> r.totalAmount == t.totalAmount
    ensures p.items.Absent? && p.totalCostPrice.Absent? ==> r.totalCostPrice == t.totalCostPrice
    ensures p.items.Absent? && p.profit.Absent? ==> r.profit == t.profit
    ensures p.id.Absent? ==> r.id == t.id
    ensures p.customerName.Absent? ==> r.customerName == t.customerName
    ensures p.date.Absent? ==> r.date == t.date
    ensures p.note.Absent? ==> r.note == t.note
    ensures p.id.Present? ==> r.id == p.id.value
    ensures p.customerName.Present? ==> r.customerName == p.customerName.value
    ensures p.date.Present? ==> r.date == p.date.value
    ensures p.note.Present? ==> r.note == p.note.value
    ensures p.items.Absent? && p.totalAmount.Present? ==> r.totalAmount == p.totalAmount.value
    ensures p.items.Absent? && p.totalCostPrice.Present? ==> r.totalCostPrice == p.totalCostPrice.value
    ensures p.items.Absent? && p.profit.Present? ==> r.profit == p.profit.value
  {
    var merged := Transaction(
      p.id.Over(t.id), p.customerName.Over(t.customerName), p.date.Over(t.date),
      p.items.Over(t.items), p.totalAmount.Over(t.totalAmount),
      p.totalCostPrice.Over(t.totalCostPrice), p.profit.Over(t.profit), p.note.Over(t.note));
    if p.items.Present? then
      var totals := CalculateTransactionTotals(merged.items);
      merged.(totalAmount := totals.totalAmount, totalCostPrice := totals.totalCostPrice,
              profit := totals.profit)
    else
      merged
  }

  /** `updateTransaction(id, patch)`: every transaction with that id patched,
      every other one left as it was, the list's length and order kept. */
  function UpdateTransactions(ts: seq<Transaction>, id: string, p: TransactionPatch): (r: seq<Transaction>)
    ensures |r| == |ts|
    ensures forall i :: 0 <= i < |ts| ==> r[i] == if ts[i].id == id then ApplyPatch(ts[i], p) else ts[i]
  {
    if ts == [] then []
    else
      var last := ts[|ts| - 1];
      UpdateTransactions(ts[..|ts| - 1], id, p) + [if last.id == id then ApplyPatch(last, p) else last]
  }

  /** Updating an id nothing has changes nothing. */
  lemma UpdateMissingIsNoop(ts: seq<Transaction>, id: string, p: TransactionPatch)
    requires forall i :: 0 <= i < |ts| ==> ts[i].id != id
    ensures UpdateTransactions(ts, id, p) == ts
  {
  }

  /** New items replace the totals outright: the result does not depend on the
      old items or on the old totals. */
  lemma PatchedTotalsHaveNoResidue(t1: Transaction, t2: Transaction, p: TransactionPatch)
    requires p.items.Present?
    ensures ApplyPatch(t1, p).totalAmount == ApplyPatch(t2, p).totalAmount == CalculateTransactionTotals(p.items.value).totalAmount
    ensures ApplyPatch(t1, p).totalCostPrice == ApplyPatch(t2, p).totalCostPrice == CalculateTransactionTotals(p.items.value).totalCostPrice
    ensures ApplyPatch(t1, p).profit == ApplyPatch(t2, p).profit == CalculateTransactionTotals(p.items.value).profit
  {
  }

  /** An update keeps every stored total consistent when it carries items, or
      when it carries none of the three totals. */
  lemma UpdateKeepsTotalsConsistent(ts: seq<Transaction>, id: string, p: TransactionPatch)
    requires AllTotalsConsistent(ts)
    requires p.items.Present? || (p.totalAmount.Absent? && p.totalCostPrice.Absent? && p.profit.Absent?)
    ensures AllTotalsConsistent(UpdateTransactions(ts, id, p))
  {
  }

  /** A patch that sets a total without items is taken as given: the stored
      transaction no longer agrees with its items. */
  lemma TotalsOnlyPatchBreaksConsistency(t: Transaction)
    requires TotalsConsistent(t)
    ensures !TotalsConsistent(ApplyPatch(t, EmptyTransactionPatch.(totalAmount := Present(t.totalAmount + 1))))
  {
  }

  /** The transaction `addTransaction` builds from a draft: the draft's fields,
      totals computed from its items (the caller supplies none), and the id that
      numbers it among the stored transactions of its month. */
  function NewTransaction(ts: seq<Transaction>, draft: TransactionDraft): (r: Transaction)
    ensures r.id == GenerateTransactionId(draft.date, NextTransactionCount(ts, draft.date))
    ensures TotalsConsistent(r)
    ensures r.customerName == draft.customerName && r.date == draft.date
    ensures r.items == draft.items && r.note == draft.note
  {
    var totals := CalculateTransactionTotals(draft.items);
    Transaction(GenerateTransactionId(draft.date, NextTransactionCount(ts, draft.date)),
                draft.customerName, draft.date, draft.items,
                totals.totalAmount, totals.totalCostPrice, totals.profit, draft.note)
  }

  /** The store as `TransactionProvider` holds it in memory. */
  class TransactionStore {
    var transactions: seq<Transaction>

    constructor ()
      ensures transactions == []
    {
      transactions := [];
    }

    /** Appends one transaction and returns its id. */
    method AddTransaction(draft: TransactionDraft) returns (id: string)
      modifies this
      ensures transactions == old(transactions) + [NewTransaction(old(transactions), draft)]
      ensures id == NewTransaction(old(transactions), draft).id
      ensures id == GenerateTransactionId(draft.date, NextTransactionCount(old(transactions), draft.date))
    {
      var t := NewTransaction(transactions, draft);
      transactions := transactions + [t];
      id := t.id;
    }

    method UpdateTransaction(id: string, patch: TransactionPatch)
      modifies this
      ensures transactions == UpdateTransactions(old(transactions), id, patch)
    {
      transactions := UpdateTransactions(transactions, id, patch);
    }

    method DeleteTransaction(id: string)
      modifies this
      ensures transactions == RemoveTransactions(old(transactions), id)
    {
      transactions := RemoveTransactions(transactions, id);
    }
  }

  /** Adding keeps every stored total consistent. */
  lemma AddKeepsTotalsConsistent(ts: seq<Transaction>, draft: TransactionDraft)
    requires AllTotalsConsistent(ts)
    ensures AllTotalsConsistent(ts + [NewTransaction(ts, draft)])
  {
  }

  // ---------------------------------------------------------------------------
  // Identifier numbering
  // ---------------------------------------------------------------------------

  /** Every stored id is the one its transaction would get if added after the
      transactions stored before it: what a history of additions leaves. */
  predicate WellNumbered(ts: seq<Transaction>) {
    forall i :: 0 <= i < |ts| ==> ts[i].id == GenerateTransactionId(ts[i].date, NextTransactionCount(ts[..i], ts[i].date))
  }

  lemma AddKeepsWellNumbered(ts: seq<Transaction>, draft: TransactionDraft)
    requires WellNumbered(ts)
    ensures WellNumbered(ts + [NewTransaction(ts, draft)])
  {
    var t := NewTransaction(ts, draft);
    var s := ts + [t];
    forall i | 0 <= i < |s|
      ensures s[i].id == GenerateTransactionId(s[i].date, NextTransactionCount(s[..i], s[i].date))
    {
      PrefixOfSnoc(ts, t, i);
    }
  }

  lemma PrefixOfSnoc(ts: seq<Transaction>, t: Transaction, i: nat)
    requires i <= |ts|
    ensures (ts + [t])[..i] == ts[..i]
    ensures i < |ts| ==> (ts + [t])[i] == ts[i]
    ensures i == |ts| ==> (ts + [t])[i] == t
  {
  }

  /** A later transaction of a month counts every earlier one of it. */
  lemma CountGrowsWithinMonth(ts: seq<Transaction>, i: nat, j: nat, date: Date)
    requires i < j <= |ts|
    requires InMonth(ts[i], date.year, date.month0)
    ensures NextTransactionCount(ts[..j], date) >= NextTransactionCount(ts[..i], date) + 1
  {
    assert ts[..j] == ts[..i] + ts[i..j];
    TransactionsByMonthOfConcat(ts[..i], ts[i..j], date.year, date.month0);
    assert ts[i] in ts[i..j];
    TransactionsByMonthMembers(ts[i..j], date.year, date.month0);
    assert ts[i] in TransactionsByMonth(ts[i..j], date.year, date.month0);
  }

  /** Two numbered transactions of one century, the later one counting the
      earlier one, have different ids. */
  lemma NumberedPairDistinct(ts: seq<Transaction>, i: nat, j: nat)
    requires i < j < |ts|
    requires ts[i].id == GenerateTransactionId(ts[i].date, NextTransactionCount(ts[..i], ts[i].date))
    requires ts[j].id == GenerateTransactionId(ts[j].date, NextTransactionCount(ts[..j], ts[j].date))
    requires ts[i].date.year / 100 == ts[j].date.year / 100 >= 1
    ensures ts[i].id != ts[j].id
  {
    var di, dj := ts[i].date, ts[j].date;
    var ci, cj := NextTransactionCount(ts[..i], di), NextTransactionCount(ts[..j], dj);
    IdInjective(di, ci, dj, cj);
    if ts[i].id == ts[j].id {
      assert di.year == dj.year && di.month0 == dj.month0;
      assert ci == NextTransactionCount(ts[..i], dj);
      CountGrowsWithinMonth(ts, i, j, dj);
      assert false;
    }
  }

  /** While all dates lie in one century, a store built by additions holds no
      two transactions with the same id. */
  lemma WellNumberedIdsDistinct(ts: seq<Transaction>, century: int)
    requires WellNumbered(ts)
    requires century >= 1
    requires forall i :: 0 <= i < |ts| ==> ts[i].date.year / 100 == century
    ensures forall i, j :: 0 <= i < j < |ts| ==> ts[i].id != ts[j].id
  {
    forall i, j | 0 <= i < j < |ts| ensures ts[i].id != ts[j].id {
      NumberedPairDistinct(ts, i, j);
    }
  }

  /** A store holding one transaction of the draft's month counts one. */
  lemma CountOfOne(t: Transaction, date: Date)
    requires InMonth(t, date.year, date.month0)
    ensures NextTransactionCount([t], date) == 1
  {
    assert [t][..0] == [];
  }

  /** Deleting the first of two transactions with different ids leaves the
      second. */
  lemma RemoveFirstOfTwo(a: Transaction, b: Transaction)
    requires a.id != b.id
    ensures RemoveTransactions([a, b], a.id) == [b]
  {
    assert [a, b][..1] == [a];
    assert [a][..0] == [];
  }

  /** The first two sales of a month get sequence numbers 1 and 2, and
      deleting the first leaves the second alone. */
  lemma FirstTwoOfMonth(draft: TransactionDraft)
    requires draft.date.year >= 10
    ensures var t1 := NewTransaction([], draft);
            var t2 := NewTransaction([t1], draft);
            && t1.id == GenerateTransactionId(draft.date, 0)
            && t2.id == GenerateTransactionId(draft.date, 1)
            && t1.id != t2.id
            && RemoveTransactions([t1, t2], t1.id) == [t2]
  {
    var t1 := NewTransaction([], draft);
    CountOfOne(t1, draft.date);
    var t2 := NewTransaction([t1], draft);
    IdInjective(draft.date, 0, draft.date, 1);
    RemoveFirstOfTwo(t1, t2);
  }

  /** Two stored transactions sharing an id: lookup finds the older one,
      while update and delete act on both. */
  lemma SharedIdPair(a: Transaction, b: Transaction, p: TransactionPatch)
    requires a.id == b.id
    ensures FindTransaction([a, b], a.id) == Some(a)
    ensures UpdateTransactions([a, b], a.id, p) == [ApplyPatch(a, p), ApplyPatch(b, p)]
    ensures RemoveTransactions([a, b], a.id) == []
  {
    assert [a, b][..1] == [a];
    assert [a][..0] == [];
  }

  /** The hazard of numbering by the current count: two sales of one month are
      added, the first is deleted, and the next sale of that month gets the
      second one's id. `getTransaction` then finds only the older copy, while
      an update or a deletion of that id acts on both. */
  lemma DeleteThenAddReusesId(draft: TransactionDraft, p: TransactionPatch)
    requires draft.date.year >= 10
    ensures var s1 := [NewTransaction([], draft)];
            var s2 := s1 + [NewTransaction(s1, draft)];
            var s3 := RemoveTransactions(s2, s1[0].id);
            var s4 := s3 + [NewTransaction(s3, draft)];
            && s1[0].id != s2[1].id
            && |s4| == 2 && s4[0] == s2[1] && s4[0].id == s4[1].id
            && FindTransaction(s4, s4[1].id) == Some(s4[0])
            && UpdateTransactions(s4, s4[1].id, p) == [ApplyPatch(s4[0], p), ApplyPatch(s4[1], p)]
            && RemoveTransactions(s4, s4[1].id) == []
  {
    var t1 := NewTransaction([], draft);
    var s1 := [t1];
    var t2 := NewTransaction(s1, draft);
    FirstTwoOfMonth(draft);
    var s2 := s1 + [t2];
    assert s2 == [t1, t2];
    var s3 := RemoveTransactions(s2, t1.id);
    assert s3 == [t2];
    CountOfOne(t2, draft.date);
    var t4 := NewTransaction(s3, draft);
    assert t4.id == t2.id;
    var s4 := s3 + [t4];
    assert s4 == [t2, t4];
    SharedIdPair(t2, t4, p);
    assert s4[0] == t2 && s4[1].id == t2.id && s1[0].id == t1.id && s2[1] == t2;
  }
}
