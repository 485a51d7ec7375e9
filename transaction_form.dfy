/** The submit handler of src/components/transactions/TransactionForm.tsx:
    it rejects an empty item list, walks the items and stops at the first one
    with a blank name, a price of zero or less, or a quantity of zero or less,
    and otherwise either updates the transaction being edited or adds a new
    one. */
module TransactionForm {
  import opened Types
  import opened TransactionContext

  /** The characters `String.prototype.trim` removes: white space and line
      terminators. */
  predicate IsJsWhitespace(c: char) {
    || c == ' ' || c == '\t' || c == '\n' || c == '\r'
    || c == '\U{000B}' || c == '\U{000C}' || c == '\U{00A0}' || c == '\U{1680}'
    || ('\U{2000}' <= c <= '\U{200A}')
    || c == '\U{2028}' || c == '\U{2029}' || c == '\U{202F}' || c == '\U{205F}'
    || c == '\U{3000}' || c == '\U{FEFF}'
  }

  function TrimStart(s: string): string {
    if s != [] && IsJsWhitespace(s[0]) then TrimStart(s[1..]) else s
  }

  function TrimEnd(s: string): string {
    if s != [] && IsJsWhitespace(s[|s| - 1]) then TrimEnd(s[..|s| - 1]) else s
  }

  /** `s.trim()`. */
  function Trim(s: string): string {
    TrimEnd(TrimStart(s))
  }

  /** Nothing but white space: the names the form refuses. */
  predicate IsBlank(s: string) {
    forall i :: 0 <= i < |s| ==> IsJsWhitespace(s[i])
  }

  lemma {:induction false} TrimStartEmptyIffBlank(s: string)
    ensures TrimStart(s) == [] <==> IsBlank(s)
    decreases |s|
  {
    if s != [] && IsJsWhitespace(s[0]) {
      TrimStartEmptyIffBlank(s[1..]);
      assert IsBlank(s) <==> IsBlank(s[1..]) by {
        assert forall i :: 0 < i < |s| ==> s[i] == s[1..][i - 1];
      }
    }
  }

  lemma {:induction false} TrimEndEmptyIffBlank(s: string)
    ensures TrimEnd(s) == [] <==> IsBlank(s)
    decreases |s|
  {
    if s != [] && IsJsWhitespace(s[|s| - 1]) {
      TrimEndEmptyIffBlank(s[..|s| - 1]);
      assert IsBlank(s) <==> IsBlank(s[..|s| - 1]) by {
        assert forall i :: 0 <= i < |s| - 1 ==> s[i] == s[..|s| - 1][i];
      }
    }
  }

  /** `!name.trim()` holds exactly of the blank names. */
  lemma TrimEmptyIffBlank(s: string)
    ensures Trim(s) == [] <==> IsBlank(s)
  {
    TrimStartEmptyIffBlank(s);
    var t := TrimStart(s);
    TrimEndEmptyIffBlank(t);
    if t != [] {
      TrimStartKeepsNonBlankHead(s);
    }
  }

  lemma {:induction false} TrimStartKeepsNonBlankHead(s: string)
    requires TrimStart(s) != []
    ensures !IsJsWhitespace(TrimStart(s)[0])
    decreases |s|
  {
    if s != [] && IsJsWhitespace(s[0]) {
      TrimStartKeepsNonBlankHead(s[1..]);
    }
  }

  /** Why a submission is refused, one per `toast.error` message. */
  datatype SubmitError = NoItems | BlankName | NonPositivePrice | NonPositiveQuantity

  /** The three checks on one item, in the order the loop makes them. The cost
      price is not checked. */
  function ItemError(item: TransactionItem): (r: Option<SubmitError>)
    ensures r != Some(NoItems)
  {
    if Trim(item.name) == [] then Some(BlankName)
    else if item.price <= 0 then Some(NonPositivePrice)
    else if item.quantity <= 0 then Some(NonPositiveQuantity)
    else None
  }

  /** The error of the first item that fails a check. */
  function FirstItemError(items: seq<TransactionItem>): (r: Option<SubmitError>)
    ensures r != Some(NoItems)
  {
    if items == [] then None
    else if ItemError(items[0]).Some? then ItemError(items[0])
    else FirstItemError(items[1..])
  }

  /** What `onSubmit` refuses before it touches the store, if anything. */
  function ValidationError(items: seq<TransactionItem>): (r: Option<SubmitError>)
    ensures r == Some(NoItems) <==> items == []
  {
    if |items| == 0 then Some(NoItems) else FirstItemError(items)
  }

  /** An item that passes: a name with some non-blank character, a positive
      price and a positive quantity. */
  predicate ItemAcceptable(item: TransactionItem) {
    !IsBlank(item.name) && item.price > 0 && item.quantity > 0
  }

  lemma ItemErrorIffUnacceptable(item: TransactionItem)
    ensures ItemError(item).None? <==> ItemAcceptable(item)
  {
    TrimEmptyIffBlank(item.name);
  }

  /** A submission goes through exactly when there is at least one item and
      every item passes all three checks. */
  lemma {:induction false} ValidationPassesIff(items: seq<TransactionItem>)
    ensures ValidationError(items).None? <==> |items| > 0 && forall i :: 0 <= i < |items| ==> ItemAcceptable(items[i])
  {
    if |items| > 0 {
      FirstItemErrorNoneIff(items);
    }
  }

  lemma {:induction false} FirstItemErrorNoneIff(items: seq<TransactionItem>)
    ensures FirstItemError(items).None? <==> forall i :: 0 <= i < |items| ==> ItemAcceptable(items[i])
    decreases |items|
  {
    if items != [] {
      ItemErrorIffUnacceptable(items[0]);
      FirstItemErrorNoneIff(items[1..]);
      assert forall i :: 1 <= i < |items| ==> items[i] == items[1..][i - 1];
    }
  }

  /** A refusal names the first failing item: it returns the index `k` of an
      item whose own first failing check gives the message, and every item
      before it passes. */
  lemma {:induction false} FirstFailureDecides(items: seq<TransactionItem>) returns (k: nat)
    requires FirstItemError(items).Some?
    ensures k < |items| && ItemError(items[k]) == FirstItemError(items)
    ensures forall j :: 0 <= j < k ==> ItemError(items[j]).None?
    decreases |items|
  {
    if ItemError(items[0]).Some? {
      k := 0;
    } else {
      var rest := FirstFailureDecides(items[1..]);
      k := rest + 1;
      forall j | 0 <= j < k ensures ItemError(items[j]).None? {
        if j > 0 {
          assert items[j] == items[1..][j - 1];
        }
      }
    }
  }

  /** The cost price plays no part: lists that differ only in cost prices are
      refused or accepted alike, with the same message. */
  lemma {:induction false} CostPriceNotChecked(items: seq<TransactionItem>, other: seq<TransactionItem>)
    requires |other| == |items|
    requires forall i :: 0 <= i < |items| ==> other[i] == items[i].(costPrice := other[i].costPrice)
    ensures ValidationError(other) == ValidationError(items)
    ensures FirstItemError(other) == FirstItemError(items)
    decreases |items|
  {
    if items != [] {
      CostPriceNotChecked(items[1..], other[1..]);
    }
  }

  /** The loop of `onSubmit` with its early returns. */
  method ValidateItems(items: seq<TransactionItem>) returns (error: Option<SubmitError>)
    ensures error == ValidationError(items)
  {
    if |items| == 0 {
      return Some(NoItems);
    }
    var i := 0;
    while i < |items|
      invariant 0 <= i <= |items|
      invariant FirstItemError(items[i..]) == FirstItemError(items)
    {
      var item := items[i];
      assert items[i..][1..] == items[i + 1..];
      if Trim(item.name) == [] {
        return Some(BlankName);
      }
      if item.price <= 0 {
        return Some(NonPositivePrice);
      }
      if item.quantity <= 0 {
        return Some(NonPositiveQuantity);
      }
      i := i + 1;
    }
    return None;
  }

  /** The form's own fields, as the zod schema yields them. */
  datatype FormValues = FormValues(customerName: Option<string>, date: Date, note: Option<string>)

  /** `{ ...data, items }` handed to `updateTransaction`. */
  function FormPatch(values: FormValues, items: seq<TransactionItem>): TransactionPatch {
    EmptyTransactionPatch.(customerName := Present(values.customerName), date := Present(values.date),
                           note := Present(values.note), items := Present(items))
  }

  /** `{ ...data, items }` handed to `addTransaction`. */
  function FormDraft(values: FormValues, items: seq<TransactionItem>): TransactionDraft {
    TransactionDraft(values.customerName, values.date, items, values.note)
  }

  /** `isEditMode && defaultValues?.id`: edit mode with a non-empty id. */
  predicate EditsExisting(isEditMode: bool, editId: Option<string>) {
    isEditMode && editId.Some? && editId.value != ""
  }

  /** What a submission did, with the id it navigates to. */
  datatype SubmitOutcome = Rejected(error: SubmitError) | Updated(id: string) | Added(id: string)

  /** `onSubmit`: validation, then exactly one of update or add. */
  method OnSubmit(store: TransactionStore, values: FormValues, items: seq<TransactionItem>,
                  isEditMode: bool, editId: Option<string>)
    returns (outcome: SubmitOutcome)
    modifies store
    ensures outcome.Rejected? <==> ValidationError(items).Some?
    ensures outcome.Rejected? ==> outcome.error == ValidationError(items).value
                                  && store.transactions == old(store.transactions)
    ensures outcome.Updated? <==> ValidationError(items).None? && EditsExisting(isEditMode, editId)
    ensures outcome.Updated? ==>
              && outcome.id == editId.value
              && store.transactions == UpdateTransactions(old(store.transactions), editId.value, FormPatch(values, items))
    ensures outcome.Added? ==>
              var t := NewTransaction(old(store.transactions), FormDraft(values, items));
              outcome.id == t.id && store.transactions == old(store.transactions) + [t]
  {
    var error := ValidateItems(items);
    if error.Some? {
      return Rejected(error.value);
    }
    if EditsExisting(isEditMode, editId) {
      store.UpdateTransaction(editId.value, FormPatch(values, items));
      outcome := Updated(editId.value);
    } else {
      var id := store.AddTransaction(FormDraft(values, items));
      outcome := Added(id);
    }
  }
}
