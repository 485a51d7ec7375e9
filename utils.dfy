/** The two pure helpers of src/lib/utils.ts the rest of the app relies on:
    `calculateTransactionTotals` (three left folds over the items) and
    `generateTransactionId` (the `AS-yymmxxx` identifier). A parser of that
    identifier is the partner that its layout and injectivity are stated
    against. */
module Utils {
  import opened Types
  import opened Decimal

  // ---------------------------------------------------------------------------
  // Totals
  // ---------------------------------------------------------------------------

  datatype Totals = Totals(totalAmount: int, totalCostPrice: int, profit: int)

  /** `items.reduce((sum, item) => sum + item.price * item.quantity, 0)`: the
      fold over the first n - 1 items, plus the last item's subtotal. */
  function SumAmount(items: seq<TransactionItem>): int {
    if items == [] then 0
    else SumAmount(items[..|items| - 1]) + items[|items| - 1].price * items[|items| - 1].quantity
  }

  /** `items.reduce((sum, item) => sum + item.costPrice * item.quantity, 0)`. */
  function SumCost(items: seq<TransactionItem>): int {
    if items == [] then 0
    else SumCost(items[..|items| - 1]) + items[|items| - 1].costPrice * items[|items| - 1].quantity
  }

  /** The totals of a list of items. Profit is not clamped. */
  function CalculateTransactionTotals(items: seq<TransactionItem>): (r: Totals)
    ensures r.profit == r.totalAmount - r.totalCostPrice
  {
    var totalAmount := SumAmount(items);
    var totalCostPrice := SumCost(items);
    Totals(totalAmount, totalCostPrice, totalAmount - totalCostPrice)
  }

  function AddTotals(a: Totals, b: Totals): Totals {
    Totals(a.totalAmount + b.totalAmount, a.totalCostPrice + b.totalCostPrice, a.profit + b.profit)
  }

  /** The reduce seed: no items, no money. */
  lemma TotalsOfNoItems()
    ensures CalculateTransactionTotals([]) == Totals(0, 0, 0)
  {
  }

  /** One item contributes its sale subtotal, its cost subtotal and their
      difference. */
  lemma TotalsOfOneItem(item: TransactionItem)
    ensures CalculateTransactionTotals([item])
         == Totals(item.price * item.quantity, item.costPrice * item.quantity,
                   item.price * item.quantity - item.costPrice * item.quantity)
  {
    var s := [item];
    assert s[..|s| - 1] == [];
    assert SumAmount(s) == item.price * item.quantity;
    assert SumCost(s) == item.costPrice * item.quantity;
  }

  lemma {:induction false} SumsOfConcat(a: seq<TransactionItem>, b: seq<TransactionItem>)
    ensures SumAmount(a + b) == SumAmount(a) + SumAmount(b)
    ensures SumCost(a + b) == SumCost(a) + SumCost(b)
    decreases |b|
  {
    if b == [] {
      assert a + b == a;
    } else {
      var init := b[..|b| - 1];
      SumsOfConcat(a, init);
      assert (a + b)[..|a + b| - 1] == a + init;
    }
  }

  /** The totals are additive over concatenation, field by field; with the two
      lemmas above this determines them on every list. */
  lemma TotalsOfConcat(a: seq<TransactionItem>, b: seq<TransactionItem>)
    ensures CalculateTransactionTotals(a + b)
         == AddTotals(CalculateTransactionTotals(a), CalculateTransactionTotals(b))
  {
    SumsOfConcat(a, b);
  }

  /** With non-negative prices, costs and quantities, the sale and cost totals
      are non-negative; when no item sells below cost, profit is too. */
  lemma {:induction false} TotalsNonNegative(items: seq<TransactionItem>)
    requires forall i :: 0 <= i < |items| ==> items[i].quantity >= 0 && items[i].costPrice >= 0
    requires forall i :: 0 <= i < |items| ==> items[i].price >= items[i].costPrice
    ensures CalculateTransactionTotals(items).totalCostPrice >= 0
    ensures CalculateTransactionTotals(items).totalAmount >= CalculateTransactionTotals(items).totalCostPrice
    ensures CalculateTransactionTotals(items).profit >= 0
    decreases |items|
  {
    if items != [] {
      var last := items[|items| - 1];
      TotalsNonNegative(items[..|items| - 1]);
      assert last.price * last.quantity >= last.costPrice * last.quantity >= 0;
    }
  }

  /** Profit is not clamped: an item sold below cost makes it negative. */
  lemma ProfitCanBeNegative()
    ensures CalculateTransactionTotals([TransactionItem("1", "Kaos", 50000, 1, 60000)]).profit == -10000
  {
    TotalsOfOneItem(TransactionItem("1", "Kaos", 50000, 1, 60000));
  }

  /** Two items, prices 10000 x 2 and 5000 x 1, costs 6000 and 3000. */
  lemma TotalsExample()
    ensures CalculateTransactionTotals([TransactionItem("1", "A", 10000, 2, 6000),
                                        TransactionItem("2", "B", 5000, 1, 3000)])
         == Totals(25000, 15000, 10000)
  {
    var a := TransactionItem("1", "A", 10000, 2, 6000);
    var b := TransactionItem("2", "B", 5000, 1, 3000);
    TotalsOfConcat([a], [b]);
    TotalsOfOneItem(a);
    TotalsOfOneItem(b);
    assert [a] + [b] == [a, b];
  }

  // ---------------------------------------------------------------------------
  // Transaction identifier
  // ---------------------------------------------------------------------------

  const IdPrefix: string := "AS-"

  /** `date.getFullYear().toString().slice(-2)`. */
  function YearField(year: int): string {
    SliceLast(IntToString(year), 2)
  }

  /** `(date.getMonth() + 1).toString().padStart(2, "0")`. */
  function MonthField(month0: Month0): string {
    PadStart(NatToString(month0 + 1), 2, '0')
  }

  /** `(currentCount + 1).toString().padStart(3, "0")`. */
  function SequenceField(currentCount: nat): string {
    PadStart(NatToString(currentCount + 1), 3, '0')
  }

  /** `AS-${year}${month}${count}`. */
  function GenerateTransactionId(date: Date, currentCount: nat): string {
    IdPrefix + YearField(date.year) + MonthField(date.month0) + SequenceField(currentCount)
  }

  /** The three numbers an identifier carries. */
  datatype IdParts = IdParts(yy: nat, month: nat, sequence: nat)

  /** Reads an identifier laid out as `AS-` + two year digits + two month
      digits + at least three sequence digits. */
  function ParseTransactionId(id: string): Option<IdParts> {
    if |id| >= 10 && id[..3] == IdPrefix && AllDigits(id[3..]) then
      Some(IdParts(DigitsValue(id[3..5]), DigitsValue(id[5..7]), DigitsValue(id[7..])))
    else
      None
  }

  lemma TwoDigitsValue(s: string)
    requires |s| == 2 && AllDigits(s)
    ensures DigitsValue(s) == DigitValue(s[0]) * 10 + DigitValue(s[1])
  {
    assert s[..|s| - 1] == [s[0]];
    assert [s[0]][..0] == [];
    assert DigitsValue([s[0]]) == DigitValue(s[0]);
  }

  lemma LastTwoDigits(y: nat)
    requires y >= 10
    ensures (y / 10) % 10 * 10 + y % 10 == y % 100
    ensures (y / 10) % 10 == (y % 100) / 10 && y % 10 == (y % 100) % 10
  {
    var a, b := y / 100, y % 100;
    assert y == 100 * a + b;
    assert b == 10 * (b / 10) + b % 10;
    assert y == 10 * (10 * a + b / 10) + b % 10;
    assert y / 10 == 10 * a + b / 10;
    assert (y / 10) % 10 == b / 10;
    assert y % 10 == b % 10;
  }

  /** The last character `toString` writes is the units digit. */
  lemma NatToStringLastChar(n: nat)
    ensures NatToString(n)[|NatToString(n)| - 1] == DigitChar(n % 10)
  {
  }

  lemma SliceLastTwoOfSnoc(t: string, c: char)
    requires |t| >= 1
    ensures SliceLast(t + [c], 2) == [t[|t| - 1], c]
  {
    assert (t + [c])[|t| - 1..] == [t[|t| - 1], c];
  }

  /** The last two characters `toString` writes for a number of at least two
      digits are its tens digit and its units digit. */
  lemma NatToStringLastTwo(n: nat)
    requires n >= 10
    ensures SliceLast(NatToString(n), 2) == [DigitChar((n / 10) % 10), DigitChar(n % 10)]
  {
    var q := n / 10;
    var t := NatToString(q);
    assert NatToString(n) == t + [DigitChar(n % 10)];
    NatToStringLastChar(q);
    SliceLastTwoOfSnoc(t, DigitChar(n % 10));
  }

  /** For a year of at least two digits, the year field is two digits that
      read as the year modulo 100. */
  lemma YearFieldValue(year: int)
    requires year >= 10
    ensures |YearField(year)| == 2 && AllDigits(YearField(year))
    ensures DigitsValue(YearField(year)) == year % 100
  {
    NatToStringLastTwo(year);
    var f := YearField(year);
    assert f == [DigitChar((year / 10) % 10), DigitChar(year % 10)];
    TwoDigitsValue(f);
    LastTwoDigits(year);
  }

  /** The year field depends only on the year modulo 100. */
  lemma YearFieldCentury(y1: int, y2: int)
    requires y1 >= 10 && y2 >= 10 && y1 % 100 == y2 % 100
    ensures YearField(y1) == YearField(y2)
  {
    NatToStringLastTwo(y1);
    NatToStringLastTwo(y2);
    LastTwoDigits(y1);
    LastTwoDigits(y2);
  }

  lemma MonthFieldValue(month0: Month0)
    ensures |MonthField(month0)| == 2 && AllDigits(MonthField(month0))
    ensures DigitsValue(MonthField(month0)) == month0 + 1
  {
    NatToStringValue(month0 + 1);
    NatToStringLength(month0 + 1, 2);
    PadStartValue(NatToString(month0 + 1), 2);
  }

  /** The sequence field reads back as `currentCount + 1`; it is three
      characters while that fits, and widens instead of truncating after. */
  lemma SequenceFieldValue(currentCount: nat)
    ensures AllDigits(SequenceField(currentCount))
    ensures DigitsValue(SequenceField(currentCount)) == currentCount + 1
    ensures currentCount + 1 <= 999 ==> |SequenceField(currentCount)| == 3
    ensures currentCount + 1 > 999 ==> SequenceField(currentCount) == NatToString(currentCount + 1)
  {
    NatToStringValue(currentCount + 1);
    NatToStringLength(currentCount + 1, 3);
    PadStartValue(NatToString(currentCount + 1), 3);
  }

  /** Where the parser cuts an identifier: after the three-character prefix
      and after each two-character field. */
  lemma IdLayout(prefix: string, y: string, m: string, c: string)
    requires |prefix| == 3 && |y| == 2 && |m| == 2
    ensures var id := prefix + y + m + c;
            && |id| == 7 + |c|
            && id[..3] == prefix && id[3..5] == y && id[5..7] == m && id[7..] == c
            && id[3..] == y + m + c
  {
    var id := prefix + y + m + c;
    assert id == prefix + (y + m + c);
    assert (y + m + c) == y + (m + c);
  }

  lemma AllDigitsOfThree(y: string, m: string, c: string)
    requires AllDigits(y) && AllDigits(m) && AllDigits(c)
    ensures AllDigits(y + m + c)
  {
    var s := y + m + c;
    forall i | 0 <= i < |s| ensures IsDigit(s[i]) {
      if i < |y| { assert s[i] == y[i]; }
      else if i < |y| + |m| { assert s[i] == m[i - |y|]; }
      else { assert s[i] == c[i - |y| - |m|]; }
    }
  }

  /** Parsing a generated identifier gives back the two year digits, the
      1-based month and the 1-based sequence number. */
  lemma IdRoundTrip(date: Date, currentCount: nat)
    requires date.year >= 10
    ensures ParseTransactionId(GenerateTransactionId(date, currentCount))
         == Some(IdParts(date.year % 100, date.month0 + 1, currentCount + 1))
  {
    var y, m, c := YearField(date.year), MonthField(date.month0), SequenceField(currentCount);
    YearFieldValue(date.year);
    MonthFieldValue(date.month0);
    SequenceFieldValue(currentCount);
    NatToStringLength(currentCount + 1, 1);
    IdLayout(IdPrefix, y, m, c);
    AllDigitsOfThree(y, m, c);
  }

  /** Identifiers are injective in the two year digits, the month and the
      count: two agree exactly when those three agree. */
  lemma IdInjective(d1: Date, c1: nat, d2: Date, c2: nat)
    requires d1.year >= 10 && d2.year >= 10
    ensures GenerateTransactionId(d1, c1) == GenerateTransactionId(d2, c2)
        <==> d1.year % 100 == d2.year % 100 && d1.month0 == d2.month0 && c1 == c2
  {
    IdRoundTrip(d1, c1);
    IdRoundTrip(d2, c2);
    if d1.year % 100 == d2.year % 100 && d1.month0 == d2.month0 && c1 == c2 {
      YearFieldCentury(d1.year, d2.year);
    }
  }

  /** While the sequence number fits in three digits an identifier is ten
      characters long. */
  lemma IdLength(date: Date, currentCount: nat)
    requires date.year >= 10 && currentCount + 1 <= 999
    ensures |GenerateTransactionId(date, currentCount)| == 10
  {
    YearFieldValue(date.year);
    MonthFieldValue(date.month0);
    SequenceFieldValue(currentCount);
  }

  /** A sale on 15 March 2024, the first of its month. */
  lemma IdExample()
    ensures GenerateTransactionId(Date(2024, 2, 15, 1710460800000), 0) == "AS-2403001"
  {
    assert NatToString(2024) == "2024";
  }

  /** The thousandth sale of a month widens the sequence field to four digits. */
  lemma IdWidensPast999()
    ensures GenerateTransactionId(Date(2024, 2, 15, 1710460800000), 999) == "AS-24031000"
  {
    assert NatToString(2024) == "2024";
    assert NatToString(1000) == "1000";
  }
}
