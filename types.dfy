/** Record shapes of the point-of-sale app (src/types/index.ts), plus the small
    wrappers the operations need: Option for `T | undefined`, and Field for one
    key of a `Partial<T>` object spread over an existing record. */
module Types {

  /** A value that may be `undefined`. */
  datatype Option<+T> = None | Some(value: T)

  /** One key of a partial record: `Absent` when the key is not in the object,
      `Present(v)` when it is. A spread `{...old, ...patch}` keeps the old value
      exactly for the absent keys. For an optional field the value itself is an
      Option, because a key may be present with the value `undefined`. */
  datatype Field<+T> = Absent | Present(value: T) {
    function Over(previous: T): T {
      match this
      case Present(v) => v
      case Absent => previous
    }
  }

  /** The month index JavaScript's `Date.getMonth()` returns: 0 for January. */
  type Month0 = m: int | 0 <= m < 12

  /** A JavaScript `Date` as the app reads it: the local calendar year and
      0-based month, the day of the month, and `getTime()` in milliseconds. */
  datatype Date = Date(year: int, month0: Month0, day: int, timestamp: int)

  /** A calendar day, as built by `new Date(year, month0, day)` once normalised. */
  datatype CalendarDay = CalendarDay(year: int, month0: Month0, day: int)

  /** A line of a sale. Prices are whole Rupiah amounts. */
  datatype TransactionItem = TransactionItem(
    id: string,
    name: string,
    price: int,
    quantity: int,
    costPrice: int)

  /** A recorded sale with its three derived totals. */
  datatype Transaction = Transaction(
    id: string,
    customerName: Option<string>,
    date: Date,
    items: seq<TransactionItem>,
    totalAmount: int,
    totalCostPrice: int,
    profit: int,
    note: Option<string>)

  /** What `addTransaction` receives: a transaction without id and totals. */
  datatype TransactionDraft = TransactionDraft(
    customerName: Option<string>,
    date: Date,
    items: seq<TransactionItem>,
    note: Option<string>)

  /** `Partial<Transaction>`, as `updateTransaction` receives it. */
  datatype TransactionPatch = TransactionPatch(
    id: Field<string>,
    customerName: Field<Option<string>>,
    date: Field<Date>,
    items: Field<seq<TransactionItem>>,
    totalAmount: Field<int>,
    totalCostPrice: Field<int>,
    profit: Field<int>,
    note: Field<Option<string>>)

  /** A patch with no key at all. */
  const EmptyTransactionPatch := TransactionPatch(Absent, Absent, Absent, Absent, Absent, Absent, Absent, Absent)

  /** A store's configuration, shown on receipts. */
  datatype StoreProfile = StoreProfile(
    id: string,
    storeName: string,
    storeAddress: Option<string>,
    storePhone: Option<string>,
    storeWhatsapp: Option<string>,
    storeLogo: Option<string>,
    storeFooter: Option<string>)

  /** `Partial<StoreProfile>`, as `updateStoreProfile` receives it. */
  datatype StoreProfilePatch = StoreProfilePatch(
    id: Field<string>,
    storeName: Field<string>,
    storeAddress: Field<Option<string>>,
    storePhone: Field<Option<string>>,
    storeWhatsapp: Field<Option<string>>,
    storeLogo: Field<Option<string>>,
    storeFooter: Field<Option<string>>)
}
