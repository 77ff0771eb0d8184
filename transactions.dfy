/**
 * The records the schedule engine, the oven and the native saver share:
 * currencies, accounts, amounts, splits and transactions.
 *
 * Currencies and accounts are referred to by identity, as the C core refers
 * to them through `Currency*` and `Account*` addresses; amounts, splits and
 * transactions are values, since the core copies them field by field
 * (`amount_copy`, `split_copy`, `transaction_copy`).
 */
module Transactions {
  import opened Wrappers
  import opened Calendar

  class Currency {
    const code: string

    constructor (code: string)
      ensures this.code == code
    {
      this.code := code;
    }
  }

  class Account {
    const name: string
    const currency: Currency
    const typeName: string
    const groupName: Option<string>
    const reference: Option<string>
    const accountNumber: Option<string>
    const inactive: bool
    const notes: Option<string>

    constructor (name: string, currency: Currency, typeName: string, groupName: Option<string>,
                 reference: Option<string>, accountNumber: Option<string>, inactive: bool,
                 notes: Option<string>)
      ensures this.name == name && this.currency == currency && this.typeName == typeName
      ensures this.groupName == groupName && this.reference == reference
      ensures this.accountNumber == accountNumber && this.inactive == inactive && this.notes == notes
    {
      this.name := name;
      this.currency := currency;
      this.typeName := typeName;
      this.groupName := groupName;
      this.reference := reference;
      this.accountNumber := accountNumber;
      this.inactive := inactive;
      this.notes := notes;
    }
  }

  /** An amount in a currency; a `null` currency is the C core's amount without currency. */
  datatype Amount = Amount(val: int, currency: Currency?)

  /**
   * The fields of a split. `reconciliationDate == NoDate` means "not
   * reconciled"; `None` strings are the C core's NULL strings.
   */
  datatype SplitValue = SplitValue(
    account: Account?,
    amount: Amount,
    reconciliationDate: Date,
    memo: Option<string>,
    reference: Option<string>,
    index: nat)

  /** `TXN_TYPE_*`: a ledger transaction, a schedule spawn or a budget spawn. */
  datatype TxnType = Normal | Recurrence | Budget

  /** Which template a spawn was copied from: none, the schedule's `ref`, or the global change at a nominal date. */
  datatype Origin = NoOrigin | ScheduleRef | ChangeRef(key: Date)

  /** A transaction; `recurrenceDate` and `origin` are meaningful for spawns only. */
  datatype Transaction = Transaction(
    txnType: TxnType,
    date: Date,
    mtime: int,
    description: Option<string>,
    payee: Option<string>,
    checkno: Option<string>,
    notes: Option<string>,
    splits: seq<SplitValue>,
    recurrenceDate: Date,
    origin: Origin)
}
