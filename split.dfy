/**
 * `ccore/split.c`: a split's fields and the rules that reset its
 * reconciliation date when the account or the currency changes.
 */
module Splits {
  import opened Wrappers
  import opened Calendar
  import opened Transactions

  class Split {
    var account: Account?
    var amount: Amount
    var reconciliationDate: Date
    var memo: Option<string>
    var reference: Option<string>
    var index: nat

    /** `split_init`: not reconciled, empty memo, no reference. */
    constructor Init(account: Account?, amount: Amount, index: nat)
      ensures this.account == account && this.amount == amount && this.index == index
      ensures reconciliationDate == NoDate && memo == Some("") && reference == None
    {
      this.account := account;
      this.amount := amount;
      reconciliationDate := NoDate;
      memo := Some("");
      reference := None;
      this.index := index;
    }

    /** The split's fields as a value, as a transaction holds them. */
    function Value(): SplitValue
      reads this
    {
      SplitValue(account, amount, reconciliationDate, memo, reference, index)
    }

    /**
     * `split_account_set`: moving the split to another account unreconciles
     * it; setting the account it already has changes nothing.
     */
    method SetAccount(account: Account?)
      modifies this
      ensures account == old(this.account) ==> Value() == old(Value())
      ensures account != old(this.account) ==>
        Value() == old(Value()).(account := account, reconciliationDate := NoDate)
    {
      if account != this.account {
        reconciliationDate := NoDate;
        this.account := account;
      }
    }

    /**
     * `split_amount_set`: the amount is always replaced; the split is
     * unreconciled only when its old amount had a currency and the new
     * currency is a different one.
     */
    method SetAmount(amount: Amount)
      modifies this
      ensures this.amount == amount
      ensures reconciliationDate ==
        if old(this.amount).currency != null && amount.currency != old(this.amount).currency
        then NoDate else old(reconciliationDate)
      ensures account == old(account) && memo == old(memo) && reference == old(reference) && index == old(index)
    {
      if this.amount.currency != null && amount.currency != this.amount.currency {
        reconciliationDate := NoDate;
      }
      this.amount := amount;
    }

    /** `split_copy`: every field but the index is copied from `src`. */
    method CopyFrom(src: Split)
      modifies this
      ensures Value() == old(src.Value()).(index := old(index))
    {
      account := src.account;
      amount := src.amount;
      reconciliationDate := src.reconciliationDate;
      memo := src.memo;
      reference := src.reference;
    }
  }

  /**
   * `split_eq`: two splits are equal when neither has an account or both
   * have accounts with the same name. The comparison of amounts sits after
   * an unconditional return in the source and never runs.
   */
  predicate SplitEq(s1: SplitValue, s2: SplitValue): (r: bool)
    ensures s1.account == s2.account ==> r
    ensures r ==> (s1.account == null <==> s2.account == null)
  {
    if s1.account == null then s2.account == null
    else s2.account != null && s1.account.name == s2.account.name
  }

  /** `split_eq` is an equivalence relation. */
  lemma {:induction false} SplitEqEquivalence(s1: SplitValue, s2: SplitValue, s3: SplitValue)
    ensures SplitEq(s1, s1)
    ensures SplitEq(s1, s2) == SplitEq(s2, s1)
    ensures SplitEq(s1, s2) && SplitEq(s2, s3) ==> SplitEq(s1, s3)
  {
  }

  /** `split_eq` looks at account names only: amounts, memos and dates never make two splits unequal. */
  lemma {:induction false} SplitEqAccountOnly(s1: SplitValue, s2: SplitValue, amount: Amount, memo: Option<string>, date: Date)
    ensures SplitEq(s1.(amount := amount, memo := memo, reconciliationDate := date), s2) == SplitEq(s1, s2)
    ensures SplitEq(s1, s2.(amount := amount, memo := memo, reconciliationDate := date)) == SplitEq(s1, s2)
  {
  }

  /** A split copied from another equals it under `split_eq`. */
  lemma {:induction false} CopyIsEqual(src: SplitValue, index: nat)
    ensures SplitEq(src.(index := index), src)
  {
  }
}
