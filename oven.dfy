/**
 * `core/model/oven.py`: the oven keeps the cooked list of transactions
 * (ledger transactions mixed with schedule spawns) and the date it has
 * cooked up to. Cooking again from a date keeps the cooked entries before
 * that date and appends what the foreign merge `oven_cook_txns` returns.
 */
module Ovens {
  import opened Wrappers
  import opened Calendar
  import opened Transactions

  /** `Transaction.is_spawn`: schedule spawns and budget spawns. */
  predicate IsSpawn(txn: Transaction)
  {
    txn.txnType != Normal
  }

  function Min(a: Date, b: Date): Date { if a <= b then a else b }

  // ---------------------------------------------------------------------------
  // Lowering `from_date`

  /**
   * The scan over one transaction's splits: a split reconciled at or after
   * the running date pulls it down to the transaction's date.
   */
  function LowerForSplits(splits: seq<SplitValue>, date: Date, from: Date): (r: Date)
    ensures r <= from && (r == from || r == date)
    decreases |splits|
  {
    if |splits| == 0 then from
    else
      var rd := splits[0].reconciliationDate;
      LowerForSplits(splits[1..], date, if rd != NoDate && rd >= from then Min(from, date) else from)
  }

  /** One turn of the reverse scan: a spawn pulls the date down to its own date, a ledger transaction through its splits. */
  function LowerFor(txn: Transaction, from: Date): (r: Date)
    ensures r <= from && (r == from || r == txn.date)
  {
    if IsSpawn(txn) then Min(from, txn.date)
    else LowerForSplits(txn.splits, txn.date, from)
  }

  /** The reverse scan of `cook` over the cooked list: the last entry is seen first. */
  function LoweredFrom(cooked: seq<Transaction>, from: Date): (r: Date)
    ensures r <= from
    ensures r == from || exists i :: 0 <= i < |cooked| && r == cooked[i].date
    decreases |cooked|
  {
    if |cooked| == 0 then from
    else
      var n := |cooked| - 1;
      var r := LoweredFrom(cooked[..n], LowerFor(cooked[n], from));
      assert r != from && r != cooked[n].date ==> exists i :: 0 <= i < n && r == cooked[..n][i].date;
      r
  }

  /** The lowered date is never later than any spawn in the cooked list. */
  lemma {:induction false} LoweredBelowSpawns(cooked: seq<Transaction>, from: Date, i: nat)
    requires i < |cooked| && IsSpawn(cooked[i])
    ensures LoweredFrom(cooked, from) <= cooked[i].date
    decreases |cooked|
  {
    var n := |cooked| - 1;
    if i < n {
      LoweredBelowSpawns(cooked[..n], LowerFor(cooked[n], from), i);
    }
  }

  /**
   * A ledger transaction with a split that is reconciled at or after the
   * date the scan reaches it with pulls the result down to its own date.
   */
  lemma {:induction false} LoweredByReconciled(splits: seq<SplitValue>, date: Date, from: Date, j: nat)
    requires j < |splits|
    requires splits[j].reconciliationDate != NoDate && splits[j].reconciliationDate >= from
    ensures LowerForSplits(splits, date, from) <= date
    decreases |splits|
  {
    var rd := splits[0].reconciliationDate;
    var from' := if rd != NoDate && rd >= from then Min(from, date) else from;
    if j > 0 && from' == from {
      LoweredByReconciled(splits[1..], date, from, j - 1);
    }
  }

  /** With no spawn and no split reconciled at or after `from`, `from` stays as it is. */
  lemma {:induction false} LoweredUnchanged(cooked: seq<Transaction>, from: Date)
    requires forall i :: 0 <= i < |cooked| ==> !IsSpawn(cooked[i]) || cooked[i].date >= from
    requires forall i :: 0 <= i < |cooked| ==> NoLateReconciliation(cooked[i].splits, cooked[i].date, from)
    ensures LoweredFrom(cooked, from) == from
    decreases |cooked|
  {
    if |cooked| > 0 {
      var n := |cooked| - 1;
      SplitsUnchanged(cooked[n].splits, cooked[n].date, from);
      LoweredUnchanged(cooked[..n], from);
    }
  }

  /** Every split reconciled at or after `from` belongs to a transaction dated at or after `from`. */
  predicate NoLateReconciliation(splits: seq<SplitValue>, date: Date, from: Date)
  {
    forall j :: 0 <= j < |splits| ==>
      splits[j].reconciliationDate == NoDate || splits[j].reconciliationDate < from || date >= from
  }

  lemma {:induction false} SplitsUnchanged(splits: seq<SplitValue>, date: Date, from: Date)
    requires NoLateReconciliation(splits, date, from)
    ensures LowerForSplits(splits, date, from) == from
    decreases |splits|
  {
    if |splits| > 0 {
      assert NoLateReconciliation(splits[1..], date, from) by {
        forall j | 0 <= j < |splits| - 1
          ensures splits[1..][j].reconciliationDate == NoDate || splits[1..][j].reconciliationDate < from || date >= from
        {
          assert splits[1..][j] == splits[j + 1];
        }
      }
      SplitsUnchanged(splits[1..], date, from);
    }
  }

  // ---------------------------------------------------------------------------
  // The retained prefix

  /** `[t for t in self.transactions if t.date < from_date]`. */
  function Retained(cooked: seq<Transaction>, from: Date): (r: seq<Transaction>)
    ensures |r| <= |cooked|
    decreases |cooked|
  {
    if |cooked| == 0 then []
    else
      var n := |cooked| - 1;
      Retained(cooked[..n], from) + (if cooked[n].date < from then [cooked[n]] else [])
  }

  /** The retained entries are exactly the cooked entries dated before `from`. */
  lemma {:induction false} RetainedMember(cooked: seq<Transaction>, from: Date, x: Transaction)
    ensures x in Retained(cooked, from) <==> x in cooked && x.date < from
    decreases |cooked|
  {
    if |cooked| > 0 {
      var n := |cooked| - 1;
      RetainedMember(cooked[..n], from, x);
      assert cooked == cooked[..n] + [cooked[n]];
    }
  }

  /** Filtering keeps the original order: it distributes over concatenation. */
  lemma {:induction false} RetainedAppend(a: seq<Transaction>, b: seq<Transaction>, from: Date)
    ensures Retained(a + b, from) == Retained(a, from) + Retained(b, from)
    decreases |b|
  {
    if |b| > 0 {
      var n := |b| - 1;
      assert (a + b)[..|a + b| - 1] == a + b[..n];
      RetainedAppend(a, b[..n], from);
    } else {
      assert a + b == a;
    }
  }

  /** After lowering, nothing retained is a spawn. */
  lemma {:induction false} RetainedNoSpawns(cooked: seq<Transaction>, from: Date, x: Transaction)
    requires x in Retained(cooked, LoweredFrom(cooked, from))
    ensures !IsSpawn(x)
  {
    var f := LoweredFrom(cooked, from);
    RetainedMember(cooked, f, x);
    var i :| 0 <= i < |cooked| && cooked[i] == x;
    if IsSpawn(x) {
      LoweredBelowSpawns(cooked, from, i);
    }
  }

  // ---------------------------------------------------------------------------
  // Sorting the raw transactions

  predicate SortedByDate(s: seq<Transaction>)
  {
    forall i, j :: 0 <= i < j < |s| ==> s[i].date <= s[j].date
  }

  /** Every element of `s` is dated at or after `d`. */
  predicate NotBefore(s: seq<Transaction>, d: Date)
  {
    forall i :: 0 <= i < |s| ==> d <= s[i].date
  }

  /** Insert `x` into sorted `s`, ahead of the entries with the same date. */
  function InsertByDate(x: Transaction, s: seq<Transaction>): (r: seq<Transaction>)
    requires SortedByDate(s)
    ensures SortedByDate(r) && multiset(r) == multiset(s) + multiset{x}
    ensures forall d :: d <= x.date && NotBefore(s, d) ==> NotBefore(r, d)
    decreases |s|
  {
    if |s| == 0 || x.date <= s[0].date then
      SortedNotBefore(s, x.date);
      ConsSorted(x, s);
      ConsNotBefore(x, s);
      [x] + s
    else
      var h := s[0];
      var tail := s[1..];
      assert s == [h] + tail;
      SortedTail(h, tail);
      var t := InsertByDate(x, tail);
      ConsSorted(h, t);
      ConsNotBefore(h, t);
      [h] + t
  }

  /** A sorted list is not before any date up to its first one. */
  lemma {:induction false} SortedNotBefore(s: seq<Transaction>, d: Date)
    requires SortedByDate(s) && (|s| == 0 || d <= s[0].date)
    ensures NotBefore(s, d)
  {
  }

  lemma {:induction false} SortedTail(h: Transaction, t: seq<Transaction>)
    requires SortedByDate([h] + t)
    ensures SortedByDate(t) && NotBefore(t, h.date)
  {
    var s := [h] + t;
    assert forall i :: 0 <= i < |t| ==> t[i] == s[i + 1];
    assert s[0] == h;
  }

  lemma {:induction false} ConsSorted(h: Transaction, t: seq<Transaction>)
    requires SortedByDate(t) && NotBefore(t, h.date)
    ensures SortedByDate([h] + t)
  {
    var s := [h] + t;
    assert forall i :: 0 < i < |s| ==> s[i] == t[i - 1];
  }

  lemma {:induction false} ConsNotBefore(h: Transaction, t: seq<Transaction>)
    ensures forall d :: d <= h.date && NotBefore(t, d) ==> NotBefore([h] + t, d)
  {
    var s := [h] + t;
    assert forall i :: 0 < i < |s| ==> s[i] == t[i - 1];
  }

  /** `self._transactions.sort()`: by date; ties keep their order. */
  function SortByDate(s: seq<Transaction>): (r: seq<Transaction>)
    ensures SortedByDate(r) && multiset(r) == multiset(s)
    decreases |s|
  {
    if |s| == 0 then []
    else
      assert s == [s[0]] + s[1..];
      InsertByDate(s[0], SortByDate(s[1..]))
  }

  // ---------------------------------------------------------------------------
  // The oven

  /** The date `cook` starts from: the start of time without `from_date`, else `from_date` lowered by the reverse scan. */
  function CookFrom(cooked: seq<Transaction>, fromDate: Option<Date>): (r: Date)
    ensures fromDate.None? ==> r == MinDate
    ensures fromDate.Some? ==> r <= fromDate.value
  {
    if fromDate.None? then MinDate else LoweredFrom(cooked, fromDate.value)
  }

  /** The date `cook` stops at: `until_date`, else the date of the last sorted raw transaction, else the start date. */
  function CookUntil(sortedRaw: seq<Transaction>, untilDate: Option<Date>, from: Date): (r: Date)
    ensures untilDate.Some? ==> r == untilDate.value
    ensures untilDate.None? && SortedByDate(sortedRaw) ==>
      forall i :: 0 <= i < |sortedRaw| ==> sortedRaw[i].date <= r
    ensures untilDate.None? && sortedRaw == [] ==> r == from
  {
    if untilDate.Some? then untilDate.value
    else if |sortedRaw| > 0 then sortedRaw[|sortedRaw| - 1].date
    else from
  }

  /** What `cook` keeps of the cooked list: nothing when it starts from the start of time. */
  function Kept(cooked: seq<Transaction>, from: Date): (r: seq<Transaction>)
    ensures forall x :: x in r ==> x in cooked && x.date < from
  {
    if from == MinDate then [] else
      assert forall x :: x in Retained(cooked, from) ==> x in cooked && x.date < from by {
        forall x | x in Retained(cooked, from) ensures x in cooked && x.date < from {
          RetainedMember(cooked, from, x);
        }
      }
      Retained(cooked, from)
  }

  class Oven {
    /** `_transactions`: the raw ledger transactions. */
    var raw: seq<Transaction>
    /** `transactions`: the cooked list. */
    var transactions: seq<Transaction>
    /** `_cooked_until`. */
    var cookedUntil: Date

    /** `Oven.__init__`: nothing cooked yet. */
    constructor (raw: seq<Transaction>)
      ensures this.raw == raw && transactions == [] && cookedUntil == MinDate
    {
      this.raw := raw;
      transactions := [];
      cookedUntil := MinDate;
    }

    /**
     * `Oven.cook`. `cookTxns` stands for the foreign `oven_cook_txns` over
     * the accounts and schedules, applied to the sorted raw transactions and
     * the two bounds.
     */
    method Cook(fromDate: Option<Date>, untilDate: Option<Date>,
                cookTxns: (seq<Transaction>, Date, Date) -> seq<Transaction>)
      modifies this
      ensures raw == SortByDate(old(raw))
      ensures cookedUntil == CookUntil(raw, untilDate, CookFrom(old(transactions), fromDate))
      ensures transactions == Kept(old(transactions), CookFrom(old(transactions), fromDate)) +
        cookTxns(raw, CookFrom(old(transactions), fromDate), cookedUntil)
    {
      ghost var before := transactions;
      var from: Date;
      if fromDate.None? {
        from := MinDate;
      } else {
        from := Lower(transactions, fromDate.value);
      }
      assert from == CookFrom(before, fromDate);
      raw := SortByDate(raw);
      var until: Date;
      if untilDate.None? {
        until := if |raw| > 0 then raw[|raw| - 1].date else from;
      } else {
        until := untilDate.value;
      }
      assert until == CookUntil(raw, untilDate, from);
      if from == MinDate {
        transactions := [];
      } else {
        transactions := Retained(transactions, from);
      }
      assert transactions == Kept(before, from);
      var cooked := cookTxns(raw, from, until);
      transactions := transactions + cooked;
      cookedUntil := until;
    }

    /** The reverse scan of `cook` over the cooked list, lowering `from`. */
    static method Lower(cooked: seq<Transaction>, from0: Date) returns (from: Date)
      ensures from == LoweredFrom(cooked, from0)
    {
      from := from0;
      var i := |cooked|;
      assert cooked[..i] == cooked;
      while i > 0
        invariant 0 <= i <= |cooked|
        invariant LoweredFrom(cooked[..i], from) == LoweredFrom(cooked, from0)
        decreases i
      {
        var txn := cooked[i - 1];
        assert cooked[..i][..i - 1] == cooked[..i - 1];
        if IsSpawn(txn) {
          from := Min(from, txn.date);
        } else {
          from := LowerSplits(txn, from);
        }
        i := i - 1;
      }
    }

    /** The inner loop of the reverse scan, over the splits of one ledger transaction. */
    static method LowerSplits(txn: Transaction, from: Date) returns (r: Date)
      ensures r == LowerForSplits(txn.splits, txn.date, from)
    {
      r := from;
      var j := 0;
      while j < |txn.splits|
        invariant 0 <= j <= |txn.splits|
        invariant LowerForSplits(txn.splits[j..], txn.date, r) == LowerForSplits(txn.splits, txn.date, from)
        decreases |txn.splits| - j
      {
        var rd := txn.splits[j].reconciliationDate;
        assert txn.splits[j..][1..] == txn.splits[j + 1..];
        if rd != NoDate && rd >= r {
          r := Min(r, txn.date);
        }
        j := j + 1;
      }
    }

    /** `Oven.continue_cooking`: cook from where the last cook stopped, when `until` is later. */
    method ContinueCooking(until: Date, cookTxns: (seq<Transaction>, Date, Date) -> seq<Transaction>)
      modifies this
      ensures until <= old(cookedUntil) ==>
        raw == old(raw) && transactions == old(transactions) && cookedUntil == old(cookedUntil)
      ensures until > old(cookedUntil) ==>
        && raw == SortByDate(old(raw))
        && transactions == Kept(old(transactions), LoweredFrom(old(transactions), old(cookedUntil))) +
             cookTxns(raw, LoweredFrom(old(transactions), old(cookedUntil)), until)
        && cookedUntil == until
    {
      if until > cookedUntil {
        Cook(Some(cookedUntil), Some(until), cookTxns);
      }
    }
  }
}
