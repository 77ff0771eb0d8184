/**
 * `core/gui/main_window.py`: which of the six main views is shown. The
 * window keeps the list of open views (`subviews`), the current view and its
 * index; the index setter switches views, the `select_*` methods move
 * between them (skipping the account view when no account is shown), and
 * `close_view` removes a view and repositions the current index.
 *
 * The calls the window makes on its GUI and on the views (`connect`,
 * `disconnect`, `change_current_view`, `view_closed`, `refresh_subviews`)
 * are recorded in `events`.
 */
module MainWindows {
  import opened Wrappers

  /** The six views, in the order `set_children` lists them. */
  datatype View = NetWorthView | ProfitView | TransactionView | AccountView | ScheduleView | BudgetView

  /** The panels `edit_item` can load. */
  datatype Panel = AccountPanel | TransactionPanel | MassEditPanel | SchedulePanel | BudgetPanel

  /** A selected transaction: budget spawns cannot be edited. */
  datatype TxnKind = Regular | BudgetSpawn

  /** A call the window makes on its GUI or on a view. */
  datatype Event = SubviewsRefreshed | Connected(view: View) | Disconnected(view: View) | CurrentViewChanged | ViewClosed(index: int)

  /** Python's reading of a list index: a negative one counts from the end. */
  function PyIndex(i: int, n: int): int { if i < 0 then i + n else i }

  predicate Distinct<T(==)>(s: seq<T>)
  {
    forall i, j :: 0 <= i < j < |s| ==> s[i] != s[j]
  }

  /** `list.index`: the first position of `x`, or nothing when it is absent. */
  function IndexOf<T(==)>(s: seq<T>, x: T): (r: Option<nat>)
    ensures r.None? <==> x !in s
    ensures r.Some? ==> r.value < |s| && s[r.value] == x && forall j :: 0 <= j < r.value ==> s[j] != x
  {
    if s == [] then None
    else if s[0] == x then Some(0)
    else match IndexOf(s[1..], x)
      case None => None
      case Some(k) => Some(k + 1)
  }

  /** `del s[k]`. */
  function RemoveAt<T>(s: seq<T>, k: int): seq<T>
    requires 0 <= k < |s|
  {
    s[..k] + s[k + 1..]
  }

  /**
   * After deleting position `k` of a list without duplicates, the list has
   * no duplicates, the deleted element is gone, and every other element
   * moves down by one exactly when it came after `k`.
   */
  lemma RemoveAtPositions<T>(s: seq<T>, k: int, p: int)
    requires Distinct(s)
    requires 0 <= k < |s| && 0 <= p < |s|
    ensures Distinct(RemoveAt(s, k))
    ensures p == k <==> s[p] !in RemoveAt(s, k)
    ensures p != k ==> IndexOf(RemoveAt(s, k), s[p]) == Some(if p < k then p else p - 1)
  {
    var r := RemoveAt(s, k);
    assert forall i :: 0 <= i < k ==> r[i] == s[i];
    assert forall i :: k <= i < |r| ==> r[i] == s[i + 1];
    forall i, j | 0 <= i < j < |r| ensures r[i] != r[j] {
      var a := if i < k then i else i + 1;
      var b := if j < k then j else j + 1;
      assert r[i] == s[a] && r[j] == s[b] && a < b;
    }
    if p == k {
      forall i | 0 <= i < |r| ensures r[i] != s[k] {
        var a := if i < k then i else i + 1;
        assert r[i] == s[a];
      }
    } else {
      var q := if p < k then p else p - 1;
      assert r[q] == s[p];
      var x := IndexOf(r, s[p]);
      assert s[p] in r;
      assert x.Some? && r[x.value] == r[q];
      assert x.value == q;
    }
  }

  /** The calls `_change_current_view` makes when switching from `current` to `v`. */
  function ChangeEvents(current: Option<View>, v: View): seq<Event>
  {
    if current == Some(v) then []
    else (if current.Some? then [Disconnected(current.value)] else []) + [Connected(v), CurrentViewChanged]
  }

  /** The index `select_next_view` moves to: stay on the last tab, skip the account view when no account is shown. */
  function NextViewIndex(i: int, accountShown: bool): int
  {
    if i == 5 then i else if i == 2 && !accountShown then i + 2 else i + 1
  }

  /** The index `select_previous_view` moves to. */
  function PreviousViewIndex(i: int, accountShown: bool): int
  {
    if i == 0 then i else if i == 4 && !accountShown then i - 2 else i - 1
  }

  /** Next and previous stay among the six tabs, and never land on the account view when no account is shown. */
  lemma NavigationStaysInTabs(i: int, accountShown: bool)
    requires 0 <= i <= 5
    ensures 0 <= NextViewIndex(i, accountShown) <= 5 && 0 <= PreviousViewIndex(i, accountShown) <= 5
    ensures !accountShown && i != 3 ==> NextViewIndex(i, accountShown) != 3 && PreviousViewIndex(i, accountShown) != 3
  {
  }

  /** Away from the two ends, "previous" undoes "next" and "next" undoes "previous". */
  lemma NavigationInverse(i: int, accountShown: bool)
    requires accountShown || i != 3
    ensures 0 <= i < 5 ==> PreviousViewIndex(NextViewIndex(i, accountShown), accountShown) == i
    ensures 0 < i <= 5 ==> NextViewIndex(PreviousViewIndex(i, accountShown), accountShown) == i
  {
  }

  /** `editable_txns`: the selected transactions that are not budget spawns. */
  function Editable(selected: seq<TxnKind>): (r: seq<TxnKind>)
    ensures forall t :: t in r ==> t == Regular
    ensures |r| == multiset(selected)[Regular]
  {
    if selected == [] then []
    else
      assert selected == [selected[0]] + selected[1..];
      (if selected[0] == Regular then [Regular] else []) + Editable(selected[1..])
  }

  /**
   * `edit_item`: the panel loaded for the current view. In the transaction
   * and account views it depends on the number of selected transactions
   * that are not budget spawns: several, exactly one, or none.
   */
  function EditItem(current: Option<View>, selected: seq<TxnKind>): (r: Option<Panel>)
    ensures current == Some(NetWorthView) || current == Some(ProfitView) ==> r == Some(AccountPanel)
    ensures current == Some(TransactionView) || current == Some(AccountView) ==>
      (r == Some(MassEditPanel) <==> multiset(selected)[Regular] > 1) &&
      (r == Some(TransactionPanel) <==> multiset(selected)[Regular] == 1) &&
      (r == None <==> multiset(selected)[Regular] == 0)
    ensures current == Some(ScheduleView) ==> r == Some(SchedulePanel)
    ensures current == Some(BudgetView) ==> r == Some(BudgetPanel)
    ensures current == None ==> r == None
  {
    match current
    case None => None
    case Some(v) =>
      if v == NetWorthView || v == ProfitView then Some(AccountPanel)
      else if v == AccountView || v == TransactionView then
        var editable := Editable(selected);
        if |editable| > 1 then Some(MassEditPanel)
        else if |editable| == 1 then Some(TransactionPanel)
        else None
      else if v == ScheduleView then Some(SchedulePanel)
      else Some(BudgetPanel)
  }

  /** The document fields the window reads and writes. */
  class Document {
    var filterString: string
    /** Whether `shown_account` is set. */
    var accountShown: bool
    var selectedTransactions: seq<TxnKind>

    constructor (accountShown: bool, selectedTransactions: seq<TxnKind>)
      ensures filterString == "" && this.accountShown == accountShown
      ensures this.selectedTransactions == selectedTransactions
    {
      filterString := "";
      this.accountShown := accountShown;
      this.selectedTransactions := selectedTransactions;
    }
  }

  /** The index in `subviews` that `close_view` selects before deleting `index`. */
  function SelectedOnClose(index: int, current: int, n: int): int
  {
    if index != current then current else if index == n - 1 then current - 1 else current + 1
  }

  class MainWindow {
    const document: Document
    var subviews: seq<View>
    var currentView: Option<View>
    var currentViewIndex: int
    var events: seq<Event>

    /** The views are distinct, and the current view sits at the current index (read as Python reads it). */
    predicate Valid()
      reads this
    {
      Distinct(subviews) && -|subviews| <= currentViewIndex < |subviews| &&
      currentView == Some(subviews[PyIndex(currentViewIndex, |subviews|)])
    }

    /** The effect of assigning `value` to `current_view_index`. */
    twostate predicate IndexSetTo(value: int, new err: Option<Error>)
      reads this
    {
      subviews == old(subviews) &&
      if value == old(currentViewIndex) then
        err == None && currentViewIndex == old(currentViewIndex) && currentView == old(currentView) && events == old(events)
      else if -|subviews| <= value < |subviews| then
        err == None && currentViewIndex == value && currentView == Some(subviews[PyIndex(value, |subviews|)]) &&
        events == old(events) + ChangeEvents(old(currentView), subviews[PyIndex(value, |subviews|)])
      else
        err == Some(IndexError) && currentViewIndex == old(currentViewIndex) && currentView == old(currentView) && events == old(events)
    }

    /** `set_children`: the six views, the net worth view shown at index 0. */
    constructor (document: Document)
      ensures this.document == document && Valid()
      ensures subviews == [NetWorthView, ProfitView, TransactionView, AccountView, ScheduleView, BudgetView]
      ensures currentViewIndex == 0 && currentView == Some(NetWorthView)
      ensures events == [SubviewsRefreshed, Connected(NetWorthView), CurrentViewChanged]
    {
      this.document := document;
      currentView := None;
      currentViewIndex := -1;
      subviews := [NetWorthView, ProfitView, TransactionView, AccountView, ScheduleView, BudgetView];
      events := [SubviewsRefreshed];
      new;
      var err := SetCurrentViewIndex(0);
    }

    /** `_change_current_view`: nothing when `view` is already current; otherwise disconnect the old one and connect `view`. */
    method ChangeCurrentView(view: View)
      modifies this
      ensures currentView == Some(view)
      ensures events == old(events) + ChangeEvents(old(currentView), view)
      ensures subviews == old(subviews) && currentViewIndex == old(currentViewIndex)
    {
      if currentView == Some(view) {
        return;
      }
      if currentView.Some? {
        events := events + [Disconnected(currentView.value)];
      }
      currentView := Some(view);
      events := events + [Connected(view), CurrentViewChanged];
    }

    /**
     * The `current_view_index` setter: the current value changes nothing;
     * an index outside the list raises `IndexError` before anything changes;
     * otherwise index and view change together.
     */
    method SetCurrentViewIndex(value: int) returns (err: Option<Error>)
      modifies this
      ensures IndexSetTo(value, err)
      ensures old(Valid()) ==> Valid()
    {
      if value == currentViewIndex {
        return None;
      }
      if value < -|subviews| || value >= |subviews| {
        return Some(IndexError);
      }
      var view := subviews[PyIndex(value, |subviews|)];
      currentViewIndex := value;
      ChangeCurrentView(view);
      return None;
    }

    /** `select_next_view`. */
    method SelectNextView() returns (err: Option<Error>)
      modifies this
      ensures IndexSetTo(NextViewIndex(old(currentViewIndex), document.accountShown), err)
      ensures old(Valid()) ==> Valid()
    {
      if currentViewIndex == 5 {
        return None;
      }
      if currentViewIndex == 2 && !document.accountShown {
        err := SetCurrentViewIndex(currentViewIndex + 2);
      } else {
        err := SetCurrentViewIndex(currentViewIndex + 1);
      }
    }

    /** `select_previous_view`. */
    method SelectPreviousView() returns (err: Option<Error>)
      modifies this
      ensures IndexSetTo(PreviousViewIndex(old(currentViewIndex), document.accountShown), err)
      ensures old(Valid()) ==> Valid()
    {
      if currentViewIndex == 0 {
        return None;
      }
      if currentViewIndex == 4 && !document.accountShown {
        err := SetCurrentViewIndex(currentViewIndex - 2);
      } else {
        err := SetCurrentViewIndex(currentViewIndex - 1);
      }
    }

    /** `select_balance_sheet`, `select_income_statement`, `select_transaction_table`, `select_schedule_table` and `select_budget_table`: clear the filter, show tab `tab`. */
    method SelectTab(tab: int) returns (err: Option<Error>)
      requires tab in {0, 1, 2, 4, 5}
      modifies this, document
      ensures document.filterString == ""
      ensures document.accountShown == old(document.accountShown)
      ensures document.selectedTransactions == old(document.selectedTransactions)
      ensures IndexSetTo(tab, err)
      ensures old(Valid()) ==> Valid()
    {
      document.filterString := "";
      err := SetCurrentViewIndex(tab);
    }

    /** `select_entry_table`: nothing when no account is shown, otherwise clear the filter and show tab 3. */
    method SelectEntryTable() returns (err: Option<Error>)
      modifies this, document
      ensures !old(document.accountShown) ==>
        err == None && document.filterString == old(document.filterString) &&
        subviews == old(subviews) && currentViewIndex == old(currentViewIndex) &&
        currentView == old(currentView) && events == old(events)
      ensures old(document.accountShown) ==> document.filterString == "" && IndexSetTo(3, err)
      ensures document.accountShown == old(document.accountShown)
      ensures document.selectedTransactions == old(document.selectedTransactions)
      ensures old(Valid()) ==> Valid()
    {
      if !document.accountShown {
        return None;
      }
      document.filterString := "";
      err := SetCurrentViewIndex(3);
    }

    /**
     * `close_view`: closing the current view first shows its right-hand
     * neighbour, or its left-hand one when it is the last. The view is then
     * deleted, and the index moves to where the current view now sits.
     * `ValueError` is `subviews.index` failing because the current view was
     * the one deleted (the only view, or a negative index naming it).
     */
    method CloseView(index: int) returns (err: Option<Error>)
      requires Valid()
      modifies this
      ensures index < -|old(subviews)| || index >= |old(subviews)| ==>
        err == Some(IndexError) && subviews == old(subviews) && currentView == old(currentView) &&
        currentViewIndex == old(currentViewIndex) && events == old(events)
      ensures -|old(subviews)| <= index < |old(subviews)| ==>
        var n := |old(subviews)|;
        var k := PyIndex(index, n);
        var sel := SelectedOnClose(index, old(currentViewIndex), n);
        var p := PyIndex(sel, n);
        0 <= p < n &&
        subviews == RemoveAt(old(subviews), k) &&
        currentView == Some(old(subviews)[p]) &&
        (err == Some(ValueError) <==> p == k) &&
        (p == k ==> (currentViewIndex == sel &&
          events == old(events) + ChangeEvents(old(currentView), old(subviews)[p]) + [ViewClosed(index)])) &&
        (p != k ==> (err == None && Valid() && currentViewIndex == (if p < k then p else p - 1) &&
          events == old(events) + ChangeEvents(old(currentView), old(subviews)[p]) + [ViewClosed(index)] +
            (if currentViewIndex != sel then [CurrentViewChanged] else [])))
    {
      ghost var n := |subviews|;
      ghost var sv := subviews;
      ghost var ev := events;
      if index == currentViewIndex {
        if index == |subviews| - 1 {
          err := SetCurrentViewIndex(currentViewIndex - 1);
        } else {
          err := SetCurrentViewIndex(currentViewIndex + 1);
        }
      }
      ghost var sel := SelectedOnClose(index, old(currentViewIndex), n);
      ghost var p := PyIndex(sel, n);
      assert currentViewIndex == sel && currentView == Some(sv[p]);
      assert events == ev + ChangeEvents(old(currentView), sv[p]);
      if index < -|subviews| || index >= |subviews| {
        return Some(IndexError);
      }
      var k := PyIndex(index, |subviews|);
      RemoveAtPositions(subviews, k, p);
      subviews := subviews[..k] + subviews[k + 1..];
      events := events + [ViewClosed(index)];
      var newIndex := IndexOf(subviews, currentView.value);
      if newIndex.None? {
        return Some(ValueError);
      }
      if newIndex.value != currentViewIndex {
        currentViewIndex := newIndex.value;
        events := events + [CurrentViewChanged];
      }
      assert PyIndex(currentViewIndex, |subviews|) == newIndex.value;
      assert subviews[newIndex.value] == currentView.value;
      return None;
    }
  }
}
