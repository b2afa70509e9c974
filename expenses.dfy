/**
 * The expense and debt ledger (app/features/expenses/page.tsx): the expense
 * list's search and category filter, adding, editing and deleting expenses,
 * adding debts, and the three totals. Amounts are integer cents; dates are
 * kept as the `YYYY-MM-DD` strings the page stores.
 */
module Expenses {
  import opened Common
  import opened Seqs

  datatype Expense = Expense(id: int, description: string, amount: int, category: string, date: string)

  /** The "add expense" form. */
  datatype ExpenseForm = ExpenseForm(description: string, amount: int, category: string, date: string)

  /** 'owed': owed to the business; 'owing': owed by it. */
  datatype DebtType = Owed | Owing

  datatype Debt = Debt(id: int, name: string, amount: int, debtType: DebtType, dueDate: string)

  datatype DebtForm = DebtForm(name: string, amount: int, debtType: DebtType, dueDate: string)

  const AllCategories: string := "all"

  const SeedExpenses: seq<Expense> := [
    Expense(1, "Office Rent", 200000, "Rent", "2023-06-01"),
    Expense(2, "Electricity Bill", 35050, "Utilities", "2023-06-05"),
    Expense(3, "Employee Salaries", 1500000, "Salaries", "2023-06-15"),
    Expense(4, "Office Supplies", 20075, "Supplies", "2023-06-10"),
    Expense(5, "Software Subscriptions", 50000, "Software", "2023-06-20")]

  const SeedDebts: seq<Debt> := [
    Debt(1, "ABC Corp", 500000, Owed, "2023-07-15"),
    Debt(2, "XYZ Inc", 300000, Owing, "2023-07-30"),
    Debt(3, "John Doe", 100000, Owed, "2023-08-05")]

  function ExpenseAmount(e: Expense): int { e.amount }

  function DebtAmount(d: Debt): int { d.amount }

  function KeepFor(term: string, categoryFilter: string): Expense -> bool
  {
    (e: Expense) => MatchesSearch(e.description, term) && (categoryFilter == AllCategories || e.category == categoryFilter)
  }

  /**
   * `filteredExpenses`: the expenses whose description contains the search
   * term, ignoring case, in the selected category (any for 'all').
   */
  function FilteredExpenses(expenses: seq<Expense>, term: string, categoryFilter: string): (r: seq<Expense>)
    ensures forall e :: e in r <==> (e in expenses && MatchesSearch(e.description, term)
                                     && (categoryFilter == AllCategories || e.category == categoryFilter))
    ensures forall e :: multiset(r)[e] ==
              if MatchesSearch(e.description, term) && (categoryFilter == AllCategories || e.category == categoryFilter)
              then multiset(expenses)[e] else 0
    ensures Subsequence(r, expenses)
  {
    Filter(KeepFor(term, categoryFilter), expenses)
  }

  /** An empty search in all categories lists every expense. */
  lemma FilterShowsAll(expenses: seq<Expense>)
    ensures FilteredExpenses(expenses, "", AllCategories) == expenses
  {
    forall i | 0 <= i < |expenses| ensures KeepFor("", AllCategories)(expenses[i]) {
      EmptyTermMatches(expenses[i].description);
    }
  }

  /**
   * `handleAddExpense`: with a description, a positive amount and a category
   * the expense is appended with id `expenses.length + 1` and the form is
   * reset to today's date; otherwise nothing changes.
   */
  function HandleAddExpense(expenses: seq<Expense>, form: ExpenseForm, today: string): (r: (seq<Expense>, ExpenseForm))
    ensures form.description != "" && form.amount > 0 && form.category != "" ==>
      && r.0 == expenses + [Expense(|expenses| + 1, form.description, form.amount, form.category, form.date)]
      && r.1 == ExpenseForm("", 0, "", today)
    ensures !(form.description != "" && form.amount > 0 && form.category != "") ==> r == (expenses, form)
  {
    if form.description != "" && form.amount > 0 && form.category != "" then
      (expenses + [Expense(|expenses| + 1, form.description, form.amount, form.category, form.date)],
       ExpenseForm("", 0, "", today))
    else (expenses, form)
  }

  /** Adding an expense raises the total by its amount, which is positive. */
  lemma AddExpenseTotal(expenses: seq<Expense>, form: ExpenseForm, today: string)
    ensures TotalExpenses(HandleAddExpense(expenses, form, today).0) ==
      TotalExpenses(expenses) + (if form.description != "" && form.amount > 0 && form.category != "" then form.amount else 0)
  {
    if form.description != "" && form.amount > 0 && form.category != "" {
      SumSnoc(ExpenseAmount, expenses, Expense(|expenses| + 1, form.description, form.amount, form.category, form.date));
    }
  }

  /**
   * `handleEditExpense`: every expense whose id is the edited one's is
   * replaced by it, the others stay, and the edit is closed. Without an
   * edit in progress nothing happens.
   */
  function HandleEditExpense(expenses: seq<Expense>, editing: Option<Expense>): (r: (seq<Expense>, Option<Expense>))
    ensures r.1 == None
    ensures editing.None? ==> r.0 == expenses
    ensures |r.0| == |expenses|
    ensures editing.Some? ==> forall i :: 0 <= i < |expenses| ==>
      r.0[i] == if expenses[i].id == editing.value.id then editing.value else expenses[i]
  {
    match editing
    case None => (expenses, None)
    case Some(edited) =>
      (seq(|expenses|, i requires 0 <= i < |expenses| => if expenses[i].id == edited.id then edited else expenses[i]),
       None)
  }

  /** Editing the one expense with that id moves the total by the change of its amount. */
  lemma EditExpenseTotal(expenses: seq<Expense>, edited: Expense, k: nat)
    requires DistinctBy((e: Expense) => e.id, expenses)
    requires k < |expenses| && expenses[k].id == edited.id
    ensures TotalExpenses(HandleEditExpense(expenses, Some(edited)).0) ==
      TotalExpenses(expenses) - expenses[k].amount + edited.amount
  {
    var r := HandleEditExpense(expenses, Some(edited)).0;
    forall i | 0 <= i < |expenses| && i != k ensures r[i] == expenses[i] {
      assert ((e: Expense) => e.id)(expenses[i]) != ((e: Expense) => e.id)(expenses[k]);
    }
    assert r == expenses[k := edited];
    SumUpdate(ExpenseAmount, expenses, k, edited);
  }

  function NotExpense(id: int): Expense -> bool { (e: Expense) => e.id != id }

  function IsExpense(id: int): Expense -> bool { (e: Expense) => e.id == id }

  /** `handleDeleteExpense`: the expenses with that id go; the rest stay, in order. */
  function HandleDeleteExpense(expenses: seq<Expense>, id: int): (r: seq<Expense>)
    ensures forall e :: e in r <==> e in expenses && e.id != id
    ensures forall e :: multiset(r)[e] == if e.id != id then multiset(expenses)[e] else 0
    ensures Subsequence(r, expenses)
  {
    Filter(NotExpense(id), expenses)
  }

  /** Deleting takes exactly the deleted expenses' amounts off the total. */
  lemma DeleteExpenseTotal(expenses: seq<Expense>, id: int)
    ensures TotalExpenses(HandleDeleteExpense(expenses, id)) + TotalExpenses(Filter(IsExpense(id), expenses))
      == TotalExpenses(expenses)
  {
    SumPartition(ExpenseAmount, NotExpense(id), IsExpense(id), expenses);
  }

  /**
   * Ids are `length + 1`, so with the seed numbering 1..n, deleting the
   * first expense and then adding one gives the new expense the id n that
   * the last remaining expense still has: ids are not unique.
   */
  lemma DeleteThenAddRepeatsId(expenses: seq<Expense>, form: ExpenseForm, today: string)
    requires |expenses| >= 2
    requires forall i :: 0 <= i < |expenses| ==> expenses[i].id == i + 1
    requires form.description != "" && form.amount > 0 && form.category != ""
    ensures var r := HandleAddExpense(HandleDeleteExpense(expenses, 1), form, today).0;
            |r| == |expenses| && r[|r| - 2].id == |expenses| && r[|r| - 1].id == |expenses|
  {
    var rest := expenses[1..];
    forall i | 0 <= i < |rest| ensures NotExpense(1)(rest[i]) {
      assert rest[i] == expenses[i + 1];
    }
    assert Filter(NotExpense(1), rest) == rest;
    assert !NotExpense(1)(expenses[0]);
    assert HandleDeleteExpense(expenses, 1) == rest;
  }

  /**
   * `handleAddDebt`: with a name and a positive amount the debt is appended
   * with id `debts.length + 1` and the form is reset; otherwise nothing changes.
   */
  function HandleAddDebt(debts: seq<Debt>, form: DebtForm, today: string): (r: (seq<Debt>, DebtForm))
    ensures form.name != "" && form.amount > 0 ==>
      && r.0 == debts + [Debt(|debts| + 1, form.name, form.amount, form.debtType, form.dueDate)]
      && r.1 == DebtForm("", 0, Owed, today)
    ensures !(form.name != "" && form.amount > 0) ==> r == (debts, form)
  {
    if form.name != "" && form.amount > 0 then
      (debts + [Debt(|debts| + 1, form.name, form.amount, form.debtType, form.dueDate)], DebtForm("", 0, Owed, today))
    else (debts, form)
  }

  /** `expenses.reduce((sum, e) => sum + e.amount, 0)`. */
  function TotalExpenses(expenses: seq<Expense>): int
  {
    Sum(ExpenseAmount, expenses)
  }

  /** The reduction runs from 0 over the expenses in order, each adding its amount. */
  lemma RunningTotalExpenses(expenses: seq<Expense>)
    ensures expenses == [] ==> TotalExpenses(expenses) == 0
    ensures expenses != [] ==>
      TotalExpenses(expenses) == TotalExpenses(expenses[..|expenses| - 1]) + expenses[|expenses| - 1].amount
  {
    if expenses != [] {
      SumLast(ExpenseAmount, expenses);
    }
  }

  function IsOwed(): Debt -> bool { (d: Debt) => d.debtType == Owed }

  function IsOwing(): Debt -> bool { (d: Debt) => d.debtType == Owing }

  /** Sum of the debts owed to the business. */
  function TotalOwed(debts: seq<Debt>): int
  {
    Sum(DebtAmount, Filter(IsOwed(), debts))
  }

  /** Sum of the debts the business owes. */
  function TotalOwing(debts: seq<Debt>): int
  {
    Sum(DebtAmount, Filter(IsOwing(), debts))
  }

  /**
   * The two filtered reductions run from 0 over the debts in order: each
   * debt adds its amount to the total of its own kind and nothing to the other.
   */
  lemma RunningDebtTotals(debts: seq<Debt>)
    ensures debts == [] ==> TotalOwed(debts) == 0 && TotalOwing(debts) == 0
    ensures debts != [] ==> var d := debts[|debts| - 1];
      && TotalOwed(debts) == TotalOwed(debts[..|debts| - 1]) + (if d.debtType == Owed then d.amount else 0)
      && TotalOwing(debts) == TotalOwing(debts[..|debts| - 1]) + (if d.debtType == Owing then d.amount else 0)
  {
    if debts != [] {
      var init, d := debts[..|debts| - 1], debts[|debts| - 1];
      assert init + [d] == debts;
      KindTotalSnoc(IsOwed(), init, d);
      KindTotalSnoc(IsOwing(), init, d);
    }
  }

  /** Every debt is one or the other, so the two totals split the sum of all debts. */
  lemma DebtTotalsPartition(debts: seq<Debt>)
    ensures TotalOwed(debts) + TotalOwing(debts) == Sum(DebtAmount, debts)
  {
    SumPartition(DebtAmount, IsOwed(), IsOwing(), debts);
  }

  /** Adding a debt raises exactly the total of its own kind. */
  lemma AddDebtTotals(debts: seq<Debt>, form: DebtForm, today: string)
    requires form.name != "" && form.amount > 0
    ensures TotalOwed(HandleAddDebt(debts, form, today).0) == TotalOwed(debts) + (if form.debtType == Owed then form.amount else 0)
    ensures TotalOwing(HandleAddDebt(debts, form, today).0) == TotalOwing(debts) + (if form.debtType == Owing then form.amount else 0)
  {
    var d := Debt(|debts| + 1, form.name, form.amount, form.debtType, form.dueDate);
    assert HandleAddDebt(debts, form, today).0 == debts + [d];
    KindTotalSnoc(IsOwed(), debts, d);
    KindTotalSnoc(IsOwing(), debts, d);
  }

  lemma KindTotalSnoc(kind: Debt -> bool, debts: seq<Debt>, d: Debt)
    ensures Sum(DebtAmount, Filter(kind, debts + [d])) == Sum(DebtAmount, Filter(kind, debts)) + (if kind(d) then d.amount else 0)
  {
    FilterSumSnoc(DebtAmount, kind, debts, d);
  }

  lemma SeedExpenseTotal()
    ensures TotalExpenses(SeedExpenses) == 1805125
  {
    assert SeedExpenses[1..][1..][1..][1..][1..] == [];
  }

  lemma SeedDebtTotals()
    ensures TotalOwed(SeedDebts) == 600000 && TotalOwing(SeedDebts) == 300000
  {
    SeedDebtsOwed();
    SeedDebtsOwing();
  }

  lemma SeedDebtsOwed()
    ensures Filter(IsOwed(), SeedDebts) == [SeedDebts[0], SeedDebts[2]]
  {
    var d := SeedDebts;
    var t1, t2 := d[1..], d[2..];
    assert t1[1..] == t2 && t2[1..] == [];
    assert IsOwed()(d[0]) && !IsOwed()(d[1]) && IsOwed()(d[2]);
    assert [d[0]] + [d[2]] == [d[0], d[2]];
    FilterCons(IsOwed(), t2);
    assert Filter(IsOwed(), t2) == [d[2]];
    FilterCons(IsOwed(), t1);
    assert Filter(IsOwed(), t1) == [d[2]];
    FilterCons(IsOwed(), d);
    assert Filter(IsOwed(), d) == [d[0], d[2]];
  }

  lemma SeedDebtsOwing()
    ensures Filter(IsOwing(), SeedDebts) == [SeedDebts[1]]
  {
    var d := SeedDebts;
    var t1, t2 := d[1..], d[2..];
    assert t1[1..] == t2 && t2[1..] == [];
    FilterCons(IsOwing(), t2);
    assert Filter(IsOwing(), t2) == [];
    FilterCons(IsOwing(), t1);
    assert Filter(IsOwing(), t1) == [d[1]];
    FilterCons(IsOwing(), d);
    assert Filter(IsOwing(), d) == [d[1]];
  }
}
