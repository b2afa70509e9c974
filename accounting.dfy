/**
 * The simplified accounting page (app/features/accounting/page.tsx): a
 * fixed list of signed transactions (income positive, expenses negative,
 * in cents) and the three figures shown above it.
 */
module Accounting {
  import opened Seqs

  datatype Transaction = Transaction(id: int, date: string, description: string, amount: int, kind: string)

  const SeedTransactions: seq<Transaction> := [
    Transaction(1, "2023-06-01", "Sales Revenue", 500000, "Income"),
    Transaction(2, "2023-06-02", "Office Rent", -100000, "Expense"),
    Transaction(3, "2023-06-03", "Utility Bills", -20000, "Expense")]

  function Amount(t: Transaction): int { t.amount }

  function Positive(): Transaction -> bool { (t: Transaction) => t.amount > 0 }

  function Negative(): Transaction -> bool { (t: Transaction) => t.amount < 0 }

  function NotPositive(): Transaction -> bool { (t: Transaction) => t.amount <= 0 }

  function Abs(x: int): (r: int)
    ensures r >= 0 && (r == x || r == -x)
  {
    if x < 0 then -x else x
  }

  /** `totalIncome`: the sum of the positive amounts. */
  function TotalIncome(ts: seq<Transaction>): int
  {
    Sum(Amount, Filter(Positive(), ts))
  }

  /** `totalExpenses`: `Math.abs` of the sum of the negative amounts. */
  function TotalExpenses(ts: seq<Transaction>): int
  {
    Abs(Sum(Amount, Filter(Negative(), ts)))
  }

  /** `netProfit`. */
  function NetProfit(ts: seq<Transaction>): int
  {
    TotalIncome(ts) - TotalExpenses(ts)
  }

  /**
   * The figures run over the ledger in order: each positive amount adds to
   * the income, each negative amount adds its size to the expenses, and
   * every amount moves the net profit by itself.
   */
  lemma RunningFigures(ts: seq<Transaction>)
    ensures ts == [] ==> TotalIncome(ts) == 0 && TotalExpenses(ts) == 0 && NetProfit(ts) == 0
    ensures ts != [] ==> var init, t := ts[..|ts| - 1], ts[|ts| - 1];
      && TotalIncome(ts) == TotalIncome(init) + (if t.amount > 0 then t.amount else 0)
      && TotalExpenses(ts) == TotalExpenses(init) + (if t.amount < 0 then -t.amount else 0)
      && NetProfit(ts) == NetProfit(init) + t.amount
  {
    if ts != [] {
      var init, t := ts[..|ts| - 1], ts[|ts| - 1];
      assert init + [t] == ts;
      FilterSumSnoc(Amount, Positive(), init, t);
      FilterSumSnoc(Amount, Negative(), init, t);
      ExpensesAreNegatedSum(init);
      ExpensesAreNegatedSum(ts);
    }
  }

  /** Income is a sum of positive amounts, so it is never negative. */
  lemma IncomeNonNegative(ts: seq<Transaction>)
    ensures TotalIncome(ts) >= 0
  {
    var pos := Filter(Positive(), ts);
    forall i | 0 <= i < |pos| ensures Amount(pos[i]) >= 0 {
      assert pos[i] in pos;
    }
    SumNonNegative(Amount, pos);
  }

  /** Expenses are the negated sum of the negative amounts: the absolute value drops nothing. */
  lemma ExpensesAreNegatedSum(ts: seq<Transaction>)
    ensures TotalExpenses(ts) == -Sum(Amount, Filter(Negative(), ts))
    ensures TotalExpenses(ts) >= 0
  {
    var neg := Filter(Negative(), ts);
    forall i | 0 <= i < |neg| ensures Amount(neg[i]) <= 0 {
      assert neg[i] in neg;
    }
    SumNonPositive(Amount, neg);
  }

  /** Zero amounts add nothing to a sum. */
  lemma {:induction false} ZeroSum(xs: seq<Transaction>)
    requires forall i :: 0 <= i < |xs| ==> xs[i].amount == 0
    ensures Sum(Amount, xs) == 0
    decreases |xs|
  {
    if xs != [] { ZeroSum(xs[1..]); }
  }

  /**
   * Net profit is the sum of all amounts: the zero amounts, counted in
   * neither total, add nothing.
   */
  lemma NetProfitIsSum(ts: seq<Transaction>)
    ensures NetProfit(ts) == Sum(Amount, ts)
  {
    ExpensesAreNegatedSum(ts);
    SumPartition(Amount, Positive(), NotPositive(), ts);
    var rest := Filter(NotPositive(), ts);
    FilterNarrower(Negative(), NotPositive(), ts);
    SumPartition(Amount, Negative(), (t: Transaction) => t.amount >= 0, rest);
    var zeros := Filter((t: Transaction) => t.amount >= 0, rest);
    forall i | 0 <= i < |zeros| ensures zeros[i].amount == 0 {
      assert zeros[i] in zeros && zeros[i] in rest;
    }
    ZeroSum(zeros);
  }

  /** The seed figures: income 5000.00, expenses 1200.00, net 3800.00. */
  lemma SeedFigures()
    ensures TotalIncome(SeedTransactions) == 500000
    ensures TotalExpenses(SeedTransactions) == 120000
    ensures NetProfit(SeedTransactions) == 380000
  {
    var ts := SeedTransactions;
    assert ts[1..][1..][1..] == [];
    assert Filter(Positive(), ts[1..]) == [];
  }
}
