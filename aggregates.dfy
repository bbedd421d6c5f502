/** Totals by type (`stats`, `pieData`) as computed in
    src/components/Dashboard.tsx, src/components/ChartsGrid.tsx and
    src/components/StatsGrid.tsx.  The three files repeat the same
    filter/reduce expression with different type literals; it is defined
    once here and instantiated with each file's literals. */
module Totals {
  import opened Transactions

  /** `ts.filter(t => t.type === kind)`: the records of one type, in order. */
  function OfKind(ts: seq<Transaction>, kind: string): (r: seq<Transaction>)
    ensures forall t :: t in r <==> t in ts && t.kind == kind
    ensures |r| <= |ts|
  {
    if |ts| == 0 then []
    else
      var init, last := ts[..|ts| - 1], ts[|ts| - 1];
      assert ts == init + [last];
      OfKind(init, kind) + (if last.kind == kind then [last] else [])
  }

  /** Filtering keeps every occurrence of a matching record and none of the
      others. */
  lemma {:induction false} OfKindCounts(ts: seq<Transaction>, kind: string)
    ensures forall t :: multiset(OfKind(ts, kind))[t] == if t.kind == kind then multiset(ts)[t] else 0
  {
    if |ts| > 0 {
      var init, last := ts[..|ts| - 1], ts[|ts| - 1];
      assert ts == init + [last];
      OfKindCounts(init, kind);
    }
  }

  /** Filtering keeps relative order: it distributes over concatenation. */
  lemma {:induction false} OfKindDistributes(a: seq<Transaction>, b: seq<Transaction>, kind: string)
    ensures OfKind(a + b, kind) == OfKind(a, kind) + OfKind(b, kind)
  {
    if |b| == 0 {
      assert a + b == a;
    } else {
      var binit, last := b[..|b| - 1], b[|b| - 1];
      assert a + b == (a + binit) + [last];
      OfKindSnoc(a + binit, last, kind);
      OfKindSnoc(binit, last, kind);
      OfKindDistributes(a, binit, kind);
    }
  }

  /** One more record at the end adds it to the filtered list when its type
      matches. */
  lemma OfKindSnoc(ts: seq<Transaction>, t: Transaction, kind: string)
    ensures OfKind(ts + [t], kind) == OfKind(ts, kind) + (if t.kind == kind then [t] else [])
  {
    assert (ts + [t])[..|ts|] == ts;
  }

  /** `ts.filter(t => t.type === kind).reduce((sum, t) => sum + t.amount, 0)`,
      with the filter and the reduce fused into one pass. */
  function SumOfKind(ts: seq<Transaction>, kind: string): (r: int)
    ensures r == TotalAmount(OfKind(ts, kind))
  {
    if |ts| == 0 then 0
    else
      var init, last := ts[..|ts| - 1], ts[|ts| - 1];
      if last.kind == kind then
        assert OfKind(ts, kind) == OfKind(init, kind) + [last];
        TotalAmountSnoc(OfKind(init, kind), last);
        SumOfKind(init, kind) + last.amount
      else
        assert OfKind(ts, kind) == OfKind(init, kind) + [];
        assert OfKind(init, kind) + [] == OfKind(init, kind);
        SumOfKind(init, kind)
  }

  /** Appending a record adds its amount to the total. */
  lemma TotalAmountSnoc(ts: seq<Transaction>, t: Transaction)
    ensures TotalAmount(ts + [t]) == TotalAmount(ts) + t.amount
  {
    assert (ts + [t])[..|ts|] == ts;
  }

  /** With non-negative amounts every such sum is non-negative. */
  lemma {:induction false} SumOfKindNonNegative(ts: seq<Transaction>, kind: string)
    requires NonNegativeAmounts(ts)
    ensures SumOfKind(ts, kind) >= 0
  {
    if |ts| > 0 {
      SumOfKindNonNegative(ts[..|ts| - 1], kind);
    }
  }

  /** A literal no record carries sums to zero. */
  lemma {:induction false} SumOfAbsentKindIsZero(ts: seq<Transaction>, kind: string)
    requires forall i :: 0 <= i < |ts| ==> ts[i].kind != kind
    ensures SumOfKind(ts, kind) == 0
  {
    if |ts| > 0 {
      SumOfAbsentKindIsZero(ts[..|ts| - 1], kind);
    }
  }

  /** For well-typed records the two type sums split the grand total. */
  lemma {:induction false} KindSumsCoverTotal(ts: seq<Transaction>)
    requires AllWellTyped(ts)
    ensures SumOfKind(ts, Income) + SumOfKind(ts, Expense) == TotalAmount(ts)
  {
    if |ts| > 0 {
      KindSumsCoverTotal(ts[..|ts| - 1]);
    }
  }

  /** `{ income, expenses, balance, count }`. */
  datatype Stats = Stats(income: int, expenses: int, balance: int, count: int)

  /** The `stats` computation, parameterised by the two type literals. */
  function StatsOf(ts: seq<Transaction>, incomeLabel: string, expenseLabel: string): (s: Stats)
    ensures s.income == TotalAmount(OfKind(ts, incomeLabel))
    ensures s.expenses == TotalAmount(OfKind(ts, expenseLabel))
    ensures s.balance == s.income - s.expenses && s.count == |ts|
  {
    var income := SumOfKind(ts, incomeLabel);
    var expenses := SumOfKind(ts, expenseLabel);
    Stats(income, expenses, income - expenses, |ts|)
  }

  /** `stats` of Dashboard.tsx, filtering on "income" and "expense". */
  function DashboardStats(ts: seq<Transaction>): (s: Stats)
    ensures s.income == SumOfKind(ts, Income) && s.expenses == SumOfKind(ts, Expense)
    ensures s.balance == s.income - s.expenses && s.count == |ts|
    ensures ts == [] ==> s == Stats(0, 0, 0, 0)
  {
    StatsOf(ts, Income, Expense)
  }

  /** With non-negative amounts, Dashboard's income and expenses are
      non-negative. */
  lemma DashboardStatsNonNegative(ts: seq<Transaction>)
    requires NonNegativeAmounts(ts)
    ensures DashboardStats(ts).income >= 0 && DashboardStats(ts).expenses >= 0
  {
    SumOfKindNonNegative(ts, Income);
    SumOfKindNonNegative(ts, Expense);
  }

  /** On well-typed records Dashboard's income and expenses account for every
      amount. */
  lemma DashboardStatsCoverTotal(ts: seq<Transaction>)
    requires AllWellTyped(ts)
    ensures DashboardStats(ts).income + DashboardStats(ts).expenses == TotalAmount(ts)
  {
    KindSumsCoverTotal(ts);
  }

  /** `stats` of StatsGrid.tsx, which filters on "ingreso" and "gasto". */
  function StatsGridStats(ts: seq<Transaction>): (s: Stats)
    ensures s.income == SumOfKind(ts, "ingreso") && s.expenses == SumOfKind(ts, "gasto")
    ensures s.balance == s.income - s.expenses && s.count == |ts|
    ensures ts == [] ==> s == Stats(0, 0, 0, 0)
  {
    StatsOf(ts, "ingreso", "gasto")
  }

  /** "ingreso" and "gasto" are literals `TransactionType` does not admit, so
      on well-typed records both sums and the balance are zero, while the
      count is still the list's length. */
  lemma StatsGridStatsVanish(ts: seq<Transaction>)
    requires AllWellTyped(ts)
    ensures StatsGridStats(ts) == Stats(0, 0, 0, |ts|)
  {
    SumOfAbsentKindIsZero(ts, "ingreso");
    SumOfAbsentKindIsZero(ts, "gasto");
  }

  /** A single well-typed income of 1000 cents: Dashboard reports it, the
      StatsGrid cards show 0 income and 0 balance. */
  lemma StatsGridMissesIncome()
    ensures var ts := [Transaction("a", "2024-01-05", Income, "Ventas", "venta", 1000, "Efectivo", None, None)];
      DashboardStats(ts) == Stats(1000, 0, 1000, 1) && StatsGridStats(ts) == Stats(0, 0, 0, 1)
  {
    var ts := [Transaction("a", "2024-01-05", Income, "Ventas", "venta", 1000, "Efectivo", None, None)];
    assert ts[..0] == [];
    assert Income[2] != "ingreso"[2] && Income[0] != "gasto"[0] && Income[0] != Expense[0];
    assert SumOfKind(ts, Income) == 1000;
    assert SumOfKind(ts, Expense) == 0;
    assert SumOfKind(ts, "ingreso") == 0;
    assert SumOfKind(ts, "gasto") == 0;
  }

  /** The reverse case: TransactionForm.tsx writes "ingreso"/"gasto".  For one
      form-made income of 1000 cents, Dashboard's stats and pie show 0 while
      the StatsGrid cards show the income. */
  lemma DashboardMissesFormIncome()
    ensures var ts := [Transaction("a", "2024-01-05", "ingreso", "Ventas", "venta", 1000, "Efectivo", None, None)];
      && DashboardStats(ts) == Stats(0, 0, 0, 1)
      && StatsGridStats(ts) == Stats(1000, 0, 1000, 1)
      && PieData(ts) == [Slice("Ingresos", 0), Slice("Gastos", 0)]
  {
    var ts := [Transaction("a", "2024-01-05", "ingreso", "Ventas", "venta", 1000, "Efectivo", None, None)];
    assert ts[..0] == [];
    assert "ingreso"[2] != Income[2] && "ingreso"[0] != Expense[0] && "ingreso"[0] != "gasto"[0];
    assert SumOfKind(ts, Income) == 0;
    assert SumOfKind(ts, Expense) == 0;
    assert SumOfKind(ts, "ingreso") == 1000;
    assert SumOfKind(ts, "gasto") == 0;
  }

  /** One slice of the income/expense pie. */
  datatype Slice = Slice(name: string, value: int)

  /** `pieData` (identical in Dashboard.tsx and ChartsGrid.tsx). */
  function PieData(ts: seq<Transaction>): (r: seq<Slice>)
    ensures |r| == 2 && r[0].name == "Ingresos" && r[1].name == "Gastos"
    ensures r[0].value == DashboardStats(ts).income && r[1].value == DashboardStats(ts).expenses
  {
    [Slice("Ingresos", SumOfKind(ts, Income)), Slice("Gastos", SumOfKind(ts, Expense))]
  }
}

/** `monthlyData` (Dashboard.tsx and ChartsGrid.tsx, identical code): a
    `reduce` into an object keyed by the month label, whose entries are then
    read back in insertion order.  The label is produced by locale date
    formatting; here it is the parameter `monthOf`. */
module Monthly {
  import opened Transactions
  import opened Sorting

  /** `{ month, income, expenses }`. */
  datatype MonthEntry = MonthEntry(month: string, income: int, expenses: int)

  function MonthKey(e: MonthEntry): string { e.month }

  /** The month labels of the entries. */
  function MonthKeys(acc: seq<MonthEntry>): set<string> {
    set i | 0 <= i < |acc| :: acc[i].month
  }

  /** The month labels of the transactions. */
  function MonthsOf(ts: seq<Transaction>, monthOf: string -> string): set<string> {
    set i | 0 <= i < |ts| :: monthOf(ts[i].date)
  }

  /** Reference sums: "income" amounts, and all other amounts, in one month. */
  function MonthIncome(ts: seq<Transaction>, key: string, monthOf: string -> string): int {
    if |ts| == 0 then 0
    else
      var t := ts[|ts| - 1];
      MonthIncome(ts[..|ts| - 1], key, monthOf) + (if monthOf(t.date) == key && t.kind == Income then t.amount else 0)
  }

  function MonthExpenses(ts: seq<Transaction>, key: string, monthOf: string -> string): int {
    if |ts| == 0 then 0
    else
      var t := ts[|ts| - 1];
      MonthExpenses(ts[..|ts| - 1], key, monthOf) + (if monthOf(t.date) == key && t.kind != Income then t.amount else 0)
  }

  /** Income plus expenses over all entries. */
  function EntriesTotal(acc: seq<MonthEntry>): int {
    if |acc| == 0 then 0
    else EntriesTotal(acc[..|acc| - 1]) + acc[|acc| - 1].income + acc[|acc| - 1].expenses
  }

  /** `acc[month]`: the position of the entry for `key`, or `|acc|` if none. */
  function IndexOfMonth(acc: seq<MonthEntry>, key: string): (k: nat)
    ensures k <= |acc|
    ensures k < |acc| ==> acc[k].month == key
    ensures forall i :: 0 <= i < k ==> acc[i].month != key
  {
    if |acc| == 0 then 0
    else if acc[0].month == key then 0
    else 1 + IndexOfMonth(acc[1..], key)
  }

  /** Adds a record's amount to a bucket: to `income` for "income" records,
      to `expenses` for every other record. */
  function Credit(e: MonthEntry, t: Transaction): MonthEntry {
    if t.kind == Income then e.(income := e.income + t.amount)
    else e.(expenses := e.expenses + t.amount)
  }

  /** One call of the reducer: credit the month's bucket, creating it (empty,
      at the end) if it is missing. */
  function AddToMonth(acc: seq<MonthEntry>, t: Transaction, monthOf: string -> string): (r: seq<MonthEntry>)
    ensures |acc| <= |r| <= |acc| + 1
    ensures forall i :: 0 <= i < |acc| ==> r[i].month == acc[i].month
    ensures |r| == |acc| + 1 ==> r[|acc|].month == monthOf(t.date)
  {
    var key := monthOf(t.date);
    var k := IndexOfMonth(acc, key);
    if k == |acc| then acc + [Credit(MonthEntry(key, 0, 0), t)]
    else acc[k := Credit(acc[k], t)]
  }

  /** The grouped object after the reduce, as `Object.values` lists it. */
  function MonthlyGroups(ts: seq<Transaction>, monthOf: string -> string): (r: seq<MonthEntry>)
    ensures |r| <= |ts|
    ensures |ts| > 0 ==> |r| > 0
  {
    if |ts| == 0 then []
    else AddToMonth(MonthlyGroups(ts[..|ts| - 1], monthOf), ts[|ts| - 1], monthOf)
  }

  /** The `monthlyData` fold: one pass over the transactions, updating the
      accumulator in place. */
  method MonthlyData(ts: seq<Transaction>, monthOf: string -> string) returns (data: seq<MonthEntry>)
    ensures data == MonthlyGroups(ts, monthOf)
  {
    var acc: seq<MonthEntry> := [];
    var i := 0;
    while i < |ts|
      invariant 0 <= i <= |ts|
      invariant acc == MonthlyGroups(ts[..i], monthOf)
    {
      var t := ts[i];
      ghost var before := acc;
      var month := monthOf(t.date);
      var k := IndexOfMonth(acc, month);
      if k == |acc| {
        acc := acc + [MonthEntry(month, 0, 0)];
      }
      if t.kind == Income {
        acc := acc[k := acc[k].(income := acc[k].income + t.amount)];
      } else {
        acc := acc[k := acc[k].(expenses := acc[k].expenses + t.amount)];
      }
      assert acc == AddToMonth(before, t, monthOf);
      assert ts[..i + 1][..i] == ts[..i];
      i := i + 1;
    }
    assert ts[..i] == ts;
    data := acc;
  }

  /** A form-made income (typed "ingreso") is booked as an expense of its
      month, since only "income" counts as income. */
  lemma FormIncomeBookedAsExpense(monthOf: string -> string)
    ensures var ts := [Transaction("a", "2024-01-05", "ingreso", "Ventas", "venta", 1000, "Efectivo", None, None)];
      MonthlyGroups(ts, monthOf) == [MonthEntry(monthOf("2024-01-05"), 0, 1000)]
  {
    var ts := [Transaction("a", "2024-01-05", "ingreso", "Ventas", "venta", 1000, "Efectivo", None, None)];
    assert ts[..0] == [];
    assert "ingreso"[2] != Income[2];
  }

  /** Replacing one entry changes the total by the difference. */
  lemma {:induction false} EntriesTotalUpdate(acc: seq<MonthEntry>, k: nat, e: MonthEntry)
    requires k < |acc|
    ensures EntriesTotal(acc[k := e]) == EntriesTotal(acc) - acc[k].income - acc[k].expenses + e.income + e.expenses
  {
    var n := |acc|;
    if k == n - 1 {
      assert acc[k := e][..n - 1] == acc[..n - 1];
    } else {
      assert acc[k := e][..n - 1] == acc[..n - 1][k := e];
      EntriesTotalUpdate(acc[..n - 1], k, e);
    }
  }

  /** One reducer step keeps month labels distinct and adds the record's
      month to them. */
  lemma AddToMonthKeys(acc: seq<MonthEntry>, t: Transaction, monthOf: string -> string)
    requires DistinctBy(acc, MonthKey)
    ensures DistinctBy(AddToMonth(acc, t, monthOf), MonthKey)
    ensures MonthKeys(AddToMonth(acc, t, monthOf)) == MonthKeys(acc) + {monthOf(t.date)}
  {
    var r := AddToMonth(acc, t, monthOf);
    var key := monthOf(t.date);
    var k := IndexOfMonth(acc, key);
    assert forall i :: 0 <= i < |r| ==> r[i].month == (if i < |acc| then acc[i].month else key);
    forall x | x in MonthKeys(r) ensures x in MonthKeys(acc) + {key} {
      var i :| 0 <= i < |r| && r[i].month == x;
      if i < |acc| { assert acc[i].month == x; }
    }
    forall x | x in MonthKeys(acc) ensures x in MonthKeys(r) {
      var i :| 0 <= i < |acc| && acc[i].month == x;
      assert r[i].month == x;
    }
    assert r[k].month == key;
  }

  /** One reducer step credits exactly the bucket of the record's month. */
  lemma AddToMonthCredits(acc: seq<MonthEntry>, t: Transaction, monthOf: string -> string)
    requires DistinctBy(acc, MonthKey)
    ensures var r := AddToMonth(acc, t, monthOf); var key := monthOf(t.date);
      && |acc| <= |r| <= |acc| + 1
      && (forall i :: 0 <= i < |acc| ==> r[i] == if acc[i].month == key then Credit(acc[i], t) else acc[i])
      && (|r| == |acc| + 1 ==> key !in MonthKeys(acc) && r[|acc|] == Credit(MonthEntry(key, 0, 0), t))
  {
    var key := monthOf(t.date);
    var k := IndexOfMonth(acc, key);
    if k < |acc| {
      forall i | 0 <= i < |acc| && i != k ensures acc[i].month != key {
        assert MonthKey(acc[i]) != MonthKey(acc[k]);
      }
    }
  }

  /** One reducer step adds the record's amount to the entries' total. */
  lemma AddToMonthTotal(acc: seq<MonthEntry>, t: Transaction, monthOf: string -> string)
    ensures EntriesTotal(AddToMonth(acc, t, monthOf)) == EntriesTotal(acc) + t.amount
  {
    var k := IndexOfMonth(acc, monthOf(t.date));
    if k == |acc| {
      var r := AddToMonth(acc, t, monthOf);
      assert r[..|acc|] == acc;
    } else {
      EntriesTotalUpdate(acc, k, Credit(acc[k], t));
    }
  }

  /** Adding one transaction adds its month to the month set. */
  lemma MonthsOfSnoc(ts: seq<Transaction>, monthOf: string -> string)
    requires |ts| > 0
    ensures MonthsOf(ts, monthOf) == MonthsOf(ts[..|ts| - 1], monthOf) + {monthOf(ts[|ts| - 1].date)}
  {
    var init := ts[..|ts| - 1];
    forall x | x in MonthsOf(ts, monthOf) ensures x in MonthsOf(init, monthOf) + {monthOf(ts[|ts| - 1].date)} {
      var i :| 0 <= i < |ts| && monthOf(ts[i].date) == x;
      if i < |init| { assert monthOf(init[i].date) == x; }
    }
    forall x | x in MonthsOf(init, monthOf) ensures x in MonthsOf(ts, monthOf) {
      var i :| 0 <= i < |init| && monthOf(init[i].date) == x;
      assert monthOf(ts[i].date) == x;
    }
    assert monthOf(ts[|ts| - 1].date) in MonthsOf(ts, monthOf);
  }

  /** A month no transaction falls in has zero sums. */
  lemma {:induction false} AbsentMonthSumsZero(ts: seq<Transaction>, key: string, monthOf: string -> string)
    requires key !in MonthsOf(ts, monthOf)
    ensures MonthIncome(ts, key, monthOf) == 0 && MonthExpenses(ts, key, monthOf) == 0
  {
    if |ts| > 0 {
      MonthsOfSnoc(ts, monthOf);
      AbsentMonthSumsZero(ts[..|ts| - 1], key, monthOf);
    }
  }

  /** One entry per month, one month per entry: the labels are distinct, they
      are exactly the months of the transactions, and there are no more
      entries than transactions (so an empty list gives no entries). */
  lemma {:induction false} MonthlyGroupsKeys(ts: seq<Transaction>, monthOf: string -> string)
    ensures var r := MonthlyGroups(ts, monthOf);
      DistinctBy(r, MonthKey) && |r| <= |ts| && MonthKeys(r) == MonthsOf(ts, monthOf)
  {
    if |ts| > 0 {
      var init := ts[..|ts| - 1];
      var acc := MonthlyGroups(init, monthOf);
      MonthlyGroupsKeys(init, monthOf);
      AddToMonthKeys(acc, ts[|ts| - 1], monthOf);
      AddToMonthCredits(acc, ts[|ts| - 1], monthOf);
      MonthsOfSnoc(ts, monthOf);
    }
  }

  /** Each entry holds its month's "income" sum and the sum of all other
      amounts of that month. */
  lemma {:induction false} MonthlyGroupsSums(ts: seq<Transaction>, monthOf: string -> string)
    ensures var r := MonthlyGroups(ts, monthOf);
      forall i :: 0 <= i < |r| ==>
        r[i].income == MonthIncome(ts, r[i].month, monthOf) &&
        r[i].expenses == MonthExpenses(ts, r[i].month, monthOf)
  {
    if |ts| > 0 {
      var init, t := ts[..|ts| - 1], ts[|ts| - 1];
      var acc := MonthlyGroups(init, monthOf);
      var r := MonthlyGroups(ts, monthOf);
      MonthlyGroupsSums(init, monthOf);
      MonthlyGroupsKeys(init, monthOf);
      AddToMonthCredits(acc, t, monthOf);
      if |r| == |acc| + 1 {
        AbsentMonthSumsZero(init, monthOf(t.date), monthOf);
      }
    }
  }

  /** Conservation: the entries' income and expenses together add up to the
      sum of all amounts, since every record lands in exactly one bucket. */
  lemma {:induction false} MonthlyGroupsConserveTotal(ts: seq<Transaction>, monthOf: string -> string)
    ensures EntriesTotal(MonthlyGroups(ts, monthOf)) == TotalAmount(ts)
  {
    if |ts| > 0 {
      MonthlyGroupsConserveTotal(ts[..|ts| - 1], monthOf);
      AddToMonthTotal(MonthlyGroups(ts[..|ts| - 1], monthOf), ts[|ts| - 1], monthOf);
    }
  }
}
