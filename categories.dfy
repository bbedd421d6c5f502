/** `categoryData` of src/components/Dashboard.tsx: a `reduce` into an object
    keyed by category, which opens a bucket for every category it meets but
    adds only "expense" amounts; its entries, in insertion order, are then
    sorted by value, largest first, and cut to the first five. */
module Categories {
  import opened Transactions
  import opened Sorting
  import opened Totals

  /** `.slice(0, 5)`. */
  const TopCount: nat := 5

  /** `{ name, value }`. */
  datatype CategoryEntry = CategoryEntry(name: string, value: int)

  function NameOf(e: CategoryEntry): string { e.name }

  /** The sort key of `(a, b) => b.value - a.value`. */
  function ValueOf(e: CategoryEntry): int { e.value }

  /** The category names of the entries. */
  function CategoryKeys(acc: seq<CategoryEntry>): set<string> {
    set i | 0 <= i < |acc| :: acc[i].name
  }

  /** The categories the transactions carry, whatever their type. */
  function CategoriesOf(ts: seq<Transaction>): set<string> {
    set i | 0 <= i < |ts| :: ts[i].category
  }

  /** Reference sum: the "expense" amounts of one category. */
  function CategoryExpense(ts: seq<Transaction>, name: string): int {
    if |ts| == 0 then 0
    else
      var t := ts[|ts| - 1];
      CategoryExpense(ts[..|ts| - 1], name) + (if t.category == name && t.kind == Expense then t.amount else 0)
  }

  /** Sum of the entries' values. */
  function ValuesTotal(acc: seq<CategoryEntry>): int {
    if |acc| == 0 then 0 else ValuesTotal(acc[..|acc| - 1]) + acc[|acc| - 1].value
  }

  /** `acc[t.category]`: the position of the entry for `name`, or `|acc|`. */
  function IndexOfCategory(acc: seq<CategoryEntry>, name: string): (k: nat)
    ensures k <= |acc|
    ensures k < |acc| ==> acc[k].name == name
    ensures forall i :: 0 <= i < k ==> acc[i].name != name
  {
    if |acc| == 0 then 0
    else if acc[0].name == name then 0
    else 1 + IndexOfCategory(acc[1..], name)
  }

  /** Adds a record's amount to a bucket when the record is an "expense". */
  function Charge(e: CategoryEntry, t: Transaction): CategoryEntry {
    if t.kind == Expense then e.(value := e.value + t.amount) else e
  }

  /** One call of the reducer: open the category's bucket at 0 if missing,
      then charge it. */
  function AddToCategory(acc: seq<CategoryEntry>, t: Transaction): (r: seq<CategoryEntry>)
    ensures |acc| <= |r| <= |acc| + 1
    ensures forall i :: 0 <= i < |acc| ==> r[i].name == acc[i].name
    ensures |r| == |acc| + 1 ==> r[|acc|].name == t.category
  {
    var k := IndexOfCategory(acc, t.category);
    if k == |acc| then acc + [Charge(CategoryEntry(t.category, 0), t)]
    else acc[k := Charge(acc[k], t)]
  }

  /** The grouped object after the reduce, as `Object.entries` lists it. */
  function CategoryGroups(ts: seq<Transaction>): (r: seq<CategoryEntry>)
    ensures |r| <= |ts|
    ensures |ts| > 0 ==> |r| > 0
  {
    if |ts| == 0 then [] else AddToCategory(CategoryGroups(ts[..|ts| - 1]), ts[|ts| - 1])
  }

  /** `.sort((a, b) => b.value - a.value).slice(0, 5)`. */
  function TopCategories(groups: seq<CategoryEntry>): (r: seq<CategoryEntry>)
    ensures |r| <= TopCount && |r| <= |groups|
    ensures |groups| >= TopCount ==> |r| == TopCount
    ensures |groups| < TopCount ==> multiset(r) == multiset(groups)
    ensures NonIncreasing(r, ValueOf)
    ensures forall i :: 0 <= i < |r| ==> r[i] in groups
    ensures multiset(r) <= multiset(groups)
  {
    var sorted := SortByKeyDesc(groups, ValueOf);
    var r := sorted[..if |sorted| < TopCount then |sorted| else TopCount];
    assert multiset(r) <= multiset(groups) by {
      PrefixIsSubMultiset(sorted, |r|);
    }
    assert forall i :: 0 <= i < |r| ==> r[i] in groups by {
      forall i | 0 <= i < |r| ensures r[i] in groups {
        assert r[i] in multiset(r);
      }
    }
    assert NonIncreasing(r, ValueOf);
    if |groups| < TopCount then assert r == sorted; r else r
  }

  /** A prefix holds no element more often than the whole sequence. */
  lemma PrefixIsSubMultiset<T>(s: seq<T>, n: nat)
    requires n <= |s|
    ensures multiset(s[..n]) <= multiset(s)
  {
    assert s == s[..n] + s[n..];
  }

  /** The `categoryData` computation: the fold, run in place over an
      accumulator, then the sort and the cut. */
  method CategoryData(ts: seq<Transaction>) returns (data: seq<CategoryEntry>)
    ensures data == TopCategories(CategoryGroups(ts))
  {
    var acc: seq<CategoryEntry> := [];
    var i := 0;
    while i < |ts|
      invariant 0 <= i <= |ts|
      invariant acc == CategoryGroups(ts[..i])
    {
      var t := ts[i];
      var k := IndexOfCategory(acc, t.category);
      if k == |acc| {
        acc := acc + [CategoryEntry(t.category, 0)];
      }
      if t.kind == Expense {
        acc := acc[k := acc[k].(value := acc[k].value + t.amount)];
      }
      assert ts[..i + 1][..i] == ts[..i];
      i := i + 1;
    }
    assert ts[..i] == ts;
    data := TopCategories(acc);
  }

  /** A form-made expense (typed "gasto") is never charged: its category
      shows 0. */
  lemma FormExpenseNotCharged()
    ensures var ts := [Transaction("b", "2024-01-06", "gasto", "Comida", "almuerzo", 1000, "Efectivo", None, None)];
      TopCategories(CategoryGroups(ts)) == [CategoryEntry("Comida", 0)]
  {
    var ts := [Transaction("b", "2024-01-06", "gasto", "Comida", "almuerzo", 1000, "Efectivo", None, None)];
    assert ts[..0] == [];
    assert "gasto"[0] != Expense[0];
    var groups := CategoryGroups(ts);
    assert groups == [CategoryEntry("Comida", 0)];
    var r := TopCategories(groups);
    assert multiset(r) == multiset(groups);
    assert |r| == 1 && r[0] in multiset(groups);
  }

  /** Replacing one entry changes the total by the difference. */
  lemma {:induction false} ValuesTotalUpdate(acc: seq<CategoryEntry>, k: nat, e: CategoryEntry)
    requires k < |acc|
    ensures ValuesTotal(acc[k := e]) == ValuesTotal(acc) - acc[k].value + e.value
  {
    var n := |acc|;
    if k == n - 1 {
      assert acc[k := e][..n - 1] == acc[..n - 1];
    } else {
      assert acc[k := e][..n - 1] == acc[..n - 1][k := e];
      ValuesTotalUpdate(acc[..n - 1], k, e);
    }
  }

  /** One reducer step keeps names distinct and adds the record's category. */
  lemma AddToCategoryKeys(acc: seq<CategoryEntry>, t: Transaction)
    requires DistinctBy(acc, NameOf)
    ensures DistinctBy(AddToCategory(acc, t), NameOf)
    ensures CategoryKeys(AddToCategory(acc, t)) == CategoryKeys(acc) + {t.category}
  {
    var r := AddToCategory(acc, t);
    var k := IndexOfCategory(acc, t.category);
    assert forall i :: 0 <= i < |r| ==> r[i].name == (if i < |acc| then acc[i].name else t.category);
    forall x | x in CategoryKeys(r) ensures x in CategoryKeys(acc) + {t.category} {
      var i :| 0 <= i < |r| && r[i].name == x;
      if i < |acc| { assert acc[i].name == x; }
    }
    forall x | x in CategoryKeys(acc) ensures x in CategoryKeys(r) {
      var i :| 0 <= i < |acc| && acc[i].name == x;
      assert r[i].name == x;
    }
    assert r[k].name == t.category;
  }

  /** One reducer step charges exactly the bucket of the record's category. */
  lemma AddToCategoryCharges(acc: seq<CategoryEntry>, t: Transaction)
    requires DistinctBy(acc, NameOf)
    ensures var r := AddToCategory(acc, t);
      && |acc| <= |r| <= |acc| + 1
      && (forall i :: 0 <= i < |acc| ==> r[i] == if acc[i].name == t.category then Charge(acc[i], t) else acc[i])
      && (|r| == |acc| + 1 ==> t.category !in CategoryKeys(acc) && r[|acc|] == Charge(CategoryEntry(t.category, 0), t))
  {
    var k := IndexOfCategory(acc, t.category);
    if k < |acc| {
      forall i | 0 <= i < |acc| && i != k ensures acc[i].name != t.category {
        assert NameOf(acc[i]) != NameOf(acc[k]);
      }
    }
  }

  /** Adding one transaction adds its category to the category set. */
  lemma CategoriesOfSnoc(ts: seq<Transaction>)
    requires |ts| > 0
    ensures CategoriesOf(ts) == CategoriesOf(ts[..|ts| - 1]) + {ts[|ts| - 1].category}
  {
    var init := ts[..|ts| - 1];
    forall x | x in CategoriesOf(ts) ensures x in CategoriesOf(init) + {ts[|ts| - 1].category} {
      var i :| 0 <= i < |ts| && ts[i].category == x;
      if i < |init| { assert init[i].category == x; }
    }
    forall x | x in CategoriesOf(init) ensures x in CategoriesOf(ts) {
      var i :| 0 <= i < |init| && init[i].category == x;
      assert ts[i].category == x;
    }
    assert ts[|ts| - 1].category in CategoriesOf(ts);
  }

  /** A category with no "expense" record sums to zero. */
  lemma {:induction false} CategoryWithoutExpensesIsZero(ts: seq<Transaction>, name: string)
    requires forall i :: 0 <= i < |ts| && ts[i].category == name ==> ts[i].kind != Expense
    ensures CategoryExpense(ts, name) == 0
  {
    if |ts| > 0 {
      CategoryWithoutExpensesIsZero(ts[..|ts| - 1], name);
    }
  }

  /** One bucket per category met, income categories included: names are
      distinct, they are exactly the categories of the transactions, and there
      are no more buckets than transactions. */
  lemma {:induction false} CategoryGroupsKeys(ts: seq<Transaction>)
    ensures var r := CategoryGroups(ts);
      DistinctBy(r, NameOf) && |r| <= |ts| && CategoryKeys(r) == CategoriesOf(ts)
  {
    if |ts| > 0 {
      var init := ts[..|ts| - 1];
      CategoryGroupsKeys(init);
      AddToCategoryKeys(CategoryGroups(init), ts[|ts| - 1]);
      AddToCategoryCharges(CategoryGroups(init), ts[|ts| - 1]);
      CategoriesOfSnoc(ts);
    }
  }

  /** Each bucket holds the sum of its category's "expense" amounts. */
  lemma {:induction false} CategoryGroupsValues(ts: seq<Transaction>)
    ensures var r := CategoryGroups(ts);
      forall i :: 0 <= i < |r| ==> r[i].value == CategoryExpense(ts, r[i].name)
  {
    if |ts| > 0 {
      var init, t := ts[..|ts| - 1], ts[|ts| - 1];
      var acc := CategoryGroups(init);
      CategoryGroupsValues(init);
      CategoryGroupsKeys(init);
      AddToCategoryCharges(acc, t);
      if |CategoryGroups(ts)| == |acc| + 1 {
        forall i | 0 <= i < |init| ensures init[i].category != t.category {
          assert init[i].category in CategoriesOf(init);
        }
        CategoryWithoutExpensesIsZero(init, t.category);
      }
    }
  }

  /** Conservation: the buckets together hold every "expense" amount, the
      same total the `stats` expense sum reports. */
  lemma {:induction false} CategoryGroupsTotal(ts: seq<Transaction>)
    ensures ValuesTotal(CategoryGroups(ts)) == SumOfKind(ts, Expense)
  {
    if |ts| > 0 {
      var init, t := ts[..|ts| - 1], ts[|ts| - 1];
      var acc := CategoryGroups(init);
      CategoryGroupsTotal(init);
      var k := IndexOfCategory(acc, t.category);
      if k == |acc| {
        assert AddToCategory(acc, t)[..|acc|] == acc;
      } else {
        ValuesTotalUpdate(acc, k, Charge(acc[k], t));
      }
    }
  }

  /** The cut keeps the largest values: anything left out is no larger than
      anything kept. */
  lemma TopCategoriesAreLargest(groups: seq<CategoryEntry>)
    ensures var r := TopCategories(groups);
      forall e, i :: e in groups && e !in r && 0 <= i < |r| ==> r[i].value >= e.value
  {
    var sorted := SortByKeyDesc(groups, ValueOf);
    var r := TopCategories(groups);
    assert r == sorted[..|r|];
    forall e, i | e in groups && e !in r && 0 <= i < |r| ensures r[i].value >= e.value {
      assert e in multiset(sorted);
      var j :| 0 <= j < |sorted| && sorted[j] == e;
      assert j >= |r|;
      assert ValueOf(sorted[i]) >= ValueOf(sorted[j]);
    }
  }

  /** The cut keeps names distinct. */
  lemma TopCategoriesDistinct(groups: seq<CategoryEntry>)
    requires DistinctBy(groups, NameOf)
    ensures DistinctBy(TopCategories(groups), NameOf)
  {
    SortKeepsDistinct(groups, ValueOf, NameOf);
  }

  /** What `categoryData` delivers: at most five buckets, largest value first,
      distinct names drawn from the transactions' categories, each valued at
      its category's "expense" sum (so a category met only on income records
      shows 0). */
  lemma CategoryDataSpec(ts: seq<Transaction>)
    ensures var r := TopCategories(CategoryGroups(ts));
      && |r| <= TopCount
      && NonIncreasing(r, ValueOf)
      && DistinctBy(r, NameOf)
      && (forall i :: 0 <= i < |r| ==> r[i].name in CategoriesOf(ts))
      && (forall i :: 0 <= i < |r| ==> r[i].value == CategoryExpense(ts, r[i].name))
  {
    var groups := CategoryGroups(ts);
    var r := TopCategories(groups);
    CategoryGroupsKeys(ts);
    CategoryGroupsValues(ts);
    TopCategoriesDistinct(groups);
    forall i | 0 <= i < |r|
      ensures r[i].name in CategoriesOf(ts) && r[i].value == CategoryExpense(ts, r[i].name)
    {
      var j :| 0 <= j < |groups| && groups[j] == r[i];
      assert groups[j].name in CategoryKeys(groups);
    }
  }
}
