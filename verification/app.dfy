/**
 * The values the expense dashboard derives from the fetched expense list on
 * every render: the rows matching the search box, the per-category totals,
 * the grand total and the badge style of a category.
 */
module App {
  import opened AsciiText
  import Seqs

  datatype Option<T> = None | Some(value: T)

  /** One row of the expense list; `amount` is in paise (hundredths of a rupee). */
  datatype Expense = Expense(id: int, title: string, amount: int, category: string)

  // ---------------------------------------------------------------------
  // Search: `filteredExpenses`
  // ---------------------------------------------------------------------

  /** The lower-cased title includes the lower-cased search text. */
  predicate Matches(e: Expense, search: string)
    ensures Matches(e, search) ==> |search| <= |e.title|
  {
    Contains(LowerStr(e.title), LowerStr(search))
  }

  /** The callback handed to `filter`. */
  function SearchFilter(search: string): Expense -> bool
  {
    (e: Expense) => Matches(e, search)
  }

  /** `expenses.filter(exp => exp.title.toLowerCase().includes(search.toLowerCase()))` */
  function FilteredExpenses(expenses: seq<Expense>, search: string): (rows: seq<Expense>)
    ensures |rows| <= |expenses|
    ensures forall i :: 0 <= i < |rows| ==> Matches(rows[i], search) && rows[i] in expenses
    ensures forall i :: 0 <= i < |expenses| && Matches(expenses[i], search) ==> expenses[i] in rows
  {
    Seqs.Filter(expenses, SearchFilter(search))
  }

  /**
   * The rows are the matching expenses, each exactly once, in list order:
   * row `k` is the expense at the `k`-th matching position.
   */
  lemma FilteredInListOrder(expenses: seq<Expense>, search: string)
    ensures var idx := Seqs.KeptIndices(expenses, SearchFilter(search));
      && Seqs.Increasing(idx)
      && |FilteredExpenses(expenses, search)| == |idx|
      && (forall k :: 0 <= k < |idx| ==> FilteredExpenses(expenses, search)[k] == expenses[idx[k]])
      && (forall j :: 0 <= j < |expenses| ==> (j in idx <==> Matches(expenses[j], search)))
  {
    Seqs.FilterByIndices(expenses, SearchFilter(search));
  }

  /** An empty search box shows every expense. */
  lemma EmptySearchKeepsAll(expenses: seq<Expense>)
    ensures FilteredExpenses(expenses, "") == expenses
  {
    forall i | 0 <= i < |expenses|
      ensures SearchFilter("")(expenses[i])
    {
      ContainsEmpty(LowerStr(expenses[i].title));
    }
    Seqs.FilterKeepsAll(expenses, SearchFilter(""));
  }

  /** Typing the search text in another letter case shows the same rows. */
  lemma SearchIgnoresCase(expenses: seq<Expense>, search: string, recased: string)
    requires IsRecasing(recased, search)
    ensures FilteredExpenses(expenses, recased) == FilteredExpenses(expenses, search)
  {
    RecasingLowersAlike(recased, search);
    Seqs.FilterAgrees(expenses, SearchFilter(recased), SearchFilter(search));
  }

  /** Writing a title in another letter case does not change whether it matches. */
  lemma TitleCaseIgnored(e: Expense, title: string, search: string)
    requires IsRecasing(title, e.title)
    ensures Matches(e.(title := title), search) == Matches(e, search)
  {
    RecasingLowersAlike(title, e.title);
  }

  /** Searching the shown rows again with the same text shows the same rows. */
  lemma FilteredIdempotent(expenses: seq<Expense>, search: string)
    ensures FilteredExpenses(FilteredExpenses(expenses, search), search) == FilteredExpenses(expenses, search)
  {
    Seqs.FilterIdempotent(expenses, SearchFilter(search));
  }

  // ---------------------------------------------------------------------
  // Grand total: `total`
  // ---------------------------------------------------------------------

  /** `expenses.reduce((sum, exp) => sum + exp.amount, 0)` */
  function Total(expenses: seq<Expense>): (sum: int)
    ensures (forall i :: 0 <= i < |expenses| ==> expenses[i].amount >= 0) ==> sum >= 0
  {
    if expenses == [] then 0
    else Total(expenses[..|expenses| - 1]) + expenses[|expenses| - 1].amount
  }

  /** The total of two lists laid end to end is the sum of their totals. */
  lemma {:induction false} TotalAppend(a: seq<Expense>, b: seq<Expense>)
    ensures Total(a + b) == Total(a) + Total(b)
    decreases |b|
  {
    if b == [] {
      assert a + b == a;
    } else {
      assert (a + b)[..|a + b| - 1] == a + b[..|b| - 1];
      TotalAppend(a, b[..|b| - 1]);
    }
  }

  // ---------------------------------------------------------------------
  // Per-category totals: `categoryTotals`
  // ---------------------------------------------------------------------

  /**
   * A JavaScript object used as a dictionary: its (key, value) entries in
   * insertion order, which is the order `Object.entries` lists them in.
   */
  type Totals = seq<(string, int)>

  function KeysOf(acc: Totals): (keys: seq<string>)
    ensures |keys| == |acc|
  {
    if acc == [] then [] else [acc[0].0] + KeysOf(acc[1..])
  }

  function ValueSum(acc: Totals): int
  {
    if acc == [] then 0 else acc[0].1 + ValueSum(acc[1..])
  }

  ghost predicate Distinct(keys: seq<string>)
  {
    forall i, j :: 0 <= i < j < |keys| ==> keys[i] != keys[j]
  }

  /** `acc[k]`: the value stored under `k`, or `None` for `undefined`. */
  function Get(acc: Totals, k: string): Option<int>
  {
    if acc == [] then None
    else if acc[0].0 == k then Some(acc[0].1)
    else Get(acc[1..], k)
  }

  /** `acc[k]` is defined exactly when `k` is one of the keys. */
  lemma {:induction false} GetDefined(acc: Totals, k: string)
    ensures Get(acc, k).Some? <==> k in KeysOf(acc)
  {
    if acc != [] && acc[0].0 != k {
      GetDefined(acc[1..], k);
    }
  }

  /** A value read under `k` is stored in an entry for `k`. */
  lemma {:induction false} GetEntry(acc: Totals, k: string)
    requires Get(acc, k).Some?
    ensures (k, Get(acc, k).value) in acc
  {
    if acc[0].0 != k {
      GetEntry(acc[1..], k);
    }
  }

  /** `acc[k] || 0` */
  function ValueOrZero(acc: Totals, k: string): int
  {
    match Get(acc, k)
    case Some(v) => v
    case None => 0
  }

  /** `acc[k] || 0` is `0` for a missing key, and otherwise a value stored under `k`. */
  lemma ValueOrZeroStored(acc: Totals, k: string)
    ensures k !in KeysOf(acc) ==> ValueOrZero(acc, k) == 0
    ensures k in KeysOf(acc) ==> (k, ValueOrZero(acc, k)) in acc
  {
    GetDefined(acc, k);
    if k in KeysOf(acc) {
      GetEntry(acc, k);
    }
  }

  /** `acc[k] = v`: overwrite the entry for `k` in place, or add it at the end. */
  function Put(acc: Totals, k: string, v: int): (r: Totals)
    ensures Get(r, k) == Some(v)
  {
    if acc == [] then [(k, v)]
    else if acc[0].0 == k then [(k, v)] + acc[1..]
    else [acc[0]] + Put(acc[1..], k, v)
  }

  /** An existing key keeps its place; a new key goes last. */
  lemma {:induction false} PutKeys(acc: Totals, k: string, v: int)
    ensures KeysOf(Put(acc, k, v)) == if k in KeysOf(acc) then KeysOf(acc) else KeysOf(acc) + [k]
  {
    if acc != [] && acc[0].0 != k {
      PutKeys(acc[1..], k, v);
    }
  }

  /** Writing under `k` leaves every other key's value alone. */
  lemma {:induction false} PutOthers(acc: Totals, k: string, v: int, other: string)
    requires other != k
    ensures Get(Put(acc, k, v), other) == Get(acc, other)
  {
    if acc != [] && acc[0].0 != k {
      PutOthers(acc[1..], k, v, other);
    }
  }

  /** Every entry after the write was there before, or is the one written. */
  lemma {:induction false} PutEntries(acc: Totals, k: string, v: int)
    ensures forall i :: 0 <= i < |Put(acc, k, v)| ==> Put(acc, k, v)[i] in acc || Put(acc, k, v)[i] == (k, v)
  {
    if acc != [] && acc[0].0 != k {
      PutEntries(acc[1..], k, v);
      var r, r' := Put(acc, k, v), Put(acc[1..], k, v);
      forall i | 0 <= i < |r|
        ensures r[i] in acc || r[i] == (k, v)
      {
        if i > 0 {
          assert r[i] == r'[i - 1];
        }
      }
    }
  }

  /** The write replaces the old value of `k` (or `0`) by `v` in the sum of all values. */
  lemma {:induction false} PutSum(acc: Totals, k: string, v: int)
    ensures ValueSum(Put(acc, k, v)) == ValueSum(acc) - ValueOrZero(acc, k) + v
  {
    if acc != [] && acc[0].0 != k {
      PutSum(acc[1..], k, v);
    }
  }

  /** The `reduce` callback: `acc[exp.category] = (acc[exp.category] || 0) + exp.amount`. */
  function AddExpense(acc: Totals, exp: Expense): (r: Totals)
    ensures Get(r, exp.category) == Some(ValueOrZero(acc, exp.category) + exp.amount)
  {
    Put(acc, exp.category, ValueOrZero(acc, exp.category) + exp.amount)
  }

  /** The accumulator `reduce` has built after visiting every expense, starting from `{}`. */
  function Tally(expenses: seq<Expense>): (r: Totals)
    ensures |r| <= |expenses|
  {
    if expenses == [] then []
    else
      var acc, exp := Tally(expenses[..|expenses| - 1]), expenses[|expenses| - 1];
      PutKeys(acc, exp.category, ValueOrZero(acc, exp.category) + exp.amount);
      AddExpense(acc, exp)
  }

  /** Some expense carries category `c`. */
  predicate Occurs(expenses: seq<Expense>, c: string)
  {
    exists i :: 0 <= i < |expenses| && expenses[i].category == c
  }

  /** Where category `c` first appears in the list (`|expenses|` when it does not). */
  function FirstIndex(expenses: seq<Expense>, c: string): (r: nat)
    ensures r <= |expenses|
    ensures r < |expenses| <==> Occurs(expenses, c)
    ensures r < |expenses| ==> expenses[r].category == c
    ensures forall j :: 0 <= j < r ==> expenses[j].category != c
  {
    if expenses == [] then 0
    else if expenses[0].category == c then 0
    else
      var r := 1 + FirstIndex(expenses[1..], c);
      assert forall j :: 1 <= j < |expenses| ==> expenses[j] == expenses[1..][j - 1];
      r
  }

  /** The sum of the amounts of the expenses of category `c`. */
  function SumFor(expenses: seq<Expense>, c: string): int
  {
    if expenses == [] then 0
    else
      var last := expenses[|expenses| - 1];
      SumFor(expenses[..|expenses| - 1], c) + (if last.category == c then last.amount else 0)
  }

  /** Adding an expense to the end of the list leaves earlier first appearances where they were. */
  lemma FirstIndexExtend(p: seq<Expense>, x: Expense, c: string)
    requires Occurs(p, c)
    ensures FirstIndex(p + [x], c) == FirstIndex(p, c)
  {
    var s := p + [x];
    var a, b := FirstIndex(p, c), FirstIndex(s, c);
    assert s[a] == p[a];
  }

  /** A category occurs in a list with one more expense when it occurred before or is the new one's. */
  lemma OccursExtend(p: seq<Expense>, x: Expense, c: string)
    ensures Occurs(p + [x], c) <==> Occurs(p, c) || x.category == c
  {
    var s := p + [x];
    if Occurs(s, c) {
      var j :| 0 <= j < |s| && s[j].category == c;
      if j < |p| {
        assert p[j].category == c;
      }
    }
    if Occurs(p, c) {
      var j :| 0 <= j < |p| && p[j].category == c;
      assert s[j].category == c;
    }
    if x.category == c {
      assert s[|p|].category == c;
    }
  }

  /** Visiting one more expense is one more `acc[exp.category] = (acc[exp.category] || 0) + exp.amount`. */
  lemma TallyAppendOne(p: seq<Expense>, x: Expense)
    ensures Tally(p + [x]) == Put(Tally(p), x.category, ValueOrZero(Tally(p), x.category) + x.amount)
  {
    assert (p + [x])[..|p|] == p;
  }

  /** One more expense adds its category as the last key when it is new, and changes no key otherwise. */
  lemma TallyKeysStep(p: seq<Expense>, x: Expense)
    ensures KeysOf(Tally(p + [x])) ==
      if x.category in KeysOf(Tally(p)) then KeysOf(Tally(p)) else KeysOf(Tally(p)) + [x.category]
  {
    TallyAppendOne(p, x);
    PutKeys(Tally(p), x.category, ValueOrZero(Tally(p), x.category) + x.amount);
  }

  /** There is a key for exactly the categories that occur: none is invented, none is missing. */
  lemma {:induction false} TallyKeysOccur(expenses: seq<Expense>)
    ensures forall c :: c in KeysOf(Tally(expenses)) <==> Occurs(expenses, c)
  {
    if expenses != [] {
      var n := |expenses| - 1;
      var p, x := expenses[..n], expenses[n];
      assert expenses == p + [x];
      TallyKeysOccur(p);
      TallyKeysStep(p, x);
      forall c
        ensures c in KeysOf(Tally(expenses)) <==> Occurs(expenses, c)
      {
        OccursExtend(p, x, c);
      }
    }
  }

  /** No category gets two keys. */
  lemma {:induction false} TallyKeysDistinct(expenses: seq<Expense>)
    ensures Distinct(KeysOf(Tally(expenses)))
  {
    if expenses != [] {
      var n := |expenses| - 1;
      var p, x := expenses[..n], expenses[n];
      assert expenses == p + [x];
      TallyKeysDistinct(p);
      TallyKeysStep(p, x);
      if x.category !in KeysOf(Tally(p)) {
        DistinctAppend(KeysOf(Tally(p)), x.category);
      }
    }
  }

  /** A new key appended to distinct keys keeps them distinct. */
  lemma DistinctAppend(keys: seq<string>, k: string)
    requires Distinct(keys) && k !in keys
    ensures Distinct(keys + [k])
  {
    var r := keys + [k];
    forall i, j | 0 <= i < j < |r|
      ensures r[i] != r[j]
    {
      assert r[i] == keys[i];
      if j < |keys| {
        assert r[j] == keys[j];
      }
    }
  }

  /** There is one key for each category that occurs and for no other. */
  lemma TallyKeySet(expenses: seq<Expense>)
    ensures Distinct(KeysOf(Tally(expenses)))
    ensures forall c :: c in KeysOf(Tally(expenses)) <==> Occurs(expenses, c)
  {
    TallyKeysOccur(expenses);
    TallyKeysDistinct(expenses);
  }

  /** A category new to the list first appears at the expense just added. */
  lemma FirstIndexNew(p: seq<Expense>, x: Expense)
    requires !Occurs(p, x.category)
    ensures FirstIndex(p + [x], x.category) == |p|
  {
    OccursExtend(p, x, x.category);
    assert (p + [x])[|p|] == x;
  }

  /** `keys` are listed in the order their categories first appear in `expenses`. */
  ghost predicate InFirstAppearanceOrder(expenses: seq<Expense>, keys: seq<string>)
  {
    forall i, j :: 0 <= i < j < |keys| ==> FirstIndex(expenses, keys[i]) < FirstIndex(expenses, keys[j])
  }

  /** Categories that already occur keep their first appearance when an expense is added. */
  lemma FirstIndicesKept(p: seq<Expense>, x: Expense, keys0: seq<string>)
    requires forall c :: c in keys0 ==> Occurs(p, c)
    ensures forall i :: 0 <= i < |keys0| ==> FirstIndex(p + [x], keys0[i]) == FirstIndex(p, keys0[i]) < |p|
  {
    forall i | 0 <= i < |keys0|
      ensures FirstIndex(p + [x], keys0[i]) == FirstIndex(p, keys0[i]) < |p|
    {
      assert keys0[i] in keys0;
      FirstIndexExtend(p, x, keys0[i]);
    }
  }

  /** Appending a new category as the last key keeps the keys in first-appearance order. */
  lemma KeyOrderExtend(p: seq<Expense>, x: Expense, keys0: seq<string>, keys: seq<string>)
    requires forall c :: c in keys0 <==> Occurs(p, c)
    requires InFirstAppearanceOrder(p, keys0)
    requires keys == if x.category in keys0 then keys0 else keys0 + [x.category]
    ensures InFirstAppearanceOrder(p + [x], keys)
  {
    var s := p + [x];
    FirstIndicesKept(p, x, keys0);
    if x.category !in keys0 {
      FirstIndexNew(p, x);
      forall i, j | 0 <= i < j < |keys|
        ensures FirstIndex(s, keys[i]) < FirstIndex(s, keys[j])
      {
        assert keys[i] == keys0[i];
        if j < |keys0| {
          assert keys[j] == keys0[j];
        }
      }
    }
  }

  /** The keys are listed in the order their categories first appear in the list. */
  lemma {:induction false} TallyKeyOrder(expenses: seq<Expense>)
    ensures InFirstAppearanceOrder(expenses, KeysOf(Tally(expenses)))
  {
    if expenses != [] {
      var n := |expenses| - 1;
      var p, x := expenses[..n], expenses[n];
      assert expenses == p + [x];
      TallyKeyOrder(p);
      TallyKeysOccur(p);
      TallyKeysStep(p, x);
      KeyOrderExtend(p, x, KeysOf(Tally(p)), KeysOf(Tally(expenses)));
    }
  }

  /** One more expense adds its amount to its own category's sum and nothing to the others. */
  lemma SumForExtend(p: seq<Expense>, x: Expense, c: string)
    ensures SumFor(p + [x], c) == SumFor(p, c) + (if x.category == c then x.amount else 0)
  {
    assert (p + [x])[..|p|] == p;
  }

  /** A category that does not occur sums to zero. */
  lemma {:induction false} SumForAbsent(p: seq<Expense>, c: string)
    requires !Occurs(p, c)
    ensures SumFor(p, c) == 0
  {
    if p != [] {
      var n := |p| - 1;
      assert forall i :: 0 <= i < n ==> p[..n][i] == p[i];
      SumForAbsent(p[..n], c);
      assert p[n].category != c;
    }
  }

  /** Where a category's value is its sum so far, `acc[c] || 0` reads that sum. */
  lemma ValueIsSum(p: seq<Expense>, c: string, acc: Totals)
    requires Get(acc, c) == if Occurs(p, c) then Some(SumFor(p, c)) else None
    ensures ValueOrZero(acc, c) == SumFor(p, c)
  {
    if !Occurs(p, c) {
      SumForAbsent(p, c);
    }
  }

  /** One `reduce` step adds the expense's amount to its own category's value. */
  lemma ValueStepSame(p: seq<Expense>, x: Expense, acc: Totals)
    requires Get(acc, x.category) == if Occurs(p, x.category) then Some(SumFor(p, x.category)) else None
    ensures Get(AddExpense(acc, x), x.category) == Some(SumFor(p + [x], x.category))
  {
    ValueIsSum(p, x.category, acc);
    SumForExtend(p, x, x.category);
  }

  /** One `reduce` step leaves the values of the other categories alone. */
  lemma ValueStepOther(p: seq<Expense>, x: Expense, c: string, acc: Totals)
    requires c != x.category
    requires Get(acc, c) == if Occurs(p, c) then Some(SumFor(p, c)) else None
    ensures Get(AddExpense(acc, x), c) == if Occurs(p + [x], c) then Some(SumFor(p + [x], c)) else None
  {
    OccursExtend(p, x, c);
    SumForExtend(p, x, c);
    PutOthers(acc, x.category, ValueOrZero(acc, x.category) + x.amount, c);
  }

  /** The value under each category is the sum of that category's amounts. */
  lemma {:induction false} TallyValues(expenses: seq<Expense>, c: string)
    ensures Get(Tally(expenses), c) == if Occurs(expenses, c) then Some(SumFor(expenses, c)) else None
  {
    if expenses != [] {
      var n := |expenses| - 1;
      var p, x := expenses[..n], expenses[n];
      assert expenses == p + [x];
      TallyValues(p, c);
      if c == x.category {
        OccursExtend(p, x, c);
        ValueStepSame(p, x, Tally(p));
      } else {
        ValueStepOther(p, x, c, Tally(p));
      }
    }
  }

  /** The category totals add up to the grand total. */
  lemma {:induction false} TallySum(expenses: seq<Expense>)
    ensures ValueSum(Tally(expenses)) == Total(expenses)
  {
    if expenses != [] {
      var p, x := expenses[..|expenses| - 1], expenses[|expenses| - 1];
      TallySum(p);
      PutSum(Tally(p), x.category, ValueOrZero(Tally(p), x.category) + x.amount);
    }
  }

  /** With no negative amount, no category total is negative. */
  lemma {:induction false} TallyNonNegative(expenses: seq<Expense>)
    requires forall i :: 0 <= i < |expenses| ==> expenses[i].amount >= 0
    ensures forall i :: 0 <= i < |Tally(expenses)| ==> Tally(expenses)[i].1 >= 0
  {
    if expenses != [] {
      var n := |expenses| - 1;
      var p := expenses[..n];
      assert forall i :: 0 <= i < n ==> p[i] == expenses[i];
      TallyNonNegative(p);
      var acc := Tally(p);
      var k := expenses[n].category;
      PutEntries(acc, k, ValueOrZero(acc, k) + expenses[n].amount);
      assert ValueOrZero(acc, k) >= 0 by {
        if Get(acc, k).Some? {
          GetEntry(acc, k);
        }
      }
    }
  }

  /**
   * `expenses.reduce((acc, exp) => { acc[exp.category] = (acc[exp.category] || 0) + exp.amount; return acc; }, {})`:
   * one entry per category, in order of first appearance, holding that
   * category's sum; together they add up to the grand total.
   */
  method CategoryTotals(expenses: seq<Expense>) returns (acc: Totals)
    ensures acc == Tally(expenses)
    ensures Distinct(KeysOf(acc))
    ensures forall c :: c in KeysOf(acc) <==> Occurs(expenses, c)
    ensures forall c :: Occurs(expenses, c) ==> Get(acc, c) == Some(SumFor(expenses, c))
    ensures InFirstAppearanceOrder(expenses, KeysOf(acc))
    ensures ValueSum(acc) == Total(expenses)
  {
    acc := [];
    var i := 0;
    while i < |expenses|
      invariant 0 <= i <= |expenses|
      invariant acc == Tally(expenses[..i])
    {
      var exp := expenses[i];
      assert expenses[..i + 1] == expenses[..i] + [exp];
      TallyAppendOne(expenses[..i], exp);
      acc := Put(acc, exp.category, ValueOrZero(acc, exp.category) + exp.amount);
      i := i + 1;
    }
    assert expenses[..i] == expenses;
    TallyKeySet(expenses);
    TallyKeyOrder(expenses);
    forall c | Occurs(expenses, c)
      ensures Get(acc, c) == Some(SumFor(expenses, c))
    {
      TallyValues(expenses, c);
    }
    TallySum(expenses);
  }

  // ---------------------------------------------------------------------
  // Category badge style: `getCategoryStyle`
  // ---------------------------------------------------------------------

  const StyleTable: map<string, string> := map[
    "Food" := "bg-emerald-100 text-emerald-700 ring-1 ring-emerald-200",
    "Rent" := "bg-blue-100 text-blue-700 ring-1 ring-blue-200",
    "Shopping" := "bg-fuchsia-100 text-fuchsia-700 ring-1 ring-fuchsia-200",
    "Bills" := "bg-amber-100 text-amber-700 ring-1 ring-amber-200"
  ]

  const DefaultStyle: string := "bg-slate-100 text-slate-700 ring-1 ring-slate-200"

  /** `{ Food: …, Rent: …, Shopping: …, Bills: … }[cat] || "bg-slate-100 …"` */
  function GetCategoryStyle(cat: string): (style: string)
    ensures cat in StyleTable ==> style == StyleTable[cat]
    ensures style == DefaultStyle <==> cat !in StyleTable
    ensures style in StyleTable.Values || style == DefaultStyle
  {
    if cat in StyleTable then StyleTable[cat] else DefaultStyle
  }

  /** The four form categories each get their own badge; the lookup is case-sensitive. */
  lemma CategoryStyles()
    ensures GetCategoryStyle("Food") == "bg-emerald-100 text-emerald-700 ring-1 ring-emerald-200"
    ensures GetCategoryStyle("Rent") == "bg-blue-100 text-blue-700 ring-1 ring-blue-200"
    ensures GetCategoryStyle("Shopping") == "bg-fuchsia-100 text-fuchsia-700 ring-1 ring-fuchsia-200"
    ensures GetCategoryStyle("Bills") == "bg-amber-100 text-amber-700 ring-1 ring-amber-200"
    ensures GetCategoryStyle("food") == DefaultStyle
    ensures forall a, b :: a in StyleTable && b in StyleTable && a != b ==> GetCategoryStyle(a) != GetCategoryStyle(b)
  {
  }

  // ---------------------------------------------------------------------
  // The whole derived view
  // ---------------------------------------------------------------------

  /** `Object.entries(categoryTotals).length > 0` fails: the summary shows "No data yet". */
  function NoDataYet(expenses: seq<Expense>): (shown: bool)
    ensures shown <==> expenses == []
  {
    TallyKeySet(expenses);
    assert expenses != [] ==> expenses[0].category in KeysOf(Tally(expenses));
    |Tally(expenses)| == 0
  }

  /** `filteredExpenses.length === 0`: the table shows "No entries found". */
  function NoEntriesFound(expenses: seq<Expense>, search: string): (shown: bool)
    ensures shown <==> forall i :: 0 <= i < |expenses| ==> !Matches(expenses[i], search)
  {
    Seqs.FilterEmpty(expenses, SearchFilter(search));
    |FilteredExpenses(expenses, search)| == 0
  }

  /**
   * What one render shows: the table rows, the category summary, the header
   * total, and whether the two placeholders appear.
   */
  datatype View = View(rows: seq<Expense>, categoryTotals: Totals, total: int,
                       noDataYet: bool, noEntriesFound: bool)

  function Render(expenses: seq<Expense>, search: string): (v: View)
    ensures v.total == ValueSum(v.categoryTotals)
    ensures |v.rows| <= |expenses|
    ensures v.noDataYet <==> expenses == []
    ensures v.noEntriesFound <==> forall i :: 0 <= i < |expenses| ==> !Matches(expenses[i], search)
  {
    TallySum(expenses);
    View(FilteredExpenses(expenses, search), Tally(expenses), Total(expenses),
         NoDataYet(expenses), NoEntriesFound(expenses, search))
  }

  /** The summary and the header total are computed from the full list, whatever the search text. */
  lemma SummaryIgnoresSearch(expenses: seq<Expense>, search1: string, search2: string)
    ensures Render(expenses, search1).categoryTotals == Render(expenses, search2).categoryTotals
    ensures Render(expenses, search1).total == Render(expenses, search2).total
  {
  }
}
