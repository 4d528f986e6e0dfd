/**
 * What the category chart shows when it is fed the expense dashboard's
 * data: the categories the entry form offers and the per-category totals.
 * The chart component itself does not depend on the dashboard; these facts
 * relate the two.
 */
module ChartOnDashboard {
  import opened AsciiText
  import App
  import opened CategoryChart

  /**
   * Each of the four categories the entry form offers is painted with the
   * colour listed under its lower-cased name, never the grey fallback.
   */
  lemma FormCategoryColoured(c: string, value: int)
    requires c in App.StyleTable
    ensures LowerStr(c) in Colors && LowerStr(c) != "other"
    ensures SliceColor(ToSlice((c, value)).key) == Colors[LowerStr(c)]
    ensures SliceColor(ToSlice((c, value)).key) != Colors["other"]
  {
    if c == "Food" {
      assert LowerStr(c) == "food";
    } else if c == "Rent" {
      assert LowerStr(c) == "rent";
    } else if c == "Shopping" {
      assert LowerStr(c) == "shopping";
    } else {
      assert c == "Bills";
      assert LowerStr(c) == "bills";
    }
  }

  /** No two of the four form categories share a slice colour. */
  lemma FormCategoriesDistinct(a: string, b: string, value: int)
    requires a in App.StyleTable && b in App.StyleTable && a != b
    ensures SliceColor(ToSlice((a, value)).key) != SliceColor(ToSlice((b, value)).key)
  {
    FormCategoryColoured(a, value);
    FormCategoryColoured(b, value);
    assert LowerStr(a) != LowerStr(b) by {
      assert LowerStr(a)[0] != LowerStr(b)[0] || |LowerStr(a)| != |LowerStr(b)|;
    }
    ColorsDistinct();
  }

  /** With no negative value, the positive values sum to all the values. */
  lemma {:induction false} PositiveSumOfNonNegative(data: ChartInput)
    requires forall i :: 0 <= i < |data| ==> data[i].1 >= 0
    ensures PositiveSum(data) == App.ValueSum(data)
  {
    if data != [] {
      PositiveSumOfNonNegative(data[1..]);
    }
  }

  /**
   * Fed the dashboard's per-category totals, and with no negative amount,
   * the chart's middle total equals the dashboard's grand total.
   */
  lemma ChartTotalMatchesDashboard(expenses: seq<App.Expense>)
    requires forall i :: 0 <= i < |expenses| ==> expenses[i].amount >= 0
    ensures TotalAmount(ChartData(App.Tally(expenses))) == App.Total(expenses)
  {
    TotalAmountIsPositiveSum(App.Tally(expenses));
    App.TallyNonNegative(expenses);
    PositiveSumOfNonNegative(App.Tally(expenses));
    App.TallySum(expenses);
  }
}
