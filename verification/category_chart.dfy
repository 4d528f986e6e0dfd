/**
 * The category pie chart: from a category -> amount object it builds the
 * slices (positive amounts only, display name capitalised, colour key
 * lower-cased), the total shown in the middle, the "No Data for Chart"
 * placeholder and the colour of each slice.
 */
module CategoryChart {
  import opened AsciiText
  import Seqs

  /** One slice: `{ name, value, key }`. */
  datatype Slice = Slice(name: string, value: int, key: string)

  /** The chart's input, as `Object.entries(data)` lists it. */
  type ChartInput = seq<(string, int)>

  /** The callback handed to `filter`: `([_, value]) => value > 0`. */
  predicate IsPositive(entry: (string, int))
  {
    entry.1 > 0
  }

  /** The callback handed to `map`. */
  function ToSlice(entry: (string, int)): (slice: Slice)
    ensures slice.value == entry.1
    ensures slice.key == LowerStr(entry.0)
    ensures IsRecasing(slice.name, entry.0)
    ensures |entry.0| > 0 ==> !IsLower(slice.name[0]) && slice.name[1..] == entry.0[1..]
  {
    Slice(Capitalize(entry.0), entry.1, LowerStr(entry.0))
  }

  /** `Object.entries(data).filter(([_, value]) => value > 0).map(...)` */
  function ChartData(data: ChartInput): (chart: seq<Slice>)
    ensures |chart| <= |data|
    ensures forall i :: 0 <= i < |chart| ==> chart[i].value > 0
  {
    var kept := Seqs.Filter(data, IsPositive);
    seq(|kept|, i requires 0 <= i < |kept| => ToSlice(kept[i]))
  }

  /**
   * Each entry with a positive value yields exactly one slice, and no other
   * entry yields one; the slices keep the entries' order.
   */
  lemma ChartDataExact(data: ChartInput)
    ensures var idx := Seqs.KeptIndices(data, IsPositive);
      && Seqs.Increasing(idx)
      && |ChartData(data)| == |idx|
      && (forall k :: 0 <= k < |idx| ==> ChartData(data)[k] == ToSlice(data[idx[k]]))
      && (forall j :: 0 <= j < |data| ==> (j in idx <==> data[j].1 > 0))
  {
    Seqs.FilterByIndices(data, IsPositive);
  }

  /** The slices of two inputs laid end to end are the two lists of slices laid end to end. */
  lemma ChartDataAppend(a: ChartInput, b: ChartInput)
    ensures ChartData(a + b) == ChartData(a) + ChartData(b)
  {
    Seqs.FilterAppend(a, b, IsPositive);
  }

  /** `chartData.reduce((sum, item) => sum + item.value, 0)` */
  function TotalAmount(chart: seq<Slice>): (sum: int)
    ensures |chart| > 0 && (forall i :: 0 <= i < |chart| ==> chart[i].value > 0) ==> sum > 0
  {
    if chart == [] then 0
    else TotalAmount(chart[..|chart| - 1]) + chart[|chart| - 1].value
  }

  lemma {:induction false} TotalAmountAppend(a: seq<Slice>, b: seq<Slice>)
    ensures TotalAmount(a + b) == TotalAmount(a) + TotalAmount(b)
    decreases |b|
  {
    if b == [] {
      assert a + b == a;
    } else {
      assert (a + b)[..|a + b| - 1] == a + b[..|b| - 1];
      TotalAmountAppend(a, b[..|b| - 1]);
    }
  }

  /** The sum of the positive values of the input. */
  function PositiveSum(data: ChartInput): int
  {
    if data == [] then 0
    else (if data[0].1 > 0 then data[0].1 else 0) + PositiveSum(data[1..])
  }

  /** The total in the middle of the chart is the sum of the input's positive values. */
  lemma {:induction false} TotalAmountIsPositiveSum(data: ChartInput)
    ensures TotalAmount(ChartData(data)) == PositiveSum(data)
  {
    if data != [] {
      assert data == [data[0]] + data[1..];
      ChartDataAppend([data[0]], data[1..]);
      TotalAmountAppend(ChartData([data[0]]), ChartData(data[1..]));
      TotalAmountIsPositiveSum(data[1..]);
      assert Seqs.Filter([data[0]], IsPositive) == if data[0].1 > 0 then [data[0]] else [];
      assert [data[0]][..0] == [];
    }
  }

  /** `chartData.length === 0`: the placeholder shows exactly when no value is positive. */
  function ShowsNoData(data: ChartInput): (empty: bool)
    ensures empty <==> forall i :: 0 <= i < |data| ==> data[i].1 <= 0
  {
    Seqs.FilterEmpty(data, IsPositive);
    |ChartData(data)| == 0
  }

  const Colors: map<string, string> := map[
    "shopping" := "#e879f9",
    "rent" := "#60a5fa",
    "bills" := "#fb923c",
    "food" := "#f87171",
    "travel" := "#4ade80",
    "other" := "#94a3b8"
  ]

  /** `COLORS[entry.key] || COLORS.other` */
  function SliceColor(key: string): (color: string)
    ensures key in Colors ==> color == Colors[key]
    ensures color in Colors.Values
    ensures color == Colors["other"] <==> key !in Colors || key == "other"
  {
    if key in Colors then Colors[key] else Colors["other"]
  }

  /** No two keys of the colour table share a colour. */
  lemma ColorsDistinct()
    ensures forall k1, k2 :: k1 in Colors && k2 in Colors && k1 != k2 ==> Colors[k1] != Colors[k2]
  {
  }

  /** A category name written in another letter case is painted the same colour. */
  lemma RecasedNameSameColour(name: string, recased: string, value: int)
    requires IsRecasing(recased, name)
    ensures SliceColor(ToSlice((recased, value)).key) == SliceColor(ToSlice((name, value)).key)
  {
    RecasingLowersAlike(recased, name);
  }
}
