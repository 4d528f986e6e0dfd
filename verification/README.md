# Finance manager: the dashboard's derived values, in Dafny

The expense dashboard fetches the user's expense list and recomputes a few
values from it on every render. This project models those values and proves
what they mean:

- the table rows: the expenses whose lower-cased title includes the
  lower-cased search text (`filteredExpenses`);
- the category summary: one entry per category, holding that category's sum
  (`categoryTotals`);
- the header total (`total`);
- the badge style of a category (`getCategoryStyle`);
- the category pie chart: positive entries only, a capitalised display name, a
  lower-cased colour key, the total shown in its middle, the "No Data for
  Chart" placeholder and the slice colour with its `other` fallback.

Modules, one per concern:

- `AsciiText` (`ascii_text.dfy`): `toLowerCase`, `toUpperCase` of one
  character, `charAt(0).toUpperCase() + slice(1)` and `includes`, over ASCII
  letters.
- `Seqs` (`seqs.dfy`): `Array.prototype.filter`, which the search and the
  chart both use. It is shown to keep exactly the accepted elements, one per
  accepted position, in their original order.
- `App` (`app.dfy`): `frontend/src/App.jsx`. `filteredExpenses` and `total`
  are pure expressions in the source, so they are functions here.
  `categoryTotals` writes into a dictionary inside `reduce`, so it is a method
  with a loop. The loop updates an insertion-ordered list of (key, value)
  entries through `Get` (`acc[k]`), `ValueOrZero` (`acc[k] || 0`) and `Put`
  (`acc[k] = v`). The method is proved equal to the left fold `Tally`, and the
  properties of the summary are proved about `Tally`.
- `CategoryChart` (`category_chart.dfy`): `frontend/src/CategoryChart.jsx`.
  It is pure code made of `filter`, `map`, `reduce` and a lookup with an `||`
  fallback, so everything here is a function. Like the source file, it
  does not depend on the dashboard.
- `ChartOnDashboard` (`chart_on_dashboard.dfy`): facts about the chart when it
  is fed the dashboard's data, namely the categories the entry form offers
  and the per-category totals.

Amounts are integers in paise. The backend stores them as `NUMERIC(10,2)`.

## Model

| member | source | states |
|---|---|---|
| `AsciiText.ToLower` | frontend/src/App.jsx:61 | The result is never an upper-case ASCII letter. It equals the input unless the input was an upper-case letter, which becomes the lower-case letter at the same place in the alphabet. |
| `AsciiText.ToUpper` | frontend/src/CategoryChart.jsx:17 | The result is never a lower-case ASCII letter. It equals the input unless the input was a lower-case letter, which becomes the upper-case letter at the same place in the alphabet. |
| `AsciiText.CaseInverse` | frontend/src/CategoryChart.jsx:17 | Upper-casing a lower-cased capital gives the capital back, and lower-casing an upper-cased small letter gives the small letter back. |
| `AsciiText.FoldCase` | frontend/src/App.jsx:61 | Lower-casing forgets case: lower(upper(c)) = lower(c), and lower-casing twice is lower-casing once. |
| `AsciiText.LowerStr` | frontend/src/App.jsx:61 | `toLowerCase` keeps the length and lower-cases each character. |
| `AsciiText.RecasingLowersAlike` | frontend/src/App.jsx:61 | Two strings that differ only in the case of some letters have the same lower-cased form. |
| `AsciiText.Capitalize` | frontend/src/CategoryChart.jsx:17 | Same length; the first character is no longer lower-case and is the same letter up to case; the rest is unchanged; "" stays "". |
| `AsciiText.Contains` | frontend/src/App.jsx:61 | `includes`: a string only includes strings no longer than itself. Characterised by `ContainsAt`. |
| `AsciiText.ContainsAt` | frontend/src/App.jsx:61 | `includes(t)` holds exactly when `t` occurs at some offset of the string. Both directions are proved. |
| `AsciiText.ContainsEmpty` | frontend/src/App.jsx:61 | Every string includes "". |
| `Seqs.Filter` | frontend/src/App.jsx:60-62 | `filter` is no longer than its input. Every element it returns is accepted and comes from the input, and every accepted input element is returned. |
| `Seqs.FilterByIndices` | frontend/src/CategoryChart.jsx:14-15 | `filter` returns the element at each accepted position, once, with positions in increasing order. A position is kept exactly when its element is accepted. |
| `Seqs.FilterAppend` | frontend/src/CategoryChart.jsx:14-15 | Filtering two lists laid end to end gives their two filtered lists laid end to end. |
| `Seqs.FilterEmpty` | frontend/src/App.jsx:60-62 | The filtered list is empty exactly when no element is accepted. |
| `App.Matches` | frontend/src/App.jsx:61 | The `filter` callback: the lower-cased title includes the lower-cased search text, so a matching search is never longer than the title. Characterised by `ContainsAt`, `SearchIgnoresCase` and `TitleCaseIgnored`. |
| `App.FilteredExpenses` | frontend/src/App.jsx:60-62 | Every row matches the search and is one of the expenses. Every matching expense is a row. There are never more rows than expenses. |
| `App.FilteredInListOrder` | frontend/src/App.jsx:60-62 | The rows are the matching expenses, each exactly once, in list order: row k is the expense at the k-th matching position. |
| `App.EmptySearchKeepsAll` | frontend/src/App.jsx:60-62 | With an empty search box, the rows are the whole expense list. |
| `App.SearchIgnoresCase` | frontend/src/App.jsx:61 | Changing the letter case of the search text does not change the rows. |
| `App.TitleCaseIgnored` | frontend/src/App.jsx:61 | Changing the letter case of a title does not change whether that expense matches. |
| `App.FilteredIdempotent` | frontend/src/App.jsx:60-62 | Searching the rows again with the same text gives the same rows. |
| `App.Total` | frontend/src/App.jsx:69 | The header total is never negative when no amount is negative. |
| `App.TotalAppend` | frontend/src/App.jsx:69 | The total of two lists laid end to end is the sum of their totals. |
| `App.KeysOf` | frontend/src/App.jsx:195-196 | The keys `Object.entries` lists, one per entry, in insertion order. Characterised by `PutKeys`, `TallyKeySet` and `TallyKeyOrder`. |
| `App.Get` | frontend/src/App.jsx:65 | `acc[k]`: the value of the entry whose key is `k`, or undefined. Characterised by `GetDefined` and `GetEntry`. |
| `App.GetDefined` | frontend/src/App.jsx:65 | `acc[k]` is defined exactly when `k` is one of the keys. |
| `App.GetEntry` | frontend/src/App.jsx:65 | A value read under `k` is stored in an entry whose key is `k`. |
| `App.ValueOrZero` | frontend/src/App.jsx:65 | `acc[k]` with the `0` fallback. Characterised by `ValueOrZeroStored`. |
| `App.ValueOrZeroStored` | frontend/src/App.jsx:65 | `acc[k]` with the `0` fallback is 0 when `k` is not a key, and otherwise a value stored in an entry whose key is `k`. |
| `App.Put` | frontend/src/App.jsx:65 | After `acc[k] = v`, reading `acc[k]` gives `v`. |
| `App.AddExpense` | frontend/src/App.jsx:65 | The `reduce` callback: afterwards the expense's category reads as its old value (or 0) plus the expense's amount. Other categories: `ValueStepOther`. |
| `App.Tally` | frontend/src/App.jsx:64-67 | The object `reduce` builds, starting from `{}`: it never has more entries than there are expenses. Characterised by `TallyKeySet`, `TallyKeyOrder`, `TallyValues` and `TallySum`. |
| `App.PutKeys` | frontend/src/App.jsx:65 | `acc[k] = v` leaves the key list unchanged when `k` is present. Otherwise it appends `k` at the end. |
| `App.PutOthers` | frontend/src/App.jsx:65 | `acc[k] = v` leaves the value under every other key unchanged. |
| `App.PutEntries` | frontend/src/App.jsx:65 | After `acc[k] = v`, every entry either was there before or is `(k, v)`. |
| `App.PutSum` | frontend/src/App.jsx:65 | `acc[k] = v` changes the sum of all values by `v` minus the old value under `k` (0 when absent). |
| `App.TallyAppendOne` | frontend/src/App.jsx:64-66 | Visiting one more expense performs exactly one more step of the callback on the object built so far: the expense's category is written with its old value (or 0) plus the amount. |
| `App.TallyKeysStep` | frontend/src/App.jsx:64-66 | One more expense appends its category as the last key when the category is new, and leaves the keys unchanged otherwise. |
| `App.FirstIndex` | frontend/src/App.jsx:64-67 | The position where a category first appears: it holds that category, no earlier position does, and it equals the list length exactly when the category never appears. |
| `App.ValueIsSum` | frontend/src/App.jsx:65 | Where the value under a category is that category's sum so far (or undefined when it has not occurred), reading it with the 0 fallback gives that sum. |
| `App.ValueStepSame` | frontend/src/App.jsx:65 | One `reduce` step adds the expense's amount to its own category's value, which then equals that category's sum so far. |
| `App.ValueStepOther` | frontend/src/App.jsx:65 | One `reduce` step leaves every other category's value equal to that category's sum so far. |
| `App.TallyKeysOccur` | frontend/src/App.jsx:64-67 | The summary has a key for exactly the categories that occur in the list. No key is invented and none is missing. |
| `App.TallyKeysDistinct` | frontend/src/App.jsx:64-67 | No category gets two keys. |
| `App.TallyKeySet` | frontend/src/App.jsx:64-67 | The summary keys are distinct and are exactly the categories that occur. |
| `App.TallyKeyOrder` | frontend/src/App.jsx:64-67 | The keys are listed in the order their categories first appear in the list. |
| `App.TallyValues` | frontend/src/App.jsx:64-67 | Reading category `c` from the summary gives the sum of the amounts of the expenses of category `c` when `c` occurs, and undefined otherwise. |
| `App.TallySum` | frontend/src/App.jsx:64-69 | The summary's values add up to the header total. |
| `App.TallyNonNegative` | frontend/src/App.jsx:64-67 | When no amount is negative, no summary value is negative. |
| `App.CategoryTotals` | frontend/src/App.jsx:64-67 | The loop returns the fold `Tally`. Its keys are distinct, are exactly the occurring categories and follow first-appearance order. Each key's value is that category's sum. The values add up to the header total. |
| `App.GetCategoryStyle` | frontend/src/App.jsx:71-76 | Food, Rent, Shopping and Bills each get the style listed under their own name. Every other name gets the slate default, and only other names do. |
| `App.CategoryStyles` | frontend/src/App.jsx:71-76 | The four table styles are the source's class strings and are pairwise different. The lookup is case-sensitive: "food" gets the default. |
| `App.NoDataYet` | frontend/src/App.jsx:195 | The "No data yet" placeholder shows exactly when the expense list is empty. |
| `App.NoEntriesFound` | frontend/src/App.jsx:280 | The "No entries found" placeholder shows exactly when no expense matches the search. |
| `App.Render` | frontend/src/App.jsx:60-69 | In one render, the header total equals the sum of the summary and there are never more rows than expenses. "No data yet" shows exactly when there are no expenses. "No entries found" shows exactly when no expense matches the search. |
| `App.SummaryIgnoresSearch` | frontend/src/App.jsx:60-69 | The summary and the header total do not depend on the search text. |
| `CategoryChart.ToSlice` | frontend/src/CategoryChart.jsx:16-20 | The slice's value is copied unchanged and its key is the lower-cased name. Its display name is the name with only the case of the first character changed, which is no longer lower-case. |
| `CategoryChart.IsPositive` | frontend/src/CategoryChart.jsx:15 | The `filter` callback `value > 0`. Its effect is stated by `ChartDataExact` and `ShowsNoData`. |
| `CategoryChart.ChartData` | frontend/src/CategoryChart.jsx:14-20 | There are no more slices than entries, and every slice's value is positive. |
| `CategoryChart.ChartDataExact` | frontend/src/CategoryChart.jsx:14-20 | Each entry with a positive value yields exactly one slice, built from it. No other entry yields a slice. The slices keep the entries' order. |
| `CategoryChart.ChartDataAppend` | frontend/src/CategoryChart.jsx:14-20 | The slices of two inputs laid end to end are their two slice lists laid end to end. |
| `CategoryChart.TotalAmount` | frontend/src/CategoryChart.jsx:23 | The middle total is strictly positive whenever there is a slice and every slice is positive. |
| `CategoryChart.TotalAmountAppend` | frontend/src/CategoryChart.jsx:23 | The middle total is additive over slice lists laid end to end. |
| `CategoryChart.TotalAmountIsPositiveSum` | frontend/src/CategoryChart.jsx:23 | The middle total equals the sum of the input's positive values. |
| `CategoryChart.ShowsNoData` | frontend/src/CategoryChart.jsx:25-31 | "No Data for Chart" shows exactly when no input value is positive. |
| `CategoryChart.SliceColor` | frontend/src/CategoryChart.jsx:51 | A key in the table (lines 5-12) gets the colour listed under it. The colour is always one of the six table colours. It is the `other` grey exactly when the key is not in the table or is `other` itself. |
| `CategoryChart.ColorsDistinct` | frontend/src/CategoryChart.jsx:5-12 | No two keys of the colour table share a colour. |
| `ChartOnDashboard.FormCategoryColoured` | frontend/src/CategoryChart.jsx:5-20 | Food, Rent, Shopping and Bills each get the colour listed under their lower-cased name. None falls back to grey. |
| `ChartOnDashboard.FormCategoriesDistinct` | frontend/src/CategoryChart.jsx:5-20 | No two of Food, Rent, Shopping and Bills share a slice colour. |
| `CategoryChart.RecasedNameSameColour` | frontend/src/CategoryChart.jsx:19 | A category name written in another letter case gets the same slice colour. |
| `ChartOnDashboard.PositiveSumOfNonNegative` | frontend/src/CategoryChart.jsx:23 | With no negative value, the sum of the positive values is the sum of all values. |
| `ChartOnDashboard.ChartTotalMatchesDashboard` | frontend/src/CategoryChart.jsx:23 | Suppose the chart is given the dashboard's per-category totals and no amount is negative. Then its middle total equals the dashboard's header total. |

## Left out

- Date-range filtering and a bucket tag encoded in the category string are not
  in `App.jsx` or `CategoryChart.jsx` in this revision. `DateFilter.jsx` only
  reports the chosen option to its parent, and nothing here consumes it. The
  model follows the code, so neither is modelled.
- `App.jsx` in this revision does not render `CategoryChart`.
  `ChartTotalMatchesDashboard` states what the chart would show if it were
  given `categoryTotals`.
- JavaScript numbers are floating point. Amounts here are exact integers
  (paise), so rounding in sums is not modelled. Neither is `+` turning into
  string concatenation when an amount is not a number.
- `Object.entries` lists integer-like keys (such as "2024") first, in numeric
  order, and only then the other keys in insertion order. The model keeps
  insertion order for every key.
- Some names are inherited from `Object.prototype`: `toString`,
  `constructor`, `__proto__` and so on. They look defined on a fresh `{}`,
  `{...}[cat]` and `COLORS[key]`. The model treats every category name as an
  ordinary key, absent until written.
- Case mapping covers ASCII letters only. Full Unicode mapping is not
  modelled, including `toUpperCase` of one character giving several (ß to SS).
- `CategoryChart.ChartData`: the chart's `data` is an object, so its names
  are distinct. The model accepts any list of (name, value) pairs and does
  not rely on that.
- The `id` and creation date of an expense are carried but not used by the
  derived values. The date is not modelled.
- React state, effects, the axios interceptor, the create/edit/delete
  handlers, `localStorage`, `window.confirm`, the login page, the backend's
  SQL handlers, `toLocaleString('en-IN')` formatting and all markup are I/O
  or presentation. They are not part of this model.
