# Expense tracker finance logic, in Dafny

This project models the pure logic of a single-user expense tracker written as a React
application, and proves what that logic promises. The tracker keeps a list of expense
records and a map from category keys to monthly limits. From them it derives these views:

- a monthly series;
- a per-category pie chart;
- the most recent records;
- this month's spending;
- a budget-versus-actual table;
- spending insights;
- a budget comparison chart;
- a per-category report with budget cards;
- the dashboard's top categories and progress bar.

It also has two forms. The transaction form validates and submits records. The budget form
validates and saves limits.

Modelling choices:

- A record is an immutable datatype `Transaction(id, amount, date, description, category)`.
- A date is `Date(year, month, day)`. The month runs from 1 to 12.
- A missing category is the empty string, which is falsy in the source.
- Amounts and limits are exact `real`s.
- A JavaScript object whose key order matters is an ordered association list
  `seq<(K, V)>` (module `OrderedMap`). Lookup finds the first entry and update keeps the key's
  position, as object property assignment does.
- `Array.prototype.sort` is stable. For a total preorder every stable sort gives the same
  result, so the model sorts with one functional insertion sort (`StableSort.Sort`). It proves
  that sort ordered, a permutation and stable.
- `Math.round(x)` is `floor(x + 0.5)`.
- A form field is `Blank | NotANumber | Numeral(r)`:
  - `Blank` is any falsy value;
  - `NotANumber` is a value for which `isNaN` holds (so "12abc" is one, although `parseFloat`
    reads 12 from it);
  - `Numeral(r)` is any other value that is not blank, `r` being what `parseFloat` reads.
- The clock (`new Date()`, `Date.now()`) and local storage are parameters: `now`, `freshId` and
  an optional stored value.

Modules follow the program:

- `Constants`: `src/constants.js`.
- `Transactions`, `Monthly`, `CategoryTotals`, `Views` and `Budgets`: the state and derived data
  of `src/App.jsx`.
- One module per component:
  - `Insights`: `SpendingInsight.jsx`;
  - `TransactionForm`: `TransactionForm.jsx`;
  - `BudgetForm`: `BudgetForm.jsx`;
  - `BudgetComparison`: `BudgetComparision.jsx`;
  - `CategoryReport`: `BudgetCategoryReport.jsx`;
  - `Dashboard`: `Dashboard.jsx`;
  - `BudgetCard`: `CategoryBudgetCard.jsx`.
- Shared pieces:
  - `Wrappers`: `Option`;
  - `Seqs`: filter, sum, dedupe, take;
  - `OrderedMap`;
  - `StableSort`;
  - `Percent`: the rounded and capped percentage;
  - `FormInput`: field values and `trim`.

## Model

| member | source | states |
|---|---|---|
| Constants.CategoriesDistinct | src/constants.js:1-16 | There are exactly 14 categories. Their keys are pairwise distinct, and so are their labels. |
| Constants.CategoriesNonEmpty | src/constants.js:1-16 | No key or label is empty, so `?.label \|\| key` always gives a known key's label. |
| Constants.DefaultBudgetsCoverCategories | src/constants.js:35-50 | The default budgets have exactly the category keys, in category order and without repeats. Every default is positive, and they sum to 3650. |
| Constants.ColorsCoverCategories | src/constants.js:18-33 | Every category key has a colour, stored at that category's position, and the colour lookup finds it. |
| Constants.FindByKey | src/constants.js:1-16 | The lookup by key succeeds exactly for a category key, and it returns that key's category. |
| Constants.FindByLabel | src/constants.js:1-16 | The lookup by label returns a category with that label, or fails only when no category has it. |
| Constants.LabelOf | src/components/Dashboard.jsx:12-15 | A known key gets its category's label. Any other key is shown as itself. |
| Constants.ColorOf | src/App.jsx:106 | A known key gets its own colour. Any other key gets `#CBD5E0`. |
| Constants.LabelLookupRoundTrip | src/components/SpendingInsight.jsx:38-40 | Looking up a known key's label by label finds that same category again. |
| Constants.LabelIdentifiesKey | src/components/SpendingInsight.jsx:38-40 | The predicate "this key's category has label L" holds for the key that owns L and for no other key. |
| Constants.CaptionDetermines | src/constants.js:2-15 | Two catalogue categories with the same label are the same category. |
| Transactions.AddTransaction | src/App.jsx:36-38 | The result is the old list plus one record at the end. That record has the fresh id and the submitted fields, and earlier records are unchanged. |
| Transactions.UpdateTransaction | src/App.jsx:40-45 | Length and order are kept. Exactly the records with the updated id become the update. An unknown id changes nothing. |
| Transactions.DeleteTransaction | src/App.jsx:47-49 | No record keeps the id. Every record with another id keeps its multiplicity. An absent id changes nothing. The removed count is the number of records with that id. |
| Transactions.DeleteConcat | src/App.jsx:47-49 | Deleting distributes over concatenation, so survivors keep their order. |
| Transactions.AddThenDeleteRestores | src/App.jsx:36-38 | Adding under an id no record has, then deleting that id, gives back the original list. |
| Transactions.DeleteIdempotent | src/App.jsx:47-49 | Deleting the same id twice is deleting it once. |
| Transactions.UpdateIdempotent | src/App.jsx:40-45 | Applying the same update twice is applying it once. |
| Transactions.UpdateUnchanged | src/App.jsx:40-45 | When ids are unique, updating a record with itself leaves the list unchanged. |
| Transactions.TotalAfterChanges | src/App.jsx:116-118 | Adding raises the total expenses by the new amount. Deleting lowers it by the amounts of the removed records. |
| Budgets.BudgetOf | src/App.jsx:158 | A key with no entry has limit 0. |
| Budgets.BudgetOfAt | src/App.jsx:158 | In a map with distinct keys, a listed key's limit is the value stored beside it. |
| Budgets.TotalBudgetPositive | src/components/Dashboard.jsx:17 | With no negative limit, the total budget is at least 0. It is positive exactly when some limit is. |
| Budgets.FirstRunBudgets | src/App.jsx:20-23 | With nothing stored, every category starts with a positive limit, and the limits total 3650. |
| Monthly.AddToBucketGet | src/App.jsx:62-71 | One iteration changes only the record's own month bucket, adding its amount (starting from 0 for a new bucket). |
| Monthly.GroupByPeriodDistinct | src/App.jsx:62-71 | The grouping never has two buckets for the same month. |
| Monthly.GroupByPeriodContents | src/App.jsx:62-71 | A month has a bucket exactly when some record falls in it, and the bucket holds the total of that month's records. |
| Monthly.GroupByPeriodSum | src/App.jsx:62-71 | The buckets together hold the total expenses. |
| Monthly.MonthlySeriesAscending | src/App.jsx:76-82 | The monthly series is strictly ascending by year, then month. |
| Monthly.MonthlySeriesEntries | src/App.jsx:59-83 | Every bar is a month in which something was recorded, carrying that month's total. |
| Monthly.MonthlySeriesCovers | src/App.jsx:59-83 | Every month in which something was recorded has a bar. |
| Monthly.MonthlySeriesSum | src/App.jsx:59-83 | The monthly totals add up to the total expenses. |
| CategoryTotals.ZeroTotalsGet | src/App.jsx:89-91 | Every category key starts at 0, and no other key has an entry. |
| CategoryTotals.AddToCategoryGet | src/App.jsx:94-98 | A categorized record adds its amount to its own category only. An uncategorized record changes nothing. |
| CategoryTotals.AccumulateGet | src/App.jsx:94-98 | After the loop, every key holds its starting value plus the spending recorded under it. |
| CategoryTotals.AccumulateKeys | src/App.jsx:94-98 | After the loop, the keys are the starting keys followed by each new category once, in order of first appearance. |
| CategoryTotals.AccumulateSum | src/App.jsx:94-98 | The loop adds exactly the categorized records' amounts to the tally's sum. |
| CategoryTotals.TotalsGet | src/App.jsx:85-98 | A non-empty key has an entry exactly when it is a category key or some record carries it. The entry is that key's total spending. |
| CategoryTotals.TotalsKeys | src/App.jsx:85-98 | The tally's keys are the 14 catalogue keys, then the other categories in order of first appearance, without repeats. |
| CategoryTotals.TotalsSum | src/App.jsx:85-98 | The tally holds all categorized spending. Only uncategorized records are left out. |
| Views.TotalsEntry | src/App.jsx:85-98 | Each tally entry has a non-empty key that is a catalogue key or one some record carries, and holds that key's spending. |
| Views.CategoryDataAt | src/App.jsx:101-107 | Each pie slice shows its category's label and colour, and a positive total spending. |
| Views.CategoryDataKeys | src/App.jsx:101-102 | A category has a slice exactly when it is a catalogue key or some record carries it, and its total spending is positive. |
| Views.CategoryDataSpec | src/App.jsx:85-108 | No category gets two slices. Each slice shows its category's label, colour and positive total. A key has a slice exactly when it is a catalogue key or some record carries it, and its spending is positive. The slices come in catalogue order, then the other keys in the order records first carry them. |
| Views.ToSlices | src/App.jsx:104-107 | One slice per entry, in order, carrying the entry's total. A catalogue key gets its label and its catalogue colour, and any other key shows itself in the fallback colour "#CBD5E0". |
| Views.CategoryDataOrder | src/App.jsx:85-108 | The slices' keys are the catalogue keys followed by the other keys in first-use order, keeping only those with positive spending. |
| Views.RecentTransactionsCount | src/App.jsx:110-114 | The recent list has `count` records, or all of them when there are fewer. Shown plus left-out records are exactly the collection. |
| Views.DashboardRecent | src/App.jsx:110-114 | The dashboard, which passes no count, lists five records of the collection, or all of them when there are fewer. They are newest first, and no record left out is newer than one shown. |
| Views.RecentTransactionsNewestFirst | src/App.jsx:110-114 | The recent list is newest first. No left-out record is newer than a shown one. |
| Views.RecentTransactionsStable | src/App.jsx:110-114 | Records of the same day keep the order in which they were added. |
| Views.CurrentMonthMembers | src/App.jsx:120-130 | A record is in the current month's list exactly when it is in the collection and dated in the month and year of `now`. |
| Views.CurrentMonthMatchesSeries | src/App.jsx:132-137 | This month's expenses are the monthly bucket of the month of `now`, or 0 when there is none. |
| Views.TotalsLayout | src/App.jsx:143-152 | By position, the tally holds the catalogue keys first, then only non-catalogue categories some record carries. Every entry holds its key's spending. |
| Views.BudgetVsActualSpec | src/App.jsx:139-161 | The table starts with the 14 categories in catalogue order. Each row has its label, this month's spending and its limit (0 when none). Then come the other categories spent on this month, under their raw keys: every such category has exactly one of these rows. The difference is always budget minus actual. |
| Views.BudgetVsActualExtraRows | src/App.jsx:139-161 | Every category outside the catalogue that some record of this month carries has a row after the catalogue's, and no two of those rows share a category. |
| Views.ExtraKeyPresent | src/App.jsx:89-98 | A category outside the catalogue that some record carries has its entry after the catalogue keys. |
| Percent.Round | src/components/Dashboard.jsx:21 | `Math.round` gives the integer within half of its argument, rounding halves up. |
| Percent.CappedPercent | src/components/Dashboard.jsx:21 | The capped percentage never exceeds 100. It is 100 exactly when the share rounds to at least 100%, and below that it is the rounded share. |
| Insights.OverallInsightSpec | src/components/SpendingInsight.jsx:10-32 | There is an overall insight exactly when the total budget is positive. It is positive exactly when expenses do not exceed the budget. Its percentage is the gap relative to the budget. |
| Insights.ClassifySpec | src/components/SpendingInsight.jsx:42-62 | A category gets a warning exactly when it spent more than 120% of a positive limit, and an info exactly when it spent under 50%. From 50% to 120% inclusive, or without a positive limit, there is no note. |
| Insights.Thresholds | src/components/SpendingInsight.jsx:45-55 | The percentage tests are equivalent to comparing spending with 1.2 times and 0.5 times the limit. |
| Insights.BudgetKeyForKnown | src/components/SpendingInsight.jsx:38-40 | A catalogue category's label finds that category's own budget key when it has one, and no key otherwise. |
| Insights.KnownSliceInsight | src/components/SpendingInsight.jsx:37-63 | A catalogue category's slice is judged against that category's own limit. |
| Insights.UnbudgetedSliceSilent | src/components/SpendingInsight.jsx:42 | A slice whose label belongs to no budget key gets no note. |
| Insights.CategoryInsightsFrom | src/components/SpendingInsight.jsx:37-64 | A note is in the list exactly when some slice of the data warrants it. |
| Insights.CategoryInsightsKinds | src/components/SpendingInsight.jsx:48-61 | Category notes are only warnings and infos. |
| Insights.TopNotesOrder | src/components/SpendingInsight.jsx:67-73 | The kept notes are a prefix of the notes sorted warnings first. A note is dropped only if every kept note ranks no lower, and kept plus dropped is all notes. |
| Insights.TopNotesStable | src/components/SpendingInsight.jsx:67-70 | Notes of the same kind keep their category-data order. |
| Insights.GenerateInsightsShape | src/components/SpendingInsight.jsx:6-74 | The overall insight is first and present exactly when the total budget is positive. Every later item is a category note. There are at most 4 insights, and at most 3 when the total budget is not positive. |
| Insights.AppInsightsFromSpending | src/App.jsx:210-213 | Every category note shown comes from a category with positive all-time spending, never from a budgeted category with no spending. |
| FormInput.FromNumber | src/components/TransactionForm.jsx:25-32 | A stored number fills the field as that number, except 0, which is falsy and is therefore validated as a blank field. |
| FormInput.FromNumberRoundTrip | src/components/BudgetForm.jsx:48-51 | Reading back the field of a stored number gives that number. |
| FormInput.TrimStart | src/components/TransactionForm.jsx:47-49 | Only leading white space is removed, and all of it. |
| FormInput.TrimEnd | src/components/TransactionForm.jsx:47-49 | Only trailing white space is removed, and all of it. |
| FormInput.TrimEmpty | src/components/TransactionForm.jsx:47-49 | Trimming leaves nothing exactly when the text is all white space. |
| TransactionForm.Open | src/components/TransactionForm.jsx:16-32 | On first mount the form shows no messages. A new form is blank and dated `now`. An edit form copies the record's fields and uses `now` when its date is missing. |
| TransactionForm.Load | src/components/TransactionForm.jsx:25-32 | A record to edit replaces the four fields, with `now` for a missing date. The messages are kept. Without a record nothing changes. |
| TransactionForm.ValidateSpec | src/components/TransactionForm.jsx:34-57 | The form passes exactly when the amount is a positive number, a date is picked, the description has a non-space character and a category is chosen. A blank amount gets "required"; any other bad amount gets "positive number". |
| TransactionForm.ApplyOnlyTouchesItsField | src/components/TransactionForm.jsx:59-81 | An edit sets its own field and clears its own message. Every other field and message stays. |
| TransactionForm.SubmitSpec | src/components/TransactionForm.jsx:83-103 | A payload is sent exactly when the form is valid. It carries the parsed amount, the fields as entered, and the edited id (none when adding). Only adding resets the form. |
| TransactionForm.EditUnchangedPayload | src/components/TransactionForm.jsx:25-32 | Whatever the form showed before, loading a stored record for editing and submitting it unchanged gives back that very record. |
| TransactionForm.EditUnchangedRoundTrip | src/App.jsx:40-45 | With unique ids, whatever the form showed before, saving an unchanged edit leaves the collection as it was. |
| TransactionForm.CancelThenSubmitAdds | src/App.jsx:230-236 | After Cancel the form keeps the edited record's fields, so a submit adds them as a new record without an id. |
| BudgetForm.ValidateEmpty | src/components/BudgetForm.jsx:29-41 | The form is accepted exactly when no field is rejected. |
| BudgetForm.ValidateFlags | src/components/BudgetForm.jsx:32-37 | Exactly the keys whose field is non-empty and either not a number or negative get the message. Blank and zero fields pass. |
| BudgetForm.FlaggedValues | src/components/BudgetForm.jsx:32-37 | Every error entry carries the message. |
| BudgetForm.FromBudgets | src/components/BudgetForm.jsx:13-15 | The fields have the map's keys in order. No field is rejected as not a number, and each reads back as its limit. A field is blank exactly when its limit is 0, since the input shows an empty string for 0. |
| BudgetForm.Normalise | src/components/BudgetForm.jsx:48-51 | The saved map has the fields' keys in order. Blank fields become 0 and the others their number. |
| BudgetForm.SubmitSpec | src/components/BudgetForm.jsx:43-55 | A save happens exactly when no field is rejected. The saved map has the same keys in the same order, and every saved limit is at least 0. |
| BudgetForm.SyncThenSave | src/components/BudgetForm.jsx:13-15 | Saving the fields of a budget map saves that same map, provided none of its limits is negative. |
| BudgetForm.ChangeSpec | src/components/BudgetForm.jsx:17-27 | A change sets the edited field and clears its message. Every other field and message is untouched. |
| BudgetForm.ResetToDefaults | src/components/BudgetForm.jsx:57-59 | The reset keeps the messages and shows the default budgets. |
| BudgetForm.ResetThenSave | src/components/BudgetForm.jsx:57-59 | Saving right after a reset saves exactly the default budgets. |
| BudgetComparison.SpendKeysKnown | src/components/BudgetComparision.jsx:10 | Only slices labelled like a category contribute a key, and it is that category's key. |
| BudgetComparison.AllKeysOrder | src/components/BudgetComparision.jsx:8-11 | The keys are the budget keys first, then the slices' categories with no budget key, each once. |
| BudgetComparison.ComparisonRowsSpec | src/components/BudgetComparision.jsx:6-27 | Each row belongs to a budget key or a slice's category. It has that category's label, its limit (0 when none) and the spending found by label (0 when none). It is over budget exactly when spending exceeds the limit, and it has a positive limit or spending. No key has two rows. The rows' keys are the candidate keys (budget keys first, then slice categories) in that order, keeping those whose row is shown. |
| BudgetComparison.RowsOrder | src/components/BudgetComparision.jsx:8-26 | Keeping only the shown rows keeps the candidates' order: the rows' keys are the candidate keys, in order, whose row has a positive limit or spending. |
| BudgetComparison.Candidates | src/components/BudgetComparision.jsx:13-25 | There is one candidate row per candidate key, in the same order. Each has the key's label, its limit (0 when none) and the spending found by that label, and it is over budget exactly when spending exceeds the limit. |
| BudgetComparison.RowsDistinct | src/components/BudgetComparision.jsx:8-11 | No key has two rows. |
| BudgetComparison.RowOrigin | src/components/BudgetComparision.jsx:13-26 | Each row is the row of its own key, and it passes the filter. |
| BudgetComparison.ComparisonRowsComplete | src/components/BudgetComparision.jsx:26 | A budget key or slice category gets a row exactly when its limit or its spending is positive. |
| BudgetComparison.CatalogueSlices | src/App.jsx:85-108 | When every record's category is in the catalogue, every slice is a catalogue category's. |
| BudgetComparison.SliceNamedAfter | src/components/BudgetComparision.jsx:16 | In that case, the slice labelled like a catalogue category is that category's own. |
| BudgetComparison.OwnSlice | src/App.jsx:101-107 | A catalogue category has its own slice exactly when its spending is positive. |
| BudgetComparison.ExpenseForCatalogue | src/components/BudgetComparision.jsx:16 | Over the application's chart data, a catalogue category's actual is its all-time spending when positive, and 0 otherwise. |
| CategoryReport.MonthlyForCategorySpec | src/components/BudgetCategoryReport.jsx:11-39 | With "all", the series is the dashboard's. With a category, it sums to that category's all-time spending. Periods are unique and ascending. |
| CategoryReport.MonthlyForCategoryEntries | src/components/BudgetCategoryReport.jsx:14-27 | With a category, each bar is a month in which that category had records, holding that month's spending in it. |
| CategoryReport.SpendingFoldFilters | src/components/BudgetCategoryReport.jsx:52-62 | Skipping other months inside the loop is the same as tallying the current month's records. |
| CategoryReport.CategorySpendingGet | src/components/BudgetCategoryReport.jsx:41-65 | Every catalogue category, and every other category spent on this month, holds its spending this month. Nothing else has an entry. |
| CategoryReport.CategorySpendingNonNegative | src/components/BudgetCategoryReport.jsx:44-62 | With no negative amounts, every catalogue category has an entry of at least 0. |
| CategoryReport.CardsMember | src/components/BudgetCategoryReport.jsx:133-145 | A catalogue category's card is shown exactly when the category is visible. |
| CategoryReport.CardsSpec | src/components/BudgetCategoryReport.jsx:133-145 | A category has a card exactly when its limit or its spending this month is positive. The card shows its label, limit and spending, and there are at most 14 cards. Every card is the card of a catalogue category with a positive limit or spending this month, so nothing else is shown. |
| CategoryReport.CardsFromCatalogue | src/components/BudgetCategoryReport.jsx:133-145 | Every card shows a catalogue category's label, its limit and its spending this month, and that limit or spending is positive. |
| CategoryReport.CardsOrigin | src/components/BudgetCategoryReport.jsx:133-145 | Every card is the card of a visible catalogue category. |
| CategoryReport.CardsOrder | src/components/BudgetCategoryReport.jsx:135 | The cards follow catalogue order. |
| CategoryReport.ReportLabel | src/components/BudgetCategoryReport.jsx:70-72 | The label is "All Categories" for "all", the category's label for a known key, and the raw key otherwise. |
| CategoryReport.ReportColor | src/components/BudgetCategoryReport.jsx:74-76 | The colour is `#4F46E5` for "all", the category's own colour for a catalogue key, and `#CBD5E0` for an unknown key. |
| Dashboard.TopCategoriesSpec | src/components/Dashboard.jsx:6-10 | The top list has at most 3 categories (all of them when fewer), biggest first. No left-out category is bigger than a listed one, and listed plus left out is all of them. |
| Dashboard.TopCategoriesStable | src/components/Dashboard.jsx:6-10 | Categories of equal value keep their chart order. |
| Dashboard.BudgetProgressSpec | src/components/Dashboard.jsx:19-22 | Progress is 0 without a total budget and never above 100. It is 100 exactly when the share rounds to at least 100%, and below that it is the rounded share. It is at least 0 for a positive budget and non-negative spending. |
| Dashboard.AppBudgetProgressBounds | src/components/Dashboard.jsx:17-22 | With no negative amounts or limits, the dashboard bar lies between 0 and 100. It is 0 when no limit is positive. |
| Dashboard.OverBudgetMarkerEarly | src/components/Dashboard.jsx:48 | The marker as written shows "(Over budget!)" when 99.5 or exactly 100 of a budget of 100 is spent, although neither is over. |
| Dashboard.OverBudgetSpec | src/components/CategoryBudgetCard.jsx:7 | Over budget means a share above 100%, and being over always shows the marker as written. The written marker also fires for shares from 99.5% to 100%, and only there without being over. |
| BudgetCard.PercentageSpentSpec | src/components/CategoryBudgetCard.jsx:6-7 | The bar is 0 without a positive limit and never above 100. With a positive limit it is 100 exactly when the share rounds to at least 100%, and otherwise the rounded share. A card over its positive limit reads 100. A zero limit with spending is over budget with an empty bar. |
| BudgetCard.SameAsDashboard | src/components/CategoryBudgetCard.jsx:6-7 | With a positive limit, the card's bar and over-budget test agree with the dashboard's. |
| StableSort.Sort | src/App.jsx:111-112 | Sorting returns a permutation of its input. |
| StableSort.SortSorted | src/App.jsx:112 | With a total-preorder comparator, the sorted list is in order. |
| StableSort.SortStable | src/components/SpendingInsight.jsx:67-70 | Elements that tie keep their relative order. |
| StableSort.SortTake | src/components/Dashboard.jsx:7-9 | A prefix of the sorted list is in order, and no element after it ranks before any element in it. The prefix and the rest together are the input. |

## Left out

- Local storage and JSON are not modelled. Loading is an optional stored value that falls back to `[]` or the default budgets (`Transactions.LoadTransactions`, `Budgets.LoadBudgets`). Saving is not modelled, and malformed JSON (which throws) is not modelled.
- The clock is not read. `Date.now()` is the `freshId` parameter and `new Date()` is the `now` parameter. Nothing makes ids unique, and lemmas that need unique ids assume them.
- Date parsing, time zones and time of day are not modelled. A date is an abstract `(year, month, day)`, and the newest-first order compares at day precision.
- IEEE-754 arithmetic is not modelled. Amounts are exact reals, so rounding error in sums is not modelled.
- `toFixed` and message texts are not modelled. An insight carries its kind, its category label and its percentage, not its title or description string.
- `parseFloat` and `isNaN` on text are abstracted into the field datatype. A budget field of white space only, which `isNaN` accepts but `parseFloat` reads as `NaN`, is not modelled.
- A stored amount of `0` fills the edit field with "0", but `!formData.amount` treats it as blank, so saving gives "Amount is required". The model keeps only what validation sees: `FormInput.FromNumber` turns 0 into a blank field.
- JavaScript's ordering of integer-like object keys before other keys is not modelled. Neither are inherited keys such as `constructor`. Category keys are plain words, so the catalogue is unaffected.
- Rendering, charts, icons, styling and `getAlertStyles` are presentation only and are not modelled. This also covers `Navbar.jsx`, `Footer.jsx`, `CategoryPieChart.jsx` and `TransactionLIst.jsx`.
- React hooks, effect ordering and re-rendering are not modelled. Each handler is a function from the form state to the next state.
- The BudgetCategoryReport component is not rendered by `App.jsx`. It is modelled as a component given the transactions, the budgets and `now`.
- The report renders the cards only while "all" is selected (`selectedCategory === 'all'`). `CategoryReport.Cards` models the list rendered in that case, and the selection gate itself is not modelled.
- A budget map is a list of key and limit pairs, which could hold a key twice, unlike a JavaScript object. The default budgets have distinct keys (`Constants.DefaultBudgetsCoverCategories`), and saving the budget form keeps the keys of its fields. A stored map is taken as given, and one with a repeated key is outside what the model promises: `Budgets.TotalBudget` would add both limits, while `Budgets.BudgetOf` reads only the first.
- `getBudgetVsActualData` is modelled although `App.jsx` never passes its result to a component.
- BudgetComparison.ExpenseForCatalogue: assumes every record's category is a catalogue key, as the form's category list ensures. A record with a raw category whose name equals some category's label would make the label lookup pick that record's slice instead.

## Findings

| source | as written | input that shows it | evidently intended | confidence | as-written member | corrected member |
|---|---|---|---|---|---|---|
| src/components/Dashboard.jsx:48 | The marker tests `getBudgetProgress() >= 100` on the rounded and capped percentage | Monthly spending of 99.5 (or exactly 100) against a total budget of 100 shows "(Over budget!)" | Spending strictly above the budget, as the category cards decide at src/components/CategoryBudgetCard.jsx:7 | low; not executed | Dashboard.OverBudgetMarkerEarly | Dashboard.OverBudgetSpec |
