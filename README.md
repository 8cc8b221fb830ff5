# Expense tracker core, modelled in Dafny

The application records personal expenses: each expense has an amount, one of nine fixed categories, an optional description and a calendar date. It shows them as a grouped history list, a pie chart and a stacked bar chart by category, and a trend line per period. A REST endpoint lists and creates expenses. This project models the logic under that user interface and proves what it promises:

- **Category registry** (`categories.dfy`). These are the nine category names with their colours and icon keys. The category records the components look up (`categories`, `getCategoryById`) are taken to be the nine seed rows of the database script, with each id its position plus one; see "## Left out".
- **Validators** (`form_validation.dfy`, `edit_validation.dfy`). There are two of them.
  - The creation form's string schema and its transform. `parseFloat` and `parseInt` are modelled exactly on strings in `js_numbers.dfy`.
  - The edit dialog's typed schema.
  - The two disagree: the creation form allows 200 characters of description and the edit dialog 500. Only the creation form bounds the date to the last year. Both schemas are modelled as they are, and lemmas state where they part.
- **Optimistic update reconciler** (`reconciler.dfy`). This has two parts.
  - A pure reducer applies `update` and `delete` actions by id.
  - A class holds the authoritative list, the optimistic view, the two selections, the two dialog flags and a pending/committed/rolled-back phase. Each asynchronous handler is split into the synchronous optimistic step and the step that settles on the server's answer.
- **Aggregation** (`periods.dfy`, `trend_chart.dfy`, `bar_chart.dfy`, `pie_chart.dfy`, `expense_list.dfy`). It covers:
  - day, Monday-start week and month periods between the first and the last expense date;
  - the trend points (sums and counts, empty periods kept; 24 hourly points for the `today` view) and the y-axis bound;
  - the bar chart's category totals per period (empty periods dropped);
  - the pie chart's category totals, percentages and descending order;
  - the history list grouped by date, newest first, with the category fallback.
- **Collection endpoint** (`expenses_route.dfy`). It covers:
  - the decision flow of POST (401, 400, lazy creation of the user row, insert, 201), as a method over mutable `users` and `expenses` tables;
  - GET's pagination arithmetic: defaults, the cap of 100, offset and range, the ownership filter, the order and `totalPages`.

Amounts are exact reals. JavaScript numbers that can be NaN or infinite are the `Num` datatype. Dates are day numbers, with day 0 = 1970-01-01. Instants are milliseconds since the epoch, and a date-only string is read as midnight of its day. Months come from an abstract, well-formed calendar; weeks are computed. The identity provider, the database, the request body's schema and the clock are parameters.

The endpoint's listing takes only `page` and `limit`. The code has no category or date-range filter for it, and the model follows the code.

## Model

| member | source | states |
|---|---|---|
| Categories.RegistryShape | src/lib/constants.ts:3-13 | The registry has exactly nine records. Record i has id i+1 and the i-th name of EXPENSE_CATEGORIES. |
| Categories.CategoryNamesDistinct | src/lib/constants.ts:3-13 | No two category names are equal. |
| Categories.ColorsAndIconsTotal | src/lib/constants.ts:15-37 | CATEGORY_COLORS and CATEGORY_ICONS are defined for exactly the registry's names. |
| Categories.FindById | src/components/charts/category-pie-chart.tsx:37 | `find` returns the first record of the list with the requested id (no earlier record has it), and none only when no record has it. |
| Categories.FindByConsecutiveId | scripts/setup-database-complete.js:124-133 | In a list numbered from a base, the id alone locates the record, and an id outside the range finds nothing. |
| Categories.GetCategoryById | src/components/expense-list.tsx:116 | A record is found exactly for ids 1..9. It is the registry entry at position id-1. |
| FormValidation.AmountAccepted | src/lib/validations.ts:5-15 | An amount string passes exactly when `parseFloat` gives a finite number in (0, 9999999.99]. |
| FormValidation.AmountZeroRejected | src/lib/validations.ts:5-11 | "0" and "" are rejected. |
| FormValidation.AmountMaxAccepted | src/lib/validations.ts:12-15 | "9999999.99" is accepted. |
| FormValidation.AmountOverMaxRejected | src/lib/validations.ts:12-15 | "10000000" is rejected. |
| FormValidation.CategoryAccepted | src/lib/validations.ts:17-23 | category_id passes exactly when `parseInt` finds an integer in 1..9. |
| FormValidation.CategoryExamples | src/lib/validations.ts:17-23 | "1" and "3 items" pass; "10", "0" and "" fail. |
| FormValidation.DescriptionAccepted | src/lib/validations.ts:25-28 | A description passes when absent or at most 200 characters. |
| FormValidation.DateAccepted | src/lib/validations.ts:30-40 | A date passes exactly when it is non-empty and parses to an instant in [one year ago, now]. |
| FormValidation.EmptyDateIssues | src/lib/validations.ts:30-40 | An empty date fails both the length check and the range refinement, since `new Date("")` is always invalid. |
| FormValidation.FormAccepted | src/lib/validations.ts:4-41 | The form passes exactly when each of its four fields passes. |
| FormValidation.TransformAccepted | src/lib/validations.ts:46-53 | For accepted data: amount in (0, 9999999.99]; category in 1..9; an empty or absent description becomes null, and any other description is kept; the date is unchanged. |
| FormValidation.CategorySchemaAccepted | src/lib/validations.ts:56-57 | categorySchema's id passes exactly for finite numbers in [1, 9]. |
| FormValidation.CategorySchemaSpecialValues | src/lib/validations.ts:57 | NaN fails `z.number()` once, on its type, with neither bound checked; Infinity fails only the maximum and -Infinity only the minimum. |
| FormValidation.RegistryPassesCategorySchema | src/lib/validations.ts:57 | Every registry record's id passes categorySchema. |
| EditValidation.ValidateEdit | src/lib/validations/expense.ts:3-22 | Fails exactly when some field has an issue, and reports all issues (a non-Date value gets the schema's date message, an invalid Date zod's "Invalid date"). Otherwise: amount in (0, 9999999.99]; integer category in 1..9; a valid date; description of at most 500 characters, defaulting to ''. |
| EditValidation.EditAmountAccepted | src/lib/validations/expense.ts:4-7 | An amount passes exactly when finite and in (0, 9999999.99]. |
| EditValidation.EditAmountSpecialValues | src/lib/validations/expense.ts:4-7 | Infinity fails only the upper bound; NaN fails once, on its type. |
| EditValidation.EditCategoryAccepted | src/lib/validations/expense.ts:8-12 | category_id passes exactly when it is an integer in 1..9. |
| EditValidation.EditDateAccepted | src/lib/validations/expense.ts:13-16 | Any valid date passes; there is no range. |
| EditValidation.EditDateMessages | src/lib/validations/expense.ts:13-16 | A value that is not a Date gets '有効な日付を入力してください'; a Date holding no time gets zod 3's "Invalid date". |
| EditValidation.EditDescriptionAccepted | src/lib/validations/expense.ts:17-21 | A description passes when absent or at most 500 characters. |
| EditValidation.DescriptionLimitsDisagree | src/lib/validations/expense.ts:17-21 | A description of 201 to 500 characters passes the edit schema and fails the creation form. |
| EditValidation.DateRangesDisagree | src/lib/validations/expense.ts:13-16 | An instant outside the last year fails the creation form and passes the edit schema. |
| JsNumbers.Ceil | src/app/api/expenses/route.ts:189 | `Math.ceil` gives the least integer at or above its argument. |
| JsNumbers.ParseFloatFromDigit | src/lib/validations.ts:9 | A string starting with a digit parses to the value of its leading decimal literal. |
| JsNumbers.ParseFloatMaxAmount | src/lib/validations.ts:13-14 | `parseFloat("9999999.99")` is exactly 9999999.99. |
| JsNumbers.ParseFloatTenMillion | src/lib/validations.ts:13-14 | `parseFloat("10000000")` is 10000000. |
| JsNumbers.ParseIntDecimal | src/lib/validations.ts:21 | A string of decimal digits alone parses to its decimal value. |
| JsNumbers.ParseIntNoDigit | src/lib/validations.ts:21-22 | "" and "abc" parse to NaN. |
| Seqs.SortDescOrdered | src/components/charts/category-pie-chart.tsx:43 | The stable descending sort orders by key, and ties keep any rank order the input had. |
| Seqs.SumOfSortDesc | src/components/charts/category-pie-chart.tsx:43 | Sorting does not change a sum over the elements. |
| Seqs.AscendingKeys | src/components/charts/category-pie-chart.tsx:36 | The integer keys of an object, in the ascending order `Object.entries` lists them; each exactly once. |
| ExpenseModel.TotalAppend | src/components/charts/category-bar-chart.tsx:81 | The sum of amounts over a concatenation is the sum of the two sums. |
| ExpenseModel.TotalPositive | scripts/setup-database-complete.js:28 | With positive amounts the sum is not negative, and positive for a non-empty list. |
| ExpenseModel.CategorySumSnoc | src/components/charts/category-bar-chart.tsx:70-72 | Appending an expense adds its amount to its own category's total and to no other. |
| ExpenseModel.SumOverCategoriesSnoc | src/components/charts/category-bar-chart.tsx:69-76 | Over distinct ids, appending an expense adds its amount once when its category is listed. |
| ExpenseModel.SumOverCategoriesIsTotal | src/components/charts/category-bar-chart.tsx:69-81 | When distinct ids cover every expense's category, the category totals add up to the total. |
| Reconciler.ReplaceWhere | src/components/expense-manager.tsx:40-43 | `update` keeps the length. Each position with the id becomes the new record, and each other position is unchanged. |
| Reconciler.ReplaceAbsent | src/components/expense-manager.tsx:40-43 | An update whose id does not occur changes nothing. |
| Reconciler.ReplaceKeepsIds | src/components/expense-manager.tsx:40-43 | An update keeps every position's id, and repeating it changes nothing. |
| Reconciler.RemoveById | src/components/expense-manager.tsx:44-45 | `delete` keeps exactly the elements with another id, and only elements of the list. |
| Reconciler.RemoveCount | src/components/expense-manager.tsx:44-45 | `delete` removes exactly as many elements as carry the id. |
| Reconciler.RemoveAppend | src/components/expense-manager.tsx:44-45 | `delete` distributes over concatenation, so the rest keep their relative order. |
| Reconciler.RemoveAbsent | src/components/expense-manager.tsx:44-45 | A `delete` whose id does not occur changes nothing. |
| Reconciler.ApplyOther | src/components/expense-manager.tsx:46-47 | Any other action returns the state unchanged. |
| Reconciler.ThreeElementExamples | src/components/expense-manager.tsx:38-49 | On [a, b, c] with distinct ids, updating b gives [a, b', c] and deleting b gives [a, c]. |
| Reconciler.ExpenseManager.constructor | src/components/expense-manager.tsx:24-28 | It starts from the initial list, with no selection, closed dialogs and nothing pending. |
| Reconciler.ExpenseManager.SyncInitial | src/components/expense-manager.tsx:31-33 | A new `initialExpenses` resets the authoritative list and keeps everything else. |
| Reconciler.ExpenseManager.HandleEdit | src/components/expense-manager.tsx:52-55 | It selects the expense for editing and opens the edit dialog; nothing else changes. |
| Reconciler.ExpenseManager.HandleDelete | src/components/expense-manager.tsx:57-60 | It selects the expense for deletion and opens the delete dialog; nothing else changes. |
| Reconciler.ExpenseManager.EditSubmit | src/components/expense-manager.tsx:62-81 | With no selection, nothing changes. Otherwise the view shows the edited record in its place; the authoritative list and dialogs are unchanged. |
| Reconciler.ExpenseManager.EditSettled | src/components/expense-manager.tsx:83-100 | On success the matching entries become the server's record, the dialog closes and the selection clears. On failure the list and dialog are unchanged, the view reverts and the error is raised again. |
| Reconciler.ExpenseManager.DeleteConfirm | src/components/expense-manager.tsx:103-109 | With no selection, nothing changes. Otherwise the selected expense leaves the view; the authoritative list is unchanged. |
| Reconciler.ExpenseManager.DeleteSettled | src/components/expense-manager.tsx:111-126 | On success the entries with the id leave the list, the dialog closes and the selection clears. On failure the list, the selection and `isDeleteDialogOpen` are unchanged, the view reverts, and nothing is raised; the dialog closes itself after the handler returns. |
| Reconciler.EditScenario | src/components/expense-manager.tsx:62-100 | Editing b in [a, b, c] shows [a, b', c] while pending and [a, s, c] after a commit with server record s. |
| Reconciler.EditFailureScenario | src/components/expense-manager.tsx:62-100 | A failed edit of b in [a, b, c] shows [a, b, c] again. |
| Reconciler.DeleteScenario | src/components/expense-manager.tsx:103-126 | Deleting b in [a, b, c] shows [a, c] while pending and after a commit, and [a, b, c] after a failure. |
| Periods.StartOfWeek | src/components/charts/category-bar-chart.tsx:53 | The Monday on or before a day: at most six days earlier, and in the same week. |
| Periods.IntervalStarts | src/components/charts/category-bar-chart.tsx:28-41 | One interval per period from the period of the first date to that of the last. |
| Periods.KeyBounds | src/components/charts/category-bar-chart.tsx:47-60 | Every day lies between the first day of its period and the first day of the next. |
| Periods.KeyStartIncreasing | src/components/charts/category-bar-chart.tsx:47-60 | Later periods start on later days. |
| Periods.KeyOfStart | src/components/charts/category-bar-chart.tsx:47-60 | The first day of a period lies in that period. |
| Periods.KeyCharacterized | src/components/charts/category-bar-chart.tsx:47-60 | A day lies within a period's bounds exactly when that period is its own. |
| Periods.KeyMonotone | src/components/charts/category-bar-chart.tsx:47-60 | A later day is in the same or a later period. |
| Periods.PeriodSpanIsPeriod | src/components/charts/category-bar-chart.tsx:47-60 | From `startOf…` to `endOf…` of an interval are exactly the days that share its period. |
| Periods.SpanAt | src/components/charts/category-bar-chart.tsx:28-60 | The i-th span is the whole period i after the first date's, and is not empty. |
| Periods.SpansCover | src/components/charts/category-bar-chart.tsx:28-60 | The spans run from the first date's period to the last date's, with no gap or overlap. |
| Periods.SpansEnds | src/components/charts/category-bar-chart.tsx:28-41 | There is one span per period; the first holds the first date and the last holds the last date. |
| Periods.LastSpan | src/components/charts/category-bar-chart.tsx:28-41 | The last span holds the last date. |
| Periods.SpansContiguous | src/components/charts/category-bar-chart.tsx:28-60 | Each span starts the day after the previous one ends. |
| Periods.SpansKeys | src/components/charts/category-bar-chart.tsx:28-60 | The i-th span's first day is in period i after the first date's. |
| Periods.ContiguousOrdered | src/components/charts/category-bar-chart.tsx:28-60 | In contiguous spans an earlier span ends before a later one starts. |
| Periods.ContiguousPartition | src/components/charts/category-bar-chart.tsx:62-65 | Every day between the ends of contiguous spans is in exactly one of them. |
| Periods.DayWindowHolds | src/components/charts/category-bar-chart.tsx:62-65 | An expense is in a window, both bounds included, exactly when its date is in the span. |
| Periods.DayWindows | src/components/charts/category-bar-chart.tsx:44-65 | There is one window per span. |
| Periods.MinDate | src/components/charts/category-bar-chart.tsx:22 | The earliest date, attained by some expense. |
| Periods.MaxDate | src/components/charts/category-bar-chart.tsx:23 | The latest date, attained by some expense. |
| Periods.WindowsPartition | src/components/charts/category-bar-chart.tsx:62-65 | Each expense of the list lies in exactly one window between the first and the last date. |
| Periods.DayWindowsPartition | src/components/charts/category-bar-chart.tsx:21-65 | Those windows partition the whole list. |
| Periods.WindowSumsSnoc | src/components/charts/expense-trend-chart.tsx:83-94 | Appending an expense adds its amount and 1 for every window holding it. |
| Periods.HitOnce | src/components/charts/expense-trend-chart.tsx:83-94 | An expense held by exactly one window is counted once. |
| Periods.HitNone | src/components/charts/expense-trend-chart.tsx:83-94 | An expense held by no window is not counted. |
| Periods.PartitionSums | src/components/charts/expense-trend-chart.tsx:83-94 | Over partitioning windows, the window sums add up to the total and the counts to the length. |
| Periods.EmptySums | src/components/charts/expense-trend-chart.tsx:17 | No expenses give zero sums and counts. |
| TrendChart.HourlyIntervals | src/components/charts/expense-trend-chart.tsx:33-39 | The loop yields 24 instants: hour h of the first date, for h = 0..23. |
| TrendChart.HourWindows | src/components/charts/expense-trend-chart.tsx:61-65 | There are 24 hourly windows. |
| TrendChart.Points | src/components/charts/expense-trend-chart.tsx:58-95 | One point per window: the sum and the count of the expenses inside it. |
| TrendChart.GenerateChartData | src/components/charts/expense-trend-chart.tsx:16-99 | The switch and the hourly loop give exactly the specified points. |
| TrendChart.PointSums | src/components/charts/expense-trend-chart.tsx:83-94 | The points' amounts and counts add up to the window sums and counts. |
| TrendChart.TrendUsesPeriods | src/components/charts/expense-trend-chart.tsx:28-55 | Outside the hourly view the points are those of the period windows. |
| TrendChart.PeriodPoints | src/components/charts/expense-trend-chart.tsx:28-55 | One point per period between two dates, zero periods kept; point i starts at period i's first day. |
| TrendChart.TrendSums | src/components/charts/expense-trend-chart.tsx:83-98 | Outside the hourly view the amounts add up to the total and the counts to the number of expenses. |
| TrendChart.HourlyPoints | src/components/charts/expense-trend-chart.tsx:31-40 | The hourly view has 24 points at hours 0..23 of the first date. With dates read as local midnight (UTC offset 0), a date-only expense falls in hour 0 of its own date, so hours 1..23 are empty. |
| TrendChart.MidnightHour | src/components/charts/expense-trend-chart.tsx:61-65 | Midnight of a day lies in hour 0 of that day and in no other hour window. |
| TrendChart.LaterHourEmpty | src/components/charts/expense-trend-chart.tsx:61-86 | With dates read as local midnight (UTC offset 0), no expense falls in hours 1..23 of the first date. |
| TrendChart.LargestAmount | src/components/charts/expense-trend-chart.tsx:135 | The largest point amount, attained by some point. |
| TrendChart.YAxisMax | src/components/charts/expense-trend-chart.tsx:136 | The axis bound is a non-zero multiple of 10000. |
| TrendChart.YAxisCovers | src/components/charts/expense-trend-chart.tsx:135-136 | With amounts not negative, the bound is positive and at or above every point; it is 10000 when all amounts are 0. |
| BarChart.CategoryEntryFrom | src/components/charts/category-bar-chart.tsx:68-76 | Every entry is the (name, total) of a category whose total is positive. |
| BarChart.CategoryEntryFor | src/components/charts/category-bar-chart.tsx:68-76 | Every category whose total is positive has its (name, total) entry. |
| BarChart.CategoryEntriesSnoc | src/components/charts/category-bar-chart.tsx:69-76 | One more category adds its entry at the end, only when its total is positive. |
| BarChart.FillCategoryTotals | src/components/charts/category-bar-chart.tsx:68-76 | The `forEach` loop over the categories yields their entries in order. |
| BarChart.Bars | src/components/charts/category-bar-chart.tsx:44-82 | There is one bar per window: its start, its category entries and its total. |
| BarChart.GenerateChartData | src/components/charts/category-bar-chart.tsx:17-86 | The switch, and the map that runs the `forEach` of each period, give exactly the specified bars without the empty periods. |
| BarChart.EntriesSumOverCategories | src/components/charts/category-bar-chart.tsx:68-76 | With positive amounts, dropping the zero categories loses nothing: the entries add up to the category totals. |
| BarChart.RegistryIds | scripts/setup-database-complete.js:124-133 | The registry's ids are distinct and are exactly 1..9. |
| BarChart.RegistryEntriesAddUp | src/components/charts/category-bar-chart.tsx:69-81 | With positive amounts and ids in 1..9, the entries add up to the total. |
| BarChart.BarCategoriesAddUp | src/components/charts/category-bar-chart.tsx:69-81 | Under the same condition, a bar's category values add up to its total. |
| BarChart.BarsShown | src/components/charts/category-bar-chart.tsx:81-83 | Every bar shown has a positive total and comes from a period; every period with spending has its bar shown. |
| BarChart.BarsChronological | src/components/charts/category-bar-chart.tsx:21-83 | The bars shown are in strictly increasing time order. |
| BarChart.WindowStartsIncreasing | src/components/charts/category-bar-chart.tsx:28-41 | The windows start later and later. |
| BarChart.FilterKeepsIncreasing | src/components/charts/category-bar-chart.tsx:83 | Dropping bars keeps the rest in order. |
| PieChart.CategoryTotals | src/components/charts/category-pie-chart.tsx:26-33 | The in-place `reduce` builds exactly the specified totals map. |
| PieChart.TallyKey | src/components/charts/category-pie-chart.tsx:26-33 | A category has a total exactly when some expense has it. |
| PieChart.TallyValue | src/components/charts/category-pie-chart.tsx:26-33 | Each total is the sum of the amounts of that category's expenses. |
| PieChart.TallyIsCategorySums | src/components/charts/category-pie-chart.tsx:26-33 | Both of the above, for every category at once. |
| PieChart.EntriesForAt | src/components/charts/category-pie-chart.tsx:36-42 | One entry per key: the i-th has the i-th key's label, its total, and that total over the grand total times 100. |
| PieChart.ChartData | src/components/charts/category-pie-chart.tsx:26-43 | The component's reduce, map and sort give exactly the specified data. |
| PieChart.EntriesValueSum | src/components/charts/category-pie-chart.tsx:36-40 | The entries' values add up to the category totals of their keys. |
| PieChart.UnsortedEntryAt | src/components/charts/category-pie-chart.tsx:36-42 | Before the sort, entry i is that of the i-th smallest category id present. |
| PieChart.PieEntryIndex | src/components/charts/category-pie-chart.tsx:36-43 | Every sorted entry is one of the unsorted entries. |
| PieChart.PieEntryFrom | src/components/charts/category-pie-chart.tsx:36-43 | Every entry belongs to a category that occurs in the input. |
| PieChart.PieEntryFor | src/components/charts/category-pie-chart.tsx:36-43 | Every category that occurs has its entry. |
| PieChart.PieLength | src/components/charts/category-pie-chart.tsx:36-43 | There is one entry per distinct category. |
| PieChart.PieEmpty | src/components/charts/category-pie-chart.tsx:26-43 | The data is empty exactly when the input is. |
| PieChart.PieSumsToTotal | src/components/charts/category-pie-chart.tsx:26-43 | The entry values add up to the sum of all amounts. |
| PieChart.PercentagesScale | src/components/charts/category-pie-chart.tsx:41 | Percentages of a grand total add up to the values' sum over it times 100, and to 100 when the values add up to it. |
| PieChart.EntryPercentage | src/components/charts/category-pie-chart.tsx:41 | With a positive grand total, each percentage is value / total × 100. |
| PieChart.PercentagesFinite | src/components/charts/category-pie-chart.tsx:41 | With positive amounts, every percentage is finite and is value / total × 100. |
| PieChart.PercentagesAddUp | src/components/charts/category-pie-chart.tsx:41 | With positive amounts, the percentages add up to 100. |
| PieChart.PieSorted | src/components/charts/category-pie-chart.tsx:43 | The entries are in descending order of value. |
| PieChart.LabelCases | src/components/charts/category-pie-chart.tsx:37-39 | A registry id is labelled with its icon and name, and any other id with '不明'. |
| ExpenseList.DateKeyMember | src/components/expense-list.tsx:79-86 | A date is a key of the grouping exactly when some expense has it. |
| ExpenseList.DateKeysDistinct | src/components/expense-list.tsx:79-86 | No date is a key twice. |
| ExpenseList.GroupSnoc | src/components/expense-list.tsx:84 | Pushing an expense appends it to its own date's group only. |
| ExpenseList.GroupOfAbsentDate | src/components/expense-list.tsx:81-83 | A date no expense has has an empty group. |
| ExpenseList.GroupByDate | src/components/expense-list.tsx:79-86 | The in-place `reduce` creates a group for exactly the dates present. Each group holds that date's expenses in input order, and the keys are in first-occurrence order. |
| ExpenseList.Render | src/components/expense-list.tsx:49-91 | The empty state is shown exactly for no expenses. Otherwise the dates are sorted newest first, each with its group. |
| ExpenseList.SortedDatesDescending | src/components/expense-list.tsx:89-91 | The shown dates are exactly the expenses' dates, each once, strictly newest first. |
| ExpenseList.GroupCountAll | src/components/expense-list.tsx:79-86 | The groups' sizes add up to the number of expenses. |
| ExpenseList.RowsShown | src/components/expense-list.tsx:103-114 | The rows shown, group by group in display order, are as many as the expenses. |
| ExpenseList.NoExpensesNoGroups | src/components/expense-list.tsx:49 | No expenses give no keys and no dates. |
| ExpenseList.CategoryFallback | src/components/expense-list.tsx:116-128 | The joined category wins, then the registry record, then '💰' and 'その他'. Something is always shown. |
| ExpensesRoute.Tables.Post | src/app/api/expenses/route.ts:6-125 | The answer is the decision of the flow. The user row is added only for a valid body from a new caller whose insert succeeds. The expense row is appended exactly when 201 is returned. |
| ExpensesRoute.PostStatuses | src/app/api/expenses/route.ts:9-116 | 401 exactly without a caller; 400 exactly for an invalid body, with its issues; 201 exactly for a valid body whose inserts succeed. |
| ExpensesRoute.CreatedRow | src/app/api/expenses/route.ts:90-116 | A created row belongs to the caller and carries the validated category, amount, description and date. |
| ExpensesRoute.EmailFallback | src/app/api/expenses/route.ts:53-77 | A new user's email is never empty. It is 'unknown@example.com' exactly when the lookup fails, finds no or an empty primary address, or finds that address itself. |
| ExpensesRoute.GetUnauthorized | src/app/api/expenses/route.ts:130-136 | Without a caller GET answers 401, whatever the tables hold. |
| ExpensesRoute.DefaultPage | src/app/api/expenses/route.ts:140 | An absent or empty page parameter reads as page 1. |
| ExpensesRoute.DefaultLimit | src/app/api/expenses/route.ts:141 | An absent or empty limit parameter reads as limit 20. |
| ExpensesRoute.LimitCapped | src/app/api/expenses/route.ts:141 | The limit is the requested one capped at 100, and NaN only when the request is NaN. |
| ExpensesRoute.Window | src/app/api/expenses/route.ts:162-163 | A range returns at most `limit` rows, its i-th row being row offset + i of the list. |
| ExpensesRoute.Joined | src/app/api/expenses/route.ts:150-158 | The join keeps one row per row, each carrying the category record of its id. |
| ExpensesRoute.GetOutcome | src/app/api/expenses/route.ts:126-170 | With a caller: 200 exactly when the page query succeeds and page and limit are at least 1; otherwise 500 with 'Failed to fetch expenses'. |
| ExpensesRoute.GetListing | src/app/api/expenses/route.ts:137-190 | A listed answer holds the requested page of the caller's rows, the page and limit as read, the caller's row count (0 when the count fails), and totalPages computed from that count. |
| ExpensesRoute.ListedPage | src/app/api/expenses/route.ts:142-163 | A page holds at most `limit` rows, all the caller's, taken in list order from the page's offset on and joined with their category. |
| ExpensesRoute.OffsetIsProduct | src/app/api/expenses/route.ts:142 | The offset of page p is (p - 1) × limit. |
| ExpensesRoute.OrderedRows | src/app/api/expenses/route.ts:159-161 | The order keeps exactly the rows and sorts them by date, newest first, then by creation time, latest first. |
| ExpensesRoute.OrderedOwned | src/app/api/expenses/route.ts:159 | Ordering the caller's rows yields only the caller's rows. |
| ExpensesRoute.TotalPagesCeil | src/app/api/expenses/route.ts:189 | totalPages is the least n with n × limit ≥ total, and 0 exactly when there are no rows. |
| ExpensesRoute.RowOnItsPage | src/app/api/expenses/route.ts:142-189 | Row k of the ordered list is entry k mod limit of page k/limit+1, and that page is within totalPages. |

## Left out

- Floating point: amounts, sums and percentages are exact reals. IEEE rounding, `toFixed` and currency formatting are not modelled.
- Time zones: `new Date("yyyy-MM-dd")` is read as local midnight of that day, and `toISOString().split('T')[0]` (expense-manager.tsx:68) is given as the day it names. JavaScript reads a date-only string as UTC midnight while `setHours` works in local time, so this reading is exact only at UTC offset 0.
- TrendChart.HourlyPoints, TrendChart.LaterHourEmpty: both hold only at UTC offset 0. JavaScript reads the date string as UTC midnight, so at local offset +o hours (0 < o < 24) every expense lands in hour o of its day (hour 9 in Japan), and at a negative offset the 24 hours are those of the previous local day; the model does not capture that shift.
- Categories.Registry, Categories.GetCategoryById: the `constants.ts` of the repository defines neither `categories` nor `getCategoryById`, which the charts and the list import. The model assumes the nine seed rows with ids 1..9 in registry order (true only on a fresh database, since the ids come from a serial column and the seed uses `ON CONFLICT DO NOTHING`) and their emoji icons, which differ from the icon keys of `CATEGORY_ICONS`.
- date-fns arithmetic on months is an abstract well-formed calendar. The `format` labels and the Japanese locale are not modelled.
- The body schema POST validates with (`expenseSubmitSchema`) is not part of this model; its outcome is an input to `ExpensesRoute.Tables.Post`. route.ts:4 imports it from `@/lib/validations`, but the `src/lib/validations.ts` of the repository exports the schemas `expenseFormSchema`, `categorySchema` and `userSchema` (validations.ts:4, :56, :66) and `transformExpenseFormData`, and no `expenseSubmitSchema`.
- The user-existence query of POST is taken to answer correctly; a failing lookup that reads as "no user" is not distinguished.
- Exceptions thrown by the database client inside POST and GET, other than the error results they return, are not modelled. Neither is the retry with the placeholder email after a failed insert inside the identity-provider `try`.
- ExpensesRoute.Get: the database's answer to a NaN, zero or negative range (page or limit below 1) is not known. The model treats such a request as a failed query (500).
- ExpensesRoute.OrderedRows: rows equal in both date and creation time are in an unspecified database order. The model fixes one (input order).
- PieChart.PieSorted: states descending order by value but not the tie order. Ties keep the ascending id order of `Object.entries`, which the model computes but does not state.
- `Object.entries` and `Object.keys` ordering of non-integer or very large keys: category ids are integers, and date keys are modelled as day numbers.
- String lengths count characters, not UTF-16 code units.
- React scheduling: `useOptimistic`, `startTransition` and state batching are modelled as one pending action at a time. `EditSubmit` and `DeleteConfirm` require that nothing is pending, and the settle methods require a pending action of their kind. The overlay is the intended optimistic view while the server call is pending; because the transitions' callbacks are synchronous (expense-manager.tsx:79-81, 107-109) and the `await` follows them, React may drop the optimistic value before the server answers, which the model does not capture.
- EditValidation.EditDateIssues, EditValidation.ValidateEdit: the messages are those of zod 3 (the major version whose default messages the model uses throughout). zod 4 words its defaults differently.
- Toasts, console logging, the skeleton shown while `isLoading`, Recharts rendering, colours and tooltips are not modelled.
- The identity provider, the database, the clock and `new Date(string)` are parameters.
