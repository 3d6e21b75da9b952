# Finance dashboard pipeline, modelled in Dafny

This project models the data pipeline behind a small finance dashboard. The
pipeline turns an uploaded spreadsheet of transactions into `Date` / `Type` /
`Amount` rows. From those rows it derives:

- key figures: income, expense, profit, month-over-month growth and means;
- the monthly chart and the top expense categories;
- seasonal buckets and per-type statistics;
- rule-based insights and a text digest.

A filename check decides which uploads are accepted.

Two generations of the pipeline exist: the `src/` modules, which the dashboard
imports, and the older, smaller `processor.py` / `assistant.py` at the root.
Both are modelled. An older function is named `Legacy…` and is stated in terms
of its newer counterpart wherever the two agree.

The modules follow the program's structure:

| module | models |
|---|---|
| `Base`, `Order`, `Text` | `Option` / `Result`, strict total orders, string order, ASCII lower-casing, zero-padded digits |
| `Calendar` | Gregorian dates, `toordinal`, `dayofweek`, quarters, and the three month labels `%b-%y`, `%Y-%m`, `%b` |
| `Table` | the raw spreadsheet (`RawTable` of `Cell`s) and the normalised `Frame` of `Row`s |
| `Grouping` | `groupby(...).sum()` as sorted groups, ranking (`nlargest`, `sort_values(...).head(n)`), `idxmax` |
| `Normalize` | `process_data` (both copies) |
| `Monthly` | the `(Month, Type)` buckets and the sorted month labels shared by several views |
| `Kpis` | `get_kpis` (both copies) |
| `Charts` | `generate_chart_data`, `get_top_expense_categories`, `get_seasonal_trends` |
| `Statistics` | `calculate_statistics` |
| `Insights` | `generate_insights` and `increase_or_decrease` (both copies) |
| `Summary` | `generate_data_summary` (both copies) |
| `Upload` | `allowed_file` and the allowed extensions |

The frame's `Month` column is shared state in the program:

- `process_data` writes it as `%b-%y`.
- `get_kpis` and `generate_insights` overwrite it as `%Y-%m`.
- `get_seasonal_trends` overwrites it as `%b`.

So what the chart and the digest group by depends on call order. Here the
frame carries the format it currently holds (`Frame.month`), and each
operation that rewrites the column returns the rewritten frame.

Other modelling choices:

- Amounts are exact `real`s.
- A date is `Option<Date>`, where `None` stands for NaT.
- Type, amount and category are `Option`s as well, where `None` stands for NaN (a blank cell). As in pandas, sums skip NaN, means, medians, minima and maxima use only the present amounts, and group-bys drop rows whose key is NaN or NaT.
- Parsing a cell into a date is a parameter, and so is "today".
- Insights and summary lines are datatypes with one constructor per message
  template, instead of formatted text.

Where the program raises, the model returns a `Result` failure. This covers:

- a Date, Category or MonthNum column that a view reads but the frame lacks;
- `toordinal` or `strftime` applied to NaT;
- the unbound `income_change` described under Findings.

## Model

| member | source | states |
|---|---|---|
| Normalize.ProcessData | src/processor.py:9-51 | Rows are neither added nor dropped. The result starts with the input columns in their order. Its columns are exactly the input columns and the nine derived ones, so a derived column already uploaded is not added twice: when the input has no repeated column, neither does the result. Month holds `%b-%y` labels. Without a Type column every row is Income or Expense: a present amount is non-negative, and a NaN amount occurs only on an Expense row. It fails exactly when some row's normalisation fails, and with that row's error. |
| Normalize.LegacyProcessData | processor.py:6-46 | The older copy yields the same rows as the newer one and fails on the same inputs. Its only derived columns are Date, Type, Amount and Month (`%b-%y`). |
| Normalize.FirstColumn | src/processor.py:20-22 | The guessed column is the first column the name test accepts. It is absent exactly when no column passes. |
| Normalize.InferTypeFromSign | src/processor.py:26-30 | Without a Type column, the first amount-like column decides each row, and on success it holds only numbers and blanks. The row is Income iff the cell is a number of at least 0, and Expense iff it is negative or blank, since `NaN >= 0` is false. Amount is the absolute value, and a blank stays NaN. |
| Normalize.PlaceholderRows | src/processor.py:31-33 | Without Type and without an amount-like column, every row is Income with amount 1000. |
| Normalize.AmountCopiedUnchanged | src/processor.py:34-37 | With Type but no Amount, Amount is copied from the first amount-like column without taking its absolute value, and a blank cell becomes NaN. Type is kept, and a blank Type is NaN. |
| Normalize.AmountDefaulted | src/processor.py:34-39 | With Type but neither Amount nor an amount-like column, every amount is 1000. Type is kept, and a blank Type is NaN. |
| Normalize.DateFallback | src/processor.py:19-24 | Date is kept when present. Otherwise it is copied from the first date-like column and coerced, with unparseable cells becoming NaT. Without such a column every row is dated today. |
| Normalize.FailureNamesBadCell | src/processor.py:26-42 | A failed normalisation names a row that exists. It names a Type, amount or Category cell of that row that is neither blank nor of the kind its column needs. |
| Normalize.FailsExactlyOnUnusableCell | src/processor.py:26-42 | Normalisation fails iff some row has a Type, amount or Category cell that is read, is not blank, and is not of the needed kind. Blank (NaN) cells never make it fail. |
| Normalize.ToRawRoundTrip | src/processor.py:9-51 | Writing normalised rows back out as a Date/Type/Amount/Category sheet and reading it again gives the same rows. |
| Normalize.ProcessedFrameHasCoreColumns | src/processor.py:19-39 | Every frame either version of `process_data` produces has Date, Type and Amount columns. |
| Normalize.ProcessDataIdempotent | src/processor.py:9-51 | Whenever normalisation succeeds, normalising its output again succeeds and gives the same rows. |
| Calendar.OrdinalChronological | src/processor.py:223 | Day numbers follow the calendar: an earlier date has a smaller `toordinal`, and only equal dates share one. |
| Calendar.KnownOrdinal | src/processor.py:223 | 1 January 2024 is day 738886, a Monday. |
| Calendar.YearMonthKeyChronological | src/processor.py:67 | `%Y-%m` labels compare as strings exactly as their months compare in time, and are equal iff the month is the same. |
| Calendar.MonYYLabelsNotChronological | src/processor.py:44 | `%b-%y` labels do not: April 2024 sorts before January 2024. |
| Calendar.MonNameMergesYears | src/processor.py:158 | Two dates share a `%b` label iff they share the calendar month, whatever the year. |
| Table.InOfKind | src/processor.py:63 | The boolean mask `df['Type'] == kind` keeps a row iff it is one of the frame's rows and has that type. |
| Table.SumOfAmounts | src/processor.py:63 | Summing only the present amounts gives the same total as summing every row with NaN as 0. This is how pandas `sum` skips NaN. |
| Table.AmountsMembers | src/processor.py:176-182 | The values `mean`, `median`, `min` and `max` work on are exactly the present amounts of the rows. |
| Grouping.GroupSum | src/processor.py:68 | `groupby(key)['Amount']` drops rows whose key is NaN or NaT. The result is sorted by key, with one group per key some row carries. Each group holds its key's sum (NaN as 0), its row count and its count of non-NaN amounts, and no group is empty. |
| Grouping.GroupedByUnique | src/processor.py:68 | Only one list of groups meets that description, so it determines the group-by result completely. |
| Grouping.GroupMean | src/processor.py:199 | The `mean` of `agg` is present iff the group has a non-NaN amount. Times that count, it gives the group's sum. |
| Monthly.InsertLabelSpec | src/processor.py:69 | Adding a label to a strictly increasing label list keeps it strictly increasing, and the labels afterwards are the old ones plus the new one. |
| Monthly.ByMonthAndType | src/processor.py:68 | The groups are those of the rows that have both a date and a type: one per `(Month, Type)` that occurs, each with its sum, row count and non-NaN count. For each type, a group's sum is that type's sum in that month. |
| Monthly.Months | src/processor.py:69 | The month list is strictly increasing as strings. A label is listed iff some row with both a date and a type carries it. |
| Monthly.MonthBucketsAddUp | src/processor.py:68 | For each type, the month sums over all listed months add up to that type's total over its dated rows, so undated rows fall out and no row counts twice. |
| Monthly.LastMonthIsLatest | src/processor.py:71 | With `%Y-%m` labels, the last label is carried exactly by the rows dated in the latest month. |
| Monthly.PreviousMonthIsSecondLast | src/processor.py:72 | The second-to-last label is carried exactly by the rows dated in the latest month before the latest. |
| Kpis.LastTwo | src/processor.py:69-72 | The pair is present iff there are at least two months. Its values are a type's sums in the last and the second-to-last month. |
| Kpis.PercentChangeSign | src/processor.py:73 | For a positive previous value, the change times that value is 100 times the difference. The change is positive, zero or negative exactly as the current value is above, at or below the previous one. |
| Kpis.GrowthSpec | src/processor.py:66-77 | Growth is 0 without Date, with fewer than two months, or with a previous income of at most 0. Otherwise it is the percentage change of income between the last two months. |
| Kpis.Mean | src/processor.py:79 | The mean is present iff some row has an amount. Times the number of present amounts, it equals the total. |
| Kpis.GetKpis | src/processor.py:63-93 | Income and expense are the sums over the Income and Expense rows, and profit is income minus expense. Growth is as in `Kpis.GrowthSpec`. The income mean is the mean of the Income rows, which is NaN when none has an amount. The expense mean is that of the Expense rows when one exists, and 0 otherwise. With a Date column, Month afterwards holds `%Y-%m` labels. |
| Kpis.AbsentKindTotal | src/processor.py:64 | A type that does not occur sums to 0, so the `in unique()` guard does not change the expense. |
| Kpis.LegacyGetKpis | processor.py:48-74 | The older copy gives the same income, expense, profit and growth as the newer one, with the same effect on Month. |
| Charts.ChartData | src/processor.py:105-132 | The chart is absent only when there is neither Month nor Date, which is the random sample chart. Otherwise `months` are the sorted distinct labels of the rows with both a date and a type. Both maps have exactly those keys. Each value is that month's sum for the type, and 0 where the type has no row that month. The older processor.py:76-113 runs the same code. |
| Charts.ChartConserves | src/processor.py:117-132 | The chart's income values add up to the total of the dated Income rows, and its expense values likewise for Expense rows. |
| Charts.DashboardChartIsChronological | src/processor.py:117-118 | After `get_kpis` has relabelled Month, the chart's month order is the order of time. |
| Charts.TopExpenseCategories | src/processor.py:144-146 | Fails iff there is no Category column. Lists at most five expense categories, largest sum first and ties to the name that sorts first. Each listed category carries its expense sum. An omitted category is outranked by every listed one, and none is omitted from a list shorter than five. |
| Charts.OmittedCategory | src/processor.py:145 | An expense category that is left out is outranked by every listed one. |
| Charts.SeasonalTrends | src/processor.py:158-160 | Fails iff there is no Date column. Month afterwards holds `%b` labels. The groups are those of the rows with both a date and a type: one per `(month name, Type)` that occurs, each with its sum, row count and non-NaN count. Each bucket sums that type's rows dated in that calendar month. |
| Charts.SeasonalMergesYears | src/processor.py:158-159 | Rows of one type dated in the same calendar month of different years fall into the same bucket. |
| Charts.SeasonalBucketsAddUp | src/processor.py:159 | For each type, the seasonal buckets add up to that type's total over its dated rows. |
| Statistics.StatsOf | src/processor.py:176-184 | Count is the row count and total the amount sum, with NaN as 0. The mean is that of the present amounts. Median, min and max exist iff some amount is present. Then the median is that of the present amounts, and min and max bound every present amount and are attained. |
| Statistics.StatsBounds | src/processor.py:176-184 | When some amount is present, the mean and the median both lie between min and max. |
| Statistics.MedianBounds | src/processor.py:178 | The median of a non-empty list lies between its smallest and largest value. |
| Statistics.SortRealsSpec | src/processor.py:178 | The sort used for the median is ordered and a permutation of its input. |
| Statistics.TypeBlock | src/processor.py:174-196 | A type's block is present iff the type occurs, and then holds the figures of its rows. |
| Statistics.MonthlyBlock | src/processor.py:198-200 | The monthly block is present iff there is a Month column. It is grouped on the labels Month currently holds, with one group per `(Month, Type)` that occurs. |
| Statistics.CategoryBlock | src/processor.py:202-204 | The category block is present iff there is a Category column. Its groups are those of the rows with both a category and a type: one per `(Category, Type)` that occurs, each with its `sum`, row count and `count` of non-NaN amounts. |
| Statistics.VolatilityBlock | src/processor.py:206-216 | A type's volatility input is present iff there is a Date column and the type has more than one `%Y-%m` group. It is that type's monthly sums. |
| Statistics.TypedGroupsNeedRows | src/processor.py:208-213 | A group of a type needs a row of that type, so the `len(monthly_data) > 1` and `'Expense' in unique()` guards never decide the outcome. |
| Statistics.DayOfWeekBlock | src/processor.py:218-220 | The day-of-week block is present iff there is a Date column and more than seven rows. Its groups are those of the rows with both a date and a type: one per `(weekday, Type)` that occurs, each with its sum. |
| Statistics.TrendBlock | src/processor.py:222-241 | A type's trend input is present iff the type has more than two rows. It holds one point per row of that type, in row order: the row's day number and its amount, NaN kept. |
| Statistics.ExpenseTrendPresence | src/processor.py:233-241 | The Expense trend is present iff there is a Date column, more than two rows and more than two Expense rows. |
| Statistics.PatternBlock | src/processor.py:243-246 | The monthly patterns are present iff Month and Year exist and more than four month numbers occur. Its groups are one per `(month number, Type)` that occurs, each with its sum. |
| Statistics.MonthNums | src/processor.py:245 | The month numbers are strictly increasing. A number is listed iff some row with both a date and a type falls in that month. |
| Statistics.MonthNumsAtMostTwelve | src/processor.py:245 | At most twelve month numbers exist. |
| Statistics.CalculateStatistics | src/processor.py:162-248 | Fails iff one of three things holds. (1) There is a Date column, more than two rows and an undated row, because `toordinal` of NaT raises. (2) The trend code runs on dated rows and more than two Income rows, or more than two Expense rows, all fall on one day, because `linregress` raises on identical x values. (3) Month and Year exist without MonthNum. The errors come in program order, and an undated-row error names such a row. On success the rows are unchanged, `date_ordinal` is added exactly when the trend code runs, and every block is as its own member states. |
| Statistics.TrendsRefused | src/processor.py:222-238 | When the trend code runs, the regression of a type raises iff that type has more than two rows, all on one day. |
| Statistics.TrendOnOneDay | src/processor.py:223-226 | On dated rows, a type's (day number, amount) points all share one x value iff it has more than two rows and they all carry the same date, because `toordinal` is injective. |
| Statistics.SingleDayRefused | src/processor.py:24 | If every row carries the same "today" date and there are more than two Income rows, the statistics fail on the Income regression. |
| Insights.IncreaseOrDecrease | src/assistant.py:251-261 | "Increased" iff the change is at least 0, so zero counts as an increase. |
| Insights.DirectionAndMagnitude | src/assistant.py:87 | The direction and the absolute value together give the change back. |
| Insights.MarginVerdict | src/assistant.py:71-73 | For positive income, the margin is above 20% iff expenses are below four fifths of income, and it is 0 iff expense equals income. |
| Insights.MarginInsights | src/assistant.py:70-73 | The margin insight is present iff income is positive and holds `(income - expense) / income * 100`. It has no verdict iff the margin is 0, and is "healthy" iff expenses are below four fifths of income. |
| Insights.Change | src/assistant.py:79-86 | A type's change is known iff there are two months and the earlier month's sum is positive. Its sign follows the comparison of the two sums. |
| Insights.ChangeBlockSpec | src/assistant.py:85-105 | These hold for the corrected block. The income line appears iff the income change is known. The growth line appears iff that change is above 0, and the decline line iff it is at most 0. The expense line appears iff an Expense row exists and its change is known. "Great job" appears iff income rises and expenses fall, and the warning iff income falls and expenses rise. |
| Insights.ChangeInsightsSpec | src/assistant.py:79-105 | The same observations, stated in terms of the sums of the last two `%Y-%m` months. |
| Insights.ChangeInsightsAsWritten | src/assistant.py:79-105 | The block as written fails exactly when two months exist, the previous income is at most 0, an Expense row exists and the previous expense is positive. |
| Insights.ChangeBlockAgrees | src/assistant.py:79-105 | Wherever the block as written does not fail, it produces exactly the corrected block's output. |
| Insights.UnboundIncomeChangeExample | src/assistant.py:102 | Take an expense change from 100 to 80 with no prior income. The block as written fails, and the corrected one reports a 20% decrease. |
| Insights.Share | src/assistant.py:112 | The share times a positive total expense is 100 times the amount. The share is 0 when the total is not positive. |
| Insights.CategoryInsights | src/assistant.py:107-117 | The category insight is present iff there is a Category column and an Expense row with a category. It names a category with its expense sum and share. The review advice follows iff the share exceeds 40%. |
| Insights.LargestCategoryIsLargest | src/assistant.py:108-111 | Any category of an Expense row makes the category insight present. The reported category has the largest expense sum of all categories, and ties go to the name that sorts first. |
| Insights.PeakMonth | src/assistant.py:119-126 | The peak month is known iff at least six `%Y-%m` months exist and some Income row is dated. It is a month number 1..12 that has Income rows. |
| Insights.PeakMonthIsLargest | src/assistant.py:121-126 | The peak month has the largest income sum across all years of any month number, and ties go to the lowest number. |
| Insights.PeakInsights | src/assistant.py:119-129 | The peak insight is present iff the peak month is known, and carries its full month name. |
| Insights.InsightFrame | src/assistant.py:75-77 | With Type, Amount and Date, Month afterwards holds `%Y-%m` labels and MonthNum is added once six months exist. Otherwise the frame is unchanged. |
| Insights.GenerateInsights | src/assistant.py:54-134 | The result is never empty. It is exactly the default prompt when Type, Amount or Date is missing. The prompt appears iff it is the only insight. Otherwise the insights are the margin block, the month-over-month block, the largest-category block and the peak-month block, in that order. This is the corrected version. |
| Insights.PromptWhenNothingFound | src/assistant.py:131-132 | The default prompt is the result iff none of the margin, change, category or peak rules fired. |
| Insights.GenerateInsightsAsWritten | src/assistant.py:54-134 | The function as written fails iff the analysed frame hits the unbound `income_change`. |
| Insights.GenerateInsightsAgrees | src/assistant.py:54-134 | Wherever the function as written succeeds, it agrees with the corrected version. |
| Insights.LegacyBlock | assistant.py:91-132 | This is the older copy's rule set. The margin insight, without a verdict, is present iff income is positive and comes first. Next comes the income line, iff its change is known, carrying that change's direction and magnitude. Then the expense line, iff an Expense row exists and its change is known, carrying its direction and magnitude. Nothing else follows. The prompt is the result iff nothing fired. |
| Insights.LegacyBlockIsTrimmedBlock | assistant.py:91-132 | The older rule set is the newer margin without its verdict, followed by the change lines of the corrected month-over-month block without their follow-ups; the prompt replaces an empty list. |
| Insights.ChangeLinesOfBlock | src/assistant.py:84-103 | Without its follow-up remarks, the corrected month-over-month block is the income line, then the Expense line, each present iff its change is known. |
| Insights.LegacyGenerateInsights | assistant.py:86-132 | Without Type, Amount and Date the older copy returns only the prompt and leaves the frame unchanged. Otherwise it relabels Month as `%Y-%m` and applies its rules to the frame's figures. |
| Summary.Kinds | src/assistant.py:228 | Each Type value is listed once, NaN included. A value is listed iff some row has it, in order of first appearance. |
| Summary.ValueCounts | src/assistant.py:222-224 | Each type appears with its row count, and a type appears iff some row has it; NaN is not counted. The list runs from most frequent to least, ties by name. |
| Summary.KindTotal | src/assistant.py:229 | The mask `df['Type'] == t` selects the rows of type `t`. For a NaN `t` it selects nothing, so that total is 0. |
| Summary.DateBlock | src/assistant.py:216-219 | With a Date column, the date-range line is present and gives the earliest and latest valid dates, with no row dated outside them. It fails iff no row has a valid date, because `strftime` of NaT raises. |
| Summary.TypeBlock | src/assistant.py:221-233 | With Type, the count line comes first. With Amount, it is followed by one total per Type value in first-appearance order, and a NaN value's total is 0. With Amount and no Type, a single total of all amounts appears instead. |
| Summary.TypeTotalsAddUp | src/assistant.py:226-230 | The per-type totals add up to the total of the rows that have a type. |
| Summary.TopCategoryGroups | src/assistant.py:236-237 | At most five `(Category, Type)` groups are listed, each with its sum, largest first. Every group left out is outranked by every listed one. When fewer than five are listed, every occurring `(Category, Type)` pair is among them. |
| Summary.RecentGroups | src/assistant.py:243-244 | At most three `(Month, Type)` groups are listed. Later labels come first, and groups sharing a label keep the `groupby` order, Type ascending, because pandas' descending sort keeps ties in order. Every group left out comes after every listed one in that order. |
| Summary.ByRecency | src/assistant.py:244 | The key-sorted groups are rearranged, none lost or added, so that later labels come first and equal labels keep Type ascending. |
| Summary.RecentTiesKeepTypeOrder | src/assistant.py:244 | With two months of Expense and Income, the list is the later month's Expense, then its Income, then the earlier month's Expense. |
| Summary.RecentLabelsAreGreatest | src/assistant.py:244 | A listed month label is never smaller, as a string, than one left out. |
| Summary.CommonLines | src/assistant.py:213-233 | The digest is the record count, the column list, the date block and the type block, in that order. It fails iff a Date column has no valid date. |
| Summary.CommonLinesPlain | src/assistant.py:213-233 | The common lines open with the record count and the column list, and hold no category or recent-month block. |
| Summary.GenerateDataSummary | src/assistant.py:201-249 | The digest is the common lines, then the top-categories block iff there is a Category column, then the recent-months block iff there is a Month column. The recent-months block is grouped on Month's current labels. |
| Summary.LegacyGenerateDataSummary | assistant.py:50-84 | The older copy yields exactly the common lines: record count, column list, date range and type lines. It fails on the same inputs and never lists categories or recent months. |
| Summary.LegacySummaryIsPlainPrefix | assistant.py:50-84 | The older digest fails iff the newer one does. Otherwise it is a prefix of the newer digest, and each newer line beyond it is a category or recent-month block. |
| Upload.Extension | routes.py:19-20 | The extension is absent iff the name has no dot. Otherwise it is the dot-free text after the last dot, and the name is stem, dot and extension. |
| Upload.ExtensionOfJoin | routes.py:20 | Joining a stem and a dot-free extension with a dot and splitting at the last dot gives the extension back. |
| Upload.AllowedFileSpec | app/routes.py:22 | A name is accepted iff it is a stem, a dot and a dot-free extension whose lower-case form is allowed. |
| Upload.LastExtensionCounts | routes.py:20 | `statement.csv.zip` is refused and `archive.tar.csv` accepted. |
| Upload.ExtensionCaseIgnored | app/routes.py:22 | `REPORT.XLSX` is accepted. |
| Upload.MissingExtensionRefused | routes.py:12-20 | `report.` (empty extension) and `csv` (no dot) are refused against `{xlsx, xls, csv}`, the set app/create_app.py:10 also uses. |

## Left out

- Standard deviations (`std_income`, `std_expense`, `std_dev`), volatility ratios and `linregress` trend lines: they need square roots and floating-point regression. The volatility and trend blocks carry the monthly sums and (day number, amount) points they would be computed from. The `ValueError` that `linregress` raises on identical day numbers is modelled.
- Kpis.GetKpis: has no `std_income` / `std_expense` fields, for the reason above.
- Floating-point rounding: amounts are exact reals, so sums do not depend on summation order.
- Date parsing (`pd.to_datetime(errors='coerce')`) is a parameter `Cell -> Option<Date>`, and "today" is a parameter. `Calendar.Date` accepts years 1000..9999, so every pandas timestamp fits.
- WeekOfYear (ISO week) and the Year/MonthNum/Quarter/DayOfWeek cell values are not stored. `Normalize.ProcessData` only names these columns. The blocks that use them read the row's date instead, so an uploaded MonthNum or Year column that disagrees with Date is not modelled.
- The random sample chart that `generate_chart_data` draws without Month and Date is nondeterministic, so `Charts.ChartData` returns `None` there.
- Cells pandas would carry along but the model cannot use become a `NormError` naming the row: text or a timestamp in an amount column, or a number or timestamp as Type or Category. The program would go on with object-typed columns. Under sign inference a text amount makes `x >= 0` raise in the program as well. Blank cells are not errors: they are NaN, which sums skip and group-bys drop.
- Lower-casing covers ASCII letters only.
- Tie order: `value_counts` and `sort_values('Amount')` leave the order of equal counts or sums to the sort implementation. The model breaks those ties by name.
- Summary.RecentGroups: keeps groups that share a Month label in `groupby` order. That is what pandas' descending sort does with numpy's default sort on up to 16 groups. With more groups numpy's quicksort leaves the order of ties unspecified.
- Duplicate column names are excluded by `Table.WellFormed`.
- A frame without a Type or Amount column: `get_kpis`, `generate_chart_data` (when Month exists), `get_top_expense_categories`, `get_seasonal_trends` and `calculate_statistics` raise `KeyError` on `df['Type']` or `df['Amount']`. `Kpis.GetKpis`, `Charts.ChartData`, `Charts.TopExpenseCategories`, `Charts.SeasonalTrends` and `Statistics.CalculateStatistics` instead read each row's type and amount fields whether or not the frame lists those columns. Every frame the dashboards pass in comes from `process_data`, which always adds both columns (`Normalize.ProcessedFrameHasCoreColumns`).
- The text of insights and summary lines (number formatting, thousands separators, `%.1f`) is not modelled. Each line is a datatype value that carries the numbers it prints.
- `generate_summary`, `ask_assistant` (calls to a language-model API), PDF report generation, the Streamlit dashboards, the Flask routes other than `allowed_file`, the sample-data generators and the launchers: they are I/O, UI or network code.

## Findings

| source | as written | input that shows it | evidently intended | confidence | as-written member | corrected member |
|---|---|---|---|---|---|---|
| src/assistant.py:102 | `income_change` is assigned only when the previous month's income is positive, but the Expense branch reads it whenever the previous expense is positive; Python raises `UnboundLocalError` | previous month: one Expense of 100 and no Income; last month: Income 50 and Expense 80 | report the expense change (a 20% decrease) and skip the income/expense comparison | not executed | Insights.ChangeInsightsAsWritten, Insights.UnboundIncomeChangeExample | Insights.ChangeInsights, Insights.ChangeBlockSpec |
