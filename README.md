# Call Center Dashboard: the filter-and-count pipeline

This project models the dashboard's logic in `main.py`, the part that is not Streamlit
or Plotly glue:

- The sidebar's initial selections. Every distinct Agent, Department, Answered and
  Resolved value is selected. The Rating and Date sliders start at the observed minimum
  and maximum.
- The combined `query`:
  - each categorical column must be in its selected list;
  - the rating and the date must lie in their inclusive ranges.
- The counting aggregates over the filtered rows:
  - the number of calls;
  - calls per Date and per Hour;
  - calls per (Agent, Department) pair;
  - the values that feed the three means.

Everything is a pure function over a `seq<Record>`. The lemmas state what the query and
the group-bys mean.

Modules:
- `Wrappers`: `Option`.
- `Records`: the record, the slider range and the filter state.
- `Sequences`: subsequence, distinctness and `unique()`.
- `Filter`: the row predicate `Keep` and the view `Filtered`.
- `Defaults`: the initial sidebar state.
- `Aggregates`: the total, the group counts and the mean inputs.
- `Dashboard`: the whole pipeline and sample scenarios.

Modelling choices:
- A spreadsheet cell that may be empty is an `Option`. pandas compares NaN/NaT as
  false, so a row with a missing rating or date never passes the query. A slider bound
  that is missing behaves the same way: `min()` of an all-NaN column is NaN, and every
  comparison with it is false.
- A Date is a day number, and Hour is an optional integer.
- `groupby` drops rows whose key is missing.
  - The Date and Hour tables are kept sorted by key, which is pandas' default.
  - `count()` on `CallId` counts the present CallIds of each observed pair. So a pair
    whose rows all lack a CallId is listed with 0. When every row has a CallId, no pair
    has a zero count (`NoZeroPairs`).

Three points about the program's own behaviour:
- A range with `low > high` is not swapped. It selects nothing.
- A missing Date does not stop the load. The date clause rejects that row.
- Nothing checks that Hour lies within 0–23.

## Model

| member | source | states |
|---|---|---|
| `Sequences.Unique` | main.py:22-44 | the default selection of a categorical column holds each value of the column exactly once, and nothing else |
| `Sequences.UniqueKeepsFirstAppearanceOrder` | main.py:24-25 | `unique()` lists values in the order of their first occurrence |
| `Defaults.MinPresent` | main.py:49 | `min()` skips missing cells: it is missing iff every cell is, and otherwise a present value no greater than any present value |
| `Defaults.MaxPresent` | main.py:49 | `max()` skips missing cells: it is missing iff every cell is, and otherwise a present value no smaller than any present value |
| `Defaults.ObservedRange` | main.py:46-56 | the initial slider range contains every present value of the column, and its bounds are observed values |
| `Defaults.DefaultState` | main.py:22-56 | each default list is duplicate-free and is exactly the set of values of its column; both default ranges cover every present rating and date, and their bounds are observed values |
| `Defaults.DefaultViewIsCompleteRows` | main.py:22-60 | under the default state, a row is kept iff it is in the data and has a present rating and date |
| `Defaults.DefaultIsIdentity` | main.py:22-60 | when every row has a rating and a date, the default view is the whole dataset, in order |
| `Filter.Keep` | main.py:58-60 | a kept row has a present rating and date and its Agent and Department are selected; the whole iff is `Filter.KeptIff` |
| `Filter.Filtered` | main.py:58-60 | the view is no longer than the data, and each of its rows passes the query and comes from the data |
| `Filter.KeptIff` | main.py:58-60 | a row is in the view iff it is in the data, its four categorical fields are in their lists, and `low <= value <= high` holds, bounds inclusive, for a present rating and for a present date |
| `Filter.FilteredIsSubsequence` | main.py:58-60 | the view is a subsequence of the data: order kept, rows unchanged |
| `Filter.FilteredMultiplicity` | main.py:58-60 | a kept row occurs in the view exactly as often as in the data, and a rejected row never occurs |
| `Filter.FilteredConcat` | main.py:58-60 | filtering distributes over concatenating two datasets |
| `Filter.FilteredAll` | main.py:58-60 | when every row passes, the view equals the data |
| `Filter.FilteredNone` | main.py:58-60 | when no row passes, the view is empty |
| `Filter.EmptySelection` | main.py:58-60 | an empty categorical list, an inverted range or a missing bound gives an empty view |
| `Filter.MissingRatingOrDateNeverKept` | main.py:59 | a row with a missing rating or date is never in the view |
| `Filter.NarrowingRefilters` | main.py:58-60 | a narrower state (sub-lists, tighter ranges) gives the wider view filtered again, and so a subsequence of it |
| `Filter.FilterIdempotent` | main.py:58-60 | filtering twice with the same state equals filtering once |
| `Aggregates.TotalCallsBounds` | main.py:65 | the total is at most the dataset size; it equals the size iff every row passes, and it is 0 iff no row passes |
| `Aggregates.TotalCalls` | main.py:65 | `shape[0]`, the length of the view; what it equals is stated by `Aggregates.TotalCallsBounds` and `Dashboard.Summarize` |
| `Aggregates.CallsCountByDate` | main.py:88 | the per-Date table is sorted, its counts are at least 1, each Date's count is the number of view rows with that Date, and the counts sum to the rows with a present Date |
| `Aggregates.CallsCountByHour` | main.py:104 | the per-Hour table is sorted, its counts are at least 1, each Hour's count is the number of view rows with that Hour, and the counts sum to the rows with a present Hour |
| `Aggregates.GroupCount` | main.py:88 | the per-key table has strictly increasing keys, and every count is at least 1 |
| `Aggregates.GroupCountLookup` | main.py:88 | the table's count for any key is the number of view rows holding that key (0 for an absent key) |
| `Aggregates.GroupCountEntry` | main.py:104 | each entry's count equals the number of view rows with its key |
| `Aggregates.GroupCountKeys` | main.py:88 | the table's keys are exactly the key values present in the view |
| `Aggregates.GroupCountTotal` | main.py:104 | the counts sum to the number of view rows whose key is present |
| `Aggregates.Insert` | main.py:88 | adding a row keeps the table strictly sorted, and every key of the result is the new key or no smaller than the old first key |
| `Aggregates.InsertKeys` | main.py:88 | adding a row introduces no key other than the new one |
| `Aggregates.InsertPositive` | main.py:88 | adding a row keeps every count at least 1 |
| `Aggregates.InsertLookup` | main.py:88 | adding a row with key k raises k's count by one and leaves every other count alone |
| `Aggregates.CallsCountByAgentsDepartments` | main.py:123 | each pair is listed once, its count is the number of its view rows with a present CallId, and the counts sum to the view rows with a present CallId |
| `Aggregates.PairCounts` | main.py:123 | the (Agent, Department) table lists every pair at most once |
| `Aggregates.Bump` | main.py:123 | adding a row adds its pair to the table's pairs and no other pair |
| `Aggregates.BumpCalls` | main.py:123 | adding a row raises only its own pair's count, by one if its CallId is present |
| `Aggregates.PairCountsCalls` | main.py:123 | the table's count for a pair is the number of view rows of that pair with a present CallId |
| `Aggregates.PairCountsPairs` | main.py:123 | the table's pairs are exactly the (Agent, Department) pairs occurring in the view |
| `Aggregates.PairCountsEntry` | main.py:123 | each entry counts the view rows of its pair that have a present CallId |
| `Aggregates.NoZeroPairs` | main.py:123 | when every row has a CallId, no entry has a count of 0 |
| `Aggregates.PairCountsTotal` | main.py:123 | the pair counts sum to the number of view rows with a present CallId |
| `Aggregates.MeanInputs` | main.py:69 | a mean has at most as many inputs as the view has rows; the exact number and multiplicities are `Aggregates.MeanInputsCount` and `Aggregates.MeanInputsMultiplicity` |
| `Aggregates.MeanInputsMembers` | main.py:73 | a value feeds the mean iff some row of the view holds it in that column |
| `Aggregates.MeanInputsEmpty` | main.py:77 | a mean has no inputs (so is undefined) iff every value of its column in the view is missing |
| `Aggregates.MeanInputsCount` | main.py:69 | a mean has exactly one input per present cell of its column, so its divisor is the number of present values |
| `Aggregates.MeanInputsMultiplicity` | main.py:73 | each value feeds the mean as often as it occurs in the column of the view |
| `Dashboard.Summarize` | main.py:58-123 | the total is at most the dataset size and is 0 iff no row passes; the per-Date counts sum to the total; there is one rating input per call; the pair counts sum to at most the total |
| `Dashboard.EmptyViewPropagates` | main.py:58-123 | when no row passes, every aggregate expression evaluates to 0 or to an empty table or input list |
| `Dashboard.RatingMeanDefinedIffCalls` | main.py:69-70 | the rating mean has no inputs iff the view is empty, because every kept row has a rating |
| `Dashboard.DateCountsAddUpToTotal` | main.py:65-88 | the per-Date counts sum to the total number of calls, because every kept row has a date |
| `Dashboard.SampleAgentFilter` | main.py:58-88 | for a two-call store, selecting agent A keeps the first call; the total is 1, the rating input is [5] and the per-Date table has one entry |
| `Dashboard.SampleRatingFilter` | main.py:58-60 | the rating range [4, 5] excludes a call rated 3 |
| `Dashboard.SampleSharedPair` | main.py:123 | two calls with the same (Agent, Department) give one entry counting 2 |

## Left out

- Page configuration, the sidebar markdown, the logo, the widgets and the column and tab
  layout (main.py:3-7, 16-20, 62, 82-85, 119-120). They are UI only. The widget values
  are inputs of the model: `FilterState`.
- `st.select_slider` returning its two values with low ≤ high is library behaviour. The
  model takes any two bounds.
- No slider option lists are modelled: the rating slider's `sorted(unique())` (main.py:48)
  and the date slider's `unique()` (main.py:54). Only the initial values are modelled.
- Loading the Excel file and `@st.cache_data` (main.py:9-14). These are file I/O plus a
  library cache. The dataset is an argument.
- Chart construction and layout (main.py:89-101, 105-117, 125-150). These are rendering.
  The scatter plot (main.py:144-149) shows the filtered view as it is.
- The three means (main.py:69, 73, 77). They are floating-point divisions, and only
  their inputs are modelled. Also left out: the two-decimal formatting, the star count
  from `round(avgRating)`, and the error that `round` raises on the NaN mean of an empty
  view (main.py:70).
- An empty view is not followed through the script. `SatisfactionRating.mean()` of an
  empty view is NaN, and `round` raises on it at main.py:70. The script stops there, so
  the speed and talk means and the Date, Hour and pair tables (main.py:73-123) are never
  computed for an empty view. `Dashboard.Summarize` and `Dashboard.EmptyViewPropagates`
  give the values those expressions would take. `Dashboard.RatingMeanDefinedIffCalls`
  shows that the view is empty exactly when this happens.
- Ratings and other numeric cells are integers. A decimal rating would compare in the
  same way.
- pandas internals: NaN inside categorical columns (the categorical fields are always
  present here) and dtype coercion.
- `Aggregates.PairCounts` lists pairs in the order they first occur. pandas sorts the
  (Agent, Department) groups lexicographically; that order is not modelled.
