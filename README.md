# useFetchTransactions, modelled in Dafny

This project models the transactions composable of the fintracker personal-finance client
(`app/composables/use-fetch-transactions.js`). For a date range, the composable fetches
transaction rows from the backend. It holds them in a reactive list with a `pending` flag.
It derives the values the page shows from that list:

- the Income and Expense partitions;
- their counts and totals;
- the rows grouped by calendar date.

The model has five modules: a generic helper (`Seqs`), the row record, and one module per part
of the composable:

- `Seqs` (seqs.dfy): the order-preserving `filter` that every derived list is built from,
  and the subsequence relation used to state "in original order".
- `Transactions` (transactions.dfy): a row. Its `type` column is the field `kind`, because
  `type` is a Dafny keyword. The record stores the decoded kind; `KindOf` is the decoding of
  the column's string, and `KindTestIsStringTest` ties the kind test to the source's string
  test. Its `amount` is an `int` in cents. Its `created_at` is the string `createdAt`.
- `Aggregate` (aggregate.dfy): `income`, `expense`, `incomeCount`, `expenseCount`,
  `incomeTotal` and `expenseTotal` as functions of the current list, with lemmas giving
  each its meaning.
- `Grouping` (grouping.dfy): `transactionsGroupedByDate`. The loop is the method
  `GroupByDate`, which fills a map. It is proved equal to a declarative specification,
  `Grouped`, in which each date maps to the rows of that date.
- `Composable` (composable.dfy): the state of one use of the composable. This is the class
  `TransactionsState`, whose fields are `transactions` and `pending`. It also holds the
  bundle of derived values returned to the page (`ViewOf`).

`fetchTransactions` is an async function. The model splits it at its one `await`:

- `BeginFetch` is the code before the await.
- `FinishFetch` is the code after it, including the `finally`.
- `FetchTransactions` runs the two in sequence.

What the awaited request settles to is an input, `Reply`. It is either the rows of the range
query, a query that reported an error, or a request that rejected with an exception.

The date key is `new Date(created_at).toISOString().split('T')[0]`. Date parsing and ISO
normalisation are library code, so they are a parameter `isoOf: string -> string`. The
`split('T')[0]` step is modelled exactly, by `BeforeFirst`.

## Model

| member | source | states |
|---|---|---|
| `Transactions.KindOf` | app/composables/use-fetch-transactions.js:6-11 | a `type` value is Income exactly when it is the string "Income", Expense exactly when it is "Expense", and Other for every other value (strict, case-sensitive equality) |
| `Aggregate.KindTestIsStringTest` | app/composables/use-fetch-transactions.js:7-10 | a row decoded from a `type` value passes the Income (Expense) test exactly when the value is the string "Income" ("Expense") |
| `Seqs.Filter` | app/composables/use-fetch-transactions.js:6-11 | `filter` keeps only elements that pass the test and come from the input, keeps every input element that passes, and is never longer than its input |
| `Aggregate.IncomeRows` | app/composables/use-fetch-transactions.js:6-8 | definition: `income`, the Income rows of the list, as `Filter` on the Income test |
| `Aggregate.ExpenseRows` | app/composables/use-fetch-transactions.js:9-11 | definition: `expense`, the Expense rows of the list, as `Filter` on the Expense test |
| `Aggregate.IncomeCount` | app/composables/use-fetch-transactions.js:13 | definition: `incomeCount`, the length of `income` |
| `Aggregate.ExpenseCount` | app/composables/use-fetch-transactions.js:15 | definition: `expenseCount`, the length of `expense` |
| `Aggregate.SumAmounts` | app/composables/use-fetch-transactions.js:18 | definition: the `reduce` of `amount` from 0, a left fold adding the first row first |
| `Aggregate.IncomeTotal` | app/composables/use-fetch-transactions.js:17-19 | definition: `incomeTotal`, `SumAmounts` over `income` |
| `Aggregate.ExpenseTotal` | app/composables/use-fetch-transactions.js:21-23 | definition: `expenseTotal`, `SumAmounts` over `expense` |
| `Aggregate.OfKindIsExactSubsequence` | app/composables/use-fetch-transactions.js:6-11 | `income`/`expense` are exactly the subsequence of rows of their type: a row of the list is in it if and only if it has that type; it keeps list order; and no other order-preserving subsequence made of rows of that type is longer or differs from it at equal length |
| `Aggregate.PartitionIsDisjointAndComplete` | app/composables/use-fetch-transactions.js:6-11 | no row is in both `income` and `expense`; a row of any other type is in neither; the Income, Expense and Other partitions together have as many rows as the list |
| `Aggregate.CountsAreRowNumbers` | app/composables/use-fetch-transactions.js:13-15 | `incomeCount` (`expenseCount`) is the number of positions of the list holding an Income (Expense) row |
| `Aggregate.TotalIsAmountOfKind` | app/composables/use-fetch-transactions.js:17-23 | folding `amount` over a partition gives the same value as the sum, over the whole list, of the amounts of the rows of that type |
| `Aggregate.TotalsAreAdditive` | app/composables/use-fetch-transactions.js:17-23 | `incomeTotal` and `expenseTotal` are additive over concatenation of transaction lists |
| `Aggregate.EmptyPartitionTotalsZero` | app/composables/use-fetch-transactions.js:17-23 | a total is 0 whenever its partition is empty, and both totals are 0 for the empty list |
| `Aggregate.TotalsPartitionTheSum` | app/composables/use-fetch-transactions.js:17-23 | no double counting: each total is the sum of the amounts of the rows of its type, and the Income, Expense and Other totals add up to the sum of every amount |
| `Aggregate.SumAmountsAppend` | app/composables/use-fetch-transactions.js:18 | the `reduce` left fold with initial value 0 is additive over concatenation |
| `Grouping.BeforeFirst` | app/composables/use-fetch-transactions.js:66 | `split('T')[0]` is the longest prefix without a `T`: a prefix of the string with no `T` in it, followed in the string by a `T` unless it is the whole string |
| `Grouping.DateKey` | app/composables/use-fetch-transactions.js:66 | definition: the bucket key of a timestamp, `split('T')[0]` (`BeforeFirst`) of its ISO form `isoOf(createdAt)` |
| `Grouping.Grouped` | app/composables/use-fetch-transactions.js:63-74 | definition: the specification of the grouping, one key per date some row falls on, mapped to the `Filter` of the list on that date |
| `Grouping.DayOfIso` | app/composables/use-fetch-transactions.js:66 | the date key of an ISO timestamp `day + "T" + time` is `day`, its `YYYY-MM-DD` part |
| `Grouping.GroupByDate` | app/composables/use-fetch-transactions.js:63-74 | the loop that creates a missing bucket and appends each row to its date's bucket produces exactly the declarative grouping: one key per date that occurs, mapped to the rows of that date in list order |
| `Grouping.GroupedSnoc` | app/composables/use-fetch-transactions.js:68-71 | one more row changes only the bucket of its date, which gains the row at its end, starting from an empty bucket when the date is new |
| `Grouping.BucketSnoc` | app/composables/use-fetch-transactions.js:71 | `push` puts a row at the end of its own date's bucket and leaves every other date's bucket as it was |
| `Grouping.EachRowInExactlyOneBucket` | app/composables/use-fetch-transactions.js:63-74 | every row is in the bucket keyed by its own date key, and every bucket holds only rows of the list whose date key is that bucket's key |
| `Grouping.KeysAreDatesOfRows` | app/composables/use-fetch-transactions.js:65-71 | a key is present if and only if some row has that date key, and every key maps to a non-empty bucket |
| `Grouping.BucketKeepsListOrder` | app/composables/use-fetch-transactions.js:65-71 | every bucket is a subsequence of the list (relative order kept), and no order-kept subsequence of rows of that date is longer or differs from it at equal length |
| `Grouping.BucketSizesSumToLength` | app/composables/use-fetch-transactions.js:63-74 | the bucket sizes add up to the length of the list: grouping loses and duplicates nothing |
| `Composable.TransactionsState.constructor` | app/composables/use-fetch-transactions.js:3-4 | the list starts empty and `pending` starts false |
| `Composable.ViewOf` | app/composables/use-fetch-transactions.js:76-88 | definition: the returned bundle of a list: the list, its grouping, both partitions, both totals and both counts, each computed from the list alone |
| `Composable.TransactionsState.View` | app/composables/use-fetch-transactions.js:76-88 | definition: the bundle of the list currently held |
| `Composable.TransactionsState.BeginFetch` | app/composables/use-fetch-transactions.js:26 | `pending` is true before the request is awaited; the list is unchanged |
| `Composable.TransactionsState.FinishFetch` | app/composables/use-fetch-transactions.js:34-50 | a query error yields the empty list, rows are returned as they came, a rejection propagates; `pending` is false afterwards in every case; the list is unchanged |
| `Composable.TransactionsState.FetchTransactions` | app/composables/use-fetch-transactions.js:25-51 | `pending` is true while the request is awaited and false once the fetch has settled, whether it returned or threw; the result depends on the reply as in `FinishFetch`; the list is unchanged |
| `Composable.TransactionsState.Refresh` | app/composables/use-fetch-transactions.js:53 | after `refresh` the list is the returned rows, or empty after a query error, and `refresh` returns that list; it throws exactly when the fetch rejected, in which case the assignment is skipped and the list is kept; `pending` is false |
| `Composable.ErrorRefreshShowsEmptyView` | app/composables/use-fetch-transactions.js:76-88 | the derived values of the empty list (what a failed query leaves) are no rows, no dates, zero counts and zero totals |
| `Composable.ExampleDateKeys` | app/composables/use-fetch-transactions.js:66 | the timestamps 2024-01-02T10:00:00Z and 2024-01-02T12:00:00Z both have the date key "2024-01-02", given that `isoOf` normalises them as `toISOString` does |
| `Composable.TwoRowExample` | app/composables/use-fetch-transactions.js:6-74 | an Income of 100 and an Expense of 40 on 2024-01-02 give totals 100 and 40, counts 1 and 1, and one date bucket "2024-01-02" holding both rows in fetch order (with `isoOf` as `toISOString`) |

## Left out

- Supabase query building (`from`, `select`, `gte`, `lte`, `order`, lines 37-42): this is an external client. The rows it returns are an opaque input, already range-filtered and ordered.
- `useAsyncData` caching and deduplication (lines 34-35) are framework memoisation and are not modelled. The model takes the handler's result as what `data.value` holds. The cache key has the form `"transactions-" + from + "-" + to`, built from `Date.toDateString()`. Its injectivity is not claimed.
- `watch(period, …)` (line 61) and the reactive `ref`/`computed` machinery are framework primitives. The derived values are functions of the current list (`ViewOf`, `TransactionsState.View`), and a period change is a call of `Refresh`.
- DateKey: date parsing and ISO normalisation (`new Date(…).toISOString()`) are the parameter `isoOf`. It is total, so the `RangeError` that `toISOString` throws on an invalid timestamp is not modelled. Backend `created_at` values are always valid timestamps.
- Async interleaving is not modelled. This includes stale in-flight responses overwriting a newer list. It also includes the case where one fetch finishing lowers `pending` while an overlapping fetch is still awaited.
- Rejected: any exception raised by the awaited call is one reply, `Rejected`. Its cause is not modelled.
- SumAmounts: amounts are JavaScript floating-point numbers in the source, but integers (cents) here. Rounding in the `reduce` sum is not modelled.
- The JavaScript object used as the grouping dictionary has prototype keys such as `constructor`. Date keys never collide with them, so the dictionary is a plain `map`. That object also lists its keys in insertion order, the order in which each date first occurs in the list; a Dafny `map` has no key order, so that order is not modelled (the order of rows within each bucket is).
