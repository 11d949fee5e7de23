# Detailing Bulls dashboard: the filter-and-aggregate callback in Dafny

The dashboard loads a table of car-detailing transactions (city, date of
service, service, amount) and shows, for the city and date range the user
picks, the total revenue, the number of transactions, the average ticket,
a pie chart of revenue per service, a line chart of revenue per day and
the matching transactions as a table. All of that is computed by one
callback, `update_dashboard`; the city selector is fed the sorted list of
distinct cities.

This project models that callback and the city list as pure functions
over a dataset given as a sequence of records, and proves what they
promise:

- `Wrappers`: `Option`, for a selector left unset and for an average that
  does not exist.
- `StringOrder`: Python's ordering of strings (`Le`, `Lt`), proved to be a
  total order; strictly ascending lists of strings, insertion into one, and
  the fact that such a list is determined by its elements.
- `Transactions`: the `Record` of one transaction, boolean-mask row
  selection (`Where`), the sum of amounts (`Total`), and the laws of
  selection: it keeps order, keeps exactly the passing rows with their
  multiplicity, composes, and a mask and its negation partition the rows.
- `Aggregates`: the daily revenue series (a sorted group-by sum), the
  revenue per service (the pie chart's data) and the average ticket.
- `Dashboard`: selector truthiness, the two filtering stages, the city
  options, and `UpdateDashboard`, which returns every figure the page shows.

Two behaviours of the code are kept as written:

- The date filter runs only when both the start and the end date are
  given (non-empty). With one end missing, no date filtering happens at
  all (`IncompleteRangeIgnored`).
- The dataset's dates are read as text, so the range test compares
  strings code point by code point (`StringOrder.Le`). Text order agrees
  with calendar order for zero-padded, fixed-width year-month-day dates
  such as `YYYY-MM-DD`; the code compares text, and so does the model.

## Model

| member | source | states |
|---|---|---|
| `Transactions.Total` | dashboad/App.py:95 | The sum of the `Amount` values of the rows, 0 for no rows; the lemmas below state its laws. |
| `StringOrder.Le` | dashboad/App.py:90-91 | Python's `<=` on strings: code point by code point, the first differing character decides, and a proper prefix sorts first. The range test and the city sort both use it. |
| `Dashboard.Truthy` | dashboad/App.py:86-88 | Python truthiness of a selector: false for an unset selector (`None`) and for the empty string, true otherwise. |
| `Dashboard.Selected` | dashboad/App.py:86-92 | The combined mask: the row's city equals the chosen city when a city is truthy, and `start <= date <= end` on text holds when both bounds are truthy. |
| `Transactions.Where` | dashboad/App.py:87 | Boolean-mask selection keeps a row exactly when it is in the input and passes the mask; the result is never longer than the input. |
| `Transactions.WhereIsSubsequence` | dashboad/App.py:86-92 | The selected rows are an order-preserving subsequence of the input. |
| `Transactions.WhereMultiset` | dashboad/App.py:87 | Every passing row is kept as many times as it occurs; every failing row is dropped. |
| `Transactions.WhereTwice` | dashboad/App.py:86-92 | Selecting by one mask and then by another is the same as selecting once by their conjunction. |
| `Transactions.WhereSameMask` | dashboad/App.py:87 | Two masks that agree on every row select the same rows. |
| `Transactions.WhereAll` | dashboad/App.py:83 | A mask true on every row keeps the whole input in order. |
| `Transactions.WhereAppend` | dashboad/App.py:87 | Selection decides row by row: it distributes over concatenation. |
| `Transactions.WherePartition` | dashboad/App.py:95-96 | A mask and its negation split the rows: their counts add up to the row count and their totals to the total. |
| `Transactions.TotalEmpty` | dashboad/App.py:95 | The revenue of no rows is 0. |
| `Transactions.TotalAppend` | dashboad/App.py:95 | The sum of amounts over two blocks of rows is the sum of the two sums. |
| `StringOrder.LeReflexive` | dashboad/App.py:90-91 | Every date string is `>=` and `<=` itself, so the range ends are inclusive. |
| `StringOrder.LeAntisymmetric` | dashboad/App.py:90-91 | Two strings each `<=` the other are equal. |
| `StringOrder.LeTransitive` | dashboad/App.py:90-91 | String `<=` is transitive. |
| `StringOrder.LeTotal` | dashboad/App.py:13 | Any two strings are comparable, so sorting the cities is well defined. |
| `StringOrder.LtIffNotLe` | dashboad/App.py:13 | Python's `<` on strings holds exactly when `>=` fails. |
| `StringOrder.InsertDistinct` | dashboad/App.py:13 | Inserting a city into a strictly ascending list keeps it strictly ascending, and its elements become the old ones plus that city. |
| `StringOrder.AscendingUnique` | dashboad/App.py:13 | Two strictly ascending lists with the same elements are equal. |
| `Dashboard.CityOptions` | dashboad/App.py:13 | The city list is strictly ascending (sorted, no duplicates) and holds exactly the cities of the dataset. |
| `Dashboard.CityOptionsIsSortedUnique` | dashboad/App.py:13 | Any ascending list of the dataset's cities equals the city list, and no city appears in it twice. |
| `Dashboard.OfferedCitySelectsRows` | dashboad/App.py:30 | Choosing any non-empty offered city yields at least one row, and all rows are of that city. |
| `Dashboard.FilterRows` | dashboad/App.py:83-92 | The filtered rows are the dataset selected by the one mask `Selected`: an order-preserving subsequence that holds every copy of each passing row, as often as it occurs in the dataset, and no failing row. |
| `Dashboard.FilterRowsIsOneMask` | dashboad/App.py:86-92 | The city stage followed by the date stage equals one selection by the combined predicate `Selected`. |
| `Dashboard.NoSelectionKeepsAll` | dashboad/App.py:83-92 | With no city and no complete date range, the rows are the whole dataset in its original order, and the count is the dataset's size. |
| `Dashboard.CityStepKeepsExactlyThatCity` | dashboad/App.py:86-87 | With a city chosen, every kept row has exactly that `City`. Every dataset row of that city is kept, as often as it occurs. |
| `Dashboard.IncompleteRangeIgnored` | dashboad/App.py:88 | With either date bound missing or empty, the result equals the city-only result. |
| `Dashboard.DateRangeIsInclusive` | dashboad/App.py:88-92 | With both bounds given, a city-stage row is kept exactly when `start <= date <= end` on text. Rows dated on either bound are kept. |
| `Dashboard.CityAndRestPartition` | dashboad/App.py:86-96 | For any city, the rows of that city and the rows of the other cities add up to the dataset, both in count and in revenue. |
| `Dashboard.UnknownCityGivesEmptyView` | dashboad/App.py:86-109 | A city absent from the dataset yields an empty table, count 0, revenue 0, no average, an empty series and an empty service map. |
| `Dashboard.UpdateDashboard` | dashboad/App.py:82-111 | The table rows are the dataset selected by `Selected`, in dataset order, each passing row as often as it occurs in the dataset. The count is their number and the revenue their sum. The average is absent exactly when the count is 0, and otherwise times the count gives the revenue. The daily series is date-ascending, covers exactly the selected rows' dates, holds each date's total and sums to the revenue. The service map holds each selected service's total. |
| `Dashboard.TwoCityExample` | dashboad/App.py:82-111 | With one NY row (100) and one LA row (50), choosing NY gives revenue 100, one transaction, an average of 100 and only NY's service. |
| `Aggregates.AddToSeries` | dashboad/App.py:105 | Adding one row to a date-sorted series keeps it sorted with distinct dates and adds the row's date if missing. Only that date's value changes, by the row's amount, and so does the series sum. |
| `Aggregates.DailyRevenue` | dashboad/App.py:105 | The group-by result has strictly ascending, hence distinct, dates. |
| `Aggregates.DailyRevenueOn` | dashboad/App.py:105 | For every date, the series holds the total amount of the rows on that date. |
| `Aggregates.RevenueOnPoint` | dashboad/App.py:105 | In a series with distinct dates, a point's value is all the series holds for its date. |
| `Aggregates.DailyRevenueGroupsByDate` | dashboad/App.py:105 | The series has one point per distinct date of the rows. Each point is the sum of its date's amounts, and the points sum to the total revenue. |
| `Aggregates.RevenueByService` | dashboad/App.py:102 | The pie chart's data has one key per service among the rows, each mapped to the total amount of that service's rows. |
| `Aggregates.AverageTicket` | dashboad/App.py:97 | The mean is absent (pandas' NaN) exactly when there are no rows; otherwise the mean times the row count is the total. |

## Left out

- Loading the CSV file (dashboad/App.py:10) is file I/O. The dataset is a given sequence of records.
- The page layout, the widgets, the styling and the callback wiring (dashboad/App.py:16-81) are UI framework code. The date picker's initial bounds (the minimum and maximum date, lines 40-41) belong to that layout and are not modelled.
- The dropdown option dictionaries (dashboad/App.py:30) use each city as both label and value. Only the city list itself, and what selecting one of its cities does, is modelled.
- Building the plotly figures (`px.pie`, `px.line`, dashboad/App.py:102, 106) is foreign rendering. Only the data they plot is modelled: the revenue per service, which plotly sums itself, and the daily series.
- `generate_kpi_cards` (dashboad/App.py:7, 99) is a foreign call. components/kpi_cards.py is not part of this model. The model returns the three figures it receives.
- Starting the development server (dashboad/App.py:114-115) is process and network plumbing.
- `Amount` is an integer in the smallest currency unit, so floating-point rounding in the sums is not modelled.
- Aggregates.AverageTicket: the mean is an exact `real`, not a float. pandas' NaN for no rows is `None`.
- Transactions.Record: it carries only the four columns the callback reads. Further columns, which the table would show unchanged, are left out, and so is the conversion of rows to dictionaries (`to_dict("records")`, line 109).
- Missing values are not modelled. pandas reads an empty CSV field as NaN. A NaN date is dropped by the group-by and never passes the range test. A missing city stops the program at startup, because sorting the distinct cities (dashboad/App.py:13) cannot compare NaN with text. Every record here has all four fields.
- Aggregates.RevenueByService: it states each service's total, but not that the per-service totals add up to the revenue.
- Repeated calls with the same arguments giving the same result is not stated as a lemma. Every member is a mathematical function, so it holds by construction.
