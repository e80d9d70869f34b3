# CSV viewer: a verified model of the dataset view engine

`src/components/CSVViewerApp.jsx` is a React component for looking at a CSV file. You load a
file (or a built-in sample), search it, choose which columns to show, page through the matching rows
ten at a time, and export or copy them. This project models the component's view engine in Dafny and
proves what it guarantees:

- `Viewer.CsvViewer` is a class with the component's state as fields: `data`, `filteredData`,
  `headers`, `selectedColumns`, `currentPage`, `totalRows`, `searchTerm`, `searchColumn` and
  `fileName`. Each handler that sets that state is a method whose postcondition gives the whole new
  state. The handlers are loading a parse result, typing a search term, choosing a search column,
  the two column toggles and `changePage`. The search effect is a method `SearchEffect` that the
  handlers run after changing its inputs. Every handler preserves `Valid()`. `SearchEffect` neither
  needs nor promises it, because `ProcessCsvData` runs it on a state whose rows have not been
  searched yet. `Valid()` says three things. `totalRows` is the number of loaded rows.
  `filteredData` is always the search result for the current data, term and column. The page lies
  between 0 and the last page.
- The pure computations inside those handlers are functions with lemmas about them:
  - the row filter (`Search`);
  - the JavaScript string operations it uses (`Text`);
  - `Array.prototype.filter` (`Sequences`);
  - the column selection (`Columns`);
  - page count, page slice, clamping, row numbers and the "first - last" range (`Pagination`);
  - export file names (`Export`).

Properties proved:
- A blank term leaves the data as it is, and searching is idempotent. The matching rows form an
  order-preserving subsequence of the data that holds exactly the matching rows, each as often as it
  occurs.
- A field missing from a row never matches a non-blank term. With scope "all", values in hidden
  columns are searched too.
- Toggling a column flips only that column's membership. Other columns keep their membership and
  their relative order. Toggling twice restores the displayed columns.
- The displayed columns follow header order, whatever order the toggles came in.
- Pages 1 to `ceil(n/10)` are non-empty, hold at most 10 rows each and concatenate back to the
  filtered rows. Row numbers and the displayed range agree with the page.
- `changePage` clamps into `[1, totalPages]`. When there are no pages it gives 0.

Behaviour of the component worth knowing:
- The search term and the search column survive loading a new file. The search effect then runs
  again on the new data.
- The export name removes the *first* ".csv" anywhere in the file name, case-sensitively. The match is
  not tied to the end of the name: "stem.csv" gives "stem", but "a.csv.b.csv" gives "a.b.csv".
- The component has no sorting, no column reordering and no stored column preferences. None of them
  is modelled.

One quirk is kept as written. The search-column selector uses the value "all" for "every column", so
a field literally named `all` cannot be searched on its own (`Search.ColumnNamedAllSearchesEveryColumn`).

## Model

| member | source | states |
|---|---|---|
| `Sequences.Filter` | src/components/CSVViewerApp.jsx:103-113 | `filter` keeps exactly the elements that pass, in their original order (a subsequence, never longer than the input) |
| `Sequences.FilterCounts` | src/components/CSVViewerApp.jsx:103-113 | each passing element is kept as many times as it occurs; failing elements are dropped |
| `Sequences.FilterIdempotent` | src/components/CSVViewerApp.jsx:103-114 | filtering a filtered sequence again with the same predicate changes nothing |
| `Text.Trim` | src/components/CSVViewerApp.jsx:100 | `trim()` is empty exactly when every character is ECMAScript white space or a line terminator |
| `Text.TrimStart` | src/components/CSVViewerApp.jsx:100 | the result is the suffix of the input that starts at its first non-white-space character |
| `Text.TrimEnd` | src/components/CSVViewerApp.jsx:100 | the result is the prefix of the input that ends at its last non-white-space character |
| `Text.IndexOf` | src/components/CSVViewerApp.jsx:159 | the first-occurrence search that `replace` with a string pattern performs: the first position where the pattern occurs, or -1 exactly when it occurs nowhere |
| `Text.Includes` | src/components/CSVViewerApp.jsx:107 | `includes` holds exactly when the term occurs as a contiguous substring somewhere |
| `Text.LowerChar` | src/components/CSVViewerApp.jsx:107 | `toLowerCase` on one character: an upper-case ASCII letter becomes the same letter in lower case (code point + 32), every other character is kept, and the result is never upper case |
| `Text.Lower` | src/components/CSVViewerApp.jsx:107 | `toLowerCase` keeps the length, leaves no upper-case ASCII letter, and changes no other character |
| `Text.RemoveFirst` | src/components/CSVViewerApp.jsx:159 | `replace(pattern, '')` leaves the string whole when the pattern does not occur; otherwise putting the pattern back at its first occurrence gives back the input |
| `Text.LowerIdempotent` | src/components/CSVViewerApp.jsx:107 | lowercasing an already lowercased string changes nothing |
| `Search.Cell` | src/components/CSVViewerApp.jsx:111 | `row[searchColumn] \|\| ''` is the row's own value for a present field, and a non-empty cell always comes from a present field |
| `Search.ValueMatches` | src/components/CSVViewerApp.jsx:107 | an empty term matches every value, and a value that matches is at least as long as the term |
| `Search.RowMatches` | src/components/CSVViewerApp.jsx:104-111 | a row matches a non-empty term only through one of its own values, and a matching value in the chosen column always makes it match |
| `Search.FilterRows` | src/components/CSVViewerApp.jsx:103-113 | the rows kept are exactly the data rows that match, as an order-preserving subsequence of the data |
| `Search.FilterRowsCounts` | src/components/CSVViewerApp.jsx:103-113 | a matching row is kept as often as it occurs in the data; a non-matching row is never kept |
| `Search.SearchResult` | src/components/CSVViewerApp.jsx:100-114 | a blank term yields the data unchanged; otherwise exactly the matching rows; never longer than the data, always a subsequence of it |
| `Search.SearchIdempotent` | src/components/CSVViewerApp.jsx:100-116 | searching the search result again with the same term and column yields it unchanged |
| `Search.MissingCellNeverMatches` | src/components/CSVViewerApp.jsx:111 | for a named column, a row lacking that field (read as '') never matches a non-blank term |
| `Search.MatchingIgnoresCase` | src/components/CSVViewerApp.jsx:107 | lowercasing the value or the term beforehand does not change whether a value matches |
| `Search.CaseInsensitiveMatch` | src/components/CSVViewerApp.jsx:107 | values that differ only in the case of ASCII letters match the same terms, and such terms match the same values |
| `Search.LowerTermFindsUpperValue` | src/components/CSVViewerApp.jsx:107 | the term "b" finds the value "ABC" |
| `Search.AllScopeIsAnyColumn` | src/components/CSVViewerApp.jsx:104-108 | with scope "all", a row matches exactly when searching one of its own fields would match it, whether or not that field is displayed, a field named "all" included |
| `Search.ColumnNamedAllSearchesEveryColumn` | src/components/CSVViewerApp.jsx:104-111 | choosing a field named "all" searches every field: a row matches through another field although its "all" value does not contain the term |
| `Search.IdSearchExample` | src/components/CSVViewerApp.jsx:103-113 | searching 1/A, 2/B, 3/C, 2/D, 5/E for "2" in column ID keeps 2/B and 2/D, in that order |
| `Columns.DefaultColumns` | src/components/CSVViewerApp.jsx:81 | the default selection is a prefix of the headers, at most 10 long, all headers when there are at most 10, and exactly 10 otherwise |
| `Columns.Except` | src/components/CSVViewerApp.jsx:122 | `col => col !== column` rejects the toggled column and keeps every other one |
| `Columns.Toggle` | src/components/CSVViewerApp.jsx:120-126 | the toggled column becomes selected exactly when it was not; every copy is removed; other columns keep their membership and relative order |
| `Columns.ToggleTwice` | src/components/CSVViewerApp.jsx:120-126 | toggling twice restores membership; an unselected column is restored in place, a selected one moves to the end |
| `Columns.IsSelected` | src/components/CSVViewerApp.jsx:400 | `header => selectedColumns.includes(header)` holds exactly for the selected columns |
| `Columns.VisibleHeaders` | src/components/CSVViewerApp.jsx:399-400 | the displayed columns are the selected headers, as a subsequence of the header list in header order |
| `Columns.VisibleIgnoresSelectionOrder` | src/components/CSVViewerApp.jsx:415-416 | selections with the same members display the same columns in the same order, whatever the toggle order |
| `Columns.VisibleAfterToggleTwice` | src/components/CSVViewerApp.jsx:120-126 | toggling a column twice leaves the displayed columns exactly as they were |
| `Columns.ShowAllShowsEveryHeader` | src/components/CSVViewerApp.jsx:129-131 | after "show all" every header is displayed, in order |
| `Columns.HideAllShowsNoHeader` | src/components/CSVViewerApp.jsx:132-134 | after "hide all" no header is displayed |
| `Columns.DefaultSelectionShowsLeadingColumns` | src/components/CSVViewerApp.jsx:80-84 | with distinct headers, a fresh load displays exactly the first ten columns |
| `Pagination.TotalPages` | src/components/CSVViewerApp.jsx:138 | the page count is `ceil(n/10)`: the fewest pages of ten that hold n rows (0 for no rows) |
| `Pagination.TotalPagesMonotone` | src/components/CSVViewerApp.jsx:138 | more rows never give fewer pages |
| `Pagination.SliceBound` | src/components/CSVViewerApp.jsx:139-142 | a slice bound is clamped into `[0, len]`, and a non-negative bound becomes `min(k, len)` |
| `Pagination.Slice` | src/components/CSVViewerApp.jsx:139-142 | `slice` is never longer than the input, is the exact run `[start, end)` for in-bounds indices, and is empty from the end onward or when the bounds cross |
| `Pagination.Page` | src/components/CSVViewerApp.jsx:139-142 | for a page from 1 on, the i-th row of the page is row `(page-1)*10 + i` of the filtered rows |
| `Pagination.PageInRange` | src/components/CSVViewerApp.jsx:139-142 | for `1 <= p <= totalPages` the page is rows `[(p-1)*10, min(p*10, n))`, non-empty and at most 10 rows |
| `Pagination.PageOutOfRange` | src/components/CSVViewerApp.jsx:139-142 | page 0 and pages past the last are empty |
| `Pagination.PageSize` | src/components/CSVViewerApp.jsx:139-142 | no page ever holds more than 10 rows |
| `Pagination.PagesThroughIsPrefix` | src/components/CSVViewerApp.jsx:139-142 | pages 1 to k laid end to end are the first `min(10k, n)` rows |
| `Pagination.PagesCoverRows` | src/components/CSVViewerApp.jsx:139-142 | all pages laid end to end give back the filtered rows exactly |
| `Pagination.RowNumber` | src/components/CSVViewerApp.jsx:413 | the "No." on page p is at least 1, and for a row index below 10 it lies in page p's block `((p-1)*10, p*10]` |
| `Pagination.RowNumbersMatchPage` | src/components/CSVViewerApp.jsx:413 | the "No." of the i-th row on a page is that row's 1-based position in the filtered rows |
| `Pagination.RangeStart` | src/components/CSVViewerApp.jsx:438 | the range starts at 0 when nothing matched, otherwise at the page's first row number |
| `Pagination.RangeEnd` | src/components/CSVViewerApp.jsx:438 | the range ends at the page's last slot or the last row, whichever comes first, never past either |
| `Pagination.RangeMatchesPage` | src/components/CSVViewerApp.jsx:438 | on a page in range the "first - last" numbers are the first and last row numbers, and they count exactly the page's rows |
| `Pagination.RangeOfNoRows` | src/components/CSVViewerApp.jsx:438 | with no rows the range reads 0 - 0 |
| `Pagination.ClampPage` | src/components/CSVViewerApp.jsx:144-148 | with at least one page, the result lies in `[1, totalPages]`: an in-range page is kept, a low one becomes 1, a high one becomes the last; with no pages it is 0 |
| `Pagination.TwentyFiveRows` | src/components/CSVViewerApp.jsx:138-148 | 25 rows make 3 pages; page 1 is rows 0-9, page 3 is rows 20-24, and page 5 clamps to 3 |
| `Export.BaseName` | src/components/CSVViewerApp.jsx:159 | `fileName.replace('.csv', '')`, used for both exports (the CSV one at line 178), is the name unchanged exactly when it contains no ".csv", and never longer than the name |
| `Export.JsonFileName` | src/components/CSVViewerApp.jsx:159 | the JSON export name ends in `_export.json` |
| `Export.CsvFileName` | src/components/CSVViewerApp.jsx:178 | the CSV export name ends in `_export.csv` |
| `Export.BaseNameWithoutExtension` | src/components/CSVViewerApp.jsx:159 | a name without ".csv" is kept whole |
| `Export.BaseNameOfCsvFile` | src/components/CSVViewerApp.jsx:159 | `stem.csv` becomes `stem` when the stem contains no ".csv" |
| `Export.FirstOccurrenceIsRemoved` | src/components/CSVViewerApp.jsx:159 | only the first ".csv" is removed: "a.csv.b.csv" gives "a.b.csv" |
| `Export.UpperCaseExtensionIsKept` | src/components/CSVViewerApp.jsx:159 | matching is case-sensitive: "REPORT.CSV" keeps its extension |
| `Viewer.CsvViewer.Valid` | src/components/CSVViewerApp.jsx:8-20 | the invariant every handler keeps: the shown rows are the search result and so an order-preserving subsequence of the loaded rows, and `totalRows` counts the loaded rows |
| `Viewer.CsvViewer.LastPage` | src/components/CSVViewerApp.jsx:138-148 | the highest page the state can hold: the page count when there is one, otherwise 1 |
| `Viewer.CsvViewer.TotalPages` | src/components/CSVViewerApp.jsx:138 | there are no pages exactly when no row is shown |
| `Viewer.CsvViewer.CurrentData` | src/components/CSVViewerApp.jsx:139-142 | the current page holds at most 10 rows, and it is non-empty exactly when the page number is between 1 and the page count |
| `Viewer.CsvViewer.VisibleColumns` | src/components/CSVViewerApp.jsx:399-400 | the table shows the selected headers, in header order |
| `Viewer.CsvViewer.JsonExport` | src/components/CSVViewerApp.jsx:151-159 | nothing is exported when no row matched; otherwise all matching rows, not just the page, under the `_export.json` name |
| `Viewer.CsvViewer.CsvExport` | src/components/CSVViewerApp.jsx:166-178 | nothing when no row matched; otherwise all matching rows, with every header in file order as the header row, under the `_export.csv` name |
| `Viewer.CsvViewer.ClipboardCopy` | src/components/CSVViewerApp.jsx:185-188 | only the current page is copied, and nothing when that page is empty |
| `Viewer.CsvViewer.constructor` | src/components/CSVViewerApp.jsx:8-22 | initial state: no data, page 1, empty term, scope "all", no file name |
| `Viewer.CsvViewer.SelectFile` | src/components/CSVViewerApp.jsx:25-30 | choosing a file records its name and changes nothing else |
| `Viewer.CsvViewer.SearchEffect` | src/components/CSVViewerApp.jsx:97-117 | nothing changes without data; a blank term shows all data and keeps the page; otherwise the matching rows are shown from page 1 |
| `Viewer.CsvViewer.ProcessCsvData` | src/components/CSVViewerApp.jsx:70-94 | a load installs the rows and headers (none when no field list is given) and selects the first 10 headers; it counts the rows, shows the search result for the kept term, and goes to page 1 |
| `Viewer.CsvViewer.LoadSample` | src/components/CSVViewerApp.jsx:195-211 | the sample loads like a file, under the name "sample_data.csv" |
| `Viewer.CsvViewer.SetSearchTerm` | src/components/CSVViewerApp.jsx:285 | the shown rows follow the new term; the page resets to 1 only when a changed, non-blank term meets loaded data |
| `Viewer.CsvViewer.SetSearchColumn` | src/components/CSVViewerApp.jsx:288-292 | the shown rows follow the new column; the page resets to 1 only when a changed column meets a non-blank term and loaded data |
| `Viewer.CsvViewer.ToggleColumn` | src/components/CSVViewerApp.jsx:120-126 | the selection becomes `Toggle(old selection, header)` |
| `Viewer.CsvViewer.ToggleAllColumns` | src/components/CSVViewerApp.jsx:129-135 | the selection becomes all headers or none, and the table then shows exactly that |
| `Viewer.CsvViewer.ChangePage` | src/components/CSVViewerApp.jsx:144-148 | the page becomes the requested page clamped against the page count |

## Left out

- Reading the file (`FileReader`, lines 40-66) is asynchronous I/O. The parse result is an input to `ProcessCsvData` instead.
- `Papa.parse` and `Papa.unparse` belong to an external library whose code is not part of this model. That includes the 5000-row `preview` cap, which the library enforces.
- The error path of a failed read or parse changes only the `error`, `loading` and status fields, which are not modelled. Loaded data is left as it was.
- The `catch` in `processCSVData` is not modelled. `setTotalRows(results.data.length)` (line 75) runs before `results.meta.fields` is read (line 78). A parse result without `meta` would therefore throw after `totalRows` was set, leaving a new `totalRows` beside the old `data` and breaking `totalRows == |data|`. Papa always supplies `meta`, so this path is not reached in practice, and `ProcessCsvData` takes the field list as an optional input instead.
- `JSON.stringify`, `Blob`, object URLs, the download link, `navigator.clipboard` and `alert` are serialisation and browser calls. Exports and the copy are modelled as the `Payload` they would hand over: name, format, header row and rows.
- Rendering is UI output and is not modelled: JSX, the `viewMode` switch, the column-selector `classList` toggle, `toLocaleString`, the "page / total" label and the per-cell `row[header] || ''`.
- The pagination buttons are disabled at the edges (lines 443-469). That is not modelled: `ChangePage` accepts any page, as the handler itself does.
- Text.LowerChar: lowercases ASCII letters only. Full Unicode `toLowerCase`, including mappings that change string length, is not the point of the search and is abstracted.
- Search.Row: cell values are strings. `String(value)` on other value kinds is not modelled. Examples are the array Papa attaches under `__parsed_extra`, and properties a plain object inherits from its prototype.
- Page and row arithmetic uses unbounded integers. JavaScript numbers are exact far beyond the 5000-row cap.
- React's rendering and batching are reduced to running the search effect right after the handler that changed its inputs. A setter given an unchanged value does not re-run it.
