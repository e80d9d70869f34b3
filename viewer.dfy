/** The component's state and its transitions: loading a parse result, the
    search effect, the column toggles and page changes, plus the values the
    render derives from that state (page count, current page, displayed
    columns) and the guards of the export and copy buttons. */
module Viewer {
  import opened Wrappers
  import opened Text
  import opened Sequences
  import opened Search
  import Columns
  import Pagination
  import Export

  datatype Format = Json | Csv

  /** What an export or copy hands to the browser: a file name (empty for the
      clipboard), the format, the header row (CSV only) and the records. */
  datatype Payload = Payload(name: String, format: Format, fields: seq<String>, rows: seq<Row>)

  class CsvViewer {
    var data: seq<Row>
    var filteredData: seq<Row>
    var headers: seq<String>
    var selectedColumns: seq<String>
    var currentPage: int
    var totalRows: nat
    var searchTerm: String
    var searchColumn: String
    var fileName: String

    /** What every handler preserves: the row count matches the data, the
        shown rows are always the search result for the current term and
        column, and the page lies between 0 and the last page (1 when there
        are no pages). */
    ghost predicate Valid()
      reads this`totalRows, this`data, this`filteredData, this`searchTerm, this`searchColumn, this`currentPage
      ensures Valid() ==> IsSubsequence(filteredData, data) && |filteredData| <= |data| == totalRows
    {
      && totalRows == |data|
      && filteredData == SearchResult(data, searchTerm, searchColumn)
      && 0 <= currentPage <= LastPage()
    }

    function TotalPages(): (r: nat)
      reads this`filteredData
      ensures filteredData == [] <==> r == 0
    {
      Pagination.TotalPages(|filteredData|)
    }

    /** The highest page the state can hold: the page count, or 1 when it is 0. */
    function LastPage(): (r: nat)
      reads this`filteredData
      ensures 1 <= r && TotalPages() <= r
      ensures TotalPages() > 0 ==> r == TotalPages()
    {
      if TotalPages() == 0 then 1 else TotalPages()
    }

    /** `currentData`: rows are shown exactly when the page is in range. */
    function CurrentData(): (r: seq<Row>)
      reads this
      requires Valid()
      ensures |r| <= Pagination.RowsPerPage
      ensures r != [] <==> 1 <= currentPage <= TotalPages()
    {
      Pagination.PageSize(filteredData, currentPage);
      assert Pagination.Page(filteredData, currentPage) != [] <==> 1 <= currentPage <= TotalPages() by {
        if 1 <= currentPage <= TotalPages() {
          Pagination.PageInRange(filteredData, currentPage);
        } else {
          Pagination.PageOutOfRange(filteredData, currentPage);
        }
      }
      Pagination.Page(filteredData, currentPage)
    }

    /** The header cells of the table: the selected columns in header order. */
    function VisibleColumns(): (r: seq<String>)
      reads this
      ensures IsSubsequence(r, headers)
      ensures forall h :: h in r <==> h in headers && h in selectedColumns
    {
      Columns.VisibleHeaders(headers, selectedColumns)
    }

    /** `exportJson`: nothing when no row matched; otherwise every matching row,
        not only the current page. */
    function JsonExport(): (r: Option<Payload>)
      reads this
      ensures r.None? <==> filteredData == []
      ensures r.Some? ==> r.value.rows == filteredData && r.value.format == Json
      ensures r.Some? ==> r.value.name == Export.JsonFileName(fileName)
    {
      if filteredData == [] then None
      else Some(Payload(Export.JsonFileName(fileName), Json, [], filteredData))
    }

    /** `exportCsv`: like the JSON export, with the header row taken from all
        headers in file order, whatever the column selection. */
    function CsvExport(): (r: Option<Payload>)
      reads this
      ensures r.None? <==> filteredData == []
      ensures r.Some? ==> r.value.rows == filteredData && r.value.fields == headers
      ensures r.Some? ==> r.value.name == Export.CsvFileName(fileName) && r.value.format == Csv
    {
      if filteredData == [] then None
      else Some(Payload(Export.CsvFileName(fileName), Csv, headers, filteredData))
    }

    /** `copyJsonToClipboard`: only the current page, and nothing when it is empty. */
    function ClipboardCopy(): (r: Option<Payload>)
      reads this
      requires Valid()
      ensures r.None? <==> !(1 <= currentPage <= TotalPages())
      ensures r.Some? ==> r.value.rows == CurrentData() && |r.value.rows| <= Pagination.RowsPerPage
    {
      if CurrentData() == [] then None else Some(Payload("", Json, [], CurrentData()))
    }

    /** The state before any file is chosen. */
    constructor ()
      ensures Valid()
      ensures data == [] && filteredData == [] && headers == [] && selectedColumns == []
      ensures currentPage == 1 && totalRows == 0
      ensures searchTerm == "" && searchColumn == AllColumns && fileName == ""
    {
      data, filteredData := [], [];
      headers, selectedColumns := [], [];
      currentPage, totalRows := 1, 0;
      searchTerm, searchColumn, fileName := "", AllColumns, "";
    }

    /** Choosing a file records its name before it is read. */
    method SelectFile(name: String)
      requires Valid()
      modifies this`fileName
      ensures Valid() && fileName == name
    {
      fileName := name;
    }

    /** The search effect, run whenever the term, the column or the data
        change: nothing without data; a blank term shows all data and keeps
        the page; otherwise the matching rows from page 1. */
    method SearchEffect()
      modifies this`filteredData, this`currentPage
      ensures data == [] ==> filteredData == old(filteredData) && currentPage == old(currentPage)
      ensures data != [] && IsBlank(searchTerm) ==> filteredData == data && currentPage == old(currentPage)
      ensures data != [] && !IsBlank(searchTerm) ==>
                filteredData == FilterRows(data, searchTerm, searchColumn) && currentPage == 1
    {
      if |data| == 0 {
        return;
      }
      if Trim(searchTerm) == "" {
        filteredData := data;
      } else {
        filteredData := FilterRows(data, searchTerm, searchColumn);
        currentPage := 1;
      }
    }

    /** `processCSVData` on a parse result, followed by the search effect that
        the new data triggers. Headers default to none, the first ten columns
        are selected, and the search term and column are kept. */
    method ProcessCsvData(rows: seq<Row>, fields: Option<seq<String>>)
      requires Valid()
      modifies this`data, this`filteredData, this`headers, this`selectedColumns,
               this`currentPage, this`totalRows
      ensures Valid()
      ensures data == rows && totalRows == |rows|
      ensures headers == fields.GetOr([])
      ensures selectedColumns == Columns.DefaultColumns(headers)
      ensures filteredData == SearchResult(rows, searchTerm, searchColumn)
      ensures currentPage == 1
    {
      totalRows := |rows|;
      headers := fields.GetOr([]);
      selectedColumns := Columns.DefaultColumns(headers);
      data := rows;
      filteredData := rows;
      currentPage := 1;
      SearchEffect();
    }

    /** The sample button: the parse result of the built-in sample, under the
        name "sample_data.csv". */
    method LoadSample(rows: seq<Row>, fields: Option<seq<String>>)
      requires Valid()
      modifies this
      ensures Valid()
      ensures fileName == "sample_data.csv" && data == rows && headers == fields.GetOr([])
      ensures selectedColumns == Columns.DefaultColumns(headers)
      ensures filteredData == SearchResult(rows, searchTerm, searchColumn) && currentPage == 1
      ensures searchTerm == old(searchTerm) && searchColumn == old(searchColumn)
    {
      fileName := "sample_data.csv";
      ProcessCsvData(rows, fields);
    }

    /** Typing in the search box. Setting the same text again does not re-run
        the effect, so the page is kept. */
    method SetSearchTerm(term: String)
      requires Valid()
      modifies this`searchTerm, this`filteredData, this`currentPage
      ensures Valid() && searchTerm == term
      ensures filteredData == SearchResult(data, term, searchColumn)
      ensures currentPage == if term == old(searchTerm) || data == [] || IsBlank(term) then old(currentPage) else 1
    {
      if term != searchTerm {
        Pagination.TotalPagesMonotone(|filteredData|, |data|);
        searchTerm := term;
        SearchEffect();
      }
    }

    /** Choosing the search column ("all" or a header). */
    method SetSearchColumn(column: String)
      requires Valid()
      modifies this`searchColumn, this`filteredData, this`currentPage
      ensures Valid() && searchColumn == column
      ensures filteredData == SearchResult(data, searchTerm, column)
      ensures currentPage == if column == old(searchColumn) || data == [] || IsBlank(searchTerm) then old(currentPage) else 1
    {
      if column != searchColumn {
        Pagination.TotalPagesMonotone(|filteredData|, |data|);
        searchColumn := column;
        SearchEffect();
      }
    }

    /** `toggleColumn(header)`. */
    method ToggleColumn(header: String)
      requires Valid()
      modifies this`selectedColumns
      ensures Valid()
      ensures selectedColumns == Columns.Toggle(old(selectedColumns), header)
    {
      if header in selectedColumns {
        selectedColumns := Filter(selectedColumns, Columns.Except(header));
      } else {
        selectedColumns := selectedColumns + [header];
      }
    }

    /** `toggleAllColumns(show)`: every header, or none. */
    method ToggleAllColumns(show: bool)
      requires Valid()
      modifies this`selectedColumns
      ensures Valid()
      ensures selectedColumns == if show then headers else []
      ensures VisibleColumns() == selectedColumns
    {
      if show {
        selectedColumns := headers;
        Columns.ShowAllShowsEveryHeader(headers);
      } else {
        selectedColumns := [];
        Columns.HideAllShowsNoHeader(headers);
      }
    }

    /** `changePage(page)`: raise to 1, then lower to the page count. */
    method ChangePage(page: int)
      requires Valid()
      modifies this`currentPage
      ensures Valid()
      ensures currentPage == Pagination.ClampPage(page, TotalPages())
    {
      var p := page;
      if p < 1 {
        p := 1;
      }
      if p > TotalPages() {
        p := TotalPages();
      }
      currentPage := p;
    }
  }
}
