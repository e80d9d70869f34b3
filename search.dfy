/** The search filter: which rows of the loaded data the table shows for a
    search term and a search column ("all" or one field name). */
module Search {
  import opened Text
  import opened Sequences

  /** A parsed record: field name to cell text. */
  type Row = map<String, String>

  /** The value of the search-column selector that means "every column". */
  const AllColumns: String := "all"

  /** `row[column] || ''`: a missing cell reads as the empty string. */
  function Cell(row: Row, column: String): (r: String)
    ensures column in row ==> r == row[column]
    ensures r != "" ==> column in row
  {
    if column in row then row[column] else ""
  }

  /** Case-insensitive substring test of the search term against one value. */
  predicate ValueMatches(value: String, term: String)
    ensures term == "" ==> ValueMatches(value, term)
    ensures ValueMatches(value, term) ==> |term| <= |value|
  {
    Includes(Lower(value), Lower(term))
  }

  /** The per-row test of the search effect. With "all", any value of the row
      counts, including values of columns that are not displayed. */
  predicate RowMatches(row: Row, term: String, column: String)
    ensures RowMatches(row, term, column) && term != "" ==>
              exists k | k in row.Keys :: ValueMatches(row[k], term)
    ensures column in row && ValueMatches(row[column], term) ==> RowMatches(row, term, column)
  {
    if column == AllColumns then
      exists k | k in row.Keys :: ValueMatches(row[k], term)
    else
      ValueMatches(Cell(row, column), term)
  }

  function Matcher(term: String, column: String): Row -> bool {
    row => RowMatches(row, term, column)
  }

  /** `data.filter(...)` for a non-blank term: the matching rows, in data order,
      see FilterRowsCounts for multiplicities. */
  function FilterRows(rows: seq<Row>, term: String, column: String): (r: seq<Row>)
    ensures IsSubsequence(r, rows)
    ensures forall row :: row in r <==> row in rows && RowMatches(row, term, column)
  {
    Filter(rows, Matcher(term, column))
  }

  /** Each matching row is kept as often as it occurs in `rows`; no other row is kept. */
  lemma FilterRowsCounts(rows: seq<Row>, term: String, column: String)
    ensures forall row :: multiset(FilterRows(rows, term, column))[row]
                          == if RowMatches(row, term, column) then multiset(rows)[row] else 0
  {
    FilterCounts(rows, Matcher(term, column));
  }

  /** The rows the search effect leaves in `filteredData`: all of them for a
      blank term (`term.trim() === ''`, which `Trim`'s contract equates with
      `IsBlank`), otherwise the matching ones. */
  function SearchResult(data: seq<Row>, term: String, column: String): (r: seq<Row>)
    ensures IsBlank(term) ==> r == data
    ensures !IsBlank(term) ==> forall row :: row in r <==> row in data && RowMatches(row, term, column)
    ensures IsSubsequence(r, data) && |r| <= |data|
  {
    SubsequenceReflexive(data);
    if IsBlank(term) then data else FilterRows(data, term, column)
  }

  /** Searching again with the same term and column changes nothing. */
  lemma {:induction false} SearchIdempotent(data: seq<Row>, term: String, column: String)
    ensures SearchResult(SearchResult(data, term, column), term, column) == SearchResult(data, term, column)
  {
    FilterIdempotent(data, Matcher(term, column));
  }

  /** For a specific column, a row without that field never matches a
      non-blank term. */
  lemma MissingCellNeverMatches(row: Row, term: String, column: String)
    requires column != AllColumns && column !in row
    requires !IsBlank(term)
    ensures !RowMatches(row, term, column)
  {
  }

  /** Lowering the value or the term before the search changes nothing. */
  lemma MatchingIgnoresCase(value: String, term: String)
    ensures ValueMatches(Lower(value), term) == ValueMatches(value, term)
    ensures ValueMatches(value, Lower(term)) == ValueMatches(value, term)
  {
    LowerIdempotent(value);
    LowerIdempotent(term);
  }

  /** Two strings that differ only in the case of ASCII letters. */
  predicate SameUpToCase(a: String, b: String) {
    |a| == |b| && forall i :: 0 <= i < |a| ==> LowerChar(a[i]) == LowerChar(b[i])
  }

  /** Upper and lower case letters are not told apart: values that differ only
      in case match the same terms, and terms that differ only in case match
      the same values. */
  lemma {:induction false} CaseInsensitiveMatch(a: String, b: String, value: String, term: String)
    requires SameUpToCase(a, b)
    ensures ValueMatches(a, term) == ValueMatches(b, term)
    ensures ValueMatches(value, a) == ValueMatches(value, b)
  {
    assert Lower(a) == Lower(b);
  }

  /** "b" finds "ABC". */
  lemma LowerTermFindsUpperValue()
    ensures ValueMatches("ABC", "b")
  {
    assert Lower("ABC") == "abc";
    assert Lower("b") == "b";
    assert OccursAt("abc", "b", 1);
  }

  /** With scope "all", a row matches exactly when searching one of its own
      columns would match it; this holds for a field named "all" too. */
  lemma AllScopeIsAnyColumn(row: Row, term: String)
    ensures RowMatches(row, term, AllColumns) <==> exists k :: k in row && RowMatches(row, term, k)
  {
    if RowMatches(row, term, AllColumns) {
      var k :| k in row.Keys && ValueMatches(row[k], term);
      if k != AllColumns {
        assert RowMatches(row, term, k);
      }
    }
  }

  /** Lowering leaves a string without ASCII capitals unchanged. */
  lemma LowerOfLowercase(s: String)
    requires forall i :: 0 <= i < |s| ==> !('A' <= s[i] <= 'Z')
    ensures Lower(s) == s
  {
  }

  /** A field literally named "all" cannot be searched on its own: choosing it
      searches every column, so a row matches through another field. */
  lemma ColumnNamedAllSearchesEveryColumn()
    ensures RowMatches(map["all" := "x", "name" := "kyoto"], "kyoto", AllColumns)
    ensures !ValueMatches(Cell(map["all" := "x", "name" := "kyoto"], "all"), "kyoto")
  {
    var row := map["all" := "x", "name" := "kyoto"];
    LowerOfLowercase("kyoto");
    LowerOfLowercase("x");
    assert OccursAt("kyoto", "kyoto", 0);
    assert "name" in row.Keys && ValueMatches(row["name"], "kyoto");
  }

  /** A record of the two-field example dataset `ID,Name`. */
  function ExampleRecord(id: char, name: char): Row {
    map["ID" := [id], "Name" := [name]]
  }

  lemma ExampleIdMatches(id: char, name: char)
    requires '0' <= id <= '9'
    ensures RowMatches(ExampleRecord(id, name), "2", "ID") <==> id == '2'
  {
    assert Cell(ExampleRecord(id, name), "ID") == [id];
    LowerOfLowercase([id]);
    LowerOfLowercase("2");
    forall i ensures OccursAt([id], "2", i) <==> i == 0 && id == '2' {
      if 0 <= i && i + 1 <= 1 {
        assert [id][i..i + 1] == [id];
      }
    }
  }

  lemma FilterCons(x: Row, s: seq<Row>, p: Row -> bool)
    ensures Filter([x] + s, p) == if p(x) then [x] + Filter(s, p) else Filter(s, p)
  {
  }

  lemma FilterSecondAndFourth(a: Row, b: Row, c: Row, d: Row, e: Row, p: Row -> bool)
    requires !p(a) && p(b) && !p(c) && p(d) && !p(e)
    ensures Filter([a, b, c, d, e], p) == [b, d]
  {
    assert [a] + [b, c, d, e] == [a, b, c, d, e];
    assert [b] + [c, d, e] == [b, c, d, e];
    assert [c] + [d, e] == [c, d, e];
    assert [d] + [e] == [d, e];
    FilterCons(e, [], p);
    FilterCons(d, [e], p);
    FilterCons(c, [d, e], p);
    FilterCons(b, [c, d, e], p);
    FilterCons(a, [b, c, d, e], p);
  }

  /** Searching the records 1/A, 2/B, 3/C, 2/D, 5/E for "2" in column ID keeps
      2/B and 2/D, in that order. */
  lemma IdSearchExample()
    ensures FilterRows([ExampleRecord('1', 'A'), ExampleRecord('2', 'B'), ExampleRecord('3', 'C'),
                        ExampleRecord('2', 'D'), ExampleRecord('5', 'E')], "2", "ID")
         == [ExampleRecord('2', 'B'), ExampleRecord('2', 'D')]
  {
    ExampleIdMatches('1', 'A');
    ExampleIdMatches('2', 'B');
    ExampleIdMatches('3', 'C');
    ExampleIdMatches('2', 'D');
    ExampleIdMatches('5', 'E');
    FilterSecondAndFourth(ExampleRecord('1', 'A'), ExampleRecord('2', 'B'), ExampleRecord('3', 'C'),
                          ExampleRecord('2', 'D'), ExampleRecord('5', 'E'), Matcher("2", "ID"));
  }
}
