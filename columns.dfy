/** Column visibility: the default selection on load, the per-column and
    all-columns toggles, and the projection of the header list onto the
    selection that the table renders. */
module Columns {
  import opened Text
  import opened Sequences

  /** How many leading columns a freshly loaded file shows. */
  const DefaultColumnCount: nat := 10

  /** `headers.slice(0, 10)`: the first ten headers, or all of them when there are fewer. */
  function DefaultColumns(headers: seq<String>): (r: seq<String>)
    ensures r <= headers
    ensures |r| <= DefaultColumnCount
    ensures |headers| <= DefaultColumnCount ==> r == headers
    ensures |headers| >= DefaultColumnCount ==> |r| == DefaultColumnCount
  {
    headers[..Min(DefaultColumnCount, |headers|)]
  }

  /** The predicate `col => col !== h`. */
  function Except(h: String): (r: String -> bool)
    ensures !r(h)
    ensures forall c :: c != h ==> r(c)
  {
    c => c != h
  }

  /** `toggleColumn(h)` on the selection: a selected column is removed (every
      copy of it), an unselected one is appended at the end. No other
      column's membership or relative order changes. */
  function Toggle(selected: seq<String>, h: String): (r: seq<String>)
    ensures h in r <==> h !in selected
    ensures forall c :: c != h ==> (c in r <==> c in selected)
    ensures Filter(r, Except(h)) == Filter(selected, Except(h))
  {
    if h in selected then
      FilterIdempotent(selected, Except(h));
      Filter(selected, Except(h))
    else
      FilterAppend(selected, [h], Except(h));
      assert Filter([h], Except(h)) == [];
      selected + [h]
  }

  /** Toggling twice restores membership; the position is restored too when
      the column was not selected, otherwise it moves to the end. */
  lemma {:induction false} ToggleTwice(selected: seq<String>, h: String)
    ensures forall c :: c in Toggle(Toggle(selected, h), h) <==> c in selected
    ensures h !in selected ==> Toggle(Toggle(selected, h), h) == selected
    ensures h in selected ==> Toggle(Toggle(selected, h), h) == Filter(selected, Except(h)) + [h]
  {
    if h !in selected {
      FilterAppend(selected, [h], Except(h));
      FilterKeepsAll(selected, Except(h));
      assert Filter([h], Except(h)) == [];
    }
  }

  /** The predicate `header => selectedColumns.includes(header)`. */
  function IsSelected(selected: seq<String>): (r: String -> bool)
    ensures forall c :: r(c) <==> c in selected
  {
    h => h in selected
  }

  /** `headers.filter(h => selectedColumns.includes(h))`: the columns the table
      shows, always in header order. */
  function VisibleHeaders(headers: seq<String>, selected: seq<String>): (r: seq<String>)
    ensures IsSubsequence(r, headers)
    ensures forall h :: h in r <==> h in headers && h in selected
  {
    Filter(headers, IsSelected(selected))
  }

  /** Only membership in the selection matters, not its order or repetitions:
      the displayed columns do not depend on the order of the toggles. */
  lemma {:induction false} VisibleIgnoresSelectionOrder(headers: seq<String>, s1: seq<String>, s2: seq<String>)
    requires forall c :: c in s1 <==> c in s2
    ensures VisibleHeaders(headers, s1) == VisibleHeaders(headers, s2)
  {
    FilterCongruent(headers, IsSelected(s1), IsSelected(s2));
  }

  /** Toggling a column twice restores the displayed columns exactly. */
  lemma {:induction false} VisibleAfterToggleTwice(headers: seq<String>, selected: seq<String>, h: String)
    ensures VisibleHeaders(headers, Toggle(Toggle(selected, h), h)) == VisibleHeaders(headers, selected)
  {
    ToggleTwice(selected, h);
    VisibleIgnoresSelectionOrder(headers, Toggle(Toggle(selected, h), h), selected);
  }

  /** "Show all" (`[...headers]`) displays every header in order. */
  lemma {:induction false} ShowAllShowsEveryHeader(headers: seq<String>)
    ensures VisibleHeaders(headers, headers) == headers
  {
    FilterKeepsAll(headers, IsSelected(headers));
  }

  /** "Hide all" (`[]`) displays no header. */
  lemma HideAllShowsNoHeader(headers: seq<String>)
    ensures VisibleHeaders(headers, []) == []
  {
  }

  /** With distinct headers, the default selection displays exactly the first
      ten columns. */
  lemma {:induction false} DefaultSelectionShowsLeadingColumns(headers: seq<String>)
    requires NoDuplicates(headers)
    ensures VisibleHeaders(headers, DefaultColumns(headers)) == DefaultColumns(headers)
  {
    var d := DefaultColumns(headers);
    var rest := headers[|d|..];
    assert headers == d + rest;
    FilterAppend(d, rest, IsSelected(d));
    FilterKeepsAll(d, IsSelected(d));
    forall i | 0 <= i < |rest| ensures !IsSelected(d)(rest[i]) {
      assert rest[i] == headers[|d| + i];
      forall j | 0 <= j < |d| ensures d[j] != rest[i] {
        assert d[j] == headers[j];
      }
    }
    FilterDropsAll(rest, IsSelected(d));
  }
}
