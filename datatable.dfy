/**
 * The administrators' data table: a free-text search over every property of
 * the rows, pages of ten rows, and the Anterior/Siguiente buttons that move
 * between pages. The rows are plain objects (`Record<Value>`); the search term
 * and the current page are the component's state.
 */
module DataTable {
  import opened Js
  import opened Seqs
  import opened JsObject
  import opened CsvExporter

  const ItemsPerPage: nat := 10

  /** `String(value).toLowerCase().includes(searchTerm.toLowerCase())` */
  predicate CellMatches(v: Value, searchTerm: string)
  {
    Includes(ToLower(ValueString(v)), ToLower(searchTerm))
  }

  function ValueOfEntry(e: (string, Value)): Value
  {
    e.1
  }

  /** `Object.values(item)` */
  function Values(item: Row): seq<Value>
  {
    MapSeq(Entries(item), ValueOfEntry)
  }

  /** `Object.values(item).some(...)` */
  function MatchesSearch(searchTerm: string): Row -> bool
  {
    (item: Row) => exists v :: v in Values(item) && CellMatches(v, searchTerm)
  }

  /** Some property of the row, whatever the enumeration order, matches the term. */
  predicate RowMatches(item: Row, searchTerm: string)
  {
    exists e :: e in item && CellMatches(e.1, searchTerm)
  }

  lemma MatchesSearchMeaning(item: Row, searchTerm: string)
    ensures MatchesSearch(searchTerm)(item) <==> RowMatches(item, searchTerm)
  {
    var es := Entries(item);
    MatchInValues(es, searchTerm);
    SameMembers(es, item);
  }

  /** Some value of the listed properties matches exactly when some listed property does. */
  lemma MatchInValues(es: Row, searchTerm: string)
    ensures (exists v :: v in MapSeq(es, ValueOfEntry) && CellMatches(v, searchTerm))
      <==> (exists e :: e in es && CellMatches(e.1, searchTerm))
  {
    var vs := MapSeq(es, ValueOfEntry);
    if e :| e in es && CellMatches(e.1, searchTerm) {
      var i :| 0 <= i < |es| && es[i] == e;
      assert vs[i] == e.1;
    }
    if v :| v in vs && CellMatches(v, searchTerm) {
      var i :| 0 <= i < |vs| && vs[i] == v;
      assert es[i] in es;
    }
  }

  /**
   * `filteredData`: the empty term keeps every row; otherwise the rows that
   * have a matching property, in their original order.
   */
  function FilteredData(data: seq<Row>, searchTerm: string): (rows: seq<Row>)
    ensures searchTerm == "" ==> rows == data
    ensures IsSubsequence(rows, data)
    ensures forall x :: x in rows <==> x in data && (searchTerm == "" || RowMatches(x, searchTerm))
  {
    if searchTerm == "" then
      IsSubsequenceOfSelf(data);
      data
    else
      var p := MatchesSearch(searchTerm);
      FilterIsSubsequence(data, p, true);
      FilterByMembership(data, p, true);
      forall x | x in data
        ensures p(x) <==> RowMatches(x, searchTerm)
      {
        MatchesSearchMeaning(x, searchTerm);
      }
      Filter(data, p)
  }

  lemma {:induction false} IsSubsequenceOfSelf<T>(s: seq<T>)
    ensures IsSubsequence(s, s)
  {
    if s != [] {
      IsSubsequenceOfSelf(s[1..]);
    }
  }

  function Min(a: int, b: int): int
  {
    if a <= b then a else b
  }

  /**
   * `paginatedData`: the slice of at most ten rows starting at row
   * `(currentPage - 1) * 10`; a page past the end is empty, and so is page 0.
   */
  function PaginatedData(filtered: seq<Row>, currentPage: int): (page: seq<Row>)
    ensures |page| <= ItemsPerPage
    ensures var start := (currentPage - 1) * ItemsPerPage;
      0 <= start <= |filtered| ==> page == filtered[start..Min(start + ItemsPerPage, |filtered|)]
    ensures currentPage >= 1 && (currentPage - 1) * ItemsPerPage >= |filtered| ==> page == []
    ensures currentPage == 0 ==> page == []
  {
    var startIndex := (currentPage - 1) * ItemsPerPage;
    JsSlice(filtered, startIndex, startIndex + ItemsPerPage)
  }

  /** `Math.ceil(filteredData.length / 10)`: the fewest pages of ten that hold every row. */
  function TotalPages(count: nat): (pages: nat)
    ensures count <= pages * ItemsPerPage
    ensures pages == 0 || (pages - 1) * ItemsPerPage < count
    ensures pages == 0 <==> count == 0
  {
    (count + ItemsPerPage - 1) / ItemsPerPage
  }

  /** Every filtered row is on exactly the page its position says, and that page exists. */
  lemma PagesCoverRows(filtered: seq<Row>, k: nat)
    requires k < |filtered|
    ensures 1 <= k / ItemsPerPage + 1 <= TotalPages(|filtered|)
    ensures var page := PaginatedData(filtered, k / ItemsPerPage + 1);
      k % ItemsPerPage < |page| && page[k % ItemsPerPage] == filtered[k]
  {
    var p := k / ItemsPerPage + 1;
    var t := TotalPages(|filtered|);
    assert (p - 1) * ItemsPerPage <= k;
  }

  /** `data.length > 0 ? Object.keys(data[0]) : []` */
  function Headers(data: seq<Row>): (headers: seq<string>)
    ensures data == [] ==> headers == []
    ensures data != [] ==> multiset(headers) == multiset(Keys(data[0]))
  {
    if |data| > 0 then ObjectKeys(data[0]) else []
  }

  /**
   * The headers follow `Object.keys` order: array-index names first, in ascending
   * numeric order, and with no such name, the order the first row's properties
   * were created in.
   */
  lemma HeadersOrder(data: seq<Row>)
    requires data != []
    ensures var h := Headers(data);
      forall i, j :: 0 <= i < j < |h| && IsArrayIndex(h[j]) ==>
        IsArrayIndex(h[i]) && DigitsValue(h[i], 10) <= DigitsValue(h[j], 10)
    ensures (forall i :: 0 <= i < |data[0]| ==> !IsArrayIndex(data[0][i].0)) ==> Headers(data) == Keys(data[0])
  {
    var es := Entries(data[0]);
    assert Headers(data) == Keys(es);
    EntriesIndicesFirst(data[0]);
    if forall i :: 0 <= i < |data[0]| ==> !IsArrayIndex(data[0][i].0) {
      EntriesInCreationOrder(data[0]);
    }
  }

  /** What the component renders. */
  datatype View =
    | NoData
    | Table(headers: seq<string>, rows: seq<Row>, shown: nat, matching: nat)

  /**
   * The rendered table: "No hay datos para mostrar." for empty data (even
   * while a search term is set), otherwise the headers, the current page and
   * the "Mostrando n de m resultados" counts.
   */
  function Render(data: seq<Row>, searchTerm: string, currentPage: int): (view: View)
    ensures view.NoData? <==> data == []
    ensures view.Table? ==>
      view.shown == |view.rows| <= ItemsPerPage
      && view.matching == |FilteredData(data, searchTerm)|
      && view.shown <= view.matching
  {
    if |data| == 0 then NoData
    else
      var filtered := FilteredData(data, searchTerm);
      var page := PaginatedData(filtered, currentPage);
      Table(Headers(data), page, |page|, |filtered|)
  }

  /** The component's state: the rows it is given and what the user typed and paged to. */
  class Component {
    const data: seq<Row>
    var searchTerm: string
    var currentPage: int

    /** The page never drops below 0: only Siguiente with no matching row reaches 0. */
    ghost predicate Valid()
      reads this
    {
      currentPage >= 0
    }

    constructor (data: seq<Row>)
      ensures this.data == data && searchTerm == "" && currentPage == 1
      ensures Valid()
    {
      this.data := data;
      searchTerm := "";
      currentPage := 1;
    }

    function Filtered(): seq<Row>
      reads this
    {
      FilteredData(data, searchTerm)
    }

    function Pages(): nat
      reads this
    {
      TotalPages(|Filtered()|)
    }

    /** Anterior is disabled on page 1. */
    predicate PreviousDisabled()
      reads this
    {
      currentPage == 1
    }

    /** Siguiente is disabled on the last page. */
    predicate NextDisabled()
      reads this
    {
      currentPage == Pages()
    }

    /** Exportar: the CSV of the rows matching the search, all pages together. */
    method Export() returns (csv: Option<string>)
      ensures csv == CsvText(Filtered())
    {
      csv := ExportToCsv(FilteredData(data, searchTerm));
    }

    /** Typing in the search box; the current page is kept as it is. */
    method SetSearchTerm(term: string)
      requires Valid()
      modifies this
      ensures searchTerm == term && currentPage == old(currentPage)
      ensures Valid()
    {
      searchTerm := term;
    }

    /** Anterior: `p => Math.max(1, p - 1)`. */
    method Previous()
      requires Valid()
      modifies this
      ensures currentPage == if old(currentPage) - 1 < 1 then 1 else old(currentPage) - 1
      ensures searchTerm == old(searchTerm)
      ensures currentPage >= 1 && Valid()
    {
      currentPage := if currentPage - 1 < 1 then 1 else currentPage - 1;
    }

    /** Siguiente: `p => Math.min(totalPages, p + 1)`. */
    method Next()
      requires Valid()
      modifies this
      ensures currentPage == Min(old(Pages()), old(currentPage) + 1)
      ensures searchTerm == old(searchTerm)
      ensures currentPage <= Pages() && Valid()
    {
      currentPage := Min(Pages(), currentPage + 1);
    }
  }

  /**
   * The buttons only guard the edges they were written for: when no row
   * matches there are no pages, Siguiente is still enabled on page 1, and
   * following it leaves the table on page 0, which shows no row.
   */
  lemma NextWithoutRows(data: seq<Row>, searchTerm: string)
    requires FilteredData(data, searchTerm) == []
    ensures TotalPages(0) == 0 && 1 != TotalPages(0)
    ensures Min(TotalPages(0), 1 + 1) == 0
    ensures PaginatedData(FilteredData(data, searchTerm), 0) == []
  {
  }

  /** Narrowing the search on a late page shows an empty page until the user pages back. */
  lemma NarrowedSearchPastEnd(filtered: seq<Row>, currentPage: int)
    requires currentPage > TotalPages(|filtered|)
    ensures PaginatedData(filtered, currentPage) == []
  {
    var t := TotalPages(|filtered|);
    assert (currentPage - 1) * ItemsPerPage >= t * ItemsPerPage;
  }
}
