/**
 * The employee listing page (app/routes/employees._index/route.tsx): the
 * loader that normalises the query-string parameters, pages the result and
 * assembles the count query, the data query and their bound parameters, and
 * the rule that picks the direction a column header link asks for.
 *
 * The database is not modelled: the loader is given the number the count
 * query reports, and returns the query texts and parameters it would run
 * instead of the rows.
 */
module EmployeeListing {
  import opened Options
  import opened Text

  /** The only column names that may follow ORDER BY. */
  const ValidSortFields: seq<string> := ["date_of_birth", "salary", "start_date", "end_date"]

  /** The accepted sort directions, compared case-insensitively. */
  const ValidOrders: seq<string> := ["asc", "desc"]

  /** " WHERE full_name LIKE ? OR email LIKE ?" */
  const SearchFilter := " WHERE full_name LIKE " + Placeholder + " OR email LIKE " + Placeholder

  /** " LIMIT ? OFFSET ?" */
  const LimitClause := " LIMIT " + Placeholder + " OFFSET " + Placeholder

  /** A value bound to a `?` placeholder. */
  datatype SqlValue = SqlText(text: string) | SqlInt(number: int)

  /** What the loader hands to the page, with the queries it ran in place of the rows. */
  datatype Listing = Listing(
    search: string,
    sortBy: string,
    order: string,
    page: int,
    totalPages: int,
    pageSize: int,
    totalItems: nat,
    countQuery: string,
    countParams: seq<SqlValue>,
    query: string,
    params: seq<SqlValue>)

  /** The sort column kept from the `sortBy` parameter: an allow-listed name or "" (no sort). */
  function SortColumn(raw: Option<string>): (r: string)
    ensures r == "" || r in ValidSortFields
    ensures r != "" <==> raw.Some? && raw.value in ValidSortFields
    ensures r != "" ==> r == raw.value
  {
    var s := raw.GetOr("");
    if s in ValidSortFields then s else ""
  }

  /**
   * The direction kept from the `order` parameter: the value as given when its
   * lower-case form is "asc" or "desc", and "asc" otherwise (also when absent).
   */
  function SortOrder(raw: Option<string>): (r: string)
    ensures ToLower(r) in ValidOrders
    ensures raw.Some? && ToLower(raw.value) in ValidOrders ==> r == raw.value
    ensures !(raw.Some? && ToLower(raw.value) in ValidOrders) ==> r == "asc"
  {
    var o := raw.GetOr("");
    var o := if o == "" then "asc" else o;
    assert ToLower("asc") == "asc";
    if ToLower(o) in ValidOrders then o else "asc"
  }

  /** The SQL keyword for a kept direction is ASC or DESC, whatever the letter case given. */
  lemma DirectionIsAscOrDesc(order: string)
    requires ToLower(order) in ValidOrders
    ensures ToUpper(order) == "ASC" || ToUpper(order) == "DESC"
    ensures ToUpper(order) == "DESC" <==> ToLower(order) == "desc"
  {
    assert ToLower("asc") == "asc" && ToUpper("asc") == "ASC";
    assert ToLower("desc") == "desc" && ToUpper("desc") == "DESC";
    if ToLower(order) == "asc" {
      UpperDeterminedByLower(order, "asc");
    } else {
      UpperDeterminedByLower(order, "desc");
    }
  }

  /** `Math.max(1, Math.ceil(totalItems / pageSize))`: the fewest pages, at least one, that hold every row. */
  function TotalPages(totalItems: nat, pageSize: int): (t: int)
    requires pageSize > 0
    ensures t >= 1
    ensures totalItems <= t * pageSize
    ensures t == 1 || (t - 1) * pageSize < totalItems
  {
    var ceil := (totalItems + pageSize - 1) / pageSize;
    if ceil > 1 then ceil else 1
  }

  /** How many rows the data query skips for a page number. */
  function Offset(page: int, pageSize: int): (offset: int) {
    (page - 1) * pageSize
  }

  /** The FROM clause shared by the count query and the data query. */
  function FromClause(hasSearch: bool): (clause: string) {
    "FROM employees" + if hasSearch then SearchFilter else ""
  }

  /** The data query for the filter, the kept column and the SQL direction. */
  function DataQuery(hasSearch: bool, sortBy: string, direction: string): (query: string) {
    var select := "SELECT * " + FromClause(hasSearch);
    var sorted := if sortBy != "" then select + " ORDER BY " + sortBy + " " + direction else select;
    sorted + LimitClause
  }

  /** The parameters bound by the search filter: the term wrapped in `%`, once per column. */
  function SearchParams(search: string): (ps: seq<SqlValue>) {
    if search != "" then [SqlText("%" + search + "%"), SqlText("%" + search + "%")] else []
  }

  /**
   * The loader. `requestedPage` and `pageSize` are the parsed query-string
   * numbers; `totalItems` is the answer to the count query it builds.
   */
  method Loader(searchParam: Option<string>, sortByParam: Option<string>, orderParam: Option<string>,
                requestedPage: int, pageSize: int, totalItems: nat) returns (r: Listing)
    requires pageSize > 0
    ensures r.search == TrimmedOrEmpty(searchParam)
    ensures r.sortBy == SortColumn(sortByParam) && r.order == SortOrder(orderParam)
    ensures r.pageSize == pageSize && r.totalItems == totalItems
    ensures r.totalPages == TotalPages(totalItems, pageSize)
    ensures r.page == if requestedPage > r.totalPages then r.totalPages else requestedPage
    ensures r.countQuery == "SELECT COUNT(*) as total " + FromClause(r.search != "")
    ensures r.countParams == SearchParams(r.search)
    ensures r.query == DataQuery(r.search != "", r.sortBy, ToUpper(r.order))
    // only allow-listed text and ASC/DESC reach the query text; every user value is bound
    ensures r.sortBy == "" || r.sortBy in ValidSortFields
    ensures ToUpper(r.order) == "ASC" || ToUpper(r.order) == "DESC"
    // the offset is taken from the page as requested, before it is clamped
    ensures r.params == SearchParams(r.search) + [SqlInt(pageSize), SqlInt(Offset(requestedPage, pageSize))]
    // each query has exactly one bound value per `?`
    ensures Occurrences(r.countQuery, '?') == |r.countParams|
    ensures Occurrences(r.query, '?') == |r.params|
  {
    var search := TrimmedOrEmpty(searchParam);
    var sortBy, order := KeptSort(sortByParam, orderParam);

    var page := requestedPage;
    var offset := Offset(page, pageSize);

    var baseQuery, params := Filter(search);
    var countQuery := "SELECT COUNT(*) as total " + baseQuery;
    var countParams := params;

    var totalPages := TotalPages(totalItems, pageSize);
    if page > totalPages {
      page := totalPages;
    }

    DirectionIsAscOrDesc(order);
    var query := SortedQuery(baseQuery, sortBy, ToUpper(order));
    params := params + [SqlInt(pageSize), SqlInt(offset)];

    CountQueryPlaceholders(search != "");
    DataQueryPlaceholders(search != "", sortBy, ToUpper(order));

    r := Listing(search, sortBy, order, page, totalPages, pageSize, totalItems,
                 countQuery, countParams, query, params);
  }

  /** The loader's reading of `sortBy` and `order`, with the values outside the allow-lists replaced. */
  method KeptSort(sortByParam: Option<string>, orderParam: Option<string>) returns (sortBy: string, order: string)
    ensures sortBy == SortColumn(sortByParam) && order == SortOrder(orderParam)
  {
    sortBy := sortByParam.GetOr("");
    order := orderParam.GetOr("");
    if order == "" {
      order := "asc";
    }
    if sortBy !in ValidSortFields {
      sortBy := "";
    }
    if ToLower(order) !in ValidOrders {
      order := "asc";
    }
  }

  /** The loader's FROM clause and the parameters its search filter binds. */
  method Filter(search: string) returns (baseQuery: string, params: seq<SqlValue>)
    ensures baseQuery == FromClause(search != "") && params == SearchParams(search)
  {
    baseQuery := "FROM employees";
    params := [];
    if search != "" {
      baseQuery := baseQuery + SearchFilter;
      params := params + [SqlText("%" + search + "%"), SqlText("%" + search + "%")];
    }
  }

  /** The loader's data query on a FROM clause: the optional ORDER BY, then the LIMIT/OFFSET placeholders. */
  method SortedQuery(baseQuery: string, sortBy: string, direction: string) returns (query: string)
    ensures forall hasSearch :: baseQuery == FromClause(hasSearch) ==> query == DataQuery(hasSearch, sortBy, direction)
  {
    query := "SELECT * " + baseQuery;
    if sortBy != "" {
      query := query + " ORDER BY " + sortBy + " " + direction;
    }
    query := query + LimitClause;
  }

  /** The count query has a `?` for each search parameter and no other. */
  lemma CountQueryPlaceholders(hasSearch: bool)
    ensures Occurrences("SELECT COUNT(*) as total " + FromClause(hasSearch), '?') == if hasSearch then 2 else 0
  {
    NoPlaceholderInCount();
    OccurrencesOfConcat("SELECT COUNT(*) as total ", FromClause(hasSearch), '?');
    FromClausePlaceholders(hasSearch);
  }

  /**
   * With an allow-listed (or no) column and an ASC/DESC direction, the data
   * query has a `?` for each search parameter, one for the page size and one
   * for the offset, and no other.
   */
  lemma DataQueryPlaceholders(hasSearch: bool, sortBy: string, direction: string)
    requires sortBy == "" || sortBy in ValidSortFields
    requires direction == "ASC" || direction == "DESC"
    ensures Occurrences(DataQuery(hasSearch, sortBy, direction), '?') == (if hasSearch then 2 else 0) + 2
  {
    NoPlaceholderInSelect();
    var select := "SELECT * " + FromClause(hasSearch);
    OccurrencesOfConcat("SELECT * ", FromClause(hasSearch), '?');
    FromClausePlaceholders(hasSearch);
    var sorted := select;
    if sortBy != "" {
      NoPlaceholderInOrderBy();
      NoPlaceholderInSortField(sortBy);
      NoPlaceholderInSpace();
      if direction == "ASC" { NoPlaceholderInAsc(); } else { NoPlaceholderInDesc(); }
      OccurrencesOfConcat(select, " ORDER BY ", '?');
      OccurrencesOfConcat(select + " ORDER BY ", sortBy, '?');
      OccurrencesOfConcat(select + " ORDER BY " + sortBy, " ", '?');
      OccurrencesOfConcat(select + " ORDER BY " + sortBy + " ", direction, '?');
      sorted := select + " ORDER BY " + sortBy + " " + direction;
    }
    OccurrencesOfConcat(sorted, LimitClause, '?');
    LimitClausePlaceholders();
  }

  lemma FromClausePlaceholders(hasSearch: bool)
    ensures Occurrences(FromClause(hasSearch), '?') == if hasSearch then 2 else 0
  {
    NoPlaceholderInFrom();
    if hasSearch {
      var a := " WHERE full_name LIKE ";
      var b := " OR email LIKE ";
      NoPlaceholderInWhere();
      NoPlaceholderInOr();
      PlaceholderIsOne();
      OccurrencesOfConcat(a, Placeholder, '?');
      OccurrencesOfConcat(a + Placeholder, b, '?');
      OccurrencesOfConcat(a + Placeholder + b, Placeholder, '?');
      OccurrencesOfConcat("FROM employees", SearchFilter, '?');
    } else {
      assert FromClause(hasSearch) == "FROM employees";
    }
  }

  lemma LimitClausePlaceholders()
    ensures Occurrences(LimitClause, '?') == 2
  {
    NoPlaceholderInLimit();
    NoPlaceholderInOffset();
    PlaceholderIsOne();
    var a := " LIMIT ";
    var b := " OFFSET ";
    OccurrencesOfConcat(a, Placeholder, '?');
    OccurrencesOfConcat(a + Placeholder, b, '?');
    OccurrencesOfConcat(a + Placeholder + b, Placeholder, '?');
  }

  /*
   * The fixed pieces of the SQL text hold no `?`: one small lemma per piece,
   * since the solver's cost grows quickly with the number of literals in view.
   */
  lemma NoPlaceholderInFrom()
    ensures Occurrences("FROM employees", '?') == 0
  {
    OccurrencesAbsent("FROM employees", '?');
  }

  lemma NoPlaceholderInWhere()
    ensures Occurrences(" WHERE full_name LIKE ", '?') == 0
  {
    OccurrencesAbsent(" WHERE full_name LIKE ", '?');
  }

  lemma NoPlaceholderInOr()
    ensures Occurrences(" OR email LIKE ", '?') == 0
  {
    OccurrencesAbsent(" OR email LIKE ", '?');
  }

  lemma NoPlaceholderInCount()
    ensures Occurrences("SELECT COUNT(*) as total ", '?') == 0
  {
    OccurrencesAbsent("SELECT COUNT(*) as total ", '?');
  }

  lemma NoPlaceholderInSelect()
    ensures Occurrences("SELECT * ", '?') == 0
  {
    OccurrencesAbsent("SELECT * ", '?');
  }

  lemma NoPlaceholderInOrderBy()
    ensures Occurrences(" ORDER BY ", '?') == 0
  {
    OccurrencesAbsent(" ORDER BY ", '?');
  }

  lemma NoPlaceholderInLimit()
    ensures Occurrences(" LIMIT ", '?') == 0
  {
    OccurrencesAbsent(" LIMIT ", '?');
  }

  lemma NoPlaceholderInOffset()
    ensures Occurrences(" OFFSET ", '?') == 0
  {
    OccurrencesAbsent(" OFFSET ", '?');
  }

  lemma NoPlaceholderInAsc()
    ensures Occurrences("ASC", '?') == 0
  {
    OccurrencesAbsent("ASC", '?');
  }

  lemma NoPlaceholderInDesc()
    ensures Occurrences("DESC", '?') == 0
  {
    OccurrencesAbsent("DESC", '?');
  }

  lemma NoPlaceholderInDateOfBirth()
    ensures Occurrences("date_of_birth", '?') == 0
  {
    OccurrencesAbsent("date_of_birth", '?');
  }

  lemma NoPlaceholderInSalary()
    ensures Occurrences("salary", '?') == 0
  {
    OccurrencesAbsent("salary", '?');
  }

  lemma NoPlaceholderInStartDate()
    ensures Occurrences("start_date", '?') == 0
  {
    OccurrencesAbsent("start_date", '?');
  }

  lemma NoPlaceholderInEndDate()
    ensures Occurrences("end_date", '?') == 0
  {
    OccurrencesAbsent("end_date", '?');
  }

  lemma NoPlaceholderInSpace()
    ensures Occurrences(" ", '?') == 0
  {
    OccurrencesAbsent(" ", '?');
  }

  /** No allow-listed column holds a `?`. */
  lemma NoPlaceholderInSortField(field: string)
    requires field in ValidSortFields
    ensures Occurrences(field, '?') == 0
  {
    if field == "date_of_birth" {
      NoPlaceholderInDateOfBirth();
    } else if field == "salary" {
      NoPlaceholderInSalary();
    } else if field == "start_date" {
      NoPlaceholderInStartDate();
    } else {
      NoPlaceholderInEndDate();
    }
  }

  /**
   * A page past the last one is served as the last page, but the offset was
   * already taken from the requested page: it skips every matching row.
   */
  lemma {:induction false} ClampedRequestSkipsAllRows(requestedPage: int, pageSize: int, totalItems: nat)
    requires pageSize > 0
    requires requestedPage > TotalPages(totalItems, pageSize)
    ensures Offset(requestedPage, pageSize) >= totalItems
    ensures Offset(requestedPage, pageSize) > Offset(TotalPages(totalItems, pageSize), pageSize)
  {
    var t := TotalPages(totalItems, pageSize);
    assert requestedPage - 1 >= t;
    assert (requestedPage - 1) * pageSize >= t * pageSize by {
      MultiplyMonotone(t, requestedPage - 1, pageSize);
    }
    assert (requestedPage - 1) * pageSize > (t - 1) * pageSize by {
      MultiplyMonotone(t, requestedPage - 1, pageSize);
    }
  }

  /** Every page from 1 to the last starts inside the matching rows (or is the only, empty, page). */
  lemma {:induction false} InRangePageStartsInsideRows(page: int, pageSize: int, totalItems: nat)
    requires pageSize > 0
    requires 1 <= page <= TotalPages(totalItems, pageSize)
    ensures 0 <= Offset(page, pageSize)
    ensures Offset(page, pageSize) < totalItems || (page == 1 && totalItems == 0)
  {
    var t := TotalPages(totalItems, pageSize);
    MultiplyMonotone(page - 1, t - 1, pageSize);
    MultiplyMonotone(0, page - 1, pageSize);
  }

  lemma MultiplyMonotone(a: int, b: int, k: int)
    requires a <= b && k > 0
    ensures a * k <= b * k
  {
    assert b * k - a * k == (b - a) * k;
  }

  /**
   * The direction a column header asks for: "asc" for a column other than the
   * current sort, and the opposite of the current direction for the current one.
   */
  function ToggleOrder(field: string, sortBy: string, order: string): (r: string)
    ensures r == "asc" || r == "desc"
    ensures r == "desc" <==> field == sortBy && order == "asc"
  {
    if field != sortBy then "asc" else if order == "asc" then "desc" else "asc"
  }

  /** On the current column, asking twice returns to the lower-case direction one started from. */
  lemma ToggleTwice(field: string, order: string)
    requires order == "asc" || order == "desc"
    ensures ToggleOrder(field, field, ToggleOrder(field, field, order)) == order
  {
  }

  /**
   * The comparison is exact: a current direction the loader kept as "ASC"
   * (sorted ascending) does not ask for descending.
   */
  lemma UpperCaseAscendingIsNotFlipped(field: string)
    ensures SortOrder(Some("ASC")) == "ASC"
    ensures ToggleOrder(field, field, "ASC") == "asc"
  {
    assert ToLower("ASC") == "asc";
  }
}
