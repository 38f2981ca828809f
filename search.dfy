/**
 * search.php: the request defaults, the statement and parameter list built
 * by successive appends for the text filter, the category filter and the
 * sort, the page count and offset, and the pagination links.
 *
 * A statement is a sequence of tokens: literal SQL text, a `?` placeholder
 * (`Hole`), or a number written into the text (`Inline`, the LIMIT and
 * OFFSET values). Whitespace inside the literal text is normalised.
 */
module Search {
  import opened Wrappers
  import opened PhpText

  datatype SqlToken = Text(s: string) | Hole | Inline(n: int)

  /** A bound parameter: a LIKE pattern or the category id. */
  datatype Param = Str(s: string) | Num(n: int)

  /** The four query-string fields (query, category, sort, page), with None
      when the key is not set; numbers already passed through intval. */
  datatype SearchRequest = SearchRequest(
    q: Option<string>, category: Option<int>, sort: Option<string>, page: Option<int>)

  datatype SearchInput = SearchInput(query: string, category: int, sort: string, page: int)

  const PerPage: nat := 12

  /** The defaults for unset keys; set strings go through sanitize. */
  function Inputs(req: SearchRequest, sanitize: string -> string): (r: SearchInput)
    ensures req.q.None? ==> r.query == ""
    ensures req.q.Some? ==> r.query == sanitize(req.q.value)
    ensures r.category == req.category.GetOr(0)
    ensures req.sort.None? ==> r.sort == "relevance"
    ensures req.sort.Some? ==> r.sort == sanitize(req.sort.value)
    ensures r.page == req.page.GetOr(1)
  {
    SearchInput(
      if req.q.Some? then sanitize(req.q.value) else "",
      if req.category.Some? then req.category.value else 0,
      if req.sort.Some? then sanitize(req.sort.value) else "relevance",
      if req.page.Some? then req.page.value else 1)
  }

  /** The number of `?` placeholders in a statement. */
  function Holes(sql: seq<SqlToken>): nat {
    if sql == [] then 0 else (if sql[0].Hole? then 1 else 0) + Holes(sql[1..])
  }

  lemma {:induction false} HolesAppend(a: seq<SqlToken>, b: seq<SqlToken>)
    ensures Holes(a + b) == Holes(a) + Holes(b)
  {
    if a == [] {
      assert a + b == b;
    } else {
      assert (a + b)[1..] == a[1..] + b;
      HolesAppend(a[1..], b);
    }
  }

  /** Literal text followed by one `?`. */
  function Bind(text: string): (r: seq<SqlToken>)
    ensures Holes(r) == 1
  {
    var r := [Text(text), Hole];
    assert r[1..] == [Hole] && [Hole][1..] == [];
    r
  }

  lemma {:induction false} NoHoles(sql: seq<SqlToken>)
    requires forall t :: t in sql ==> !t.Hole?
    ensures Holes(sql) == 0
  {
    if sql != [] {
      assert sql[0] in sql;
      NoHoles(sql[1..]);
    }
  }

  predicate FixedSort(sort: string) {
    sort == "price_asc" || sort == "price_desc" || sort == "newest"
  }

  /** The parameters, in binding order: the text filter's pattern twice,
      the category, and the relevance ranking's prefix and infix patterns. */
  function SearchParams(query: string, category: int, sort: string): seq<Param> {
    (if !Empty(query) then [Str("%" + query + "%"), Str("%" + query + "%")] else []) +
    (if category != 0 then [Num(category)] else []) +
    (if !FixedSort(sort) && !Empty(query) then [Str(query + "%"), Str("%" + query + "%")] else [])
  }

  /** The statements for the count and the page, and their parameters
      (search.php:20-75). Both statements bind the same list, and each has
      exactly as many placeholders as there are parameters. */
  method BuildSearch(query: string, category: int, sort: string, page: int)
    returns (countSql: seq<SqlToken>, pageSql: seq<SqlToken>, params: seq<Param>)
    ensures params == SearchParams(query, category, sort)
    ensures Holes(countSql) == |params|
    ensures Holes(pageSql) == |params|
    ensures |pageSql| > 0 && pageSql[|pageSql| - 1] == Inline(Offset(page))
  {
    params := [];
    var sql := [Text("SELECT p.*, c.name as category_name FROM products p " +
                     "LEFT JOIN categories c ON p.category_id = c.id WHERE 1=1")];
    if !Empty(query) {
      var clause := [Text(" AND (p.name LIKE "), Hole, Text(" OR p.description LIKE "), Hole, Text(")")];
      HolesAppend(sql, clause);
      sql := sql + clause;
      var term := "%" + query + "%";
      params := params + [Str(term), Str(term)];
    }
    if category != 0 {
      var clause := Bind(" AND p.category_id = ");
      HolesAppend(sql, clause);
      sql := sql + clause;
      params := params + [Num(category)];
    }
    var order, sortParams := OrderBy(query, sort);
    params := params + sortParams;
    HolesAppend(sql, order);
    sql := sql + order;

    var head := [Text("SELECT COUNT(*) as count FROM (")];
    var tail := [Text(") as count_table")];
    HolesAppend(head, sql);
    HolesAppend(head + sql, tail);
    countSql := head + sql + tail;

    var limit := [Text(" LIMIT "), Inline(PerPage), Text(" OFFSET "), Inline(Offset(page))];
    NoHoles(limit);
    HolesAppend(sql, limit);
    pageSql := sql + limit;
  }

  /** The `switch ($sort)` (search.php:41-64). */
  method OrderBy(query: string, sort: string) returns (order: seq<SqlToken>, params: seq<Param>)
    ensures params == if !FixedSort(sort) && !Empty(query) then [Str(query + "%"), Str("%" + query + "%")] else []
    ensures Holes(order) == |params|
  {
    params := [];
    if sort == "price_asc" {
      order := [Text(" ORDER BY p.price ASC")];
    } else if sort == "price_desc" {
      order := [Text(" ORDER BY p.price DESC")];
    } else if sort == "newest" {
      order := [Text(" ORDER BY p.created_at DESC")];
    } else if !Empty(query) {
      order := [Text(" ORDER BY CASE WHEN p.name LIKE "), Hole, Text(" THEN 1 WHEN p.name LIKE "),
                Hole, Text(" THEN 2 ELSE 3 END")];
      params := params + [Str(query + "%"), Str("%" + query + "%")];
    } else {
      order := [Text(" ORDER BY p.created_at DESC")];
    }
  }

  /** The three fixed orderings bind nothing; every other sort value,
      known or not, ranks by relevance. */
  lemma SortParams(query: string, category: int, sort: string)
    ensures FixedSort(sort) ==>
      |SearchParams(query, category, sort)| == (if Empty(query) then 0 else 2) + (if category != 0 then 1 else 0)
    ensures !FixedSort(sort) ==>
      SearchParams(query, category, sort) == SearchParams(query, category, "relevance")
    ensures !FixedSort(sort) ==>
      |SearchParams(query, category, sort)| == (if Empty(query) then 0 else 4) + (if category != 0 then 1 else 0)
  {
  }

  /** An empty query, including "0", adds no LIKE pattern at all. */
  lemma EmptyQueryBindsOnlyCategory(query: string, category: int, sort: string)
    requires Empty(query)
    ensures SearchParams(query, category, sort) == (if category != 0 then [Num(category)] else [])
  {
  }

  /** The number of pages: the count divided by the page size, rounded up. */
  function TotalPages(count: nat): (t: nat)
    ensures t * PerPage >= count
    ensures t > 0 ==> (t - 1) * PerPage < count
    ensures t == 0 <==> count == 0
  {
    (count + PerPage - 1) / PerPage
  }

  /** The first row of a page, with no clamping of the page number. */
  function Offset(page: int): (o: int)
    ensures page >= 1 ==> o >= 0 && o % PerPage == 0 && o / PerPage == page - 1
    ensures page <= 0 ==> o < 0
  {
    (page - 1) * PerPage
  }

  /** Every page the links offer starts at a row that exists. */
  lemma PageInRangeStartsAtARow(count: nat, page: int)
    requires 1 <= page <= TotalPages(count)
    ensures 0 <= Offset(page) < count
  {
    var t := TotalPages(count);
    assert (page - 1) * PerPage <= (t - 1) * PerPage;
  }

  /** A page past the last one starts past the rows. */
  lemma PageBeyondLastIsEmpty(count: nat, page: int)
    requires page > TotalPages(count)
    ensures Offset(page) >= count
  {
    var t := TotalPages(count);
    assert (page - 1) * PerPage >= t * PerPage;
  }

  /** How many products the page query returns when `count` rows match.
      Below page 1 the offset is negative, MySQL rejects the statement and
      the catch leaves the product list unset, so nothing is shown. */
  function PageRows(count: nat, page: int): (n: nat)
    ensures n <= PerPage
    ensures n > 0 ==> 0 <= Offset(page) < count
  {
    var o := Offset(page);
    if o < 0 || o >= count then 0
    else if count - o < PerPage then count - o else PerPage
  }

  /** The page shows products exactly when its number is between 1 and the
      last page. */
  lemma PageHasRows(count: nat, page: int)
    ensures PageRows(count, page) > 0 <==> 1 <= page <= TotalPages(count)
  {
    if 1 <= page <= TotalPages(count) {
      PageInRangeStartsAtARow(count, page);
    } else if page > TotalPages(count) {
      PageBeyondLastIsEmpty(count, page);
    }
  }

  /** One numbered link; `current` marks the requested page. */
  datatype Link = Link(page: int, current: bool)

  datatype Nav = Nav(prev: Option<int>, pages: seq<Link>, next: Option<int>)

  /** The pagination block (search.php:229-251), which sits in the branch
      taken only when the product list is not empty (search.php:179-186). */
  function Pagination(page: int, totalPages: int, hasRows: bool): (r: Option<Nav>)
    ensures r.Some? <==> hasRows && totalPages > 1
    ensures r.Some? ==> (r.value.prev.Some? <==> page > 1)
    ensures r.Some? && r.value.prev.Some? ==> r.value.prev.value == page - 1
    ensures r.Some? ==> (r.value.next.Some? <==> page < totalPages)
    ensures r.Some? && r.value.next.Some? ==> r.value.next.value == page + 1
    ensures r.Some? ==> |r.value.pages| == totalPages
    ensures r.Some? ==> forall i :: 0 <= i < totalPages ==> r.value.pages[i] == Link(i + 1, page == i + 1)
  {
    if !hasRows || totalPages <= 1 then None
    else
      Some(Nav(
        if page > 1 then Some(page - 1) else None,
        seq(totalPages, i requires 0 <= i < totalPages => Link(i + 1, page == i + 1)),
        if page < totalPages then Some(page + 1) else None))
  }

  /** The navigation as the page renders it for `count` matches. */
  function PageNavigation(count: nat, page: int): Option<Nav> {
    Pagination(page, TotalPages(count), PageRows(count, page) > 0)
  }

  /** A page outside 1..total shows "No products found" and no navigation. */
  lemma OutOfRangePageHasNoNavigation(count: nat, page: int)
    requires page < 1 || page > TotalPages(count)
    ensures PageNavigation(count, page).None?
  {
    PageHasRows(count, page);
  }

  /** Whenever a navigation is shown, the requested page is in range and is
      the one link marked current; "previous" is missing only on the first
      page and "next" only on the last. */
  lemma ShownNavigationMarksPage(count: nat, page: int)
    requires PageNavigation(count, page).Some?
    ensures 1 <= page <= TotalPages(count) && TotalPages(count) > 1
    ensures PageNavigation(count, page).value.pages[page - 1].current
    ensures forall l :: l in PageNavigation(count, page).value.pages ==> (l.current <==> l.page == page)
    ensures PageNavigation(count, page).value.prev.None? <==> page == 1
    ensures PageNavigation(count, page).value.next.None? <==> page == TotalPages(count)
  {
    PageHasRows(count, page);
    var pages := PageNavigation(count, page).value.pages;
    forall l | l in pages ensures l.current <==> l.page == page {
      var i :| 0 <= i < |pages| && pages[i] == l;
    }
  }
}
