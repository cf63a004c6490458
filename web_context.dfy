/** The paging state of the adapter (`_currentPage`, `_pageSize`), the loop that reads
    a listing page by page, the search methods that set the paging state, and the
    filters applied to what comes back. Each page the server would return is an input. */
module WebContext {
  import opened Wrappers
  import opened Text
  import opened Models
  import opened EncodedProduct
  import opened MixinConverters
  import opened Requests

  /** A query parameter added once, when the request is built. Dates are sent as
      `yyyy-MM-dd`; the model keeps the day number. */
  datatype QueryParam =
    | SearchTerm(term: string)       // `search`
    | StatusList(statuses: string)   // `status`: the vendor words joined with ","
    | StartDate(day: int)            // `start_date`
    | EndDate(day: int)              // `end_date`

  /** A listing request: the parameters fixed when it is built, and the `page` and
      `per_page` query parameters, absent until set. */
  class Request {
    const query: seq<QueryParam>
    var page: Option<int>
    var perPage: Option<int>

    constructor (query: seq<QueryParam>)
      ensures this.query == query && page == None && perPage == None
    {
      this.query := query;
      page := None;
      perPage := None;
    }
  }

  /** The parameters a request carried when it was executed: (page, per_page, the
      parameters fixed when it was built). */
  type Asked = (Option<int>, Option<int>, seq<QueryParam>)

  /** One listing page as the server returns it: the status code, the `result` list
      (None when it is null) and whether `next` is set. A body that does not decode
      throws out of the loop and is not modelled. */
  datatype Page<T> = Page(status: int, results: Option<seq<T>>, hasNext: bool)

  /** The loop stops at this page without keeping it. */
  predicate Rejected<T>(p: Page<T>) {
    p.status != OK || p.results.None? || |p.results.value| == 0
  }

  /** The loop keeps this page, then stops. */
  predicate IsLast<T>(p: Page<T>) {
    !Rejected(p) && !p.hasNext
  }

  predicate Stops<T>(p: Page<T>) {
    Rejected(p) || !p.hasNext
  }

  /** The server eventually answers with a page that ends the listing. */
  predicate HasStop<T>(pages: seq<Page<T>>) {
    exists k :: 0 <= k < |pages| && Stops(pages[k])
  }

  /** The index of the page that ends the listing. */
  function FirstStop<T>(pages: seq<Page<T>>): (k: nat)
    requires HasStop(pages)
    ensures k < |pages| && Stops(pages[k])
    ensures forall j :: 0 <= j < k ==> !Stops(pages[j])
  {
    if Stops(pages[0]) then 0
    else
      assert HasStop(pages[1..]) by {
        var k :| 0 <= k < |pages| && Stops(pages[k]);
        assert pages[1..][k - 1] == pages[k];
      }
      var k := 1 + FirstStop(pages[1..]);
      assert forall j :: 1 <= j < k ==> pages[j] == pages[1..][j - 1];
      k
  }

  /** What the pagination loop returns for a sequence of server pages. */
  function Collected<T>(pages: seq<Page<T>>): seq<T> {
    if pages == [] || Rejected(pages[0]) then []
    else pages[0].results.value + (if pages[0].hasNext then Collected(pages[1..]) else [])
  }

  /** Reading from page i on: that page decides whether to stop or go on to i + 1. */
  lemma CollectedStep<T>(pages: seq<Page<T>>, i: nat)
    requires i < |pages|
    ensures Rejected(pages[i]) ==> Collected(pages[i..]) == []
    ensures IsLast(pages[i]) ==> Collected(pages[i..]) == pages[i].results.value
    ensures !Stops(pages[i]) ==> Collected(pages[i..]) == pages[i].results.value + Collected(pages[i + 1..])
  {
    assert pages[i..][0] == pages[i];
    assert pages[i..][1..] == pages[i + 1..];
  }

  /** A page that does not end the listing moves its results into those collected. */
  lemma CollectedAdvance<T>(pages: seq<Page<T>>, i: nat, results: seq<T>)
    requires i < |pages| && !Stops(pages[i])
    requires Collected(pages) == results + Collected(pages[i..])
    ensures Collected(pages) == (results + pages[i].results.value) + Collected(pages[i + 1..])
  {
    CollectedStep(pages, i);
  }

  /** The page that ends the listing adds its results only when it is kept. */
  lemma CollectedFinish<T>(pages: seq<Page<T>>, i: nat, results: seq<T>)
    requires i < |pages| && Stops(pages[i])
    requires Collected(pages) == results + Collected(pages[i..])
    ensures Collected(pages) == if Rejected(pages[i]) then results else results + pages[i].results.value
  {
    CollectedStep(pages, i);
  }

  /** The results of kept pages, concatenated in page order. */
  function Flatten<T>(pages: seq<Page<T>>): seq<T>
    requires forall j :: 0 <= j < |pages| ==> !Rejected(pages[j])
  {
    if pages == [] then []
    else
      var last := pages[|pages| - 1];
      assert !Rejected(last);
      Flatten(pages[..|pages| - 1]) + last.results.value
  }

  lemma {:induction false} FlattenCons<T>(pages: seq<Page<T>>)
    requires pages != [] && forall j :: 0 <= j < |pages| ==> !Rejected(pages[j])
    ensures Flatten(pages) == pages[0].results.value + Flatten(pages[1..])
    decreases |pages|
  {
    if |pages| > 1 {
      var init := pages[..|pages| - 1];
      assert init[1..] == pages[1..][..|pages[1..]| - 1];
      FlattenCons(init);
    } else {
      assert pages[..0] == [];
    }
  }

  /** The loop returns the results of every page before the one that ends the listing,
      in order, followed by that page's results when it was kept for lack of a `next`. */
  lemma {:induction false} CollectedUpToFirstStop<T>(pages: seq<Page<T>>)
    requires HasStop(pages)
    ensures var k := FirstStop(pages);
      Collected(pages) == Flatten(pages[..k]) + (if IsLast(pages[k]) then pages[k].results.value else [])
    decreases |pages|
  {
    var k := FirstStop(pages);
    if k == 0 {
      assert pages[..0] == [];
    } else {
      assert HasStop(pages[1..]) by { assert pages[1..][k - 1] == pages[k]; }
      CollectedUpToFirstStop(pages[1..]);
      assert FirstStop(pages[1..]) == k - 1 by {
        assert forall j :: 0 <= j < k - 1 ==> pages[1..][j] == pages[j + 1];
      }
      assert pages[1..][..k - 1] == pages[..k][1..];
      FlattenCons(pages[..k]);
    }
  }

  /** Pages after the one that ends the listing are never read. */
  lemma {:induction false} CollectedIgnoresLaterPages<T>(pages: seq<Page<T>>, more: seq<Page<T>>)
    requires HasStop(pages)
    ensures Collected(pages + more) == Collected(pages)
    decreases |pages|
  {
    assert (pages + more)[0] == pages[0];
    if !Stops(pages[0]) {
      assert HasStop(pages[1..]) by {
        var k :| 0 <= k < |pages| && Stops(pages[k]);
        assert pages[1..][k - 1] == pages[k];
      }
      assert (pages + more)[1..] == pages[1..] + more;
      CollectedIgnoresLaterPages(pages[1..], more);
    }
  }

  /** The parameters of the n-th execution: the caller's own for the first, then page
      `start + n` with the page size, and always the fixed ones. */
  function NextAsked(first: Asked, start: int, size: int, n: nat): Asked {
    if n == 0 then first else (Some(start + n), Some(size), first.2)
  }

  /** The parameters of the first n executions. */
  function Requested(first: Asked, start: int, size: int, n: nat): (asked: seq<Asked>)
    ensures |asked| == n
    ensures n > 0 ==> asked[0] == first
    ensures forall j :: 1 <= j < n ==> asked[j] == (Some(start + j), Some(size), first.2)
  {
    if n == 0 then [] else Requested(first, start, size, n - 1) + [NextAsked(first, start, size, n - 1)]
  }

  /** `page < 1 ? 1 : page`. */
  function NormalizePage(page: int): (p: int)
    ensures p >= 1
    ensures page >= 1 <==> p == page
  {
    if page < 1 then 1 else page
  }

  /** `pageSize > 100 || pageSize < 1 ? 100 : pageSize`: an out-of-range size becomes
      100, whichever side it falls on. */
  function NormalizePageSize(pageSize: int): (s: int)
    ensures 1 <= s <= 100
    ensures 1 <= pageSize <= 100 ==> s == pageSize
    ensures !(1 <= pageSize <= 100) ==> s == 100
  {
    if pageSize > 100 || pageSize < 1 then 100 else pageSize
  }

  /** The adapter object, reduced to its paging state. */
  class WebContext {
    var currentPage: int
    var pageSize: int

    constructor ()
      ensures currentPage == 1 && pageSize == 100
    {
      currentPage := 1;
      pageSize := 100;
    }

    /** `ResetPage`: back to page 1, and the request asks for it. */
    method ResetPage(request: Request)
      modifies this, request
      ensures currentPage == 1 && pageSize == old(pageSize)
      ensures request.page == Some(1) && request.perPage == Some(pageSize)
    {
      currentPage := 1;
      request.perPage := Some(pageSize);
      request.page := Some(currentPage);
    }

    /** `NextPage`: one page further, and the request asks for that page. */
    method NextPage(request: Request)
      modifies this, request
      ensures currentPage == old(currentPage) + 1 && pageSize == old(pageSize)
      ensures request.page == Some(currentPage) && request.perPage == Some(pageSize)
    {
      currentPage := currentPage + 1;
      request.perPage := Some(pageSize);
      request.page := Some(currentPage);
    }

    /** `NextPage` as the paging loop sees it: after the i-th execution the request
        carries the parameters of the (i + 1)-th. */
    method Advance(request: Request, ghost first: Asked, ghost start: int, i: nat)
      requires currentPage == start + i && request.query == first.2
      modifies this, request
      ensures pageSize == old(pageSize) && currentPage == start + i + 1
      ensures (request.page, request.perPage, request.query) == NextAsked(first, start, pageSize, i + 1)
    {
      NextPage(request);
    }

    /** One turn of the paging loop: the request is executed and receives `pages[i]`;
        a page that ends the listing stops the loop (kept only when it has results),
        any other page is kept and the request moves on to the next page. */
    method ReadPage<T>(request: Request, pages: seq<Page<T>>, i: nat, results: seq<T>, asked: seq<Asked>,
                       ghost first: Asked, ghost start: int)
      returns (results': seq<T>, asked': seq<Asked>, stop: bool)
      requires HasStop(pages) && i <= FirstStop(pages)
      requires Collected(pages) == results + Collected(pages[i..])
      requires currentPage == start + i
      requires asked == Requested(first, start, pageSize, i)
      requires (request.page, request.perPage, request.query) == NextAsked(first, start, pageSize, i)
      modifies this, request
      ensures pageSize == old(pageSize)
      ensures asked' == Requested(first, start, pageSize, i + 1)
      ensures stop ==> i == FirstStop(pages) && results' == Collected(pages)
      ensures !stop ==> i < FirstStop(pages) && Collected(pages) == results' + Collected(pages[i + 1..])
      ensures !stop ==> (currentPage == start + i + 1 &&
        (request.page, request.perPage, request.query) == NextAsked(first, start, pageSize, i + 1))
    {
      asked' := asked + [(request.page, request.perPage, request.query)];
      var page := pages[i];
      if Stops(page) {
        CollectedFinish(pages, i, results);
        results' := if Rejected(page) then results else results + page.results.value;
        return results', asked', true;
      }
      CollectedAdvance(pages, i, results);
      results' := results + page.results.value;
      Advance(request, first, start, i);
      stop := false;
    }

    /** `GetAllWithPagination`: executes the request once per page, appending each
        kept page, until a page ends the listing; then resets the paging state. The
        i-th execution receives `pages[i]`; `asked` records the parameters it carried. */
    method GetAllWithPagination<T>(request: Request, pages: seq<Page<T>>) returns (results: seq<T>, asked: seq<Asked>)
      requires HasStop(pages)
      modifies this, request
      ensures results == Collected(pages)
      ensures asked == Requested((old(request.page), old(request.perPage), request.query), old(currentPage), pageSize,
                                 FirstStop(pages) + 1)
      ensures currentPage == 1 && pageSize == old(pageSize)
      ensures request.page == Some(1) && request.perPage == Some(pageSize)
    {
      ghost var first := (request.page, request.perPage, request.query);
      ghost var start := currentPage;
      results := [];
      asked := [];
      var i := 0;
      var stop := false;
      while !stop
        invariant 0 <= i <= FirstStop(pages) && pageSize == old(pageSize)
        invariant stop ==> i == FirstStop(pages) && results == Collected(pages) && asked == Requested(first, start, pageSize, i + 1)
        invariant !stop ==> (Collected(pages) == results + Collected(pages[i..]) && currentPage == start + i &&
          asked == Requested(first, start, pageSize, i) &&
          (request.page, request.perPage, request.query) == NextAsked(first, start, pageSize, i))
        decreases FirstStop(pages) - i, !stop
      {
        results, asked, stop := ReadPage(request, pages, i, results, asked, first, start);
        if !stop {
          i := i + 1;
        }
      }
      ResetPage(request);
    }

    /** A listing read with a fresh request that carries the given fixed parameters
        and no page parameters. */
    method ReadListing<T>(query: seq<QueryParam>, pages: seq<Page<T>>) returns (results: seq<T>, asked: seq<Asked>)
      requires HasStop(pages)
      modifies this
      ensures results == Collected(pages)
      ensures asked == Requested((None, None, query), old(currentPage), old(pageSize), FirstStop(pages) + 1)
      ensures currentPage == 1 && pageSize == old(pageSize)
    {
      var request := new Request(query);
      results, asked := GetAllWithPagination(request, pages);
    }

    /** The part shared by the category and customer searches: the paging state is set
        before the null check, so a null search leaves it set; otherwise the listing is
        read from the server's first page (the request names no page) and the state is
        reset. The customer conversion applied to the results is not modelled. */
    method Search<T>(searchTerm: Option<string>, page: int, pageSize: int, pages: seq<Page<T>>)
      returns (results: seq<T>, asked: seq<Asked>)
      requires searchTerm.Some? ==> HasStop(pages)
      modifies this
      ensures searchTerm.None? ==> results == [] && asked == []
      ensures searchTerm.None? ==> currentPage == NormalizePage(page) && this.pageSize == NormalizePageSize(pageSize)
      ensures searchTerm.Some? ==> results == Collected(pages)
      ensures searchTerm.Some? ==> currentPage == 1 && this.pageSize == NormalizePageSize(pageSize)
      ensures searchTerm.Some? ==> |asked| == FirstStop(pages) + 1 && asked[0] == (None, None, [SearchTerm(searchTerm.value)])
      ensures searchTerm.Some? ==> forall j :: 1 <= j < |asked| ==>
        asked[j] == (Some(NormalizePage(page) + j), Some(NormalizePageSize(pageSize)), [SearchTerm(searchTerm.value)])
    {
      currentPage := NormalizePage(page);
      this.pageSize := NormalizePageSize(pageSize);
      if searchTerm.None? {
        return [], [];
      }
      results, asked := ReadListing([SearchTerm(searchTerm.value)], pages);
    }

    /** `SearchCategories`: the search, with each category converted for the host. */
    method SearchCategories(searchTerm: Option<string>, page: int, pageSize: int, pages: seq<Page<MxCategory>>)
      returns (categories: seq<WebCategory>, asked: seq<Asked>)
      requires searchTerm.Some? ==> HasStop(pages)
      modifies this
      ensures searchTerm.None? ==> categories == [] && asked == [] && currentPage == NormalizePage(page)
      ensures searchTerm.Some? ==> currentPage == 1 && |asked| == FirstStop(pages) + 1
      ensures searchTerm.Some? ==> asked[0] == (None, None, [SearchTerm(searchTerm.value)])
      ensures searchTerm.Some? ==> forall j :: 1 <= j < |asked| ==>
        asked[j] == (Some(NormalizePage(page) + j), Some(NormalizePageSize(pageSize)), [SearchTerm(searchTerm.value)])
      ensures this.pageSize == NormalizePageSize(pageSize)
      ensures searchTerm.Some? ==> (|categories| == |Collected(pages)| &&
        forall i :: 0 <= i < |categories| ==> categories[i] == ToWebCategory(Collected(pages)[i]))
    {
      var found;
      found, asked := Search(searchTerm, page, pageSize, pages);
      categories := seq(|found|, i requires 0 <= i < |found| => ToWebCategory(found[i]));
    }

    /** `GetCustomerIdAndNameBySearch`: the search, with each customer reduced to its id
        and display name. */
    method GetCustomerIdAndNameBySearch(searchTerm: Option<string>, page: int, pageSize: int, pages: seq<Page<MxCustomer>>)
      returns (pairs: seq<(int, string)>, asked: seq<Asked>)
      requires searchTerm.Some? ==> HasStop(pages)
      modifies this
      ensures searchTerm.None? ==> pairs == [] && asked == [] && currentPage == NormalizePage(page)
      ensures searchTerm.Some? ==> currentPage == 1 && |asked| == FirstStop(pages) + 1
      ensures searchTerm.Some? ==> asked[0] == (None, None, [SearchTerm(searchTerm.value)])
      ensures searchTerm.Some? ==> forall j :: 1 <= j < |asked| ==>
        asked[j] == (Some(NormalizePage(page) + j), Some(NormalizePageSize(pageSize)), [SearchTerm(searchTerm.value)])
      ensures this.pageSize == NormalizePageSize(pageSize)
      ensures searchTerm.Some? ==> (|pairs| == |Collected(pages)| &&
        forall i :: 0 <= i < |pairs| ==>
          pairs[i] == (Collected(pages)[i].id, DisplayName(Collected(pages)[i])))
    {
      var found;
      found, asked := Search(searchTerm, page, pageSize, pages);
      pairs := seq(|found|, i requires 0 <= i < |found| => (found[i].id, DisplayName(found[i])));
    }

    /** `SearchProducts`: a null search returns nothing and leaves the paging state
        alone; otherwise the listing is read starting at the normalised page (the first
        request names that page but no page size) and then filtered. */
    method SearchProducts(searchTerm: Option<string>, productType: ProductTypes, page: int, pageSize: int,
                          pages: seq<Page<MxProduct>>)
      returns (r: Result<seq<WebProduct>, Error>, asked: seq<Asked>)
      requires searchTerm.Some? ==> HasStop(pages)
      modifies this
      ensures searchTerm.None? ==> r == Success([]) && asked == []
      ensures searchTerm.None? ==> currentPage == old(currentPage) && this.pageSize == old(this.pageSize)
      ensures searchTerm.Some? ==> currentPage == 1 && this.pageSize == NormalizePageSize(pageSize)
      ensures searchTerm.Some? ==> |asked| == FirstStop(pages) + 1 && asked[0] == (Some(NormalizePage(page)), None, [])
      ensures searchTerm.Some? ==> forall j :: 1 <= j < |asked| ==>
        asked[j] == (Some(NormalizePage(page) + j), Some(NormalizePageSize(pageSize)), [])
      ensures searchTerm.Some? ==> r == SearchHits(TypeFilter(Collected(pages), productType), searchTerm.value)
    {
      if searchTerm.None? {
        return Success([]), [];
      }
      currentPage := NormalizePage(page);
      this.pageSize := NormalizePageSize(pageSize);
      var request := new Request([]);
      request.page := Some(currentPage);
      var products;
      products, asked := GetAllWithPagination(request, pages);
      r := SearchHits(TypeFilter(products, productType), searchTerm.value);
    }

    /** `GetOrdersByFilters`, up to the per-order detail fetch: with no statuses it
        returns nothing at once; otherwise it reads the whole listing (from the server's
        first page) and returns the ids of the orders that pass the filter, in order. */
    method GetOrdersByFilters(startDate: Option<int>, endDate: Option<int>, idsToExclude: Option<seq<int>>,
                              orderStatuses: Option<seq<OrderStatus>>, pages: seq<Page<MxOrderSummary>>)
      returns (ids: seq<int>, asked: seq<Asked>)
      requires orderStatuses.Some? && orderStatuses.value != [] ==> HasStop(pages)
      modifies this
      ensures orderStatuses.None? || orderStatuses.value == [] ==>
        ids == [] && asked == [] && currentPage == old(currentPage) && pageSize == old(pageSize)
      ensures orderStatuses.Some? && orderStatuses.value != [] ==>
        ids == SelectedIds(Collected(pages), Criteria(startDate, endDate, idsToExclude, orderStatuses.value))
      ensures orderStatuses.Some? && orderStatuses.value != [] ==> currentPage == 1 && pageSize == old(pageSize)
      ensures orderStatuses.Some? && orderStatuses.value != [] ==>
        asked == Requested((None, None, FilterQuery(startDate, endDate, orderStatuses.value)), old(currentPage),
                           old(pageSize), FirstStop(pages) + 1)
    {
      if orderStatuses.None? || |orderStatuses.value| == 0 {
        return [], [];
      }
      var orders;
      orders, asked := ReadListing(FilterQuery(startDate, endDate, orderStatuses.value), pages);
      ids := SelectOrders(orders, Criteria(startDate, endDate, idsToExclude, orderStatuses.value));
    }

    /** `GetOrdersBySearch`, up to the per-order detail fetch: it sets the paging state
        and never resets it, fetches the single requested page, and returns the ids of
        the orders not excluded, in order. */
    method GetOrdersBySearch(idsToExclude: Option<seq<int>>, page: int, pageSize: int,
                             fetched: Result<Option<seq<MxOrderSummary>>, Error>)
      returns (r: Result<seq<int>, Error>, asked: Asked)
      modifies this
      ensures currentPage == NormalizePage(page) && this.pageSize == NormalizePageSize(pageSize)
      ensures asked == (Some(NormalizePage(page)), Some(NormalizePageSize(pageSize)), [])
      ensures r == OrdersToFetch(fetched, idsToExclude)
    {
      currentPage := NormalizePage(page);
      this.pageSize := NormalizePageSize(pageSize);
      var request := new Request([]);
      request.perPage := Some(this.pageSize);
      request.page := Some(currentPage);
      asked := (request.page, request.perPage, request.query);
      r := OrdersToFetch(fetched, idsToExclude);
    }
  }

  /** The parameters `GetOrdersByFilters` fixes, in the order it adds them: the joined
      vendor words unless `Other` is requested, then each date that is given. */
  function FilterQuery(startDate: Option<int>, endDate: Option<int>, orderStatuses: seq<OrderStatus>)
    : (query: seq<QueryParam>)
    ensures Other !in orderStatuses <==> |query| > 0 && query[0].StatusList?
    ensures Other !in orderStatuses ==>
      query[0] == StatusList(Join(Criteria(startDate, endDate, None, orderStatuses).statusWords, ","))
    ensures forall day :: StartDate(day) in query <==> startDate == Some(day)
    ensures forall day :: EndDate(day) in query <==> endDate == Some(day)
    ensures forall k :: 0 <= k < |query| ==> !query[k].SearchTerm?
  {
    (if Other in orderStatuses then [] else [StatusList(Join(Criteria(startDate, endDate, None, orderStatuses).statusWords, ","))])
      + (if startDate.Some? then [StartDate(startDate.value)] else [])
      + (if endDate.Some? then [EndDate(endDate.value)] else [])
  }

  /** The `foreach` of `GetOrdersByFilters`: the ids of the selected orders, in order. */
  method SelectOrders(orders: seq<MxOrderSummary>, criteria: OrderCriteria) returns (ids: seq<int>)
    ensures ids == SelectedIds(orders, criteria)
  {
    ids := [];
    var i := 0;
    while i < |orders|
      invariant 0 <= i <= |orders|
      invariant ids == SelectedIds(orders[..i], criteria)
    {
      assert orders[..i + 1][..i] == orders[..i];
      if Selected(orders[i], criteria) {
        ids := ids + [orders[i].id];
      }
      i := i + 1;
    }
    assert orders[..i] == orders;
  }

  /** The display name of a customer: first name, a space, last name (null as empty). */
  function DisplayName(customer: MxCustomer): (name: string)
    ensures |name| == |customer.firstName.GetOr("")| + 1 + |customer.lastName.GetOr("")|
    ensures name[|customer.firstName.GetOr("")|] == ' '
    ensures name[..|customer.firstName.GetOr("")|] == customer.firstName.GetOr("")
    ensures name[|customer.firstName.GetOr("")| + 1..] == customer.lastName.GetOr("")
  {
    customer.firstName.GetOr("") + " " + customer.lastName.GetOr("")
  }

  // ----------------------------------------------------------------- product filter

  predicate TypeMatches(product: MxProduct, productType: ProductTypes) {
    match productType
    case Simple => !product.hasVariants
    case Variable => product.hasVariants
    case AnyType => true
  }

  /** The products of the requested kind, in order. */
  function TypeFilter(products: seq<MxProduct>, productType: ProductTypes): (r: seq<MxProduct>)
    ensures |r| <= |products|
    ensures forall p :: p in r <==> p in products && TypeMatches(p, productType)
    ensures productType == AnyType ==> r == products
  {
    if products == [] then []
    else
      assert forall p :: p in products <==> p == products[0] || p in products[1..];
      KindOf(products[0], productType) + TypeFilter(products[1..], productType)
  }

  /** What the type filter keeps of a single product. */
  function KindOf(product: MxProduct, productType: ProductTypes): seq<MxProduct> {
    if TypeMatches(product, productType) then [product] else []
  }

  /** The filter keeps the listing's order and its repetitions: it works element by
      element, keeping a product exactly when it is of the requested kind. */
  lemma {:induction false} TypeFilterAppend(a: seq<MxProduct>, b: seq<MxProduct>, productType: ProductTypes)
    ensures TypeFilter(a + b, productType) == TypeFilter(a, productType) + TypeFilter(b, productType)
  {
    if a == [] {
      assert a + b == b;
    } else {
      calc {
        TypeFilter(a + b, productType);
      == { assert (a + b)[0] == a[0] && (a + b)[1..] == a[1..] + b; }
        KindOf(a[0], productType) + TypeFilter(a[1..] + b, productType);
      == { TypeFilterAppend(a[1..], b, productType); }
        KindOf(a[0], productType) + (TypeFilter(a[1..], productType) + TypeFilter(b, productType));
      ==
        TypeFilter(a, productType) + TypeFilter(b, productType);
      }

    }
  }

  lemma TypeFilterOne(product: MxProduct, productType: ProductTypes)
    ensures TypeFilter([product], productType) == (if TypeMatches(product, productType) then [product] else [])
  {
  }

  /** A search hit as returned: the product under its bare-product code, converted. */
  function SearchHit(product: MxProduct): (w: WebProduct)
    ensures product.id >= 0 ==> w.id >= 0 && Decode(w.id as nat) == (product.id, 0)
  {
    var code := EncodedId(product);
    ToWebProduct(product.(id := code))
  }

  /** The products whose name is not null and contains the search term (ordinal),
      converted, in order. */
  function Hits(products: seq<MxProduct>, term: string): (r: seq<WebProduct>)
    ensures |r| <= |products|
    ensures forall w :: w in r ==>
      exists p :: p in products && p.name.Some? && Contains(p.name.value, term) && w == SearchHit(p)
    ensures forall p :: p in products && p.name.Some? && Contains(p.name.value, term) ==> SearchHit(p) in r
  {
    if products == [] then []
    else
      assert forall p :: p in products <==> p == products[0] || p in products[1..];
      HitOf(products[0], term) + Hits(products[1..], term)
  }

  /** The hit a single product gives: itself, converted, when its name is not null and
      contains the term, otherwise none. */
  function HitOf(product: MxProduct, term: string): seq<WebProduct> {
    if product.name.Some? && Contains(product.name.value, term) then [SearchHit(product)] else []
  }

  /** The hits keep the listing's order and its repetitions: the search works product
      by product, keeping a product exactly when its name contains the term. */
  lemma {:induction false} HitsAppend(a: seq<MxProduct>, b: seq<MxProduct>, term: string)
    ensures Hits(a + b, term) == Hits(a, term) + Hits(b, term)
  {
    if a == [] {
      assert a + b == b;
    } else {
      assert (a + b)[0] == a[0] && (a + b)[1..] == a[1..] + b;
      HitsAppend(a[1..], b, term);
      assert Hits(a + b, term) == HitOf(a[0], term) + Hits(a[1..] + b, term);
    }
  }

  lemma HitsOne(product: MxProduct, term: string)
    ensures Hits([product], term) ==
      (if product.name.Some? && Contains(product.name.value, term) then [SearchHit(product)] else [])
  {
    assert [product][1..] == [];
  }

  predicate AllNamed(products: seq<MxProduct>) {
    forall i :: 0 <= i < |products| ==> products[i].name.Some?
  }

  /** The products whose name contains the search term (ordinal), converted, in order;
      enumerating them fails at the first product with a null name. */
  function SearchHits(products: seq<MxProduct>, term: string): (r: Result<seq<WebProduct>, Error>)
    ensures r.Failure? <==> exists i :: 0 <= i < |products| && products[i].name.None?
    ensures r.Failure? ==> r.error == NullReference
    ensures r.Success? ==> forall w :: w in r.value ==>
      exists p :: p in products && Contains(p.name.value, term) && w == SearchHit(p)
    ensures r.Success? ==> forall p :: p in products && Contains(p.name.value, term) ==> SearchHit(p) in r.value
  {
    if AllNamed(products) then Success(Hits(products, term)) else Failure(NullReference)
  }

  lemma AllNamedAppend(a: seq<MxProduct>, b: seq<MxProduct>)
    ensures AllNamed(a + b) <==> AllNamed(a) && AllNamed(b)
  {
    if AllNamed(a) && AllNamed(b) {
      forall i | 0 <= i < |a + b| ensures (a + b)[i].name.Some? {
        if i < |a| { assert (a + b)[i] == a[i]; } else { assert (a + b)[i] == b[i - |a|]; }
      }
    }
    if AllNamed(a + b) {
      forall i | 0 <= i < |a| ensures a[i].name.Some? { assert (a + b)[i] == a[i]; }
      forall i | 0 <= i < |b| ensures b[i].name.Some? { assert (a + b)[|a| + i] == b[i]; }
    }
  }

  /** Searching a concatenation: it fails when either part holds a null name, and
      otherwise gives the hits of each part, one after the other. */
  lemma SearchHitsAppend(a: seq<MxProduct>, b: seq<MxProduct>, term: string)
    ensures SearchHits(a + b, term) ==
      (if SearchHits(a, term).Failure? || SearchHits(b, term).Failure? then Failure(NullReference)
       else Success(SearchHits(a, term).value + SearchHits(b, term).value))
  {
    HitsAppend(a, b, term);
    AllNamedAppend(a, b);
  }

  // ------------------------------------------------------------------- order filters

  /** The filter of `GetOrdersByFilters`. `anyStatus` holds when `Other` is among the
      requested statuses; otherwise `statusWords` are the vendor words of the requested
      statuses, compared with the raw status by ordinal equality. */
  datatype OrderCriteria = OrderCriteria(
    startDate: Option<int>,
    endDate: Option<int>,
    excluded: seq<int>,
    anyStatus: bool,
    statusWords: seq<string>)

  function Criteria(startDate: Option<int>, endDate: Option<int>, idsToExclude: Option<seq<int>>,
                    orderStatuses: seq<OrderStatus>): (c: OrderCriteria)
    ensures c.anyStatus <==> Other in orderStatuses
    ensures !c.anyStatus ==> (|c.statusWords| == |orderStatuses| &&
      forall i :: 0 <= i < |orderStatuses| ==> c.statusWords[i] == MapWebOrderStatusToJson(orderStatuses[i]))
    ensures c.excluded == idsToExclude.GetOr([]) && c.startDate == startDate && c.endDate == endDate
  {
    var words := if Other in orderStatuses then []
                 else seq(|orderStatuses|, i requires 0 <= i < |orderStatuses| => MapWebOrderStatusToJson(orderStatuses[i]));
    OrderCriteria(startDate, endDate, idsToExclude.GetOr([]), Other in orderStatuses, words)
  }

  /** The condition of the order loop. A missing start or end date makes the lifted
      comparison false. */
  predicate Selected(order: MxOrderSummary, c: OrderCriteria) {
    order.id !in c.excluded &&
    c.startDate.Some? && order.creationDate >= c.startDate.value &&
    c.endDate.Some? && order.creationDate <= c.endDate.value &&
    (c.anyStatus || (order.status.Some? && order.status.value in c.statusWords))
  }

  /** The ids of the selected orders, in listing order. */
  function SelectedIds(orders: seq<MxOrderSummary>, c: OrderCriteria): (ids: seq<int>)
    ensures |ids| <= |orders|
    ensures forall id :: id in ids ==> exists o :: o in orders && Selected(o, c) && o.id == id
    ensures forall o :: o in orders && Selected(o, c) ==> o.id in ids
  {
    if orders == [] then []
    else
      var init := orders[..|orders| - 1];
      var last := orders[|orders| - 1];
      assert forall o :: o in orders <==> o in init || o == last;
      SelectedIds(init, c) + (if Selected(last, c) then [last.id] else [])
  }

  /** The filter keeps the listing's order and its repetitions: it works order by
      order, keeping an id exactly when its order is selected. */
  lemma {:induction false} SelectedIdsAppend(a: seq<MxOrderSummary>, b: seq<MxOrderSummary>, c: OrderCriteria)
    ensures SelectedIds(a + b, c) == SelectedIds(a, c) + SelectedIds(b, c)
    decreases |b|
  {
    if b == [] {
      assert a + b == a;
    } else {
      assert (a + b)[..|a + b| - 1] == a + b[..|b| - 1];
      SelectedIdsAppend(a, b[..|b| - 1], c);
    }
  }

  lemma SelectedIdsOne(order: MxOrderSummary, c: OrderCriteria)
    ensures SelectedIds([order], c) == (if Selected(order, c) then [order.id] else [])
  {
  }

  /** Without both dates the filter selects nothing, whatever the listing. */
  lemma {:induction false} MissingDateSelectsNothing(orders: seq<MxOrderSummary>, c: OrderCriteria)
    requires c.startDate.None? || c.endDate.None?
    ensures SelectedIds(orders, c) == []
  {
    if orders != [] {
      MissingDateSelectsNothing(orders[..|orders| - 1], c);
    }
  }

  /** The status comparison of the filter is case-sensitive: an order whose raw
      status is "processing" in another letter case (say "Processing") is not selected
      when only `Pending` (sent as "processing") is asked for, although the status
      table reads it as `Pending`. */
  lemma StatusMatchIsCaseSensitive(order: MxOrderSummary)
    requires order.status.Some? && ToLower(order.status.value) == "processing"
    requires order.status.value != "processing"
    ensures MapOrderStatus(order.status) == Pending
    ensures !Selected(order, Criteria(Some(order.creationDate), Some(order.creationDate), None, [Pending]))
  {
    var c := Criteria(Some(order.creationDate), Some(order.creationDate), None, [Pending]);
    assert c.statusWords == ["processing"];
  }

  /** With `Other` among the statuses, any order within the dates that is not excluded
      is selected, whatever its status. */
  lemma OtherSelectsAnyStatus(order: MxOrderSummary, startDate: int, endDate: int, orderStatuses: seq<OrderStatus>)
    requires Other in orderStatuses && startDate <= order.creationDate <= endDate
    ensures Selected(order, Criteria(Some(startDate), Some(endDate), None, orderStatuses))
  {
  }

  /** The ids `GetOrdersBySearch` goes on to fetch: the page's orders minus the excluded
      ids, in order. A failed fetch fails; a null result list fails. */
  function OrdersToFetch(fetched: Result<Option<seq<MxOrderSummary>>, Error>, idsToExclude: Option<seq<int>>)
    : (r: Result<seq<int>, Error>)
    ensures fetched.Failure? ==> r == Failure(fetched.error)
    ensures fetched.Success? && fetched.value.None? ==> r == Failure(NullReference)
    ensures fetched.Success? && fetched.value.Some? ==> r == Success(KeptIds(fetched.value.value, idsToExclude.GetOr([])))
    ensures fetched.Success? && fetched.value.Some? ==> (r.Success? &&
      forall id :: id in r.value <==>
        (exists o :: o in fetched.value.value && o.id == id) && id !in idsToExclude.GetOr([]))
  {
    match fetched
    case Failure(e) => Failure(e)
    case Success(None) => Failure(NullReference)
    case Success(Some(orders)) => Success(KeptIds(orders, idsToExclude.GetOr([])))
  }

  function KeptIds(orders: seq<MxOrderSummary>, excluded: seq<int>): (ids: seq<int>)
    ensures |ids| <= |orders|
    ensures forall id :: id in ids <==> (exists o :: o in orders && o.id == id) && id !in excluded
  {
    if orders == [] then []
    else
      assert forall o :: o in orders <==> o == orders[0] || o in orders[1..];
      (if orders[0].id in excluded then [] else [orders[0].id]) + KeptIds(orders[1..], excluded)
  }

  /** The exclusion keeps the listing's order and its repetitions: it works order by
      order, keeping an id exactly when it is not excluded. */
  lemma {:induction false} KeptIdsAppend(a: seq<MxOrderSummary>, b: seq<MxOrderSummary>, excluded: seq<int>)
    ensures KeptIds(a + b, excluded) == KeptIds(a, excluded) + KeptIds(b, excluded)
  {
    if a == [] {
      assert a + b == b;
    } else {
      assert (a + b)[1..] == a[1..] + b;
      KeptIdsAppend(a[1..], b, excluded);
    }
  }

  lemma KeptIdsOne(order: MxOrderSummary, excluded: seq<int>)
    ensures KeptIds([order], excluded) == (if order.id in excluded then [] else [order.id])
  {
  }

  /** The status filter `GetOrdersBySearch` applies to the fetched orders: none when
      no status or `Other` is requested, otherwise exactly the orders whose status is
      requested, in order. */
  function FilterByStatus(orders: seq<WebOrder>, orderStatuses: Option<seq<OrderStatus>>): (r: seq<WebOrder>)
    ensures orderStatuses.None? || orderStatuses.value == [] || Other in orderStatuses.value ==> r == orders
    ensures orderStatuses.Some? && orderStatuses.value != [] && Other !in orderStatuses.value ==>
      forall o :: o in r <==> o in orders && o.status in orderStatuses.value
    ensures |r| <= |orders|
  {
    if orderStatuses.None? || |orderStatuses.value| == 0 || Other in orderStatuses.value then orders
    else StatusIn(orders, orderStatuses.value)
  }

  function StatusIn(orders: seq<WebOrder>, statuses: seq<OrderStatus>): (r: seq<WebOrder>)
    ensures |r| <= |orders|
    ensures forall o :: o in r <==> o in orders && o.status in statuses
  {
    if orders == [] then []
    else
      assert forall o :: o in orders <==> o == orders[0] || o in orders[1..];
      (if orders[0].status in statuses then [orders[0]] else []) + StatusIn(orders[1..], statuses)
  }

  /** The status filter keeps the listing's order and its repetitions: it works order
      by order, keeping an order exactly when its status is requested. */
  lemma {:induction false} StatusInAppend(a: seq<WebOrder>, b: seq<WebOrder>, statuses: seq<OrderStatus>)
    ensures StatusIn(a + b, statuses) == StatusIn(a, statuses) + StatusIn(b, statuses)
  {
    if a == [] {
      assert a + b == b;
    } else {
      var head := if a[0].status in statuses then [a[0]] else [];
      assert (a + b)[0] == a[0] && (a + b)[1..] == a[1..] + b;
      assert StatusIn(a + b, statuses) == head + StatusIn(a[1..] + b, statuses);
      StatusInAppend(a[1..], b, statuses);
      assert StatusIn(a, statuses) == head + StatusIn(a[1..], statuses);
    }
  }

  lemma StatusInOne(order: WebOrder, statuses: seq<OrderStatus>)
    ensures StatusIn([order], statuses) == (if order.status in statuses then [order] else [])
  {
  }

  /** So does the status filter of `GetOrdersBySearch` as a whole. */
  lemma FilterByStatusAppend(a: seq<WebOrder>, b: seq<WebOrder>, orderStatuses: Option<seq<OrderStatus>>)
    ensures FilterByStatus(a + b, orderStatuses) == FilterByStatus(a, orderStatuses) + FilterByStatus(b, orderStatuses)
  {
    if orderStatuses.Some? {
      StatusInAppend(a, b, orderStatuses.value);
    }
  }

  // --------------------------------------------------------------- max product id

  function MaxOf(xs: seq<int>): (m: int)
    requires |xs| > 0
    ensures m in xs
    ensures forall i :: 0 <= i < |xs| ==> xs[i] <= m
  {
    if |xs| == 1 then xs[0]
    else
      var m := MaxOf(xs[1..]);
      assert forall i :: 1 <= i < |xs| ==> xs[i] == xs[1..][i - 1];
      if xs[0] >= m then xs[0] else m
  }

  function ProductIds(products: seq<MxProduct>): (ids: seq<int>)
    ensures |ids| == |products| && forall i :: 0 <= i < |products| ==> ids[i] == products[i].id
  {
    seq(|products|, i requires 0 <= i < |products| => products[i].id)
  }

  function BareCodes(products: seq<MxProduct>): (codes: seq<int>)
    ensures |codes| == |products| && forall i :: 0 <= i < |products| ==> codes[i] == Encode(products[i].id, 0)
  {
    seq(|products|, i requires 0 <= i < |products| => Encode(products[i].id, 0))
  }

  /** `GetMaxProductId`: the largest bare-product code on the first listing page; a
      failed fetch, a null list and an empty list all fail. */
  function GetMaxProductId(fetched: Result<Option<seq<MxProduct>>, Error>): (r: Result<int, Error>)
    ensures fetched.Failure? ==> r == Failure(fetched.error)
    ensures fetched.Success? && fetched.value.None? ==> r == Failure(NullReference)
    ensures fetched.Success? && fetched.value == Some([]) ==> r == Failure(EmptySequence)
    ensures fetched.Success? && fetched.value.Some? && fetched.value.value != [] ==> (r.Success? &&
      (exists i :: 0 <= i < |fetched.value.value| && r.value == Encode(fetched.value.value[i].id, 0)) &&
      forall i :: 0 <= i < |fetched.value.value| ==> Encode(fetched.value.value[i].id, 0) <= r.value)
  {
    match fetched
    case Failure(e) => Failure(e)
    case Success(None) => Failure(NullReference)
    case Success(Some(products)) =>
      if products == [] then Failure(EmptySequence) else Success(MaxOf(BareCodes(products)))
  }

  /** Under a monotone map, the image of a largest element is the largest image. */
  lemma MaxOfMonotoneImage(xs: seq<int>, ys: seq<int>, k: int)
    requires |xs| == |ys| && 0 <= k < |xs| && xs[k] == MaxOf(xs)
    requires forall i, j :: 0 <= i < |xs| && 0 <= j < |xs| && xs[i] <= xs[j] ==> ys[i] <= ys[j]
    ensures ys[k] == MaxOf(ys)
  {
    var m := MaxOf(ys);
    var j :| 0 <= j < |ys| && ys[j] == m;
    assert xs[j] <= xs[k];
    assert ys[k] <= m;
  }

  /** Bare-product codes grow with the product id, so the largest code is the code of
      the largest id. */
  lemma MaxCodeIsCodeOfMaxId(products: seq<MxProduct>)
    requires products != [] && forall i :: 0 <= i < |products| ==> products[i].id >= 0
    ensures GetMaxProductId(Success(Some(products))) == Success(Encode(MaxOf(ProductIds(products)), 0))
  {
    var ids := ProductIds(products);
    var codes := BareCodes(products);
    forall i, j | 0 <= i < |ids| && 0 <= j < |ids| && ids[i] <= ids[j]
      ensures codes[i] <= codes[j]
    {
      if ids[i] < ids[j] {
        BareProductCodeIncreasing(ids[i], ids[j]);
      }
    }
    var k :| 0 <= k < |ids| && ids[k] == MaxOf(ids);
    MaxOfMonotoneImage(ids, codes, k);
  }
}
