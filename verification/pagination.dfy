/** Page parameters and the page arithmetic of subscription lists. */
module Pagination {
  import opened Results
  import opened Text

  const DEFAULT_PAGE: nat := 1
  const DEFAULT_PAGE_SIZE: nat := 20

  datatype BadRequest = NotAPositiveInteger

  /** Ok(None) when the parameter is absent, an error unless it is digits worth at least one. */
  function ParsePositiveInt(value: Option<string>): Result<Option<nat>, BadRequest> {
    if value.None? then Ok(None)
    else if value.value == "" || !AllDigits(value.value) || Decimal(value.value) < 1 then Err(NotAPositiveInteger)
    else Ok(Some(Decimal(value.value)))
  }

  function OrDefault(parsed: Option<nat>, default: nat): nat {
    if parsed.Some? then parsed.value else default
  }

  datatype ResolvedPagination = ResolvedPagination(page: nat, pageSize: nat)

  /** The request as the interceptor sees it: two query parameters, and the field it fills in. */
  class ListRequest {
    const page: Option<string>
    const pageSize: Option<string>
    var pagination: Option<ResolvedPagination>

    constructor (page: Option<string>, pageSize: Option<string>)
      ensures this.page == page && this.pageSize == pageSize && pagination == None
    {
      this.page, this.pageSize, pagination := page, pageSize, None;
    }
  }

  class PaginationInterceptor {
    constructor () {}

    /** Whatever it lets through has page and page size of at least one; nothing is attached otherwise. */
    method Intercept(request: ListRequest) returns (result: Result<(), BadRequest>)
      modifies request
      ensures result.Ok? <==> Acceptable(request.page) && Acceptable(request.pageSize)
      ensures result.Err? ==> request.pagination == old(request.pagination)
      ensures result.Ok? ==>
                && request.pagination.Some?
                && var p := request.pagination.value;
                && p.page >= 1 && p.pageSize >= 1
                && p.page == (if request.page.Some? then Decimal(request.page.value) else 1)
                && p.pageSize == (if request.pageSize.Some? then Decimal(request.pageSize.value) else 20)
    {
      var page := ParsePositiveInt(request.page);
      if page.Err? { return Err(page.error); }
      var pageSize := ParsePositiveInt(request.pageSize);
      if pageSize.Err? { return Err(pageSize.error); }
      request.pagination := Some(ResolvedPagination(OrDefault(page.value, DEFAULT_PAGE),
                                                    OrDefault(pageSize.value, DEFAULT_PAGE_SIZE)));
      return Ok(());
    }
  }

  /** Absent, or a decimal numeral of at least one. */
  predicate Acceptable(value: Option<string>) {
    value.Some? ==> value.value != "" && AllDigits(value.value) && Decimal(value.value) >= 1
  }

  /** A decimal numeral is read back as its number. */
  lemma NumeralsAreAccepted(n: nat)
    ensures ParsePositiveInt(Some(DecimalText(n))) == if n >= 1 then Ok(Some(n)) else Err(NotAPositiveInteger)
  {
    DecimalRoundTrip(n);
  }

  function Min(a: nat, b: nat): nat {
    if a < b then a else b
  }

  /** `find(query).skip(n).limit(m)` over a fixed order; a limit of 0 is no limit. */
  function SkipLimit<T>(items: seq<T>, skip: nat, limit: nat): seq<T> {
    var rest := if skip <= |items| then items[skip..] else [];
    if 0 < limit <= |rest| then rest[..limit] else rest
  }

  /** `items.slice(start, end)` for non-negative bounds. */
  function Slice<T>(items: seq<T>, start: nat, end: nat): seq<T> {
    if Min(start, |items|) <= Min(end, |items|) then items[Min(start, |items|)..Min(end, |items|)] else []
  }

  function Page<T>(items: seq<T>, page: nat, size: nat): seq<T>
    requires page >= 1
  {
    SkipLimit(items, (page - 1) * size, size)
  }

  /** The two agree exactly when there is a limit, or nothing left to limit. */
  lemma SkipLimitIsSlice<T>(items: seq<T>, skip: nat, limit: nat)
    ensures SkipLimit(items, skip, limit) == Slice(items, skip, skip + limit) <==> limit >= 1 || skip >= |items|
  {
    if limit == 0 && skip < |items| {
      assert |SkipLimit(items, skip, 0)| > 0;
    }
  }

  /** Pages 1..n one after another. */
  function FirstPages<T>(items: seq<T>, n: nat, size: nat): seq<T> {
    if n == 0 then [] else FirstPages(items, n - 1, size) + Page(items, n, size)
  }

  function PageCount(total: nat, size: nat): nat
    requires size >= 1
  {
    (total + size - 1) / size
  }

  lemma {:induction false} FirstPagesArePrefix<T>(items: seq<T>, n: nat, size: nat)
    requires size >= 1
    ensures FirstPages(items, n, size) == items[..Min(n * size, |items|)]
  {
    if n > 0 {
      FirstPagesArePrefix(items, n - 1, size);
      assert n * size == (n - 1) * size + size;
      PageIsStretch(items, (n - 1) * size, size);
    }
  }

  lemma PageIsStretch<T>(items: seq<T>, start: nat, size: nat)
    requires size >= 1
    ensures SkipLimit(items, start, size) == items[Min(start, |items|)..Min(start + size, |items|)]
  {
  }

  lemma PageCountBounds(total: nat, size: nat)
    requires size >= 1
    ensures PageCount(total, size) * size >= total
    ensures total > 0 ==> (PageCount(total, size) - 1) * size < total
  {
    var q, r := (total + size - 1) / size, (total + size - 1) % size;
    assert total + size - 1 == q * size + r;
    assert (q - 1) * size == q * size - size;
  }

  lemma Monotone(a: nat, b: nat, size: nat)
    requires a <= b
    ensures a * size <= b * size
  {
  }

  lemma FullPage<T>(items: seq<T>, k: nat, size: nat)
    requires size >= 1 && 1 <= k < PageCount(|items|, size)
    ensures |Page(items, k, size)| == size
  {
    PageCountBounds(|items|, size);
    Monotone(k, PageCount(|items|, size) - 1, size);
    PageIsStretch(items, (k - 1) * size, size);
    assert (k - 1) * size + size == k * size;
  }

  lemma LastPage<T>(items: seq<T>, size: nat)
    requires size >= 1 && items != []
    ensures PageCount(|items|, size) >= 1 && 1 <= |Page(items, PageCount(|items|, size), size)| <= size
  {
    PageCountBounds(|items|, size);
    PageIsStretch(items, (PageCount(|items|, size) - 1) * size, size);
  }

  lemma EmptyPage<T>(items: seq<T>, k: nat, size: nat)
    requires size >= 1 && k > PageCount(|items|, size)
    ensures Page(items, k, size) == []
  {
    PageCountBounds(|items|, size);
    Monotone(PageCount(|items|, size), k - 1, size);
    PageIsStretch(items, (k - 1) * size, size);
  }

  /** Pages 1..ceil(total / size) together are the list, each element once and in order; all but the last
      are full, the last is not empty, and every later page is. */
  lemma PagesPartition<T>(items: seq<T>, size: nat)
    requires size >= 1
    ensures var n := PageCount(|items|, size);
            && FirstPages(items, n, size) == items
            && (forall k: nat | 1 <= k < n :: |Page(items, k, size)| == size)
            && (items != [] ==> n >= 1 && 1 <= |Page(items, n, size)| <= size)
            && (forall k: nat | k > n :: Page(items, k, size) == [])
  {
    var n := PageCount(|items|, size);
    PageCountBounds(|items|, size);
    FirstPagesArePrefix(items, n, size);
    forall k: nat | 1 <= k < n ensures |Page(items, k, size)| == size {
      FullPage(items, k, size);
    }
    forall k: nat | k > n ensures Page(items, k, size) == [] {
      EmptyPage(items, k, size);
    }
    if items != [] {
      LastPage(items, size);
    }
  }
}
