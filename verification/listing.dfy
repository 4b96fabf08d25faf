/** Listing a tenant's subscriptions, page by page, over one fixed order of the collection. */
module Listing {
  import opened Results
  import opened TargetUrl
  import opened Subscription
  import opened UseCases
  import opened Pagination

  datatype Filters = Filters(status: Option<Status>, eventType: Option<string>)

  datatype Query = Query(tenantId: string, status: Option<Status>, subscribedEventTypes: Option<string>)

  predicate Matches(q: Query, r: SubscriptionRecord) {
    && r.tenantId == q.tenantId
    && (q.status.Some? ==> r.status == q.status.value)
    && (q.subscribedEventTypes.Some? ==> q.subscribedEventTypes.value in r.subscribedEventTypes)
  }

  /** The records of the snapshot that match, in its order. */
  function Select(snapshot: seq<SubscriptionRecord>, q: Query): seq<SubscriptionRecord> {
    if snapshot == [] then []
    else Select(snapshot[..|snapshot| - 1], q)
         + (if Matches(q, snapshot[|snapshot| - 1]) then [snapshot[|snapshot| - 1]] else [])
  }

  datatype PaginatedResult = PaginatedResult(items: seq<Aggregate>, page: nat, pageSize: nat, total: nat)

  predicate Readable(parse: UrlParser, records: seq<SubscriptionRecord>) {
    forall i | 0 <= i < |records| :: ToAggregate(parse, records[i]).Ok?
  }

  function Restored(parse: UrlParser, records: seq<SubscriptionRecord>): seq<Aggregate>
    requires Readable(parse, records)
  {
    seq(|records|, i requires 0 <= i < |records| => ToAggregate(parse, records[i]).value)
  }

  lemma RestoredMore(parse: UrlParser, records: seq<SubscriptionRecord>, i: nat)
    requires i < |records| && Readable(parse, records[..i]) && ToAggregate(parse, records[i]).Ok?
    ensures Readable(parse, records[..i + 1])
    ensures Restored(parse, records[..i + 1]) == Restored(parse, records[..i]) + [ToAggregate(parse, records[i]).value]
  {
    assert records[..i + 1] == records[..i] + [records[i]];
  }

  function QueryFor(tenantId: string, filters: Filters): Query {
    Query(tenantId, filters.status, filters.eventType)
  }

  /** The page of matching records, restored, with the number of all matching records; one record on the
      page that cannot be restored fails the whole page. */
  method List(parse: UrlParser, snapshot: seq<SubscriptionRecord>, tenantId: string, filters: Filters,
              page: nat, pageSize: nat)
    returns (result: Result<PaginatedResult, DomainError>)
    requires page >= 1
    ensures var matching := Select(snapshot, QueryFor(tenantId, filters));
            var records := Page(matching, page, pageSize);
            && (result.Ok? <==> Readable(parse, records))
            && (result.Ok? ==> result.value == PaginatedResult(Restored(parse, records), page, pageSize, |matching|))
  {
    var query := Query(tenantId, None, None);
    if filters.status.Some? {
      query := query.(status := filters.status);
    }
    if filters.eventType.Some? {
      query := query.(subscribedEventTypes := filters.eventType);
    }
    var matching := Select(snapshot, query);
    var records := SkipLimit(matching, (page - 1) * pageSize, pageSize);
    var items := [];
    for i := 0 to |records|
      invariant Readable(parse, records[..i]) && items == Restored(parse, records[..i])
    {
      var restored := ToAggregate(parse, records[i]);
      if restored.Err? {
        return Err(restored.error);
      }
      RestoredMore(parse, records, i);
      items := items + [restored.value];
    }
    assert records[..|records|] == records;
    return Ok(PaginatedResult(items, page, pageSize, |matching|));
  }

  /** The in-memory repository's filter callback. */
  predicate Keeps(r: SubscriptionRecord, tenantId: string, filters: Filters) {
    if r.tenantId != tenantId then false
    else if filters.status.Some? && r.status != filters.status.value then false
    else if filters.eventType.Some?
            && !(exists i | 0 <= i < |r.subscribedEventTypes| :: r.subscribedEventTypes[i] == filters.eventType.value)
    then false
    else true
  }

  method FilterAndSlice(stored: seq<SubscriptionRecord>, tenantId: string, filters: Filters, page: nat, pageSize: nat)
    returns (items: seq<SubscriptionRecord>, total: nat)
    requires page >= 1
    ensures pageSize >= 1 ==> items == Page(Select(stored, QueryFor(tenantId, filters)), page, pageSize)
    ensures pageSize == 0 ==> items == []
    ensures total == |Select(stored, QueryFor(tenantId, filters))|
  {
    var all := [];
    for i := 0 to |stored|
      invariant all == Select(stored[..i], QueryFor(tenantId, filters))
    {
      if Keeps(stored[i], tenantId, filters) {
        all := all + [stored[i]];
      }
      assert stored[..i + 1][..i] == stored[..i];
    }
    assert stored[..|stored|] == stored;
    var start := (page - 1) * pageSize;
    SkipLimitIsSlice(all, start, pageSize);
    items, total := Slice(all, start, start + pageSize), |all|;
  }

  /** Exactly the matching records are selected, each as often as it is stored. */
  lemma {:induction false} SelectCounts(snapshot: seq<SubscriptionRecord>, q: Query, r: SubscriptionRecord)
    ensures multiset(Select(snapshot, q))[r] == if Matches(q, r) then multiset(snapshot)[r] else 0
  {
    if snapshot != [] {
      var front, last := snapshot[..|snapshot| - 1], snapshot[|snapshot| - 1];
      SelectCounts(front, q, r);
      assert snapshot == front + [last];
    }
  }

  /** The selection keeps the order of the snapshot: selecting is compatible with cutting it in two. */
  lemma {:induction false} SelectConcat(a: seq<SubscriptionRecord>, b: seq<SubscriptionRecord>, q: Query)
    ensures Select(a + b, q) == Select(a, q) + Select(b, q)
    decreases |b|
  {
    if b == [] {
      assert a + b == a;
    } else {
      var front := b[..|b| - 1];
      SelectConcat(a, front, q);
      assert (a + b)[..|a + b| - 1] == a + front;
    }
  }

  lemma {:induction false} SelectedMatches(snapshot: seq<SubscriptionRecord>, q: Query, i: nat)
    requires i < |Select(snapshot, q)|
    ensures Matches(q, Select(snapshot, q)[i])
    decreases |snapshot|
  {
    var front := snapshot[..|snapshot| - 1];
    if i < |Select(front, q)| {
      SelectedMatches(front, q, i);
    }
  }

  lemma {:induction false} SelectedIsStored(snapshot: seq<SubscriptionRecord>, q: Query, r: SubscriptionRecord)
    requires r in Select(snapshot, q)
    ensures r in snapshot
  {
    SelectCounts(snapshot, q, r);
    assert r in multiset(Select(snapshot, q));
    assert multiset(snapshot)[r] > 0;
  }

  lemma StretchElement(items: seq<SubscriptionRecord>, skip: nat, limit: nat, i: nat)
    requires i < |SkipLimit(items, skip, limit)|
    ensures skip + i < |items| && SkipLimit(items, skip, limit)[i] == items[skip + i]
  {
  }

  /** No page shows a record of another tenant, or one the filters exclude. */
  lemma {:induction false} PageMatches(snapshot: seq<SubscriptionRecord>, tenantId: string, filters: Filters,
                                       page: nat, pageSize: nat, i: nat)
    requires page >= 1 && i < |Page(Select(snapshot, QueryFor(tenantId, filters)), page, pageSize)|
    ensures var r := Page(Select(snapshot, QueryFor(tenantId, filters)), page, pageSize)[i];
            && r in snapshot && r.tenantId == tenantId
            && (filters.status.Some? ==> r.status == filters.status.value)
            && (filters.eventType.Some? ==> filters.eventType.value in r.subscribedEventTypes)
  {
    var q := QueryFor(tenantId, filters);
    var matching, skip := Select(snapshot, q), (page - 1) * pageSize;
    StretchElement(matching, skip, pageSize, i);
    SelectedMatches(snapshot, q, skip + i);
    SelectedIsStored(snapshot, q, matching[skip + i]);
  }

  /** All pages of a query together hold each matching record of the snapshot exactly as often as it is
      stored, and nothing else. */
  lemma PagesListTheTenant(snapshot: seq<SubscriptionRecord>, tenantId: string, filters: Filters, pageSize: nat,
                           r: SubscriptionRecord)
    requires pageSize >= 1
    ensures var matching := Select(snapshot, QueryFor(tenantId, filters));
            multiset(FirstPages(matching, PageCount(|matching|, pageSize), pageSize))[r]
            == if && r.tenantId == tenantId && (filters.status.None? || filters.status == Some(r.status))
                  && (filters.eventType.None? || filters.eventType.value in r.subscribedEventTypes)
               then multiset(snapshot)[r] else 0
  {
    PagesPartition(Select(snapshot, QueryFor(tenantId, filters)), pageSize);
    SelectCounts(snapshot, QueryFor(tenantId, filters), r);
  }
}
