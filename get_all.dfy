/**
 * `GET /customers?limit=&pageNo=`: counts the customers table, replays
 * `limit`-sized scans from the start of the table up to page `pageNo`,
 * attaches to every customer of that page its address rows, and answers with
 * the page and its pagination metadata.
 */
module GetAllHandler {
  import opened Values
  import opened Store
  import opened Http

  /** A scan cursor: `LastEvaluatedKey` of one scan, `ExclusiveStartKey` of the next. */
  type Key = Attrs

  /** The `Select: "COUNT"` scan: its `Count`, which may be absent, or a store error. */
  datatype CountScan = Counted(count: Option<nat>) | CountFailed

  /** One `Limit`-bounded scan of the customers table: its items and cursor, or a store error. */
  datatype PageScan = PageOk(items: seq<Attrs>, lastKey: Option<Key>) | PageFailed

  /**
   * The customers table as successive scans see it: the page a scan with
   * `Limit: limit` and `ExclusiveStartKey: start` returns.
   */
  type Scanner = (int, Option<Key>) -> PageScan

  /**
   * The `limit` and `pageNo` query parameters after `parseInt`; None when the
   * parameter is absent or empty, so that the `||` default applies.
   */
  datatype Query = Query(limit: Option<int>, pageNo: Option<int>)

  const BadPaging := Response(400, Message("limit and pageNo must be positive integers"))
  const EmptyPageMessage := "No records found for the requested page"
  const PageMessage := "Customers fetched successfully"

  /** `totalCountResult.Count ?? 0`. */
  function TotalCount(c: CountScan): (total: nat)
    requires c.Counted?
    ensures c.count.Some? ==> total == c.count.value
    ensures c.count.None? ==> total == 0
  {
    if c.count.Some? then c.count.value else 0
  }

  /**
   * The validated `(limit, pageNo)`: `limit` defaults to the total count and
   * `pageNo` to 1; None when either is not positive.
   */
  function Paging(total: nat, q: Query): (r: Option<(int, int)>)
    ensures r.Some? ==> r.value.0 > 0 && r.value.1 > 0
    ensures r.Some? <==> (q.limit.None? ==> total > 0) && (q.limit.Some? ==> q.limit.value > 0)
                         && (q.pageNo.Some? ==> q.pageNo.value > 0)
    ensures r.Some? ==> r.value.0 == (if q.limit.Some? then q.limit.value else total)
    ensures r.Some? ==> r.value.1 == (if q.pageNo.Some? then q.pageNo.value else 1)
  {
    var limit := if q.limit.Some? then q.limit.value else total;
    var pageNo := if q.pageNo.Some? then q.pageNo.value else 1;
    if limit <= 0 || pageNo <= 0 then None else Some((limit, pageNo))
  }

  /** Without a `limit` parameter an empty customers table is rejected as a bad request. */
  lemma EmptyTableWithoutLimitRejected(q: Query)
    requires q.limit.None?
    ensures Paging(0, q) == None
  {
  }

  /** `Math.ceil(totalCount / limit)`. */
  function TotalPages(total: nat, limit: int): (pages: nat)
    requires limit > 0
    ensures total <= pages * limit
    ensures pages == 0 || (pages - 1) * limit < total
  {
    var q := (total + limit - 1) / limit;
    assert q * limit <= total + limit - 1 < (q + 1) * limit;
    q
  }

  /** A scan that completed and handed back a cursor to continue from. */
  predicate Continues(p: PageScan)
  {
    p.PageOk? && p.lastKey.Some?
  }

  /**
   * The start keys of the scans a walk to page `pageNo` issued, in order: at
   * least one and at most `pageNo` scans, the first from the start of the
   * table, each later one from the cursor the one before returned, and
   * fewer than `pageNo` only when the last scan gave no cursor or failed.
   */
  predicate WalkTrace(scan: Scanner, limit: int, pageNo: int, issued: seq<Option<Key>>)
  {
    && 1 <= |issued| <= pageNo
    && issued[0] == None
    && (forall i :: 0 <= i < |issued| - 1 ==>
          Continues(scan(limit, issued[i])) && issued[i + 1] == scan(limit, issued[i]).lastKey)
    && (|issued| < pageNo ==> !Continues(scan(limit, issued[|issued| - 1])))
  }

  /** What a walk keeps: the items of page `pageNo` if it reached it, else nothing. */
  function Kept(last: PageScan, reached: bool): Outcome<seq<Attrs>>
  {
    match last
    case PageFailed => Failed
    case PageOk(items, _) => Ok(if reached then items else [])
  }

  /**
   * The paginated scan simulation: walks the pages of the customers table,
   * threading `LastEvaluatedKey` into the next scan, and keeps page `pageNo`.
   */
  method WalkPages(scan: Scanner, limit: int, pageNo: int) returns (kept: Outcome<seq<Attrs>>, issued: seq<Option<Key>>)
    requires limit > 0 && pageNo > 0
    ensures WalkTrace(scan, limit, pageNo, issued)
    ensures kept == Kept(scan(limit, issued[|issued| - 1]), |issued| == pageNo)
  {
    var scannedItems: seq<Attrs> := [];
    var lastEvaluatedKey: Option<Key> := None;
    var currentPage := 1;
    issued := [];
    while currentPage <= pageNo
      invariant 1 <= currentPage <= pageNo + 1
      invariant |issued| == currentPage - 1
      invariant issued == [] ==> lastEvaluatedKey == None
      invariant issued != [] ==> issued[0] == None
      invariant forall i :: 0 <= i < |issued| ==>
                  Continues(scan(limit, issued[i]))
                  && (i + 1 < |issued| ==> issued[i + 1] == scan(limit, issued[i]).lastKey)
      invariant issued != [] ==> lastEvaluatedKey == scan(limit, issued[|issued| - 1]).lastKey
      invariant currentPage <= pageNo ==> scannedItems == []
      invariant currentPage > pageNo ==> scannedItems == scan(limit, issued[|issued| - 1]).items
    {
      issued := issued + [lastEvaluatedKey];
      var pageResult := scan(limit, lastEvaluatedKey);
      if pageResult.PageFailed? {
        kept := Failed;
        return;
      }
      lastEvaluatedKey := pageResult.lastKey;
      if currentPage == pageNo {
        scannedItems := pageResult.items;
      }
      if lastEvaluatedKey.None? {
        break;
      }
      currentPage := currentPage + 1;
    }
    kept := Ok(scannedItems);
  }

  /**
   * Walks to different pages replay the same scans from the start: two walk
   * traces over one table agree wherever both are defined.
   */
  lemma {:induction false} WalksAgree(scan: Scanner, limit: int, p: int, q: int,
                                      s: seq<Option<Key>>, t: seq<Option<Key>>, i: nat)
    requires WalkTrace(scan, limit, p, s) && WalkTrace(scan, limit, q, t)
    requires i < |s| && i < |t|
    ensures s[i] == t[i]
  {
    if i > 0 {
      WalksAgree(scan, limit, p, q, s, t, i - 1);
      assert s[i] == scan(limit, s[i - 1]).lastKey;
    }
  }

  /** The string `customerId` of a scanned customer, as `{ S: customer.customerId }` needs it. */
  function IdOf(c: Attrs): Option<string>
  {
    if "customerId" in c && c["customerId"].Str? then Some(c["customerId"].s) else None
  }

  /** `{ ...customer, addresses }`. */
  function WithAddresses(c: Attrs, rows: seq<Attrs>): Attrs
  {
    c["addresses" := Arr(seq(|rows|, i requires 0 <= i < |rows| => Obj(rows[i])))]
  }

  /** The address scan for `c` can be issued (its id is a string) and the store answers it. */
  predicate FanOutSucceeds(c: Attrs, store: AddressStore)
  {
    IdOf(c).Some? && IdOf(c).value !in store.failing
  }

  /**
   * The address fan-out: one filter-scan per kept customer, joined all or
   * nothing, each customer extended with exactly its own address rows.
   */
  function AttachAddresses(kept: seq<Attrs>, store: AddressStore): (r: Outcome<seq<Attrs>>)
    ensures r.Ok? <==> forall i :: 0 <= i < |kept| ==> FanOutSucceeds(kept[i], store)
    ensures r.Ok? ==> |r.value| == |kept|
    ensures r.Ok? ==> forall i :: 0 <= i < |kept| ==>
              r.value[i] == WithAddresses(kept[i], AddressesOf(store.rows, IdOf(kept[i]).value))
  {
    if kept == [] then Ok([])
    else
      var c := kept[0];
      var own := if IdOf(c).Some? then ScanAddresses(store, IdOf(c).value) else Failed;
      var rest := AttachAddresses(kept[1..], store);
      if own.Ok? && rest.Ok? then Ok([WithAddresses(c, own.value)] + rest.value)
      else
        Failed
  }

  /**
   * The response once the walk is done: 500 when the walk or the fan-out
   * failed, 404 with empty data for an empty page, 200 with the merged page
   * otherwise; 404 and 200 carry the same pagination metadata.
   */
  function PageResponse(kept: Outcome<seq<Attrs>>, store: AddressStore, pageNo: int, limit: int, total: nat)
    : (resp: Response)
    requires limit > 0
    ensures resp.statusCode in {200, 404, 500}
    ensures resp.statusCode == 500 <==> kept.Failed? || AttachAddresses(kept.value, store).Failed?
    ensures resp.statusCode == 500 ==> resp == InternalServerError
    ensures resp.statusCode == 404 <==> kept == Ok([])
    ensures resp.statusCode != 500 ==>
              && resp.body.Page?
              && resp.body.pageNo == pageNo && resp.body.limit == limit
              && resp.body.totalCount == total && resp.body.totalPages == TotalPages(total, limit)
    ensures resp.statusCode == 404 ==> resp.body.message == EmptyPageMessage && resp.body.data == []
    ensures resp.statusCode == 200 ==>
              && resp.body.message == PageMessage
              && |resp.body.data| == |kept.value| > 0
              && forall i :: 0 <= i < |kept.value| ==>
                   resp.body.data[i] == WithAddresses(kept.value[i], AddressesOf(store.rows, IdOf(kept.value[i]).value))
  {
    match kept
    case Failed => InternalServerError
    case Ok(items) =>
      match AttachAddresses(items, store)
      case Failed => InternalServerError
      case Ok(data) =>
        var totalPages := TotalPages(total, limit);
        if |data| == 0 then Response(404, Page(EmptyPageMessage, [], pageNo, limit, total, totalPages))
        else Response(200, Page(PageMessage, data, pageNo, limit, total, totalPages))
  }

  /**
   * The handler. Besides the response it returns the start keys of the page
   * scans it issued, in order.
   */
  method ListCustomers(count: CountScan, query: Query, scan: Scanner, addresses: AddressStore)
    returns (resp: Response, issued: seq<Option<Key>>)
    ensures count.CountFailed? ==> resp == InternalServerError && issued == []
    ensures count.Counted? && Paging(TotalCount(count), query).None? ==> resp == BadPaging && issued == []
    ensures count.Counted? && Paging(TotalCount(count), query).Some? ==>
              var (limit, pageNo) := Paging(TotalCount(count), query).value;
              && WalkTrace(scan, limit, pageNo, issued)
              && resp == PageResponse(Kept(scan(limit, issued[|issued| - 1]), |issued| == pageNo),
                                      addresses, pageNo, limit, TotalCount(count))
  {
    if count.CountFailed? {
      return InternalServerError, [];
    }
    var totalCount := TotalCount(count);
    var paging := Paging(totalCount, query);
    if paging.None? {
      return BadPaging, [];
    }
    var (limit, pageNo) := paging.value;
    var kept;
    kept, issued := WalkPages(scan, limit, pageNo);
    resp := PageResponse(kept, addresses, pageNo, limit, totalCount);
  }
}
