/**
 * `GET /customers/{customerId}`: looks the customer up by key, filter-scans
 * the addresses table for its rows and answers with the merged record. It
 * writes nothing.
 */
module GetHandler {
  import opened Values
  import opened Store
  import opened Http

  const NotFound := Response(404, Message("Customer not found"))

  /**
   * `item.key.S`: reading a sub-field of a missing attribute throws; an
   * attribute of another type has no `S` and gives `undefined` (None).
   */
  function StringAttr(item: Attrs, key: string): (r: Outcome<Option<string>>)
    ensures r.Failed? <==> key !in item
    ensures r.Ok? && r.value.Some? <==> key in item && item[key].Str?
    ensures r.Ok? && r.value.Some? ==> item[key] == Str(r.value.value)
  {
    if key !in item then Failed
    else if item[key].Str? then Ok(Some(item[key].s))
    else Ok(None)
  }

  /** `Number(item.key.N)`: a missing attribute throws; a non-number gives NaN (None). */
  function NumberAttr(item: Attrs, key: string): (r: Outcome<Option<int>>)
    ensures r.Failed? <==> key !in item
    ensures r.Ok? && r.value.Some? <==> key in item && item[key].Num?
    ensures r.Ok? && r.value.Some? ==> item[key] == Num(r.value.value)
  {
    if key !in item then Failed
    else if item[key].Num? then Ok(Some(item[key].n))
    else Ok(None)
  }

  /** The response record built from the stored item and its address rows. */
  function View(item: Attrs, addresses: seq<Attrs>): (r: Outcome<CustomerRecord>)
    ensures r.Ok? <==> {"customerId", "name", "age", "mobileNumber"} <= item.Keys
    ensures r.Ok? ==>
              && r.value.addresses == addresses
              && (r.value.customerId.Some? <==> item["customerId"].Str?)
              && (r.value.customerId.Some? ==> item["customerId"] == Str(r.value.customerId.value))
              && (r.value.name.Some? <==> item["name"].Str?)
              && (r.value.name.Some? ==> item["name"] == Str(r.value.name.value))
              && (r.value.age.Some? <==> item["age"].Num?)
              && (r.value.age.Some? ==> item["age"] == Num(r.value.age.value))
              && (r.value.mobileNumber.Some? <==> item["mobileNumber"].Str?)
              && (r.value.mobileNumber.Some? ==> item["mobileNumber"] == Str(r.value.mobileNumber.value))
  {
    var customerId := StringAttr(item, "customerId");
    var name := StringAttr(item, "name");
    var age := NumberAttr(item, "age");
    var mobileNumber := StringAttr(item, "mobileNumber");
    if customerId.Failed? || name.Failed? || age.Failed? || mobileNumber.Failed? then Failed
    else Ok(CustomerRecord(customerId.value, name.value, age.value, mobileNumber.value, addresses))
  }

  /**
   * The handler over the customers table `customers` (read with `GetItem`,
   * which the store rejects when `getFails`) and the addresses table.
   */
  function GetCustomer(pathId: Option<string>, customers: map<string, Attrs>, getFails: bool,
                       addresses: AddressStore): (resp: Response)
    ensures resp.statusCode in {200, 400, 404, 500}
    ensures resp.statusCode == 400 <==> !PresentParam(pathId)
    ensures resp.statusCode == 400 ==> resp == MissingPathId
    ensures resp.statusCode == 404 <==> PresentParam(pathId) && !getFails && pathId.value !in customers
    ensures resp.statusCode == 404 ==> resp == NotFound
    ensures resp.statusCode == 500 ==> resp == InternalServerError
    ensures resp.statusCode == 200 <==>
              && PresentParam(pathId) && !getFails && pathId.value in customers
              && pathId.value !in addresses.failing
              && {"customerId", "name", "age", "mobileNumber"} <= customers[pathId.value].Keys
    ensures resp.statusCode == 200 ==>
              var item := customers[pathId.value];
              && resp.body.Customer?
              && resp.body.record.addresses == AddressesOf(addresses.rows, pathId.value)
              && (resp.body.record.name.Some? <==> item["name"].Str?)
              && (resp.body.record.name.Some? ==> item["name"] == Str(resp.body.record.name.value))
              && (resp.body.record.age.Some? <==> item["age"].Num?)
              && (resp.body.record.age.Some? ==> item["age"] == Num(resp.body.record.age.value))
              && (resp.body.record.mobileNumber.Some? <==> item["mobileNumber"].Str?)
              && (resp.body.record.mobileNumber.Some? ==>
                    item["mobileNumber"] == Str(resp.body.record.mobileNumber.value))
  {
    if !PresentParam(pathId) then MissingPathId
    else if getFails then InternalServerError
    else if pathId.value !in customers then NotFound
    else
      var customerId := pathId.value;
      match ScanAddresses(addresses, customerId)
      case Failed => InternalServerError
      case Ok(rows) =>
        match View(customers[customerId], rows)
        case Failed => InternalServerError
        case Ok(record) => Response(200, Customer(record))
  }

  /**
   * On a table that keeps its key schema, the `customerId` the handler
   * reports is the one it was asked for.
   */
  lemma ReportsRequestedId(pathId: Option<string>, customers: map<string, Attrs>, getFails: bool,
                           addresses: AddressStore)
    requires Keyed(customers)
    requires GetCustomer(pathId, customers, getFails, addresses).statusCode == 200
    ensures GetCustomer(pathId, customers, getFails, addresses).body.record.customerId == pathId
  {
  }
}
