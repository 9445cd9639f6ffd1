/**
 * `POST /customers`: checks five required fields, builds an item with a
 * nested `address` record under a freshly generated id and stores it.
 */
module CreateHandler {
  import opened Values
  import opened Store
  import opened Http

  /** The fields `create` refuses to go without; the last three form the address. */
  const Required: seq<string> := ["name", "mobile", "city", "area", "zipcode"]
  const AddressFields: seq<string> := ["city", "area", "zipcode"]

  const MissingRequired := Response(400, Message("Missing required fields"))

  /** `data.name && data.mobile && data.city && data.area && data.zipcode` for a non-null `data`. */
  function HasRequiredFields(data: Value): (ok: bool)
    ensures ok <==> Truthy(Member(data, "name")) && Truthy(Member(data, "mobile"))
                    && Truthy(Member(data, "city")) && Truthy(Member(data, "area"))
                    && Truthy(Member(data, "zipcode"))
  {
    forall f :: f in Required ==> Truthy(Member(data, f))
  }

  /**
   * The stored item: id, `name` and `mobile` at the top level, the three
   * address fields nested under `address`, and the creation timestamp.
   */
  function NewItem(id: string, data: Value, createdDate: string): (item: Attrs)
    requires HasRequiredFields(data)
    ensures item.Keys == {"customerId", "name", "mobile", "address", "createdDate"}
    ensures item["customerId"] == Str(id)
    ensures item["createdDate"] == Str(createdDate)
    ensures item["address"].Obj? && item["address"].fields.Keys == {"city", "area", "zipcode"}
  {
    assert forall i :: 0 <= i < |Required| ==> Truthy(Member(data, Required[i]));
    map["customerId" := Str(id),
        "name" := Member(data, "name").value,
        "mobile" := Member(data, "mobile").value,
        "address" := Obj(map["city" := Member(data, "city").value,
                             "area" := Member(data, "area").value,
                             "zipcode" := Member(data, "zipcode").value]),
        "createdDate" := Str(createdDate)]
  }

  /** Where a required field lives in the stored item: top level, or under `address`. */
  function ReadBack(item: Attrs, f: string): Option<Value>
  {
    if f in AddressFields then
      (if "address" in item then Member(item["address"], f) else None)
    else if f in item then Some(item[f])
    else None
  }

  /**
   * Storing keeps every required field: reading it back from the new item
   * gives the body's value, so the stored item passes the same check.
   */
  lemma StoredFieldsReadBack(id: string, data: Value, createdDate: string)
    requires HasRequiredFields(data)
    ensures forall f :: f in Required ==> ReadBack(NewItem(id, data, createdDate), f) == Member(data, f)
    ensures forall f :: f in Required ==> Truthy(ReadBack(NewItem(id, data, createdDate), f))
  {
  }

  /** An absent body parses to `{}`, which lacks every required field. */
  lemma AbsentBodyIsRejected()
    ensures ParseBody(Absent).Ok? && !HasRequiredFields(ParseBody(Absent).value)
  {
    assert Required[0] in Required && !Truthy(Member(Obj(map[]), Required[0]));
  }

  /**
   * The handler. `newId` stands for `uuidv4()` and `now` for the ISO
   * timestamp; the `PutCommand` is rejected by the store when `putFails`.
   */
  method HandleCreate(table: Table, body: RequestBody, newId: string, now: string, putFails: bool)
    returns (resp: Response)
    requires table.Valid()
    modifies table
    ensures table.Valid()
    ensures resp.statusCode in {201, 400, 500}
    ensures resp.statusCode == 400 <==>
              ParseBody(body).Ok? && !ParseBody(body).value.Null? && !HasRequiredFields(ParseBody(body).value)
    ensures resp.statusCode == 400 ==> resp == MissingRequired
    ensures resp.statusCode == 500 ==> resp == InternalServerError
    ensures resp.statusCode == 201 <==>
              ParseBody(body).Ok? && !ParseBody(body).value.Null? && HasRequiredFields(ParseBody(body).value)
              && !putFails
    ensures resp.statusCode == 201 ==>
              && resp == Response(201, Created("Customer created", newId))
              && table.items == old(table.items)[newId := NewItem(newId, ParseBody(body).value, now)]
              && (newId !in old(table.items) ==> |table.items| == |old(table.items)| + 1)
    ensures resp.statusCode != 201 ==> table.items == old(table.items)
  {
    var data := ParseBody(body);
    if data.Failed? || data.value.Null? {
      return InternalServerError;
    }
    if !HasRequiredFields(data.value) {
      return MissingRequired;
    }
    var customerId := newId;
    var item := NewItem(customerId, data.value, now);
    var ok := table.Put(customerId, item, putFails);
    if !ok {
      return InternalServerError;
    }
    resp := Response(201, Created("Customer created", customerId));
  }
}
