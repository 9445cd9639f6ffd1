/**
 * The `{ statusCode, body }` results the handlers return, body as parsed
 * JSON. `Updated.updatedFields` holds attribute values as the store returns
 * them (`{ S: … }`, `{ N: … }`), since `update` echoes them unconverted.
 */
module Http {
  import opened Values

  /** The single-customer view `get` returns; undefined or NaN fields are None. */
  datatype CustomerRecord = CustomerRecord(
    customerId: Option<string>,
    name: Option<string>,
    age: Option<int>,
    mobileNumber: Option<string>,
    addresses: seq<Attrs>)

  datatype Payload =
    | Message(message: string)
    | ValidationFailed(message: string, missingFields: seq<string>)
    | Created(message: string, customerId: string)
    | Customer(record: CustomerRecord)
    | Page(message: string, data: seq<Attrs>, pageNo: int, limit: int, totalCount: nat, totalPages: nat)
    | Updated(message: string, customerId: string, updatedFields: Attrs)

  datatype Response = Response(statusCode: int, body: Payload)

  /** What every handler's `catch` returns. */
  const InternalServerError := Response(500, Message("Internal Server Error"))

  const MissingPathId := Response(400, Message("Missing customerId in path"))
}
