# Customer CRUD handlers, modelled in Dafny

This project models the four AWS Lambda handlers that serve the `customer`
resource: list with pagination (`getAll`), read one (`get`), partial update
(`update`) and create (`create`). The DynamoDB tables become in-memory values:

- a customer table is a `map` from `customerId` to the item's attributes. It is
  the field of the class `Store.Table`, which `update` and `create` write in place;
- the addresses table is a sequence of rows that is only ever filter-scanned by
  `customerId` (`Store.AddressStore`);
- the customer scans of `getAll` are a function from (`Limit`,
  `ExclusiveStartKey`) to one page of items and its `LastEvaluatedKey`
  (`GetAllHandler.Scanner`).

Every store request, `JSON.parse` and every property read on `null` may throw
inside a handler's `try`. These are modelled as `Outcome.Failed`, and each
handler turns them into the 500 "Internal Server Error" response. A store
rejection is an input of the model (a `fails` flag, a failing page scan, or
the set of customer ids whose address scan fails). Values are JSON values. The
same type stands for stored DynamoDB attributes, so `unmarshall` is the
identity. The exception is the body of a successful `update`: it echoes
`result.Attributes` unconverted, so there each attribute appears in the store's
own form, `{ "S": … }` for a string and `{ "N": "<digits>" }` for a number
(`Store.WireAttrs`).

Files and modules:

- `values.dfy` (`Values`): JSON values, JavaScript truthiness, property reads,
  the parsed request body.
- `store.dfy` (`Store`): the customer table class with `Put` (PutCommand) and
  `Set` (UpdateItemCommand with `SET`, `UPDATED_NEW`), and the address filter-scan.
- `http.dfy` (`Http`): the response shapes.
- `get_all.dfy` (`GetAllHandler`): `src/customer/getAll.ts`. The page walk is a
  method with a `while` loop. Parameter checks, fan-out and response selection
  are functions.
- `update.dfy` (`UpdateHandler`): `src/customer/update.ts`.
- `get.dfy` (`GetHandler`): `src/customer/get.ts`, as pure functions.
- `create.dfy` (`CreateHandler`): `src/customer/create.ts`.

`get` is a function of its inputs. Two calls on an unchanged store therefore
give the same response, and the table is not among its inputs as something it
could change.

## Model

| member | source | states |
|---|---|---|
| `Values.ParseBody` | src/customer/update.ts:27 | `JSON.parse` of the body, or of `"{}"` when there is none, throws iff the text is malformed, an absent or empty body parses to `{}`, and well-formed text parses to the value it denotes (the same expression is at src/customer/create.ts:11) |
| `Store.AddressesOf` | src/customer/get.ts:40-50 | the `customerId = :cid` filter keeps every row owned by the id as often as it occurs, and nothing else; the result is `[]` when no row matches |
| `Store.AddressesOfConcat` | src/customer/getAll.ts:79-89 | the filter keeps scan order: filtering a concatenation is the concatenation of the filtered parts |
| `Store.ScanAddresses` | src/customer/get.ts:40-50 | the address filter-scan for an id fails iff the store rejects it; otherwise it returns exactly the id's rows, in scan order (the same scan is at src/customer/getAll.ts:79-89) |
| `Store.Table.Put` | src/customer/create.ts:33-38 | on success the table is the old table with the item stored under its key; a rejected put changes nothing; the key schema is kept |
| `Store.Table.Set` | src/customer/update.ts:40-59 | a rejected update changes nothing; otherwise the set attributes hold the new values, an existing item keeps all its other attributes, other items are unchanged, and the returned attributes are exactly the set ones (`UPDATED_NEW`), in attribute value form |
| `Store.NumberText` | src/customer/update.ts:53 | `age.toString()` is non-empty and starts with `-` iff the number is negative |
| `Store.NumberTextRoundTrip` | src/customer/update.ts:53 | the text `toString()` writes into the `N` attribute reads back as the same number |
| `Store.WireRoundTrip` | src/customer/update.ts:51-55 | an `{ S: s }` or `{ N: text }` attribute value reads back as the string or number it wraps |
| `Store.WireAttrs` | src/customer/update.ts:56-66 | the `UPDATED_NEW` map has the same attribute names, each value an attribute value object that reads back as the value set |
| `GetAllHandler.TotalCount` | src/customer/getAll.ts:24-25 | `Count ?? 0`: the count the scan reported, or 0 when it reported none |
| `GetAllHandler.Paging` | src/customer/getAll.ts:25-41 | `limit` defaults to the total count and `pageNo` to 1; paging is accepted iff both are positive |
| `GetAllHandler.EmptyTableWithoutLimitRejected` | src/customer/getAll.ts:25-33 | with no `limit` parameter an empty customers table is rejected |
| `GetAllHandler.TotalPages` | src/customer/getAll.ts:98 | the result is the ceiling of `totalCount / limit`: the least page count whose pages hold every customer |
| `GetAllHandler.WalkPages` | src/customer/getAll.ts:43-69 | the walk issues at least one and at most `pageNo` scans. The first has no start key, and each later one starts from the previous scan's `LastEvaluatedKey`. It stops early only when a scan gives no key or fails. It keeps the items of scan `pageNo` if it got there, `[]` otherwise, and fails iff the last scan failed |
| `GetAllHandler.WalksAgree` | src/customer/getAll.ts:44-69 | walks to different pages replay the same scans from the start: any two walk traces agree on their common prefix |
| `GetAllHandler.AttachAddresses` | src/customer/getAll.ts:74-96 | the fan-out succeeds iff every kept customer's address scan succeeds; then element i is customer i with `addresses` set to exactly its own address rows, with length and order kept |
| `GetAllHandler.PageResponse` | src/customer/getAll.ts:98-137 | 500 iff the walk or the fan-out failed. 404 iff the kept page is empty, with `data: []`. 200 otherwise, with the merged page. 404 and 200 both report `pageNo`, `limit`, `totalCount` and the same `totalPages` |
| `GetAllHandler.ListCustomers` | src/customer/getAll.ts:13-139 | a failed count scan gives 500 and invalid paging gives 400, neither issuing any page scan. Otherwise the issued scans form a walk trace and the response is that of the kept page |
| `UpdateHandler.ValidateCustomer` | src/customer/update.ts:9-15 | a `null` body throws. Otherwise the list holds a field's defect iff that field fails its check, in the order name, age, mobileNumber, at most three entries, and it is empty iff the customer is valid (age 0 is a defect) |
| `UpdateHandler.DefectListBounded` | src/customer/update.ts:9-15 | any list meeting the defect-list characterisation has at most three entries |
| `UpdateHandler.DefectListUnique` | src/customer/update.ts:9-15 | the characterisation fixes the defect list: two lists meeting it for one body are equal |
| `UpdateHandler.NewFields` | src/customer/update.ts:45-55 | the update sets exactly `name`, `age` and `mobileNumber`, never the key, each to the body's value for that property; `name` and `mobileNumber` are strings and `age` is a non-zero number |
| `UpdateHandler.HandleUpdate` | src/customer/update.ts:17-76 | a missing path id gives 400. A malformed or `null` body gives 500. Defects give 400 with the defect list. All three leave the store untouched. A store error gives 500 with nothing changed. Otherwise it gives 200 echoing the path id and the set attributes in the store's attribute value form, each reading back as the value now stored; only the three attributes of the keyed item change, and every other item is unchanged |
| `GetHandler.StringAttr` | src/customer/get.ts:54-57 | `item.key.S` throws iff the attribute is missing and is defined iff the attribute is a string, whose value it then is |
| `GetHandler.NumberAttr` | src/customer/get.ts:56 | `Number(item.age.N)` throws iff the attribute is missing and is a number iff the attribute is a number, whose value it then is |
| `GetHandler.View` | src/customer/get.ts:53-59 | building the record throws iff one of `customerId`, `name`, `age`, `mobileNumber` is missing from the item. Otherwise each field is defined iff its attribute has the read type and then holds that attribute's value, and `addresses` are the given rows |
| `GetHandler.GetCustomer` | src/customer/get.ts:11-72 | 400 iff the path id is missing, whatever the store holds. 404 iff the id is absent from the table. 200 iff the item and its address scan are readable. The view then copies `name` and `mobileNumber` and gives `age` as a number, and `addresses` is exactly the id's address rows in scan order |
| `GetHandler.ReportsRequestedId` | src/customer/get.ts:22-58 | on a table keeping its key schema, a 200 reports the requested `customerId` |
| `CreateHandler.HasRequiredFields` | src/customer/create.ts:13 | the check passes iff `name`, `mobile`, `city`, `area` and `zipcode` are all truthy on the parsed body |
| `CreateHandler.NewItem` | src/customer/create.ts:20-31 | the stored item has exactly the keys `customerId`, `name`, `mobile`, `address` and `createdDate`. Its `customerId` is the generated id, its `createdDate` the creation timestamp, and `address` nests exactly `city`, `area` and `zipcode` |
| `CreateHandler.StoredFieldsReadBack` | src/customer/create.ts:21-31 | each of the five required fields, read back from the stored item (under `address` for the last three), is the body's value unchanged, so the stored item passes the same check |
| `CreateHandler.AbsentBodyIsRejected` | src/customer/create.ts:11-18 | an absent body parses to `{}` and fails the required-field check |
| `CreateHandler.HandleCreate` | src/customer/create.ts:9-51 | 400 iff the parsed body is not `null` and one of the five required fields is falsy. 201 iff they are all present and the put succeeds; then the new item is stored under the returned `customerId`, replacing any item already there, nothing else changes, and the table grows by one when the id was fresh. Every other outcome (parse error, `null` body, store error) gives 500 and changes nothing |

## Left out

- DynamoDB itself: page sizes, the 1 MB scan cap and filter evaluation. Each address filter-scan is one complete response over the table's rows. The customer scans are an arbitrary function of limit and start key.
- The `Promise.all` fan-out is a sequential map. Only its all-or-nothing join and its order are modelled.
- Logging (pino, `console.error`) and the environment-variable table names.
- `uuidv4()` and `new Date().toISOString()` become the parameters `newId` and `now` of `HandleCreate`.
- The API Gateway event and JSON text. The body is absent, malformed, or a parsed JSON value. An empty body counts as absent. A path parameter is an optional string.
- Numbers are integers. Fractional JSON numbers (an `age` of 1.5), `NaN` from `parseInt` on a non-numeric `limit` or `pageNo`, and float division in `Math.ceil` are not modelled. `TotalPages` uses integer ceiling division.
- Attribute value forms other than `S` and `N` (`BOOL`, `NULL`, `M`, `L`) in `Store.Wire`: the only attributes a handler returns in that form are the three `update` sets, which are strings and a number.
- JSON rendering of `undefined` and `NaN` fields. Both become None in the `get` view.
- `Store.Table.Set`: for an id with no stored item, the contract only says that the item then exists and holds the three set attributes. What else the store puts there is left unspecified. The body performs DynamoDB's upsert.
- A create, then get or update round trip. `create` writes another table (`DYNAMODB_TABLE`, with `mobile` and a nested `address`) from the one `get` and `update` use, and no handler here writes the addresses table.
- A scanned customer item without a string `customerId` cannot come from a table whose partition key is that string. The model sends it down the 500 path, as the SDK's rejection of `{ S: undefined }` would.
