# Product catalogue backend — a Dafny model

This project models the AWS Lambda function behind the product catalogue API
(`aws/code/index.py`). It covers:

- the entry point `handler`, which checks an API Gateway request and routes it;
- the four record operations: `create_product`, `get_product`, `update_product` and `delete_product`;
- the response shape of `list_products`.

The DynamoDB table is a map from `productId` to record. A record maps attribute names to
JSON values. The table sits in the `items` field of a `ProductTable` object, which the
operations update in place. Three things are parameters:

- the uuid a create draws;
- the clock reading;
- the page and last key a scan returns.

Modules:

- `Json` (json.dfy): JSON values as Python decodes them, with Python truthiness and `dict.get`.
- `Text` (text.dfy): Python's `s.split(sep)`, `sep.join(pieces)` and `sep in s`. Proved:
  split and join are inverse, and the last piece of a split follows its last separator.
- `DynamoUpdate` (dynamo_update.dfy): the meaning the store gives to an UpdateItem request of
  the form the backend sends. It parses `SET path = :operand, ...` and resolves `#` names
  through ExpressionAttributeNames. It applies DynamoDB's validation rules:
  - every value and name passed must be used, and every one used must be passed;
  - an empty names dictionary is refused;
  - no attribute may be set twice;
  - the key may not be set.

  This module is the independent reference against which the update builder is proved.
- `UpdateBuilder` (update_builder.dfy):
  - the record an update should produce;
  - the builder of the update expression, with its values and names, as an imperative method;
  - the proof that the store accepts that request and produces exactly that record.
- `Products` (products.dfy): the record operations, as pure outcome functions and as methods
  of the `ProductTable` class proved against them, with their properties.
- `Router` (router.dfy): `handler`'s checks as a pure `Route` function, the whole request as
  `Serve`, the `Handle` method that runs a request on a `ProductTable`, and the routing
  properties.

## Model

| member | source | states |
|---|---|---|
| `Router.Route` | aws/code/index.py:189-261 | A reply of the router's own has status 200, 400, 404 or 405. It is 200 exactly for OPTIONS with a body that parses. Every dispatch to an operation comes from a body that parses and a method other than OPTIONS. Listing and creating happen only on the collection path. Get, update and delete happen only on an item path, with a non-empty id. |
| `Router.RouteDispatches` | aws/code/index.py:217-249 | With a body that parses and a method other than OPTIONS: GET on the collection path lists; POST there with a truthy `name` creates from the body. On an item path with a non-empty id, GET reads that id, PUT updates it from the body, and DELETE removes it. |
| `Router.ItemId` | aws/code/index.py:233 | No contract of its own. `Router.ItemIdShape` and `Router.OverlappingMarker` state what the id is. |
| `Router.Serve` | aws/code/index.py:189-261 | A whole request answers 200, 201, 400, 404 or 405, and the table afterwards has no key but the old ones and the id a create draws. Its other properties are stated by the `Router` lemmas below. |
| `Router.Handle` | aws/code/index.py:189-261 | Running a request on the table leaves the table and returns the response that `Serve` gives for the old table. |
| `Router.InvalidJsonFirst` | aws/code/index.py:199-208 | A body that is not valid JSON gets 400 "Invalid JSON in request body", whatever the method and path (OPTIONS included), and the table is unchanged. |
| `Router.OptionsPreflight` | aws/code/index.py:210-214 | OPTIONS on any path, with a body that parses or none, gets 200 "CORS preflight successful" and the table is unchanged. |
| `Router.CreateNeedsName` | aws/code/index.py:217-225 | A create happens if and only if the request is a POST to `/products` or `/products/` whose body has a truthy `name`. Such a POST without one gets 400 "Product name is required" and the table is unchanged. |
| `Router.MethodNotAllowed` | aws/code/index.py:226-229 | 405 is returned exactly for a method other than GET and POST on the collection path, or other than GET, PUT and DELETE on an item path with a non-empty id (OPTIONS and bad JSON aside). |
| `Router.UnknownPath404` | aws/code/index.py:251-255 | The router's own 404 is returned exactly for a path that is neither `/products`, `/products/`, nor contains `/products/`, and it reads "Path not found: " followed by the path. |
| `Router.EmptyIdRejected` | aws/code/index.py:232-238 | On an item path whose id comes out empty, every method gets 400 "Product ID is required" (the id is checked before the method), and the table is unchanged. |
| `Router.ItemIdShape` | aws/code/index.py:233 | The id is the `proxy` path parameter when that is non-empty. Otherwise it is the last piece of splitting the path on `/products/`: it holds no `/products/` and, on an item path, ends the path right after an occurrence of `/products/`. |
| `Router.OverlappingMarker` | aws/code/index.py:233 | Matches do not overlap in the split: in `/products/products/` the last `/products/` starts at index 9, yet the id taken is `products/`. |
| `Router.ErrorsLeaveTableUnchanged` | aws/code/index.py:189-261 | Every response with status 400 or more leaves the table as it was. |
| `Router.OnlyWritesChangeTable` | aws/code/index.py:189-261 | The table changes only through a POST answered 201, or a PUT or DELETE answered 200. |
| `Router.ServeKeepsWellFormed` | aws/code/index.py:189-261 | Every request keeps the table well formed: each record has all product attributes, and its `productId` is its own key. |
| `Products.NewItem` | aws/code/index.py:40-49 | The new record's `productId` is the id drawn. `Products.NewItemShape` and `Products.NewItemFields` state the rest. |
| `Products.CreateOutcome` | aws/code/index.py:34-56 | A create answers 201, and the table's keys afterwards are the old ones plus the new id. |
| `Products.GetResponse` | aws/code/index.py:62-78 | A get answers 200 or 404, and 200 exactly when the id is stored. |
| `Products.UpdateOutcome` | aws/code/index.py:110-167 | An update keeps the table's keys. It answers 200 or 404, 200 exactly when the id is stored, and a 404 leaves the table as it was. |
| `Products.DeleteOutcome` | aws/code/index.py:169-187 | A delete removes the id from the table's keys and keeps the others. It answers 200 or 404, 200 exactly when the id was stored. |
| `Products.ListResponse` | aws/code/index.py:96-104 | The list answer is 200 with an object holding `products` and `count`, and also `lastKey` exactly when the scan stopped at a key. |
| `Products.NewItemShape` | aws/code/index.py:40-49 | A new record has exactly the eight product attributes, so no `brand`. Its `productId` is the new id, and `createdAt` equals `updatedAt` equals the clock reading. |
| `Products.NewItemFields` | aws/code/index.py:40-49 | A new record copies each product field the body supplies. The defaults are `name` None, `description` "", `price` 0, `category` "General" and `stock` 0. |
| `Products.ProductTable.CreateProduct` | aws/code/index.py:34-56 | The table afterwards and the response are `CreateOutcome` of the table before. |
| `Products.CreateAddsOneRecord` | aws/code/index.py:34-56 | A create adds the new id to the table's keys and keeps every other record. For an id not in the table, the table grows by exactly one. The answer is 201 with the stored record. |
| `Products.ProductTable.GetProduct` | aws/code/index.py:62-78 | The response is `GetResponse` of the table; the table is not modified. |
| `Products.GetReturnsStored` | aws/code/index.py:72-74 | A stored id is answered 200 with the record as stored. |
| `Products.MissingProductIs404` | aws/code/index.py:67-70 | Get, update and delete answer 404 if and only if the id is not in the table. In that case the response is "Product not found" and the table is unchanged. |
| `Products.ListCountsItsProducts` | aws/code/index.py:96-104 | The list response is 200. Its `count` equals the number of products it returns, which are the page's records in order. It carries `lastKey` exactly when the scan stopped at a key. |
| `Products.ProductTable.UpdateProduct` | aws/code/index.py:110-167 | The table afterwards and the response are `UpdateOutcome` of the table before. The record stored is the one the store produces from the built request, and a store rejection cannot occur. |
| `Products.UpdateChangesOnlySupplied` | aws/code/index.py:110-167 | An update of a stored record keeps the table's keys and every other record. In the record, only `updatedAt` (set to the clock reading) and the product fields present in the body (set to the body's values) change, and every other attribute keeps its value. |
| `Products.UpdateIdempotent` | aws/code/index.py:110-167 | Repeating an update with the same body and clock reading leaves the table as after the first. |
| `Products.ResubmitOnlyStamps` | aws/code/index.py:110-167 | Sending back a record's own attributes as the body changes nothing but its `updatedAt`. |
| `Products.UpdateKeepsWellFormed` | aws/code/index.py:110-167 | An update keeps the table well formed: it cannot change `productId`. |
| `Products.ProductTable.DeleteProduct` | aws/code/index.py:169-187 | The table afterwards and the response are `DeleteOutcome` of the table before. |
| `Products.DeleteRemovesOneRecord` | aws/code/index.py:169-183 | Deleting a stored id removes exactly that key, shrinks the table by one, keeps every other record, and answers 200. |
| `Products.DeleteTwice` | aws/code/index.py:169-187 | A second delete of the same id answers 404 and changes nothing. |
| `Products.CreateKeepsWellFormed` | aws/code/index.py:34-56 | A create keeps the table well formed. |
| `Products.DeleteKeepsWellFormed` | aws/code/index.py:169-187 | A delete keeps the table well formed. |
| `UpdateBuilder.UpdatedItem` | aws/code/index.py:120-163 | The record after an update has the old keys plus `updatedAt` plus the supplied product fields. `updatedAt` is the clock reading, the supplied fields hold the body's values, and every other attribute is unchanged. |
| `UpdateBuilder.BuildUpdate` | aws/code/index.py:122-146 | The builder's `if`s produce the planned expression, values and names. The expression starts `SET updatedAt = :timestamp`, with one clause per present field in the order name, description, price, category, stock. The `#n` alias is declared exactly when `name` is present. Sent to the store, the request gives exactly `UpdatedItem` for any record. |
| `UpdateBuilder.BuildMeaning` | aws/code/index.py:122-158 | Whatever the five `if`s produce is the planned request: it starts with the timestamp clause, it has names exactly when `name` is present, and the store applies it, with names passed only when non-empty, to give `UpdatedItem`. |
| `UpdateBuilder.UpdateRequestMeaning` | aws/code/index.py:148-158 | The store accepts the planned expression, values and names (passed only when non-empty) on any record, and the result is `UpdatedItem`. |
| `UpdateBuilder.PlannedParses` | aws/code/index.py:122-146 | The planned expression reads back as exactly the planned clauses. |
| `UpdateBuilder.PlannedReferences` | aws/code/index.py:122-146 | The values dictionary supplies exactly the operands the clauses use, and the names dictionary exactly the `#` paths they use. |
| `UpdateBuilder.PlannedTargets` | aws/code/index.py:122-146 | The clauses set `updatedAt` and then the present fields, all distinct and none of them the key `productId`. |
| `UpdateBuilder.PlannedApplies` | aws/code/index.py:122-146 | Applying the planned clauses to a record gives `UpdatedItem`. |
| `UpdateBuilder.PlannedStartsWithTimestamp` | aws/code/index.py:123 | Every planned expression starts with `SET updatedAt = :timestamp`. |
| `UpdateBuilder.BuilderPlan` | aws/code/index.py:123-146 | The five `if`s, run from the opening assignments, produce the planned expression, values and names. |
| `UpdateBuilder.BuilderStep` | aws/code/index.py:127-146 | One `if` keeps the builder's invariant: the text renders the clauses so far, and the remaining fields complete those clauses, values and aliases to the planned ones. |
| `UpdateBuilder.BuilderFinishes` | aws/code/index.py:127-146 | From any state meeting the builder's invariant, the remaining `if`s end at the planned request. |
| `DynamoUpdate.ParseRender` | aws/code/index.py:148-153 | A SET expression rendered from clauses whose paths and operands hold no comma or space reads back as exactly those clauses. |
| `Text.Contains` | aws/code/index.py:232 | No contract of its own. `Text.ContainsAt` states what it means. |
| `Text.ContainsAt` | aws/code/index.py:232 | `t in s` holds exactly when `t` starts some suffix of `s`. |
| `Text.Split` | aws/code/index.py:233 | A split has at least one piece. `Text.JoinSplit`, `Text.SplitJoin` and `Text.SplitCount` state the rest. |
| `Text.JoinSplit` | aws/code/index.py:233 | Joining the pieces of a split with the same separator gives back the string. |
| `Text.SplitJoin` | aws/code/index.py:233 | Splitting a join of pieces that do not hold the separator's first character gives back the pieces. |
| `Text.SplitCount` | aws/code/index.py:232-233 | A split has two or more pieces if and only if the separator occurs in the string. |
| `Text.LastPieceFollowsSeparator` | aws/code/index.py:233 | The last piece of a split holds no separator. When the separator occurs, the last piece ends the string right after an occurrence of it. |

## Left out

- I/O and external services:
  - the boto3 calls are replaced by the table map;
  - `uuid.uuid4()`, `datetime.now()` and the scan result are parameters;
  - a create draws its id from the caller and overwrites any record already under that id, as `put_item` would.
- `Router.Handle`: the `except Exception` branches that answer 500 (index.py:57-60, 105-108, 164-167, 184-187, 257-261) are not modelled. Some inputs reach them, not only store failures:
  - boto3 refuses Python floats. A POST with `{"name": "W", "stock": 1.5}` or a PUT with `{"stock": 1.5}` fails at `put_item` (index.py:51) or `update_item` (index.py:158). The same holds for a float in `name`, `description` or `category`, or nested inside a list or object there. The code answers 500 and writes nothing. The model stores `Float(1.5)` and answers 201 or 200. (`price` is exempt: it goes through `Decimal(str(...))`.)
  - An integer of more than 38 digits is refused by the store in the same way.
  - A `limit` query parameter that `int()` cannot parse answers 500 from `list_products`.
  - A store failure such as throttling or a missing table also answers 500.
- `Products.ProductTable.UpdateProduct`: its 500 branch is proved unreachable only against `DynamoUpdate.UpdateItem`. That model checks the expression, its names and its values, but not the types of the attribute values. The float and long-integer refusals above are outside that proof.
- Request bodies: only absent, invalid JSON, or a JSON object. A JSON body that parses to something else (a list, a string, a number, `null`) is left out. In the code:
  - GET, DELETE and OPTIONS never read the body, and neither do the router's 400, 404 and 405 answers.
  - A POST to the collection path calls `body.get` on it and answers 500 (index.py:220, 257-261).
  - A PUT to a stored record applies `in` to it (index.py:127-145). A list is searched for the field names as elements and a string for them as substrings. If none is found, only `updatedAt` changes. If one is found, `body['name']` or the like fails and the answer is 500. A number or `null` fails at the first `in` with 500.
- `Products.ProductTable.UpdateProduct`, `Products.ProductTable.DeleteProduct`: each request is one atomic step of the model. The code makes two unconditional store calls: `get_item` (index.py:114, 173), then `update_item` or `delete_item` (index.py:158, 179). With requests running concurrently:
  - a delete that lands between an update's two calls makes `update_item` create a record with only `productId`, `updatedAt` and the supplied fields, which is not `WellFormed`;
  - two overlapping deletes of one record both answer 200.

  `Router.ServeKeepsWellFormed` and `Products.DeleteTwice` hold only when requests run one at a time.
- `Products.NewItem`, `UpdateBuilder.BuildUpdate`: `Decimal(str(price))` is not modelled, and the price is stored as the value given. The float and Decimal arithmetic is out of scope, and a price that does not convert answers 500.
- `list_products` input handling: the `limit` query parameter, its `int()` parsing, and the `ExclusiveStartKey` and `LastEvaluatedKey` pagination. These are the store's behaviour; the model keeps only the response shape.
- `create_response`'s constant CORS headers, `json.dumps` with the Decimal encoder, and the event logging. Responses are kept as status and JSON body.
- DynamoDB's reserved-word check is not modelled; it is the reason `name` goes through the `#n` alias.
- The browser front end (`frontend/js/api.js` and `frontend/js/app.js`). It is a network client and DOM rendering, outside this model.

## Notes on the code

- The product id is taken with Python's `split`, which does not let matches overlap. It is the
  text after the last `/products/` only when occurrences do not overlap: for
  `/products/products/` the id is `products/` (see `Router.OverlappingMarker`). The model
  follows the code.
- On an update, the browser front end sends every form field, `brand` included
  (frontend/js/app.js:139-146 and 155). The backend sets only the five product fields present
  in the body, plus `updatedAt`, so `brand` is never stored, on an update or on a create (see
  `Products.NewItemShape` and `Products.UpdateChangesOnlySupplied`).
