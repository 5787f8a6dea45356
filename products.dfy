/** The CRUD operations of the product backend over its table (aws/code/index.py). The table is
    a map from product id to record; the fresh id and the clock reading are parameters. */
module Products {
  import opened Json
  import opened DynamoUpdate
  import opened UpdateBuilder

  type Table = map<string, Item>

  /** What a handler returns, as far as this model keeps it: the status code and the JSON body
      (the CORS headers are constant and left out). */
  datatype Response = Response(status: int, body: Value)

  function CreateResponse(status: int, body: map<string, Value>): Response {
    Response(status, Obj(body))
  }

  function ErrorResponse(status: int, message: string): Response {
    CreateResponse(status, map["error" := Str(message)])
  }

  const NotFound: Response := ErrorResponse(404, "Product not found")

  /** The attributes every record written by `create_product` has. */
  const ProductAttributes: set<string> :=
    {"productId", "name", "description", "price", "category", "stock", "createdAt", "updatedAt"}

  /** The record `create_product` stores: the five product fields from the body with their
      defaults, the id, and one timestamp for both creation and last update. */
  function NewItem(body: map<string, Value>, id: string, now: int): (item: Item)
    ensures KeyAttribute in item && item[KeyAttribute] == Str(id)
  {
    map[
      "productId" := Str(id),
      "name" := GetOr(body, "name", Null),
      "description" := GetOr(body, "description", Str("")),
      "price" := GetOr(body, "price", Int(0)),
      "category" := GetOr(body, "category", Str("General")),
      "stock" := GetOr(body, "stock", Int(0)),
      "createdAt" := Int(now),
      "updatedAt" := Int(now)
    ]
  }

  /** A new record has exactly the product attributes, so any other key of the body, such as
      `brand`, is dropped; it is keyed by its id and created and updated at the same time. */
  lemma NewItemShape(body: map<string, Value>, id: string, now: int)
    ensures NewItem(body, id, now).Keys == ProductAttributes && "brand" !in NewItem(body, id, now)
    ensures NewItem(body, id, now)[KeyAttribute] == Str(id)
    ensures NewItem(body, id, now)["createdAt"] == NewItem(body, id, now)["updatedAt"] == Int(now)
  {
  }

  /** A new record copies the product fields the body supplies and fills in the defaults for
      the others. */
  lemma NewItemFields(body: map<string, Value>, id: string, now: int)
    ensures forall k :: k in FieldNames && k in body ==> NewItem(body, id, now)[k] == body[k]
    ensures "name" !in body ==> NewItem(body, id, now)["name"] == Null
    ensures "description" !in body ==> NewItem(body, id, now)["description"] == Str("")
    ensures "price" !in body ==> NewItem(body, id, now)["price"] == Int(0)
    ensures "category" !in body ==> NewItem(body, id, now)["category"] == Str("General")
    ensures "stock" !in body ==> NewItem(body, id, now)["stock"] == Int(0)
  {
  }

  /** A handler's effect: the table afterwards and the response. */
  datatype Outcome = Outcome(table: Table, response: Response)

  /** The record a create stores under the new id and the 201 response carrying it. */
  function CreateOutcome(t: Table, body: map<string, Value>, id: string, now: int): (o: Outcome)
    ensures o.response.status == 201 && o.table.Keys == t.Keys + {id}
  {
    var item := NewItem(body, id, now);
    Outcome(t[id := item],
            CreateResponse(201, map["message" := Str("Product created successfully"), "product" := Obj(item)]))
  }

  /** The stored record under `id`, or 404. */
  function GetResponse(t: Table, id: string): (r: Response)
    ensures r.status in {200, 404} && (r.status == 200 <==> id in t)
  {
    if id !in t then NotFound else CreateResponse(200, map["product" := Obj(t[id])])
  }

  /** A missing record gives 404 and no change; otherwise the record becomes the updated one
      and the response carries it (`ReturnValues='ALL_NEW'`). */
  function UpdateOutcome(t: Table, id: string, body: map<string, Value>, now: int): (o: Outcome)
    ensures o.table.Keys == t.Keys
    ensures o.response.status in {200, 404} && (o.response.status == 200 <==> id in t)
    ensures id !in t ==> o.table == t
  {
    if id !in t then Outcome(t, NotFound)
    else
      var item := UpdatedItem(t[id], body, now);
      Outcome(t[id := item],
              CreateResponse(200, map["message" := Str("Product updated successfully"), "product" := Obj(item)]))
  }

  /** A missing record gives 404 and no change; otherwise the record is removed. */
  function DeleteOutcome(t: Table, id: string): (o: Outcome)
    ensures o.table.Keys == t.Keys - {id}
    ensures o.response.status in {200, 404} && (o.response.status == 200 <==> id in t)
  {
    if id !in t then Outcome(t, NotFound)
    else Outcome(t - {id}, CreateResponse(200, map["message" := Str("Product deleted successfully")]))
  }

  /** The records of a scan page as JSON objects, in page order. */
  function PageJson(page: seq<Item>): (vs: seq<Value>)
    ensures |vs| == |page| && forall i :: 0 <= i < |page| ==> vs[i] == Obj(page[i])
  {
    seq(|page|, i requires 0 <= i < |page| => Obj(page[i]))
  }

  /** The 200 response of `list_products` for one scan page and the key the scan stopped at,
      if any. */
  function ListResponse(page: seq<Item>, lastKey: Option<string>): (r: Response)
    ensures r.status == 200 && r.body.Obj?
    ensures r.body.fields.Keys == if lastKey.Some? then {"products", "count", "lastKey"} else {"products", "count"}
  {
    var result := map["products" := Arr(PageJson(page)), "count" := Int(|page|)];
    CreateResponse(200, if lastKey.Some? then result["lastKey" := Str(lastKey.value)] else result)
  }

  /** The product records of a well-formed table carry every product attribute and their own
      key as `productId`. */
  ghost predicate WellFormed(t: Table) {
    forall id :: id in t ==> ProductAttributes <= t[id].Keys && t[id][KeyAttribute] == Str(id)
  }

  /** The product table, held as a map from `productId` to record. */
  class ProductTable {
    var items: Table

    constructor(initial: Table)
      ensures items == initial
    {
      items := initial;
    }

    /** `create_product`: stores the new record under the fresh id (`put_item`). */
    method CreateProduct(body: map<string, Value>, id: string, now: int) returns (resp: Response)
      modifies this
      ensures Outcome(items, resp) == CreateOutcome(old(items), body, id, now)
    {
      var item := NewItem(body, id, now);
      items := items[id := item];
      resp := CreateResponse(201, map["message" := Str("Product created successfully"), "product" := Obj(item)]);
    }

    /** `get_product`: looks the id up (`get_item`). */
    method GetProduct(id: string) returns (resp: Response)
      ensures resp == GetResponse(items, id)
    {
      if id !in items {
        return NotFound;
      }
      resp := CreateResponse(200, map["product" := Obj(items[id])]);
    }

    /** `update_product`: checks the record exists, builds the update request and lets the
        store apply it (`update_item`). The store never rejects the request the builder makes,
        so the failure response of the source is unreachable here. */
    method UpdateProduct(id: string, body: map<string, Value>, now: int) returns (resp: Response)
      modifies this
      ensures Outcome(items, resp) == UpdateOutcome(old(items), id, body, now)
    {
      if id !in items {
        return NotFound;
      }
      var expr, values, names := BuildUpdate(body, now);
      var stored := UpdateItem(items[id], expr, values, NamesArgument(names));
      var item := stored.value;
      items := items[id := item];
      resp := CreateResponse(200, map["message" := Str("Product updated successfully"), "product" := Obj(item)]);
    }

    /** `delete_product`: checks the record exists, then removes it (`delete_item`). */
    method DeleteProduct(id: string) returns (resp: Response)
      modifies this
      ensures Outcome(items, resp) == DeleteOutcome(old(items), id)
    {
      if id !in items {
        return NotFound;
      }
      items := items - {id};
      resp := CreateResponse(200, map["message" := Str("Product deleted successfully")]);
    }
  }

  // ---- properties of the operations

  /** Get, update and delete answer 404 exactly when the id is not in the table, and then
      leave the table as it was. */
  lemma MissingProductIs404(t: Table, id: string, body: map<string, Value>, now: int)
    ensures GetResponse(t, id).status == 404 <==> id !in t
    ensures UpdateOutcome(t, id, body, now).response.status == 404 <==> id !in t
    ensures DeleteOutcome(t, id).response.status == 404 <==> id !in t
    ensures id !in t ==> GetResponse(t, id) == NotFound
    ensures id !in t ==> UpdateOutcome(t, id, body, now) == Outcome(t, NotFound)
    ensures id !in t ==> DeleteOutcome(t, id) == Outcome(t, NotFound)
  {
  }

  /** A found record is returned as stored. */
  lemma GetReturnsStored(t: Table, id: string)
    requires id in t
    ensures GetResponse(t, id).status == 200
    ensures GetResponse(t, id).body.fields["product"] == Obj(t[id])
  {
  }

  /** A create adds the record under the new id, keeps every other record, and answers 201
      with the stored record. */
  lemma CreateAddsOneRecord(t: Table, body: map<string, Value>, id: string, now: int)
    ensures CreateOutcome(t, body, id, now).table.Keys == t.Keys + {id}
    ensures id !in t ==> |CreateOutcome(t, body, id, now).table| == |t| + 1
    ensures forall k :: k in t && k != id ==> CreateOutcome(t, body, id, now).table[k] == t[k]
    ensures CreateOutcome(t, body, id, now).response.status == 201
    ensures CreateOutcome(t, body, id, now).response.body.fields["product"]
            == Obj(CreateOutcome(t, body, id, now).table[id])
  {
    var o := CreateOutcome(t, body, id, now);
    if id !in t {
      assert o.table.Keys == t.Keys + {id};
    }
  }

  /** A delete of a stored record removes exactly that record. */
  lemma DeleteRemovesOneRecord(t: Table, id: string)
    requires id in t
    ensures DeleteOutcome(t, id).table.Keys == t.Keys - {id}
    ensures |DeleteOutcome(t, id).table| == |t| - 1
    ensures forall k :: k in t && k != id ==> DeleteOutcome(t, id).table[k] == t[k]
    ensures DeleteOutcome(t, id).response.status == 200
  {
  }

  /** Deleting twice is deleting once, the second answer being 404. */
  lemma DeleteTwice(t: Table, id: string)
    ensures DeleteOutcome(DeleteOutcome(t, id).table, id) == Outcome(DeleteOutcome(t, id).table, NotFound)
  {
  }

  /** An update of a stored record changes only that record, and in it only the supplied
      product fields and `updatedAt`; its key and creation time stay. */
  lemma UpdateChangesOnlySupplied(t: Table, id: string, body: map<string, Value>, now: int)
    requires id in t
    ensures UpdateOutcome(t, id, body, now).table.Keys == t.Keys
    ensures forall k :: k in t && k != id ==> UpdateOutcome(t, id, body, now).table[k] == t[k]
    ensures UpdateOutcome(t, id, body, now).response.status == 200
    ensures UpdateOutcome(t, id, body, now).table[id].Keys == t[id].Keys + {"updatedAt"} + (body.Keys * FieldNames)
    ensures UpdateOutcome(t, id, body, now).table[id]["updatedAt"] == Int(now)
    ensures forall a :: a in body && a in FieldNames ==> UpdateOutcome(t, id, body, now).table[id][a] == body[a]
    ensures forall a :: a in t[id] && a != "updatedAt" && a !in body ==>
              UpdateOutcome(t, id, body, now).table[id][a] == t[id][a]
    ensures forall a :: a in t[id] && a !in FieldNames && a != "updatedAt" ==>
              UpdateOutcome(t, id, body, now).table[id][a] == t[id][a]
  {
  }

  /** Repeating an update with the same body and clock reading changes nothing more. */
  lemma UpdateIdempotent(t: Table, id: string, body: map<string, Value>, now: int)
    ensures UpdateOutcome(UpdateOutcome(t, id, body, now).table, id, body, now).table
            == UpdateOutcome(t, id, body, now).table
  {
    if id in t {
      var item := UpdatedItem(t[id], body, now);
      var twice := UpdatedItem(item, body, now);
      assert twice.Keys == item.Keys;
      assert twice == item;
    }
  }

  /** Sending back a record's own product fields only moves `updatedAt`. */
  lemma ResubmitOnlyStamps(t: Table, id: string, now: int)
    requires id in t
    ensures UpdateOutcome(t, id, t[id], now).table == t[id := t[id]["updatedAt" := Int(now)]]
  {
    var item := UpdatedItem(t[id], t[id], now);
    assert item.Keys == t[id]["updatedAt" := Int(now)].Keys;
    assert item == t[id]["updatedAt" := Int(now)];
  }

  /** The list response counts exactly the records it returns, and names the scan's last key
      exactly when there is one. */
  lemma ListCountsItsProducts(page: seq<Item>, lastKey: Option<string>)
    ensures ListResponse(page, lastKey).status == 200
    ensures ListResponse(page, lastKey).body.fields["count"]
            == Int(|ListResponse(page, lastKey).body.fields["products"].elems|)
    ensures forall i :: 0 <= i < |page| ==> ListResponse(page, lastKey).body.fields["products"].elems[i] == Obj(page[i])
    ensures "lastKey" in ListResponse(page, lastKey).body.fields <==> lastKey.Some?
  {
  }

  /** A create keeps the table well formed. */
  lemma CreateKeepsWellFormed(t: Table, body: map<string, Value>, id: string, now: int)
    requires WellFormed(t)
    ensures WellFormed(CreateOutcome(t, body, id, now).table)
  {
    NewItemShape(body, id, now);
  }

  /** An update keeps the table well formed: it cannot touch `productId`. */
  lemma UpdateKeepsWellFormed(t: Table, id: string, body: map<string, Value>, now: int)
    requires WellFormed(t)
    ensures WellFormed(UpdateOutcome(t, id, body, now).table)
  {
    if id in t {
      assert KeyAttribute !in FieldNames;
    }
  }

  /** A delete keeps the table well formed. */
  lemma DeleteKeepsWellFormed(t: Table, id: string)
    requires WellFormed(t)
    ensures WellFormed(DeleteOutcome(t, id).table)
  {
  }
}
