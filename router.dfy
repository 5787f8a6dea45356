/** The Lambda entry point `handler` (aws/code/index.py): how an API Gateway request is checked
    and routed to one of the product operations, and what the whole request does to the table. */
module Router {
  import opened Json
  import opened Text
  import opened DynamoUpdate
  import opened Products

  /** The request body as `handler` sees it: absent or empty, not valid JSON, or a JSON object. */
  datatype Body = NoBody | Malformed | Parsed(fields: map<string, Value>)

  /** The parts of the API Gateway event that `handler` reads (the query parameters only feed
      the scan, whose page is a parameter of `Serve`). */
  datatype Request = Request(httpMethod: string, path: string, proxy: Option<string>, body: Body)

  /** Where `handler` sends a request: a response of its own, or one of the operations. */
  datatype Dispatch =
    | Reply(response: Response)
    | ListProducts
    | CreateProduct(fields: map<string, Value>)
    | GetProduct(id: string)
    | UpdateProduct(id: string, fields: map<string, Value>)
    | DeleteProduct(id: string)

  /** The marker of an item path. */
  const ItemMarker: string := "/products/"

  /** The body dictionary: `{}` when no body was sent. */
  function BodyFields(b: Body): map<string, Value> {
    if b.Parsed? then b.fields else map[]
  }

  predicate IsCollectionPath(path: string) {
    path == "/products" || path == "/products/"
  }

  /** `path_parameters.get('proxy') or path.split('/products/')[-1]`. */
  function ItemId(req: Request): string {
    if req.proxy.Some? && req.proxy.value != "" then req.proxy.value
    else LastPiece(req.path, ItemMarker)
  }

  /** The checks of `handler`, in its order: the body parses, OPTIONS is answered at once,
      then the collection path, then item paths, then everything else is unknown. */
  function Route(req: Request): (d: Dispatch)
    ensures d.Reply? ==> d.response.status in {200, 400, 404, 405}
    ensures d.Reply? && d.response.status == 200 <==> !req.body.Malformed? && req.httpMethod == "OPTIONS"
    ensures !d.Reply? ==> !req.body.Malformed? && req.httpMethod != "OPTIONS"
    ensures d.ListProducts? || d.CreateProduct? ==> IsCollectionPath(req.path)
    ensures d.GetProduct? || d.UpdateProduct? || d.DeleteProduct? ==>
              !IsCollectionPath(req.path) && Contains(req.path, ItemMarker) && d.id == ItemId(req) != ""
  {
    var verb := req.httpMethod;
    var body := BodyFields(req.body);
    if req.body.Malformed? then Reply(ErrorResponse(400, "Invalid JSON in request body"))
    else if verb == "OPTIONS" then Reply(CreateResponse(200, map["message" := Str("CORS preflight successful")]))
    else if IsCollectionPath(req.path) then
      if verb == "GET" then ListProducts
      else if verb == "POST" then
        if !Truthy(GetOr(body, "name", Null)) then Reply(ErrorResponse(400, "Product name is required"))
        else CreateProduct(body)
      else Reply(ErrorResponse(405, "Method " + verb + " not allowed on /products"))
    else if Contains(req.path, ItemMarker) then
      var id := ItemId(req);
      if id == "" then Reply(ErrorResponse(400, "Product ID is required"))
      else if verb == "GET" then GetProduct(id)
      else if verb == "PUT" then UpdateProduct(id, body)
      else if verb == "DELETE" then DeleteProduct(id)
      else Reply(ErrorResponse(405, "Method " + verb + " not allowed on /products/{id}"))
    else Reply(ErrorResponse(404, "Path not found: " + req.path))
  }

  /** What a request does: the table afterwards and the response, given the id a create would
      draw, the clock reading, and the page and last key a scan would return. */
  function Serve(t: Table, req: Request, newId: string, now: int, page: seq<Item>, lastKey: Option<string>): (o: Outcome)
    ensures o.response.status in {200, 201, 400, 404, 405}
    ensures o.table.Keys <= t.Keys + {newId}
  {
    match Route(req)
    case Reply(r) => Outcome(t, r)
    case ListProducts => Outcome(t, ListResponse(page, lastKey))
    case CreateProduct(fields) => CreateOutcome(t, fields, newId, now)
    case GetProduct(id) => Outcome(t, GetResponse(t, id))
    case UpdateProduct(id, fields) => UpdateOutcome(t, id, fields, now)
    case DeleteProduct(id) => DeleteOutcome(t, id)
  }

  /** `handler`: routes the request and runs the chosen operation on the table. */
  method Handle(products: ProductTable, req: Request, newId: string, now: int,
                page: seq<Item>, lastKey: Option<string>) returns (resp: Response)
    modifies products
    ensures Outcome(products.items, resp) == Serve(old(products.items), req, newId, now, page, lastKey)
  {
    match Route(req)
    case Reply(r) =>
      resp := r;
    case ListProducts =>
      resp := ListResponse(page, lastKey);
    case CreateProduct(fields) =>
      resp := products.CreateProduct(fields, newId, now);
    case GetProduct(id) =>
      resp := products.GetProduct(id);
    case UpdateProduct(id, fields) =>
      resp := products.UpdateProduct(id, fields, now);
    case DeleteProduct(id) =>
      resp := products.DeleteProduct(id);
  }

  // ---- properties of the routing

  /** Which operation each verb reaches, and with which arguments: on the collection path GET
      lists and POST with a truthy `name` creates from the body; on an item path with an id, GET
      reads, PUT updates from the body and DELETE removes that id. */
  lemma RouteDispatches(req: Request)
    requires !req.body.Malformed? && req.httpMethod != "OPTIONS"
    ensures IsCollectionPath(req.path) && req.httpMethod == "GET" ==> Route(req) == ListProducts
    ensures IsCollectionPath(req.path) && req.httpMethod == "POST" && Truthy(GetOr(BodyFields(req.body), "name", Null))
            ==> Route(req) == CreateProduct(BodyFields(req.body))
    ensures !IsCollectionPath(req.path) && Contains(req.path, ItemMarker) && ItemId(req) != "" ==>
              && (req.httpMethod == "GET" ==> Route(req) == GetProduct(ItemId(req)))
              && (req.httpMethod == "PUT" ==> Route(req) == UpdateProduct(ItemId(req), BodyFields(req.body)))
              && (req.httpMethod == "DELETE" ==> Route(req) == DeleteProduct(ItemId(req)))
  {
  }

  /** A body that is not valid JSON is refused with 400 before anything else, OPTIONS included. */
  lemma InvalidJsonFirst(t: Table, req: Request, newId: string, now: int, page: seq<Item>, lastKey: Option<string>)
    requires req.body.Malformed?
    ensures Serve(t, req, newId, now, page, lastKey) == Outcome(t, ErrorResponse(400, "Invalid JSON in request body"))
  {
  }

  /** OPTIONS on any path, with a body that parses or none, answers the preflight and leaves
      the table alone. */
  lemma OptionsPreflight(t: Table, req: Request, newId: string, now: int, page: seq<Item>, lastKey: Option<string>)
    requires !req.body.Malformed? && req.httpMethod == "OPTIONS"
    ensures Serve(t, req, newId, now, page, lastKey)
            == Outcome(t, CreateResponse(200, map["message" := Str("CORS preflight successful")]))
  {
  }

  /** A create happens exactly for a POST to the collection path whose body has a truthy
      `name`; a POST there without one is refused with 400 and changes nothing. */
  lemma CreateNeedsName(t: Table, req: Request, newId: string, now: int, page: seq<Item>, lastKey: Option<string>)
    ensures Route(req).CreateProduct? <==>
              !req.body.Malformed? && IsCollectionPath(req.path) && req.httpMethod == "POST"
              && Truthy(GetOr(BodyFields(req.body), "name", Null))
    ensures !req.body.Malformed? && IsCollectionPath(req.path) && req.httpMethod == "POST"
            && !Truthy(GetOr(BodyFields(req.body), "name", Null)) ==>
              Serve(t, req, newId, now, page, lastKey) == Outcome(t, ErrorResponse(400, "Product name is required"))
  {
    if Route(req).CreateProduct? {
      assert req.httpMethod != "OPTIONS";
    }
  }

  /** 405 is the answer exactly for a method other than GET and POST on the collection path,
      or other than GET, PUT and DELETE on an item path with an id (OPTIONS aside). */
  lemma MethodNotAllowed(req: Request)
    ensures Route(req).Reply? && Route(req).response.status == 405 <==>
              && !req.body.Malformed? && req.httpMethod != "OPTIONS"
              && ((IsCollectionPath(req.path) && req.httpMethod != "GET" && req.httpMethod != "POST")
                  || (!IsCollectionPath(req.path) && Contains(req.path, ItemMarker) && ItemId(req) != ""
                      && req.httpMethod != "GET" && req.httpMethod != "PUT" && req.httpMethod != "DELETE"))
  {
  }

  /** The router answers 404 exactly for a path that is neither the collection nor an item path. */
  lemma UnknownPath404(req: Request)
    ensures Route(req).Reply? && Route(req).response.status == 404 <==>
              && !req.body.Malformed? && req.httpMethod != "OPTIONS"
              && !IsCollectionPath(req.path) && !Contains(req.path, ItemMarker)
    ensures Route(req).Reply? && Route(req).response.status == 404 ==>
              Route(req).response == ErrorResponse(404, "Path not found: " + req.path)
  {
  }

  /** An item path whose id comes out empty is refused with 400 whatever the method. */
  lemma EmptyIdRejected(t: Table, req: Request, newId: string, now: int, page: seq<Item>, lastKey: Option<string>)
    requires !req.body.Malformed? && req.httpMethod != "OPTIONS"
    requires !IsCollectionPath(req.path) && Contains(req.path, ItemMarker) && ItemId(req) == ""
    ensures Serve(t, req, newId, now, page, lastKey) == Outcome(t, ErrorResponse(400, "Product ID is required"))
  {
  }

  /** The item id is the proxy path parameter when that is non-empty; otherwise it is the
      path's last piece after splitting on `/products/`, which holds no `/products/` and, on
      an item path, ends the path right after a `/products/`. */
  lemma ItemIdShape(req: Request)
    ensures req.proxy.Some? && req.proxy.value != "" ==> ItemId(req) == req.proxy.value
    ensures !(req.proxy.Some? && req.proxy.value != "") ==>
              && !Contains(ItemId(req), ItemMarker)
              && (Contains(req.path, ItemMarker) ==>
                    var id := ItemId(req);
                    |id| + |ItemMarker| <= |req.path| && req.path[|req.path| - |id|..] == id
                    && req.path[|req.path| - |id| - |ItemMarker|..|req.path| - |id|] == ItemMarker)
  {
    if !(req.proxy.Some? && req.proxy.value != "") {
      LastPieceFollowsSeparator(req.path, ItemMarker);
    }
  }

  /** Python's split does not let matches overlap: in `/products/products/` the last
      `/products/` starts at index 9, yet the id taken is `products/`. */
  lemma OverlappingMarker()
    ensures "/products/products/"[9..] == ItemMarker
    ensures LastPiece("/products/products/", ItemMarker) == "products/"
  {
    var s := "/products/products/";
    assert ItemMarker <= s;
    assert s[10..] == "products/";
    assert SplitFrom(s, ItemMarker, []) == [[]] + SplitFrom(s[10..], ItemMarker, []);
    assert s[10..] == "products" + "/";
    SplitFromSkips("products", "/", ItemMarker, []);
    assert [] + "products" == "products";
    assert SplitFrom("/", ItemMarker, "products") == SplitFrom([], ItemMarker, "products" + ['/']);
  }

  /** Every refusal (status 400 and up) leaves the table as it was. */
  lemma ErrorsLeaveTableUnchanged(t: Table, req: Request, newId: string, now: int, page: seq<Item>, lastKey: Option<string>)
    ensures Serve(t, req, newId, now, page, lastKey).response.status >= 400 ==>
              Serve(t, req, newId, now, page, lastKey).table == t
  {
  }

  /** Only a successful POST, PUT or DELETE can change the table. */
  lemma OnlyWritesChangeTable(t: Table, req: Request, newId: string, now: int, page: seq<Item>, lastKey: Option<string>)
    ensures Serve(t, req, newId, now, page, lastKey).table != t ==>
              || (req.httpMethod == "POST" && Serve(t, req, newId, now, page, lastKey).response.status == 201)
              || (req.httpMethod == "PUT" && Serve(t, req, newId, now, page, lastKey).response.status == 200)
              || (req.httpMethod == "DELETE" && Serve(t, req, newId, now, page, lastKey).response.status == 200)
  {
  }

  /** Every request keeps the table well formed. */
  lemma ServeKeepsWellFormed(t: Table, req: Request, newId: string, now: int, page: seq<Item>, lastKey: Option<string>)
    requires WellFormed(t)
    ensures WellFormed(Serve(t, req, newId, now, page, lastKey).table)
  {
    match Route(req)
    case Reply(_) =>
    case ListProducts =>
    case CreateProduct(fields) => CreateKeepsWellFormed(t, fields, newId, now);
    case GetProduct(_) =>
    case UpdateProduct(id, fields) => UpdateKeepsWellFormed(t, id, fields, now);
    case DeleteProduct(id) => DeleteKeepsWellFormed(t, id);
  }
}
