/** The backend's whole state as a value, and one function per route handler
    saying what the handler answers and what the store holds afterwards. */
module Shop {
  import opened Common
  import opened Catalog
  import opened Orders
  import opened Accounts

  /** The store: the two product collections, the orders, the users, the next
      fresh identifier (shared, as ObjectIds are globally unique) and the log
      of products handed to the push notifier. */
  datatype State = State(
    teas: map<Id, Product>,
    herbalTeas: map<Id, Product>,
    orders: map<Id, Order>,
    users: seq<Account>,
    nextId: Id,
    outbox: seq<Product>)

  /** A handler's new state together with its answer. */
  datatype Reply<+T> = Reply(state: State, response: Response<T>)

  function Products(s: State, p: Partition): map<Id, Product>
  {
    if p == Teas then s.teas else s.herbalTeas
  }

  /** `s` with partition `p` replaced by `m` and nothing else changed. */
  function WithProducts(s: State, p: Partition, m: map<Id, Product>): (s': State)
    ensures Products(s', p) == m && Products(s', Other(p)) == Products(s, Other(p))
    ensures s'.orders == s.orders && s'.users == s.users
    ensures s'.nextId == s.nextId && s'.outbox == s.outbox
  {
    if p == Teas then s.(teas := m) else s.(herbalTeas := m)
  }

  /** The model's invariant. Every record sits under its own id, below the
      counter, in exactly one collection, with its partition's tag; orders
      never share an id with a product; each product is announced at most
      once, in creation order. */
  ghost predicate Valid(s: State)
  {
    && (forall id :: id in s.teas ==>
          s.teas[id].id == id && id < s.nextId && s.teas[id].category == Tag(Teas) && id !in s.herbalTeas)
    && (forall id :: id in s.herbalTeas ==>
          s.herbalTeas[id].id == id && id < s.nextId && s.herbalTeas[id].category == Tag(HerbalTeas))
    && (forall id :: id in s.orders ==>
          s.orders[id].id == id && id < s.nextId && id !in s.teas && id !in s.herbalTeas)
    && (forall i :: 0 <= i < |s.outbox| ==> s.outbox[i].id < s.nextId)
    && (forall i, j :: 0 <= i < j < |s.outbox| ==> s.outbox[i].id < s.outbox[j].id)
  }

  lemma ValidPartition(s: State, p: Partition, id: Id)
    requires Valid(s) && id in Products(s, p)
    ensures Products(s, p)[id].id == id && Products(s, p)[id].category == Tag(p)
    ensures id < s.nextId && id !in Products(s, Other(p)) && id !in s.orders
  {
  }

  /** An empty store holding the given users. */
  function Initial(users: seq<Account>): (s: State)
    ensures Valid(s)
    ensures s.teas == map[] && s.herbalTeas == map[] && s.orders == map[]
    ensures s.users == users && s.outbox == []
  {
    State(map[], map[], map[], users, 0, [])
  }

  // ---------------------------------------------------------------- catalog

  /** Listing a collection: all of its records, except that an empty
      collection is answered as not found rather than as an empty list. */
  function ListProducts(s: State, p: Partition): (r: Response<set<Product>>)
    ensures r.NotFound? <==> Products(s, p) == map[]
    ensures r.Ok? || r.NotFound?
    ensures r.Ok? ==> forall id :: id in Products(s, p) ==> Products(s, p)[id] in r.value
    ensures r.Ok? ==> forall q :: q in r.value ==> exists id :: id in Products(s, p) && Products(s, p)[id] == q
  {
    if Products(s, p) == map[] then NotFound else Ok(Products(s, p).Values)
  }

  /** Fetching a product for editing probes the plain collection first and
      the herbal one second. */
  function GetProduct(s: State, id: Id): (r: Response<Product>)
    ensures r.Ok? || r.NotFound?
    ensures r.Ok? <==> id in s.teas || id in s.herbalTeas
    ensures id in s.teas ==> r == Ok(s.teas[id])
    ensures id !in s.teas && id in s.herbalTeas ==> r == Ok(s.herbalTeas[id])
  {
    if id in s.teas then Ok(s.teas[id])
    else if id in s.herbalTeas then Ok(s.herbalTeas[id])
    else NotFound
  }

  /** Creating a product. An incomplete request is refused with nothing
      written; a complete one stores exactly one new record under a fresh id
      in the partition its category selects, tagged with that partition,
      and hands it to the notifier. */
  function CreateProduct(s: State, input: ProductInput): (r: Reply<Product>)
    ensures r.response.Ok? || r.response.ValidationError?
    ensures r.response.ValidationError? <==> !ValidProductInput(input)
    ensures r.response.ValidationError? ==> r.state == s
    ensures r.response.Ok? ==>
      var p, q := r.response.value, PartitionFor(input.category);
      && p.id == s.nextId && p.category == Tag(q)
      && Some(p.name) == input.name && Some(p.price) == input.price
      && Some(p.description) == input.description && Some(p.imageUrl) == input.imageUrl
      && Products(r.state, q) == Products(s, q)[p.id := p]
      && Products(r.state, Other(q)) == Products(s, Other(q))
      && r.state.orders == s.orders && r.state.users == s.users
      && r.state.outbox == s.outbox + [p]
      && r.state.nextId > s.nextId
  {
    if !ValidProductInput(input) then Reply(s, ValidationError)
    else
      var q := PartitionFor(input.category);
      var p := NewProduct(s.nextId, input);
      var s' := WithProducts(s, q, Products(s, q)[p.id := p]);
      Reply(s'.(nextId := s.nextId + 1, outbox := s.outbox + [p]), Ok(p))
  }

  /** Updating a product searches only the partition named by the request's
      category. Absent there, the answer is not found and nothing changes,
      even if the other partition holds the id; present, exactly that record
      is patched. */
  function UpdateProduct(s: State, id: Id, category: Option<string>, patch: ProductPatch): (r: Reply<Product>)
    ensures r.response.Ok? || r.response.NotFound?
    ensures var q := PartitionFor(category);
      && (r.response.NotFound? <==> id !in Products(s, q))
      && (r.response.NotFound? ==> r.state == s)
      && (r.response.Ok? ==>
            && r.response.value == Patched(Products(s, q)[id], patch)
            && Products(r.state, q) == Products(s, q)[id := r.response.value]
            && Products(r.state, Other(q)) == Products(s, Other(q))
            && r.state.orders == s.orders && r.state.users == s.users
            && r.state.nextId == s.nextId && r.state.outbox == s.outbox)
  {
    var q := PartitionFor(category);
    var m := Products(s, q);
    if id !in m then Reply(s, NotFound)
    else
      var p := Patched(m[id], patch);
      Reply(WithProducts(s, q, m[id := p]), Ok(p))
  }

  /** Deleting a product, with the same partition rule as updating: not found
      when absent from the named partition, otherwise exactly that id leaves
      that partition and the removed record is answered. */
  function DeleteProduct(s: State, id: Id, category: Option<string>): (r: Reply<Product>)
    ensures r.response.Ok? || r.response.NotFound?
    ensures var q := PartitionFor(category);
      && (r.response.NotFound? <==> id !in Products(s, q))
      && (r.response.NotFound? ==> r.state == s)
      && (r.response.Ok? ==>
            && r.response.value == Products(s, q)[id]
            && id !in Products(r.state, q)
            && Products(r.state, q) == Products(s, q) - {id}
            && Products(r.state, Other(q)) == Products(s, Other(q))
            && r.state.orders == s.orders && r.state.users == s.users
            && r.state.nextId == s.nextId && r.state.outbox == s.outbox)
  {
    var q := PartitionFor(category);
    var m := Products(s, q);
    if id !in m then Reply(s, NotFound)
    else Reply(WithProducts(s, q, m - {id}), Ok(m[id]))
  }

  // ----------------------------------------------------------------- orders

  /** Submitting an order. Missing contact fields or a missing or empty list
      of line items are refused by the handler; a missing payment method or
      total is refused by the store; either way nothing is written.
      Otherwise one new pending order is stored with a fresh id, the line
      items as given and the submission time. The catalog is not consulted. */
  function SubmitOrder(s: State, input: OrderInput, now: int): (r: Reply<Order>)
    ensures r.response.Ok? || r.response.ValidationError? || r.response.StoreRejected?
    ensures r.response.ValidationError? <==> !ValidOrderInput(input)
    ensures r.response.StoreRejected? <==> ValidOrderInput(input) && !SchemaAccepts(input)
    ensures !r.response.Ok? ==> r.state == s
    ensures r.response.Ok? ==>
      var o := r.response.value;
      && o.id == s.nextId
      && o.status == Pending && o.date == now
      && Some(o.products) == input.products && |o.products| > 0
      && Some(o.email) == input.email && Some(o.customerName) == input.customerName
      && Some(o.address) == input.address && Some(o.paymentMethod) == input.paymentMethod
      && Some(o.totalCost) == input.totalCost
      && r.state.orders == s.orders[o.id := o]
      && r.state.teas == s.teas && r.state.herbalTeas == s.herbalTeas
      && r.state.users == s.users && r.state.outbox == s.outbox
      && r.state.nextId > s.nextId
  {
    if !ValidOrderInput(input) then Reply(s, ValidationError)
    else if !SchemaAccepts(input) then Reply(s, StoreRejected)
    else
      var o := NewOrder(s.nextId, input, now);
      Reply(s.(orders := s.orders[o.id := o], nextId := s.nextId + 1), Ok(o))
  }

  /** Listing orders answers every stored order; unlike the product
      listings, an empty store is an empty success. */
  function ListOrders(s: State): (r: Response<set<Order>>)
    ensures r.Ok?
    ensures forall id :: id in s.orders ==> s.orders[id] in r.value
    ensures forall o :: o in r.value ==> exists id :: id in s.orders && s.orders[id] == o
  {
    Ok(s.orders.Values)
  }

  /** Marking an order fulfilled: unconditional for a stored order, which
      changes in its status alone; not found, with nothing changed, for an
      unknown id. */
  function CompleteOrder(s: State, id: Id): (r: Reply<Order>)
    ensures r.response.Ok? || r.response.NotFound?
    ensures r.response.NotFound? <==> id !in s.orders
    ensures r.response.NotFound? ==> r.state == s
    ensures r.response.Ok? ==>
      && r.response.value.status == Fulfilled
      && r.response.value.(status := s.orders[id].status) == s.orders[id]
      && r.state.orders == s.orders[id := r.response.value]
      && r.state.teas == s.teas && r.state.herbalTeas == s.herbalTeas
      && r.state.users == s.users && r.state.nextId == s.nextId && r.state.outbox == s.outbox
  {
    if id !in s.orders then Reply(s, NotFound)
    else
      var o := Fulfil(s.orders[id]);
      Reply(s.(orders := s.orders[id := o]), Ok(o))
  }

  /** Fulfilling twice succeeds both times and ends in the same state as
      fulfilling once. */
  lemma CompleteOrderIdempotent(s: State, id: Id)
    ensures var r := CompleteOrder(s, id);
      && CompleteOrder(r.state, id).state == r.state
      && CompleteOrder(r.state, id).response == r.response
  {
  }

  // ------------------------------------------------ one handler at a time

  /** The requests that write to the store. */
  datatype Request =
    | PostProduct(input: ProductInput)
    | PutProduct(id: Id, category: Option<string>, patch: ProductPatch)
    | RemoveProduct(id: Id, category: Option<string>)
    | PostOrder(order: OrderInput, now: int)
    | PutOrderComplete(orderId: Id)

  function Step(s: State, req: Request): State
  {
    match req
    case PostProduct(input) => CreateProduct(s, input).state
    case PutProduct(id, category, patch) => UpdateProduct(s, id, category, patch).state
    case RemoveProduct(id, category) => DeleteProduct(s, id, category).state
    case PostOrder(order, now) => SubmitOrder(s, order, now).state
    case PutOrderComplete(id) => CompleteOrder(s, id).state
  }

  /** The store after serving the requests of a trace one after another. */
  function Run(s: State, trace: seq<Request>): State
    decreases |trace|
  {
    if trace == [] then s else Run(Step(s, trace[0]), trace[1..])
  }

  /** Creating a product keeps the invariant: the new id is fresh in both
      partitions and among the orders, and the notification log stays in
      creation order. */
  lemma CreateKeepsValid(s: State, input: ProductInput)
    requires Valid(s)
    ensures Valid(CreateProduct(s, input).state)
  {
    var r := CreateProduct(s, input);
    if r.response.Ok? {
      var p, t := r.response.value, r.state;
      forall i | 0 <= i < |t.outbox| ensures t.outbox[i].id < t.nextId {
        if i < |s.outbox| { assert t.outbox[i] == s.outbox[i]; } else { assert t.outbox[i] == p; }
      }
      forall i, j | 0 <= i < j < |t.outbox| ensures t.outbox[i].id < t.outbox[j].id {
        assert t.outbox[i] == s.outbox[i];
        if j == |s.outbox| { assert t.outbox[j] == p; } else { assert t.outbox[j] == s.outbox[j]; }
      }
    }
  }

  lemma UpdateKeepsValid(s: State, id: Id, category: Option<string>, patch: ProductPatch)
    requires Valid(s)
    ensures Valid(UpdateProduct(s, id, category, patch).state)
  {
  }

  lemma DeleteKeepsValid(s: State, id: Id, category: Option<string>)
    requires Valid(s)
    ensures Valid(DeleteProduct(s, id, category).state)
  {
  }

  lemma SubmitKeepsValid(s: State, input: OrderInput, now: int)
    requires Valid(s)
    ensures Valid(SubmitOrder(s, input, now).state)
  {
  }

  lemma CompleteKeepsValid(s: State, id: Id)
    requires Valid(s)
    ensures Valid(CompleteOrder(s, id).state)
  {
  }

  /** Every handler keeps the invariant, never lowers the counter, never
      touches the users and only appends to the notification log. */
  lemma StepPreservesValid(s: State, req: Request)
    requires Valid(s)
    ensures Valid(Step(s, req))
    ensures Step(s, req).nextId >= s.nextId
    ensures Step(s, req).users == s.users
    ensures s.outbox <= Step(s, req).outbox
  {
    match req
    case PostProduct(input) => CreateKeepsValid(s, input);
    case PutProduct(id, category, patch) => UpdateKeepsValid(s, id, category, patch);
    case RemoveProduct(id, category) => DeleteKeepsValid(s, id, category);
    case PostOrder(order, now) => SubmitKeepsValid(s, order, now);
    case PutOrderComplete(id) => CompleteKeepsValid(s, id);
  }

  /** The invariant holds after any trace: the two collections stay disjoint,
      every record keeps its partition's tag, and no product is announced
      twice. */
  lemma {:induction false} RunPreservesValid(s: State, trace: seq<Request>)
    requires Valid(s)
    ensures Valid(Run(s, trace))
    ensures Run(s, trace).nextId >= s.nextId
    ensures Run(s, trace).users == s.users
    ensures s.outbox <= Run(s, trace).outbox
    decreases |trace|
  {
    if trace != [] {
      StepPreservesValid(s, trace[0]);
      RunPreservesValid(Step(s, trace[0]), trace[1..]);
    }
  }

  /** No handler deletes an order or moves one back from fulfilled to pending. */
  lemma StepKeepsOrder(s: State, req: Request, id: Id)
    requires Valid(s) && id in s.orders
    ensures id in Step(s, req).orders && Evolves(s.orders[id], Step(s, req).orders[id])
  {
    match req
    case PostOrder(order, now) =>
    case PutOrderComplete(orderId) =>
    case _ =>
  }

  /** Over any trace a stored order stays stored, changes in its status alone,
      and once fulfilled stays fulfilled. */
  lemma {:induction false} RunKeepsOrder(s: State, trace: seq<Request>, id: Id)
    requires Valid(s) && id in s.orders
    ensures id in Run(s, trace).orders && Evolves(s.orders[id], Run(s, trace).orders[id])
    decreases |trace|
  {
    if trace != [] {
      var t := Step(s, trace[0]);
      StepKeepsOrder(s, trace[0], id);
      StepPreservesValid(s, trace[0]);
      RunKeepsOrder(t, trace[1..], id);
      EvolvesTransitive(s.orders[id], t.orders[id], Run(t, trace[1..]).orders[id]);
    }
  }

  /** A product never changes partition and an id once issued is never
      reused: an issued id absent from a partition stays absent from it. */
  lemma {:induction false} RunNeverMovesProducts(s: State, trace: seq<Request>, p: Partition, id: Id)
    requires Valid(s) && id < s.nextId && id !in Products(s, p)
    ensures id !in Products(Run(s, trace), p)
    decreases |trace|
  {
    if trace != [] {
      StepPreservesValid(s, trace[0]);
      RunNeverMovesProducts(Step(s, trace[0]), trace[1..], p, id);
    }
  }

  // ------------------------------------------ handlers observed together

  /** Under the invariant the probe order of the lookup is immaterial: it
      finds a product exactly when one of the partitions holds it. */
  lemma GetProductFindsEitherPartition(s: State, id: Id, p: Product)
    requires Valid(s)
    ensures GetProduct(s, id) == Ok(p) <==>
      exists q :: id in Products(s, q) && Products(s, q)[id] == p
  {
    if GetProduct(s, id) == Ok(p) {
      if id in s.teas { assert id in Products(s, Teas); } else { assert id in Products(s, HerbalTeas); }
    }
  }

  /** A created product can be fetched by its id, appears in its own
      partition's listing and not in the other's. */
  lemma CreateThenRead(s: State, input: ProductInput)
    requires Valid(s) && ValidProductInput(input)
    ensures var r := CreateProduct(s, input);
      var p, q := r.response.value, PartitionFor(input.category);
      && r.response.Ok?
      && GetProduct(r.state, p.id) == Ok(p)
      && ListProducts(r.state, q).Ok? && p in ListProducts(r.state, q).value
      && (ListProducts(r.state, Other(q)).Ok? ==> p !in ListProducts(r.state, Other(q)).value)
  {
    var r := CreateProduct(s, input);
    var p, q := r.response.value, PartitionFor(input.category);
    assert p.id in Products(r.state, q);
    var other := ListProducts(r.state, Other(q));
    if other.Ok? && p in other.value {
      var id :| id in Products(r.state, Other(q)) && Products(r.state, Other(q))[id] == p;
      ValidPartition(s, Other(q), id);
    }
  }

  /** A successful create sends exactly one notification, addressed to the
      subscribed users, whose text opens with the requested name and whose
      icon is the requested image; a refused create sends none. */
  lemma CreateAnnounces(s: State, input: ProductInput)
    ensures var r := CreateProduct(s, input);
      && (!ValidProductInput(input) ==> r.state.outbox == s.outbox)
      && (ValidProductInput(input) ==>
            && |r.state.outbox| == |s.outbox| + 1
            && var m := Push(r.state.outbox[|s.outbox|]);
               && m.segment == "Subscribed Users"
               && m.contents[..|input.name.value|] == input.name.value
               && m.icon == input.imageUrl.value)
  {
    var r := CreateProduct(s, input);
    if ValidProductInput(input) {
      assert r.state.outbox[|s.outbox|] == r.response.value;
    }
  }

  /** A product is edited or removed only through its own partition's tag. */
  lemma WrongCategoryIsNotFound(s: State, id: Id, category: Option<string>, patch: ProductPatch)
    requires Valid(s) && id in Products(s, Other(PartitionFor(category)))
    ensures UpdateProduct(s, id, category, patch) == Reply(s, NotFound)
    ensures DeleteProduct(s, id, category) == Reply(s, NotFound)
    ensures GetProduct(s, id).Ok?
  {
    ValidPartition(s, Other(PartitionFor(category)), id);
  }

  /** After a successful update the lookup answers the patched record. */
  lemma UpdateThenGet(s: State, id: Id, category: Option<string>, patch: ProductPatch)
    requires Valid(s) && id in Products(s, PartitionFor(category))
    ensures var r := UpdateProduct(s, id, category, patch);
      r.response.Ok? && GetProduct(r.state, id) == r.response
  {
    ValidPartition(s, PartitionFor(category), id);
  }

  /** After a successful delete the id is found in neither partition. */
  lemma DeleteThenGet(s: State, id: Id, category: Option<string>)
    requires Valid(s) && id in Products(s, PartitionFor(category))
    ensures var r := DeleteProduct(s, id, category);
      r.response.Ok? && GetProduct(r.state, id) == NotFound
  {
    ValidPartition(s, PartitionFor(category), id);
  }

  /** A submitted order is listed, pending, until it is fulfilled. */
  lemma SubmitThenList(s: State, input: OrderInput, now: int)
    requires ValidOrderInput(input) && SchemaAccepts(input)
    ensures var r := SubmitOrder(s, input, now);
      && r.response.Ok?
      && r.response.value in ListOrders(r.state).value
      && CompleteOrder(r.state, r.response.value.id).response == Ok(Fulfil(r.response.value))
  {
    var r := SubmitOrder(s, input, now);
    assert r.response.value.id in r.state.orders;
  }
}
