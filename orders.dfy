/** Customer orders (Transaction documents of the `orders` collection) and
    their two-state fulfilment machine. */
module Orders {
  import opened Common
  import opened Catalog

  /** The order status; the store keeps it as its localised label. */
  datatype Status = Pending | Fulfilled

  /** The label stored for a status. */
  function Label(s: Status): (l: string)
    ensures l == "niezrealizowane" <==> s == Pending
    ensures l == "zrealizowane" <==> s == Fulfilled
  {
    match s
    case Pending => assert "niezrealizowane"[0] != "zrealizowane"[0]; "niezrealizowane"
    case Fulfilled => assert "zrealizowane"[0] != "niezrealizowane"[0]; "zrealizowane"
  }

  /** A line item as the caller sends it: a denormalised snapshot whose
      product reference is never checked against the catalog. */
  datatype LineItem = LineItem(
    productId: Option<Id>,
    name: Option<string>,
    price: Option<string>,
    quantity: Option<int>)

  /** The body of an order submission. */
  datatype OrderInput = OrderInput(
    email: Option<string>,
    customerName: Option<string>,
    address: Option<string>,
    paymentMethod: Option<string>,
    products: Option<seq<LineItem>>,
    totalCost: Option<string>)

  /** A stored order. `totalCost` is the caller's text, never recomputed. */
  datatype Order = Order(
    id: Id,
    email: string,
    customerName: string,
    address: string,
    paymentMethod: string,
    products: seq<LineItem>,
    totalCost: string,
    status: Status,
    date: int)

  /** The submission handler's guard: contact fields present and a non-empty
      list of line items. `paymentMethod` and `totalCost` are not checked here. */
  predicate ValidOrderInput(input: OrderInput)
    ensures !ValidOrderInput(input) <==>
      || input.email in {None, Some("")}
      || input.customerName in {None, Some("")}
      || input.address in {None, Some("")}
      || input.products in {None, Some([])}
  {
    && Present(input.email)
    && Present(input.customerName)
    && Present(input.address)
    && input.products.Some?
    && |input.products.value| > 0
  }

  /** The schema's own `required` fields that the handler does not check;
      a document lacking one is refused by the store at `save`. */
  predicate SchemaAccepts(input: OrderInput)
    ensures !SchemaAccepts(input) <==>
      input.paymentMethod in {None, Some("")} || input.totalCost in {None, Some("")}
  {
    Present(input.paymentMethod) && Present(input.totalCost)
  }

  /** The document saved for an accepted submission: every field as given,
      status pending, date the time of submission. */
  function NewOrder(id: Id, input: OrderInput, now: int): (o: Order)
    requires ValidOrderInput(input) && SchemaAccepts(input)
    ensures o.id == id && o.status == Pending && o.date == now
    ensures Some(o.email) == input.email && Some(o.customerName) == input.customerName
    ensures Some(o.address) == input.address && Some(o.paymentMethod) == input.paymentMethod
    ensures Some(o.products) == input.products && |o.products| > 0
    ensures Some(o.totalCost) == input.totalCost
  {
    Order(id, input.email.value, input.customerName.value, input.address.value,
          input.paymentMethod.value, input.products.value, input.totalCost.value,
          Pending, now)
  }

  /** The one transition: whatever the current status, the order becomes
      fulfilled and nothing else about it changes. */
  function Fulfil(o: Order): (f: Order)
    ensures f.status == Fulfilled
    ensures f.(status := o.status) == o
  {
    o.(status := Fulfilled)
  }

  /** How an order may legitimately evolve: only its status changes, and a
      fulfilled order never returns to pending. */
  ghost predicate Evolves(o: Order, o': Order)
  {
    o'.(status := o.status) == o && (o.status == Fulfilled ==> o'.status == Fulfilled)
  }

  lemma EvolvesTransitive(a: Order, b: Order, c: Order)
    requires Evolves(a, b) && Evolves(b, c)
    ensures Evolves(a, c)
  {
    assert c.(status := a.status) == b.(status := a.status);
  }
}
