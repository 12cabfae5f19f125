/** The route handlers as methods of one server object whose collections
    they read and update in place. */
module Backend {
  import opened Common
  import opened Catalog
  import opened Orders
  import opened Accounts
  import Shop

  class Server {
    var teas: map<Id, Product>
    var herbalTeas: map<Id, Product>
    var orders: map<Id, Order>
    var users: seq<Account>
    var nextId: Id
    /** The products handed to the push notifier, in order; a record kept
        for the proofs only. */
    ghost var outbox: seq<Product>

    /** The abstract value of the server. */
    ghost function State(): Shop.State
      reads this
    {
      Shop.State(teas, herbalTeas, orders, users, nextId, outbox)
    }

    ghost predicate Valid()
      reads this
    {
      Shop.Valid(State())
    }

    constructor (accounts: seq<Account>)
      ensures Valid() && State() == Shop.Initial(accounts)
    {
      teas, herbalTeas, orders := map[], map[], map[];
      users, nextId := accounts, 0;
      outbox := [];
    }

    /** GET of either product collection. */
    method ListProducts(p: Partition) returns (r: Response<set<Product>>)
      ensures r == Shop.ListProducts(State(), p)
    {
      var data := if p == Teas then teas else herbalTeas;
      if data == map[] {
        r := NotFound;
      } else {
        r := Ok(data.Values);
      }
    }

    /** GET of one product, plain collection first. */
    method GetProduct(id: Id) returns (r: Response<Product>)
      ensures r == Shop.GetProduct(State(), id)
    {
      if id in teas {
        r := Ok(teas[id]);
      } else if id in herbalTeas {
        r := Ok(herbalTeas[id]);
      } else {
        r := NotFound;
      }
    }

    method CreateProduct(input: ProductInput) returns (r: Response<Product>)
      requires Valid()
      modifies this
      ensures Valid()
      ensures State() == Shop.CreateProduct(old(State()), input).state
      ensures r == Shop.CreateProduct(old(State()), input).response
    {
      Shop.CreateKeepsValid(State(), input);
      if !ValidProductInput(input) {
        r := ValidationError;
        return;
      }
      var product := NewProduct(nextId, input);
      if PartitionFor(input.category) == HerbalTeas {
        herbalTeas := herbalTeas[product.id := product];
      } else {
        teas := teas[product.id := product];
      }
      nextId := nextId + 1;
      // The notification is awaited, but its failure is swallowed, so it
      // never changes the answer.
      outbox := outbox + [product];
      r := Ok(product);
    }

    method UpdateProduct(id: Id, category: Option<string>, patch: ProductPatch) returns (r: Response<Product>)
      requires Valid()
      modifies this
      ensures Valid()
      ensures State() == Shop.UpdateProduct(old(State()), id, category, patch).state
      ensures r == Shop.UpdateProduct(old(State()), id, category, patch).response
    {
      Shop.UpdateKeepsValid(State(), id, category, patch);
      if PartitionFor(category) == HerbalTeas {
        if id !in herbalTeas {
          r := NotFound;
          return;
        }
        var updated := Patched(herbalTeas[id], patch);
        herbalTeas := herbalTeas[id := updated];
        r := Ok(updated);
      } else {
        if id !in teas {
          r := NotFound;
          return;
        }
        var updated := Patched(teas[id], patch);
        teas := teas[id := updated];
        r := Ok(updated);
      }
    }

    method DeleteProduct(id: Id, category: Option<string>) returns (r: Response<Product>)
      requires Valid()
      modifies this
      ensures Valid()
      ensures State() == Shop.DeleteProduct(old(State()), id, category).state
      ensures r == Shop.DeleteProduct(old(State()), id, category).response
    {
      Shop.DeleteKeepsValid(State(), id, category);
      if PartitionFor(category) == HerbalTeas {
        if id !in herbalTeas {
          r := NotFound;
          return;
        }
        r := Ok(herbalTeas[id]);
        herbalTeas := herbalTeas - {id};
      } else {
        if id !in teas {
          r := NotFound;
          return;
        }
        r := Ok(teas[id]);
        teas := teas - {id};
      }
    }

    method SubmitOrder(input: OrderInput, now: int) returns (r: Response<Order>)
      requires Valid()
      modifies this
      ensures Valid()
      ensures State() == Shop.SubmitOrder(old(State()), input, now).state
      ensures r == Shop.SubmitOrder(old(State()), input, now).response
    {
      Shop.SubmitKeepsValid(State(), input, now);
      if !ValidOrderInput(input) {
        r := ValidationError;
        return;
      }
      if !SchemaAccepts(input) {
        r := StoreRejected;
        return;
      }
      var order := NewOrder(nextId, input, now);
      orders := orders[order.id := order];
      nextId := nextId + 1;
      r := Ok(order);
    }

    method ListOrders() returns (r: Response<set<Order>>)
      ensures r == Shop.ListOrders(State())
    {
      r := Ok(orders.Values);
    }

    method CompleteOrder(id: Id) returns (r: Response<Order>)
      requires Valid()
      modifies this
      ensures Valid()
      ensures State() == Shop.CompleteOrder(old(State()), id).state
      ensures r == Shop.CompleteOrder(old(State()), id).response
    {
      Shop.CompleteKeepsValid(State(), id);
      if id !in orders {
        r := NotFound;
        return;
      }
      var updated := orders[id].(status := Fulfilled);
      orders := orders[id := updated];
      r := Ok(updated);
    }

    /** The login handler: one exact-match lookup in the stored accounts. */
    method Login(username: string, password: string) returns (r: Response<string>)
      ensures r == Accounts.Login(users, username, password)
      ensures r.Ok? <==> exists i :: 0 <= i < |users| && Matches(users[i], username, password)
      ensures r.Ok? ==> r.value == username
      ensures !r.Ok? ==> r == Unauthorized
    {
      r := Accounts.Login(users, username, password);
    }
  }

  /** A client run: a plain tea is created, listed only among plain teas,
      ordered, and fulfilled twice. */
  method GreenTeaScenario(now: int)
  {
    var server := new Server([]);
    var created := server.CreateProduct(ProductInput(
      Some("teas"), Some("Green Tea"), Some("10"), Some("Fresh"), Some("http://x/img.png")));
    assert created.Ok?;
    var tea := created.value;
    assert tea.category == "teas" && server.teas[tea.id] == tea;
    var plain := server.ListProducts(Teas);
    assert plain.Ok? && tea in plain.value;
    var herbal := server.ListProducts(HerbalTeas);
    assert herbal == NotFound;

    var line := LineItem(Some(tea.id), Some(tea.name), Some(tea.price), Some(2));
    var placed := server.SubmitOrder(OrderInput(
      Some("a@b.c"), Some("Anna"), Some("Main St 1"), Some("card"), Some([line]), Some("20")), now);
    assert placed.Ok? && placed.value.status == Pending;
    var listed := server.ListOrders();
    assert server.orders[placed.value.id] == placed.value;
    assert placed.value in listed.value;

    var first := server.CompleteOrder(placed.value.id);
    assert first.Ok? && first.value.status == Fulfilled;
    var second := server.CompleteOrder(placed.value.id);
    assert second == first;
  }
}
