# Tea shop backend: catalog and order model

A Dafny model of the core of an Express + Mongoose storefront backend for a
tea retailer. The backend keeps products in two separate collections,
`teas` and `herbal-teas`. It accepts customer orders, marks orders as
fulfilled, checks logins, and sends a push notification when a product is
added.

Modules, one per component:

- `Common` (`common.dfy`): request-body fields as `Option<string>` and the
  JavaScript truthiness test the handlers apply to them (`Present`: absent and
  `""` are falsy). It also holds the handler outcome `Response`: `Ok` (200/201),
  `ValidationError` (400), `NotFound` (404), `Unauthorized` (401) and
  `StoreRejected`. `StoreRejected` is the 500 answer given when the store's
  schema refuses a document at `save`.
- `Catalog` (`catalog.dfy`): products, the category-to-collection routing, the
  create guard, update patching and the push payload.
- `Orders` (`orders.dfy`): orders, line items, the submission guard, the
  schema's extra `required` fields, and the two-state status machine.
  `Pending` is stored as `niezrealizowane` and `Fulfilled` as `zrealizowane`.
- `Accounts` (`accounts.dfy`): the exact-match login lookup.
- `Shop` (`shop.dfy`): the whole store as a value (`State`), with one function
  per route handler giving its answer and the new state. It also holds the
  invariant `Valid`, traces of write requests (`Request`, `Step`, `Run`) and
  the lemmas that relate handlers to each other and to the invariant.
- `Backend` (`backend.dfy`): class `Server`, whose map fields are the
  collections. Each handler is a method that updates those fields in place.
  Each method's postcondition equates the new `State()` and its answer with the
  matching `Shop` function. `GreenTeaScenario` is the end-to-end client run:
  create a plain tea, list it, order it, fulfil the order twice.

Products and orders get their ids from one shared counter, because Mongo
ObjectIds are unique across collections. `Valid` therefore guarantees:
no id sits in both product collections, no order shares an id with a
product, every record is keyed by its own id and carries its collection's
tag, and the notification log holds each product at most once. The log
is also in creation order, but only because the model serves requests one
at a time (see "## Left out").

Three details of the code that the model keeps:

- A create request without `category` is a validation error
  (server.js:146). An absent category selects the plain collection only in
  update and delete.
- An update passes the four fields exactly as the request carries them
  (server.js:178, 180). A present field replaces the stored one even when it
  is `""`, because no validators run on `findByIdAndUpdate`. A field absent
  from the request keeps its stored value. This assumes Mongoose 6 or later,
  which drops undefined keys from an update (see "## Left out").
- The notification call is awaited (server.js:160) rather than detached.
  Its failures are caught inside the notifier (server.js:135-137), so a
  failed call never changes the answer. The model records the product handed to it
  (`outbox`) and nothing else.

## Model

| member | source | states |
|---|---|---|
| Common.Present | server.js:146 | JavaScript truthiness of a text field: true exactly when the field is neither absent nor `""` |
| Catalog.ValidProductInput | server.js:146 | the create guard fails exactly when one of name, price, description, imageUrl or category is absent or `""` |
| Orders.ValidOrderInput | server.js:240 | the submission guard fails exactly when email, customerName or address is absent or `""`, or the item list is absent or empty |
| Orders.SchemaAccepts | server.js:106-113 | the schema refuses a submitted order exactly when paymentMethod or totalCost is absent or `""` |
| Catalog.Tag | server.js:151-155 | the tag stored in each collection is non-empty and routes back to that same collection |
| Catalog.PartitionFor | server.js:151-155 | the herbal collection is chosen for exactly the category `herbal-teas`; any other value, absent included, chooses the plain collection |
| Catalog.NewProduct | server.js:150-155 | a created product carries the requested id and the four given non-empty fields, and its category is forced to its collection's tag |
| Catalog.Patched | server.js:178-180 | an update replaces exactly the name, price, description and image fields the request carries; absent fields, id and category are kept |
| Catalog.PatchIdempotent | server.js:178-180 | applying the same update twice stores the same document as applying it once |
| Catalog.Push | server.js:120-138 | the notification goes to subscribed users, its text begins with the product name and its icon is the product image |
| Orders.Label | server.js:114 | pending is stored as `niezrealizowane`, fulfilled as `zrealizowane`, and the two labels differ |
| Orders.NewOrder | server.js:244-251 | a saved order keeps every submitted field as given, has a non-empty item list, starts pending and is dated at submission |
| Orders.Fulfil | server.js:304-308 | completion sets the status to fulfilled whatever it was, and changes nothing else in the order |
| Accounts.Login | server.js:274-281 | login succeeds, answering the username, exactly when some stored account matches both username and password; otherwise it is unauthorised |
| Shop.Initial | server.js:41-53 | the empty store satisfies the invariant |
| Shop.ListProducts | server.js:60-95 | listing a collection answers NotFound exactly when it is empty; otherwise it answers exactly its records |
| Shop.GetProduct | server.js:219-233 | a lookup answers the plain record if there is one, otherwise the herbal record, otherwise NotFound |
| Shop.CreateProduct | server.js:142-167 | a request missing any of the five fields is refused with nothing written; otherwise exactly one fresh record is added to the chosen collection and handed to the notifier, and everything else is unchanged |
| Shop.UpdateProduct | server.js:171-192 | only the collection named by the request's category is searched; if the id is absent there the answer is NotFound with no change, otherwise only that record is patched |
| Shop.DeleteProduct | server.js:195-216 | same collection rule as update; if the id is present exactly that id leaves that collection (the model's `Ok` carries the removed record, which the handler does not send) |
| Shop.SubmitOrder | server.js:236-259 | missing contact fields or a missing or empty item list give ValidationError; a missing payment method or total gives a store rejection; both write nothing; otherwise one fresh pending order is added and nothing else changes |
| Shop.ListOrders | server.js:289-297 | order listing always succeeds and answers exactly the stored orders, even when there are none |
| Shop.CompleteOrder | server.js:300-319 | an unknown id gives NotFound with no change; a known order becomes fulfilled, changing only its status, and no other order or collection changes |
| Shop.CompleteOrderIdempotent | server.js:304-312 | fulfilling an order a second time succeeds with the same answer and leaves the state as after the first |
| Shop.CreateKeepsValid | server.js:150-157 | a create keeps the invariant: the new id is fresh everywhere and no product enters the notification log twice; with requests served one at a time, the log stays in creation order |
| Shop.UpdateKeepsValid | server.js:176-181 | an update keeps the invariant |
| Shop.DeleteKeepsValid | server.js:200-205 | a delete keeps the invariant |
| Shop.SubmitKeepsValid | server.js:244-253 | an order submission keeps the invariant |
| Shop.CompleteKeepsValid | server.js:304-308 | a completion keeps the invariant |
| Shop.StepPreservesValid | server.js:142-319 | every write handler keeps the invariant, never lowers the id counter, leaves the users alone and only appends to the notification log |
| Shop.RunPreservesValid | server.js:142-319 | after any trace of writes the collections are still disjoint, every record keeps its collection's tag, and no product has been announced twice |
| Shop.StepKeepsOrder | server.js:304-308 | no write handler deletes an order, changes anything but its status, or moves it back from fulfilled |
| Shop.RunKeepsOrder | server.js:304-308 | over any trace a stored order stays stored, changes only in status, and once fulfilled stays fulfilled |
| Shop.RunNeverMovesProducts | server.js:151-155 | over any trace an issued id absent from a collection never appears in it, so a product never changes collection and a deleted id is never reused |
| Shop.GetProductFindsEitherPartition | server.js:222 | under the invariant, the lookup answers a product exactly when one of the two collections holds it under that id |
| Shop.CreateThenRead | server.js:151-157 | a created product is found by id and appears in its own collection's listing but not in the other's |
| Shop.CreateAnnounces | server.js:157-160 | a successful create sends exactly one notification, to subscribed users, with the product name at the start of its text and the product image as its icon; a refused create sends none |
| Shop.WrongCategoryIsNotFound | server.js:176-209 | update and delete with the other collection's category answer NotFound and change nothing, although the product exists and can be fetched |
| Shop.UpdateThenGet | server.js:178-180 | after a successful update the lookup answers the patched record |
| Shop.DeleteThenGet | server.js:202-204 | after a successful delete the id is found in neither collection |
| Shop.SubmitThenList | server.js:253 | a saved order is listed and can then be fulfilled |
| Backend.Server.constructor | server.js:41-53 | a fresh server has empty collections and satisfies the invariant |
| Backend.Server.ListProducts | server.js:60-95 | the listing handlers answer as Shop.ListProducts on the current state |
| Backend.Server.GetProduct | server.js:219-233 | the lookup handler answers as Shop.GetProduct on the current state |
| Backend.Server.CreateProduct | server.js:142-167 | the create handler's new state and answer are those of Shop.CreateProduct, and the invariant is kept |
| Backend.Server.UpdateProduct | server.js:171-192 | the update handler's new state and answer are those of Shop.UpdateProduct, and the invariant is kept |
| Backend.Server.DeleteProduct | server.js:195-216 | the delete handler's new state and answer are those of Shop.DeleteProduct, and the invariant is kept |
| Backend.Server.SubmitOrder | server.js:236-259 | the submission handler's new state and answer are those of Shop.SubmitOrder, and the invariant is kept |
| Backend.Server.Login | server.js:270-286 | the login handler answers Ok(username) exactly when some account in the server's users matches both username and password, and Unauthorized otherwise |
| Backend.Server.ListOrders | server.js:289-297 | the order listing handler answers as Shop.ListOrders on the current state |
| Backend.Server.CompleteOrder | server.js:300-319 | the completion handler's new state and answer are those of Shop.CompleteOrder, and the invariant is kept |

## Left out

- HTTP transport: Express setup, CORS, JSON parsing, route paths, response message texts, `app.listen` and the port (server.js:9-14, 322-324). Handler answers are the `Response` variants.
- The database connection, environment loading and the unused `mongoose-sequence` import (server.js:2-5, 17-26). The store is modelled as maps.
- Store failures answered with 500 by the `catch` branches. The only one modelled is the schema refusing an order without `paymentMethod` or `totalCost` (`StoreRejected`).
- Malformed ids, which the store rejects with a cast error and the handlers answer with 500. Ids are opaque naturals.
- Request fields whose JSON value is not a string: numbers, booleans, `null`, and objects. An object includes a query operator such as `{"$ne": null}` passed into the login lookup (server.js:274). The item list of an order is either absent or an array; a non-array `products` value, which passes the guard at server.js:240, is not modelled. A field is either absent or a string. Line-item quantities are integers; fractional JavaScript numbers are not modelled. Line items are stored exactly as given. The model does not cover what the store's subdocument schema (server.js:107-112) adds or removes: the `_id` it gives each item, keys the item schema does not declare, and the casting of `productId`, `price` and `quantity`.
- The OneSignal HTTP call itself, its credentials and its error log (server.js:120-138). It is a foreign network call whose errors are swallowed. The model logs the product handed to it and builds its payload (`Catalog.Push`, tied to the log by `Shop.CreateAnnounces`).
- A notification call that never returns. The call is awaited with no timeout (server.js:122, 160), so if it hangs, the 201 answer is never sent although the product is already saved. The model treats the call as returning.
- Catalog.Patched: assumes Mongoose 6 or later, where an absent update field is dropped and keeps its stored value. No Mongoose version is pinned, and under 5.x an absent field would be written as null.
- Stored status labels: orders hold `Status` values. `Orders.Label` only documents the text the store keeps for each status (server.js:114, 306).
- The `Date.now` default (server.js:115): the submission time is the `now` parameter.
- Console logging.
- Concurrency: each handler is one atomic step, and `Shop.Run` serves requests one after another. Real requests interleave at every `await`. Two creates can interleave between the save (server.js:157) and the notification (server.js:160), so real notifications need not follow creation order. The other handlers each make at most one single-document write, so serialising them loses nothing.
- Login security (server.js:274): plaintext comparison is modelled as is. A login request with missing credentials is not modelled. The login handler `Backend.Server.Login` looks the pair up in the server's `users` field through `Accounts.Login`. No handler writes that field; the constructor sets it.
- Listing order: listings answer sets of records, so the store's document order is not modelled.
- Response bodies: update, delete and order submission answer the updated, removed or saved record, where the handlers send only a success message (server.js:187, 211, 254).
