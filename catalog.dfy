/** The product catalog: two structurally identical product kinds, plain teas
    and herbal teas, stored in two separate collections. */
module Catalog {
  import opened Common

  /** The store's document identifier (a Mongo ObjectId), taken as opaque. */
  type Id = nat

  /** The two product collections, `teas` and `herbal-teas`. */
  datatype Partition = Teas | HerbalTeas

  /** A stored Tea or HerbalTea document. `price` is display text, never parsed. */
  datatype Product = Product(
    id: Id,
    name: string,
    price: string,
    description: string,
    imageUrl: string,
    category: string)

  /** The body of a create request. */
  datatype ProductInput = ProductInput(
    category: Option<string>,
    name: Option<string>,
    price: Option<string>,
    description: Option<string>,
    imageUrl: Option<string>)

  /** The four fields an update request may carry. */
  datatype ProductPatch = ProductPatch(
    name: Option<string>,
    price: Option<string>,
    description: Option<string>,
    imageUrl: Option<string>)

  function Other(p: Partition): (q: Partition)
    ensures q != p
  {
    if p == Teas then HerbalTeas else Teas
  }

  /** The category tag stored in the documents of a partition. */
  function Tag(p: Partition): (t: string)
    ensures t != ""
    ensures PartitionFor(Some(t)) == p
  {
    if p == Teas then "teas" else "herbal-teas"
  }

  /** The partition a request's category selects: the herbal collection for
      exactly the tag `herbal-teas`, the plain collection for every other
      value, including an absent or unknown one. */
  function PartitionFor(category: Option<string>): (p: Partition)
    ensures p == HerbalTeas <==> category == Some("herbal-teas")
  {
    if category == Some("herbal-teas") then HerbalTeas else Teas
  }

  /** The create handler's guard: all five fields present and non-empty. */
  predicate ValidProductInput(input: ProductInput)
    ensures !ValidProductInput(input) <==>
      || input.name in {None, Some("")}
      || input.price in {None, Some("")}
      || input.description in {None, Some("")}
      || input.imageUrl in {None, Some("")}
      || input.category in {None, Some("")}
  {
    && Present(input.name)
    && Present(input.price)
    && Present(input.description)
    && Present(input.imageUrl)
    && Present(input.category)
  }

  /** The document built from a valid create request; its category is forced
      to the tag of the partition it is routed to. */
  function NewProduct(id: Id, input: ProductInput): (p: Product)
    requires ValidProductInput(input)
    ensures p.id == id
    ensures p.category == Tag(PartitionFor(input.category))
    ensures Some(p.name) == input.name && Some(p.price) == input.price
    ensures Some(p.description) == input.description && Some(p.imageUrl) == input.imageUrl
    ensures p.name != "" && p.price != "" && p.description != "" && p.imageUrl != ""
  {
    Product(id, input.name.value, input.price.value, input.description.value,
            input.imageUrl.value, Tag(PartitionFor(input.category)))
  }

  function Override(current: string, field: Option<string>): string
  {
    if field.Some? then field.value else current
  }

  /** The document after an update: every field the request carries replaces
      the stored one, an absent field keeps its value; id and category are
      never touched. */
  function Patched(p: Product, patch: ProductPatch): (q: Product)
    ensures q.id == p.id && q.category == p.category
    ensures patch.name.Some? ==> q.name == patch.name.value
    ensures patch.name.None? ==> q.name == p.name
    ensures patch.price.Some? ==> q.price == patch.price.value
    ensures patch.price.None? ==> q.price == p.price
    ensures patch.description.Some? ==> q.description == patch.description.value
    ensures patch.description.None? ==> q.description == p.description
    ensures patch.imageUrl.Some? ==> q.imageUrl == patch.imageUrl.value
    ensures patch.imageUrl.None? ==> q.imageUrl == p.imageUrl
  {
    p.(name := Override(p.name, patch.name),
       price := Override(p.price, patch.price),
       description := Override(p.description, patch.description),
       imageUrl := Override(p.imageUrl, patch.imageUrl))
  }

  /** Applying the same update twice stores the same document as applying it once. */
  lemma PatchIdempotent(p: Product, patch: ProductPatch)
    ensures Patched(Patched(p, patch), patch) == Patched(p, patch)
  {
  }

  /** The push notification announcing a new product to subscribed users. */
  datatype PushMessage = PushMessage(
    segment: string,
    heading: string,
    contents: string,
    url: string,
    icon: string)

  const NewProductSuffix: string := " jest już dostępna w sklepie."

  /** The notification built for a freshly created product: its text starts
      with the product's name and its icon is the product's image. */
  function Push(p: Product): (m: PushMessage)
    ensures |m.contents| == |p.name| + |NewProductSuffix|
    ensures m.contents[..|p.name|] == p.name
    ensures m.icon == p.imageUrl
    ensures m.segment == "Subscribed Users"
  {
    PushMessage("Subscribed Users", "\U{1F195} Nowy produkt w sklepie!",
                p.name + NewProductSuffix,
                "https://my-react-app-ten-wheat.vercel.app/", p.imageUrl)
  }
}
