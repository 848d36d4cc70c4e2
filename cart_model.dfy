/** Values of the shopping cart and the outcome of each cart operation,
    stated as functions of the cart before the call and of what the stock
    service and the product catalog answer. */
module CartModel {

  datatype Option<T> = None | Some(value: T)

  /** A line item: the catalog data of a product plus its quantity in the cart.
      The title, price and image are only carried along. */
  datatype Product = Product(id: int, title: string, price: real, image: string, amount: int)

  /** What the product catalog answers for a product: a line item without amount. */
  datatype ProductData = ProductData(id: int, title: string, price: real, image: string)

  /** The answer of an external lookup: its data, or a failure (network or parse error). */
  datatype Response<T> = Ok(data: T) | Failed

  /** An external lookup an operation makes, in the order it makes them. */
  datatype Call = StockCall(id: int) | CatalogCall(id: int)

  /** The four error notifications shown to the user. */
  datatype Notice = OutOfStock | AddFailed | RemoveFailed | UpdateFailed

  /** What an operation does: replace the cart (and persist it), fail with a
      notification, or return early without doing anything. */
  datatype Outcome = Commit(newCart: seq<Product>) | Fail(notice: Notice) | Skip

  /** The durable storage slot: nothing stored, or a serialized cart. */
  datatype Slot = Empty | Stored(saved: seq<Product>)

  /** The text opens with "Erro" (error). */
  predicate ReadsAsError(text: string)
  {
    "Erro" <= text
  }

  /** The text of each notification; only the out-of-stock one does not open as an error. */
  function Message(n: Notice): (text: string)
    ensures |text| > 0
    ensures n == OutOfStock <==> !ReadsAsError(text)
  {
    match n
    case OutOfStock =>
      var t := "Quantidade solicitada fora de estoque";
      assert t[0] != "Erro"[0];
      t
    case AddFailed => "Erro na adição do produto"
    case RemoveFailed => "Erro na remoção do produto"
    case UpdateFailed => "Erro na alteração de quantidade do produto"
  }

  /** The cart after an operation with outcome o started from cart. */
  function After(cart: seq<Product>, o: Outcome): seq<Product>
  {
    if o.Commit? then o.newCart else cart
  }

  /** The notification an outcome shows, if any. */
  function Shown(o: Outcome): Option<Notice>
  {
    if o.Fail? then Some(o.notice) else None
  }

  /** The initial cart read from the storage slot: the stored cart, or empty. */
  function Load(slot: Slot): (cart: seq<Product>)
    ensures slot == Stored(cart) || (slot == Empty && cart == [])
  {
    if slot.Stored? then slot.saved else []
  }

  /** No two line items share a product id. */
  ghost predicate UniqueIds(cart: seq<Product>)
  {
    forall i, j :: 0 <= i < j < |cart| ==> cart[i].id != cart[j].id
  }

  /** Every line item has a quantity of at least one. */
  ghost predicate Positive(cart: seq<Product>)
  {
    forall p :: p in cart ==> p.amount >= 1
  }

  /** Entry i is the first line item carrying the given id. */
  ghost predicate FirstWith(cart: seq<Product>, id: int, i: int)
  {
    0 <= i < |cart| && cart[i].id == id && forall j :: 0 <= j < i ==> cart[j].id != id
  }

  /** The catalog answer, when there is one, is about the requested product. */
  predicate Answers(catalog: Response<ProductData>, id: int)
  {
    catalog.Ok? ==> catalog.data.id == id
  }

  /** Whether some line item carries the id (the array's `some`). */
  function Contains(cart: seq<Product>, id: int): (b: bool)
    ensures b <==> exists i :: 0 <= i < |cart| && cart[i].id == id
  {
    if |cart| == 0 then false
    else if cart[0].id == id then true
    else
      var b := Contains(cart[1..], id);
      assert b ==> exists i :: 0 <= i < |cart| && cart[i].id == id by {
        if b {
          var k :| 0 <= k < |cart[1..]| && cart[1..][k].id == id;
          assert cart[k + 1].id == id;
        }
      }
      b
  }

  /** The index of the first line item carrying the id (the array's `find`). */
  function IndexOf(cart: seq<Product>, id: int): (r: Option<nat>)
    ensures r.Some? ==> FirstWith(cart, id, r.value)
    ensures r.None? <==> forall j :: 0 <= j < |cart| ==> cart[j].id != id
  {
    if |cart| == 0 then None
    else if cart[0].id == id then Some(0)
    else
      match IndexOf(cart[1..], id)
      case None => None
      case Some(k) => Some(k + 1)
  }

  /** The cart without the line items carrying the id (the array's `filter`). */
  function Without(cart: seq<Product>, id: int): (r: seq<Product>)
    ensures |r| <= |cart|
    ensures Contains(cart, id) ==> |r| < |cart|
    ensures forall p :: p in r <==> p in cart && p.id != id
  {
    if |cart| == 0 then []
    else if cart[0].id == id then Without(cart[1..], id)
    else [cart[0]] + Without(cart[1..], id)
  }

  /** The cart with the quantity of entry i replaced. */
  function SetAmount(cart: seq<Product>, i: nat, amount: int): seq<Product>
    requires i < |cart|
  {
    cart[i := cart[i].(amount := amount)]
  }

  /** A new line item built from the catalog data with the given quantity;
      its id is the one the catalog answered with. */
  function WithAmount(d: ProductData, amount: int): Product
  {
    Product(d.id, d.title, d.price, d.image, amount)
  }

  /** Adding a product: read the stock; the requested quantity is one more
      than the current one, or 1 for a product not yet in the cart; above the
      stock it fails out of stock; otherwise the entry is incremented, or the
      catalog is read and a new entry is appended. Any lookup failure shows
      the generic add error. */
  function AddOutcome(cart: seq<Product>, id: int, stock: Response<int>,
                      catalog: Response<ProductData>): (o: Outcome)
    ensures !o.Skip?
    ensures o.Fail? ==> o.notice == OutOfStock || o.notice == AddFailed
    ensures o.Fail? && o.notice == OutOfStock ==> stock.Ok?
    ensures o.Commit? ==> stock.Ok? && |cart| <= |o.newCart| <= |cart| + 1
    ensures o.Commit? ==> forall j :: 0 <= j < |cart| ==> o.newCart[j].id == cart[j].id
    ensures o.Commit? && |o.newCart| == |cart| + 1 ==> !Contains(cart, id) && catalog.Ok?
  {
    if stock.Failed? then Fail(AddFailed)
    else
      var found := IndexOf(cart, id);
      var amount := if found.Some? then cart[found.value].amount + 1 else 1;
      if amount > stock.data then Fail(OutOfStock)
      else if found.Some? then Commit(SetAmount(cart, found.value, amount))
      else if catalog.Failed? then Fail(AddFailed)
      else Commit(cart + [WithAmount(catalog.data, amount)])
  }

  /** The lookups adding a product makes: always the stock, and the catalog
      only for a product that is not yet in the cart and passed the stock check. */
  function AddCalls(cart: seq<Product>, id: int, stock: Response<int>): (calls: seq<Call>)
    ensures 1 <= |calls| <= 2 && calls[0] == StockCall(id)
    ensures |calls| == 2 ==> calls[1] == CatalogCall(id)
    ensures |calls| == 2 <==> !Contains(cart, id) && stock.Ok? && 1 <= stock.data
  {
    [StockCall(id)]
    + (if stock.Ok? && IndexOf(cart, id).None? && 1 <= stock.data then [CatalogCall(id)] else [])
  }

  /** Removing a product: drop every entry with the id, or fail when there is none. */
  function RemoveOutcome(cart: seq<Product>, id: int): (o: Outcome)
    ensures !o.Skip?
    ensures o.Fail? ==> o.notice == RemoveFailed && forall j :: 0 <= j < |cart| ==> cart[j].id != id
    ensures o.Commit? ==> |o.newCart| < |cart|
    ensures o.Commit? ==> forall p :: p in o.newCart <==> p in cart && p.id != id
  {
    if Contains(cart, id) then Commit(Without(cart, id)) else Fail(RemoveFailed)
  }

  /** Setting a quantity: below 1 nothing happens; otherwise the stock is
      read, a quantity above it fails out of stock, and then a missing entry
      or a failed lookup shows the generic update error. */
  function UpdateOutcome(cart: seq<Product>, id: int, amount: int, stock: Response<int>): (o: Outcome)
    ensures o.Skip? <==> amount < 1
    ensures o.Fail? ==> o.notice == OutOfStock || o.notice == UpdateFailed
    ensures o.Fail? && o.notice == OutOfStock ==> stock.Ok? && amount > stock.data
    ensures o.Commit? ==> stock.Ok? && 1 <= amount <= stock.data && |o.newCart| == |cart|
    ensures o.Commit? ==> exists i :: FirstWith(cart, id, i) && o.newCart == SetAmount(cart, i, amount)
  {
    if amount < 1 then Skip
    else if stock.Failed? then Fail(UpdateFailed)
    else if amount > stock.data then Fail(OutOfStock)
    else
      match IndexOf(cart, id)
      case None => Fail(UpdateFailed)
      case Some(i) => Commit(SetAmount(cart, i, amount))
  }

  /** The lookups setting a quantity makes: the stock, unless the quantity is below 1. */
  function UpdateCalls(id: int, amount: int): (calls: seq<Call>)
    ensures |calls| <= 1 && forall c :: c in calls ==> c == StockCall(id)
    ensures calls == [] <==> amount < 1
  {
    if amount < 1 then [] else [StockCall(id)]
  }
}
