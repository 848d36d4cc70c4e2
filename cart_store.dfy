/** The cart provider: one store holding the cart and its persisted copy,
    with the three operations that change it. */
module CartProvider {
  import opened CartModel
  import CartProperties

  class CartStore {
    /** The cart currently in memory. */
    var cart: seq<Product>
    /** The durable storage slot the cart is mirrored to. */
    var slot: Slot

    /** Reloading the slot gives back the cart in memory. */
    ghost predicate Valid()
      reads this
    {
      Load(slot) == cart
    }

    /** Starts from the stored cart, or from an empty one when nothing is stored. */
    constructor (stored: Slot)
      ensures Valid()
      ensures slot == stored
      ensures cart == (if stored.Stored? then stored.saved else [])
    {
      slot := stored;
      if stored.Stored? {
        cart := stored.saved;
      } else {
        cart := [];
      }
    }

    /** Replaces the cart and writes it to the slot. */
    method SetCart(newCart: seq<Product>)
      modifies this
      ensures cart == newCart && slot == Stored(newCart)
      ensures Valid()
    {
      cart := newCart;
      slot := Stored(cart);
    }

    /** Adds one unit of a product, reading the stock and, for a product not
        yet in the cart, the catalog. */
    method AddProduct(productId: int, stock: Response<int>, catalog: Response<ProductData>)
      returns (notice: Option<Notice>, calls: seq<Call>)
      requires Valid()
      modifies this
      ensures Valid()
      ensures var o := AddOutcome(old(cart), productId, stock, catalog);
        cart == After(old(cart), o) && notice == Shown(o)
        && slot == (if o.Commit? then Stored(cart) else old(slot))
      ensures calls == AddCalls(old(cart), productId, stock)
      ensures UniqueIds(old(cart)) && Answers(catalog, productId) ==> UniqueIds(cart)
      ensures Positive(old(cart)) ==> Positive(cart)
    {
      CartProperties.StepKeepsWellFormed(cart, CartProperties.AddOp(productId, stock, catalog));
      var newCart := cart;
      var found := IndexOf(newCart, productId);
      calls := [StockCall(productId)];
      if stock.Failed? {
        return Some(AddFailed), calls;
      }
      var amount := if found.Some? then newCart[found.value].amount + 1 else 1;
      if amount > stock.data {
        return Some(OutOfStock), calls;
      }
      if found.Some? {
        newCart := newCart[found.value := newCart[found.value].(amount := amount)];
      } else {
        calls := calls + [CatalogCall(productId)];
        if catalog.Failed? {
          return Some(AddFailed), calls;
        }
        newCart := newCart + [WithAmount(catalog.data, amount)];
      }
      SetCart(newCart);
      notice := None;
    }

    /** Removes the line item with the id, or shows the removal error. */
    method RemoveProduct(productId: int) returns (notice: Option<Notice>)
      requires Valid()
      modifies this
      ensures Valid()
      ensures var o := RemoveOutcome(old(cart), productId);
        cart == After(old(cart), o) && notice == Shown(o)
        && slot == (if o.Commit? then Stored(cart) else old(slot))
      ensures UniqueIds(old(cart)) ==> UniqueIds(cart)
      ensures Positive(old(cart)) ==> Positive(cart)
    {
      CartProperties.StepKeepsWellFormed(cart, CartProperties.RemoveOp(productId));
      if Contains(cart, productId) {
        SetCart(Without(cart, productId));
        notice := None;
      } else {
        notice := Some(RemoveFailed);
      }
    }

    /** Sets the quantity of a line item, reading the stock first. */
    method UpdateProductAmount(productId: int, amount: int, stock: Response<int>)
      returns (notice: Option<Notice>, calls: seq<Call>)
      requires Valid()
      modifies this
      ensures Valid()
      ensures var o := UpdateOutcome(old(cart), productId, amount, stock);
        cart == After(old(cart), o) && notice == Shown(o)
        && slot == (if o.Commit? then Stored(cart) else old(slot))
      ensures calls == UpdateCalls(productId, amount)
      ensures UniqueIds(old(cart)) ==> UniqueIds(cart)
      ensures Positive(old(cart)) ==> Positive(cart)
    {
      CartProperties.StepKeepsWellFormed(cart, CartProperties.UpdateOp(productId, amount, stock));
      if amount < 1 {
        return None, [];
      }
      calls := [StockCall(productId)];
      if stock.Failed? {
        return Some(UpdateFailed), calls;
      }
      if amount > stock.data {
        return Some(OutOfStock), calls;
      }
      var newCart := cart;
      var found := IndexOf(newCart, productId);
      if found.Some? {
        newCart := newCart[found.value := newCart[found.value].(amount := amount)];
        SetCart(newCart);
        notice := None;
      } else {
        notice := Some(UpdateFailed);
      }
    }
  }
}
