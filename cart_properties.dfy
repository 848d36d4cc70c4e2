/** Properties of the three cart operations, stated about their outcomes. */
module CartProperties {
  import opened CartModel

  // ----- Filtering by id -----

  /** Filtering an id that no entry carries changes nothing. */
  lemma {:induction false} WithoutAbsent(cart: seq<Product>, id: int)
    requires forall j :: 0 <= j < |cart| ==> cart[j].id != id
    ensures Without(cart, id) == cart
  {
    if |cart| > 0 {
      WithoutAbsent(cart[1..], id);
      assert cart == [cart[0]] + cart[1..];
    }
  }

  /** Filtering distributes over concatenation, so surviving entries keep
      their relative order. */
  lemma {:induction false} WithoutAppend(a: seq<Product>, b: seq<Product>, id: int)
    ensures Without(a + b, id) == Without(a, id) + Without(b, id)
  {
    if |a| == 0 {
      assert a + b == b;
    } else {
      assert (a + b)[1..] == a[1..] + b;
      WithoutAppend(a[1..], b, id);
    }
  }

  /** Filtering the id of a single entry that no neighbour carries removes just that entry. */
  lemma WithoutSplit(pre: seq<Product>, x: Product, post: seq<Product>)
    requires forall j :: 0 <= j < |pre| ==> pre[j].id != x.id
    requires forall j :: 0 <= j < |post| ==> post[j].id != x.id
    ensures Without(pre + ([x] + post), x.id) == pre + post
  {
    WithoutAppend(pre, [x] + post, x.id);
    WithoutAbsent(pre, x.id);
    assert ([x] + post)[1..] == post;
    WithoutAbsent(post, x.id);
  }

  /** In a cart with unique ids, filtering the id of entry i removes exactly
      that entry and keeps the others in order. */
  lemma WithoutUnique(cart: seq<Product>, i: nat)
    requires UniqueIds(cart) && i < |cart|
    ensures Without(cart, cart[i].id) == cart[..i] + cart[i + 1..]
  {
    var x, pre, post := cart[i], cart[..i], cart[i + 1..];
    assert pre + ([x] + post) == cart by {
      assert cart == cart[..i] + cart[i..];
      assert cart[i..] == [x] + post;
    }
    assert forall j :: 0 <= j < |pre| ==> pre[j].id != x.id by {
      forall j | 0 <= j < |pre| ensures pre[j].id != x.id { assert pre[j] == cart[j]; }
    }
    assert forall j :: 0 <= j < |post| ==> post[j].id != x.id by {
      forall j | 0 <= j < |post| ensures post[j].id != x.id { assert post[j] == cart[i + 1 + j]; }
    }
    WithoutSplit(pre, x, post);
  }

  /** Dropping the first entry keeps ids unique. */
  lemma TailKeepsUnique(cart: seq<Product>)
    requires UniqueIds(cart) && |cart| > 0
    ensures UniqueIds(cart[1..])
  {
    var rest := cart[1..];
    forall i, j | 0 <= i < j < |rest| ensures rest[i].id != rest[j].id {
      assert rest[i] == cart[i + 1] && rest[j] == cart[j + 1];
    }
  }

  /** Putting an entry in front of entries with other ids keeps ids unique. */
  lemma ConsKeepsUnique(x: Product, w: seq<Product>)
    requires UniqueIds(w) && forall p :: p in w ==> p.id != x.id
    ensures UniqueIds([x] + w)
  {
    var r := [x] + w;
    forall i, j | 0 <= i < j < |r| ensures r[i].id != r[j].id {
      assert r[j] == w[j - 1];
      if i > 0 { assert r[i] == w[i - 1]; }
    }
  }

  /** Filtering keeps ids unique. */
  lemma {:induction false} WithoutKeepsUnique(cart: seq<Product>, id: int)
    requires UniqueIds(cart)
    ensures UniqueIds(Without(cart, id))
  {
    if |cart| > 0 {
      var rest := cart[1..];
      TailKeepsUnique(cart);
      WithoutKeepsUnique(rest, id);
      if cart[0].id != id {
        var w := Without(rest, id);
        forall p | p in w ensures p.id != cart[0].id {
          var k :| 0 <= k < |rest| && rest[k] == p;
          assert cart[k + 1] == p;
        }
        ConsKeepsUnique(cart[0], w);
      }
    }
  }

  // ----- Preservation of the cart invariant by the building blocks -----

  lemma SetAmountKeepsUnique(cart: seq<Product>, i: nat, amount: int)
    requires UniqueIds(cart) && i < |cart|
    ensures UniqueIds(SetAmount(cart, i, amount))
  {
  }

  lemma SetAmountKeepsPositive(cart: seq<Product>, i: nat, amount: int)
    requires Positive(cart) && i < |cart| && amount >= 1
    ensures Positive(SetAmount(cart, i, amount))
  {
  }

  lemma AppendKeepsUnique(cart: seq<Product>, p: Product)
    requires UniqueIds(cart)
    requires forall j :: 0 <= j < |cart| ==> cart[j].id != p.id
    ensures UniqueIds(cart + [p])
  {
  }

  // ----- addProduct -----

  /** A product not yet in the cart, with stock for one and both lookups
      answered, is appended with quantity 1 after the unchanged entries;
      both lookups are made. */
  lemma AddAbsentAppends(cart: seq<Product>, id: int, stock: Response<int>,
                         catalog: Response<ProductData>)
    requires forall j :: 0 <= j < |cart| ==> cart[j].id != id
    requires stock.Ok? && stock.data >= 1 && catalog.Ok?
    ensures AddOutcome(cart, id, stock, catalog).Commit?
    ensures var c := AddOutcome(cart, id, stock, catalog).newCart;
      |c| == |cart| + 1 && c[..|cart|] == cart
      && c[|cart|] == WithAmount(catalog.data, 1) && c[|cart|].amount == 1
      && (Answers(catalog, id) ==> c[|cart|].id == id)
    ensures AddCalls(cart, id, stock) == [StockCall(id), CatalogCall(id)]
  {
  }

  /** A product already in the cart, with stock for one more, has only its
      first entry incremented; no catalog lookup is made and the catalog
      answer does not matter. */
  lemma AddPresentIncrements(cart: seq<Product>, id: int, i: nat, stock: Response<int>,
                             catalog: Response<ProductData>, other: Response<ProductData>)
    requires FirstWith(cart, id, i)
    requires stock.Ok? && cart[i].amount + 1 <= stock.data
    ensures AddOutcome(cart, id, stock, catalog).Commit?
    ensures var c := AddOutcome(cart, id, stock, catalog).newCart;
      |c| == |cart| && c[i] == cart[i].(amount := cart[i].amount + 1)
      && forall j :: 0 <= j < |cart| && j != i ==> c[j] == cart[j]
    ensures AddCalls(cart, id, stock) == [StockCall(id)]
    ensures AddOutcome(cart, id, stock, catalog) == AddOutcome(cart, id, stock, other)
  {
  }

  /** A requested quantity above the stock leaves the cart unchanged, shows
      the out-of-stock notification and reads no catalog. */
  lemma AddOutOfStock(cart: seq<Product>, id: int, stock: Response<int>,
                      catalog: Response<ProductData>)
    requires stock.Ok?
    requires (if Contains(cart, id) then cart[IndexOf(cart, id).value].amount + 1 else 1) > stock.data
    ensures AddOutcome(cart, id, stock, catalog) == Fail(OutOfStock)
    ensures After(cart, AddOutcome(cart, id, stock, catalog)) == cart
    ensures AddCalls(cart, id, stock) == [StockCall(id)]
  {
  }

  /** A failed stock lookup, or a failed catalog lookup on the path that needs
      it, leaves the cart unchanged and shows the generic add error. */
  lemma AddLookupFailure(cart: seq<Product>, id: int, stock: Response<int>,
                         catalog: Response<ProductData>)
    requires stock.Failed? || (!Contains(cart, id) && stock.data >= 1 && catalog.Failed?)
    ensures AddOutcome(cart, id, stock, catalog) == Fail(AddFailed)
    ensures After(cart, AddOutcome(cart, id, stock, catalog)) == cart
    ensures stock.Failed? ==> AddCalls(cart, id, stock) == [StockCall(id)]
  {
  }

  /** Adding an entry already in the cart gives the same outcome as setting its
      quantity one higher exactly when the stock lookup answered and the
      quantity is not negative: a failed stock lookup shows the add error
      instead of the update error, and a negative quantity is incremented
      where setting it would be skipped. */
  lemma AddIsUpdateByOne(cart: seq<Product>, id: int, i: nat, stock: Response<int>,
                         catalog: Response<ProductData>)
    requires FirstWith(cart, id, i)
    ensures AddOutcome(cart, id, stock, catalog) == UpdateOutcome(cart, id, cart[i].amount + 1, stock)
      <==> stock.Ok? && cart[i].amount >= 0
    ensures cart[i].amount >= 0 ==> AddCalls(cart, id, stock) == UpdateCalls(id, cart[i].amount + 1)
  {
    assert IndexOf(cart, id) == Some(i);
  }

  /** Adding a new product twice with stock for two gives one entry of quantity 2;
      the second call takes the increment path. */
  lemma AddTwice(cart: seq<Product>, id: int, stock: Response<int>, catalog: Response<ProductData>)
    requires forall j :: 0 <= j < |cart| ==> cart[j].id != id
    requires stock.Ok? && stock.data >= 2 && catalog.Ok? && Answers(catalog, id)
    ensures var once := After(cart, AddOutcome(cart, id, stock, catalog));
      var twice := After(once, AddOutcome(once, id, stock, catalog));
      twice == cart + [WithAmount(catalog.data, 2)]
  {
    var once := After(cart, AddOutcome(cart, id, stock, catalog));
    assert once == cart + [WithAmount(catalog.data, 1)];
    assert FirstWith(once, id, |cart|);
    assert IndexOf(once, id) == Some(|cart|);
  }

  // ----- removeProduct -----

  /** Removing a present id commits the filtered cart: no entry with the id
      remains, the others keep their order; with unique ids exactly one entry goes. */
  lemma RemovePresent(cart: seq<Product>, id: int, i: nat)
    requires FirstWith(cart, id, i)
    ensures RemoveOutcome(cart, id) == Commit(Without(cart, id))
    ensures forall p :: p in Without(cart, id) <==> p in cart && p.id != id
    ensures UniqueIds(cart) ==> Without(cart, id) == cart[..i] + cart[i + 1..]
  {
    if UniqueIds(cart) { WithoutUnique(cart, i); }
  }

  /** Removing an absent id leaves the cart unchanged and shows the removal error. */
  lemma RemoveAbsent(cart: seq<Product>, id: int)
    requires forall j :: 0 <= j < |cart| ==> cart[j].id != id
    ensures RemoveOutcome(cart, id) == Fail(RemoveFailed)
    ensures After(cart, RemoveOutcome(cart, id)) == cart
  {
  }

  // ----- updateProductAmount -----

  /** A quantity below 1 is a strict no-op: nothing changes, nothing is
      shown, no lookup is made, whatever the stock would say. */
  lemma UpdateBelowOne(cart: seq<Product>, id: int, amount: int, stock: Response<int>)
    requires amount < 1
    ensures UpdateOutcome(cart, id, amount, stock) == Skip
    ensures After(cart, UpdateOutcome(cart, id, amount, stock)) == cart
    ensures Shown(UpdateOutcome(cart, id, amount, stock)) == None
    ensures UpdateCalls(id, amount) == []
  {
  }

  /** A quantity above the stock shows the out-of-stock notification, even
      for an id not in the cart, and that notification is not the generic one. */
  lemma UpdateOutOfStock(cart: seq<Product>, id: int, amount: int, stock: Response<int>)
    requires amount >= 1 && stock.Ok? && amount > stock.data
    ensures UpdateOutcome(cart, id, amount, stock) == Fail(OutOfStock)
    ensures Message(OutOfStock) != Message(UpdateFailed)
  {
  }

  /** A quantity within the stock on a present id sets exactly that entry. */
  lemma UpdateSets(cart: seq<Product>, id: int, i: nat, amount: int, stock: Response<int>)
    requires FirstWith(cart, id, i)
    requires 1 <= amount && stock.Ok? && amount <= stock.data
    ensures UpdateOutcome(cart, id, amount, stock).Commit?
    ensures var c := UpdateOutcome(cart, id, amount, stock).newCart;
      |c| == |cart| && c[i] == cart[i].(amount := amount)
      && forall j :: 0 <= j < |cart| && j != i ==> c[j] == cart[j]
    ensures UpdateCalls(id, amount) == [StockCall(id)]
  {
  }

  /** An absent id within the stock, or a failed stock lookup, leaves the cart
      unchanged and shows the generic update error. */
  lemma UpdateFails(cart: seq<Product>, id: int, amount: int, stock: Response<int>)
    requires amount >= 1
    requires stock.Failed?
      || (amount <= stock.data && forall j :: 0 <= j < |cart| ==> cart[j].id != id)
    ensures UpdateOutcome(cart, id, amount, stock) == Fail(UpdateFailed)
    ensures After(cart, UpdateOutcome(cart, id, amount, stock)) == cart
  {
  }

  // ----- Notifications -----

  /** The four notifications have four distinct texts. */
  lemma MessagesDistinct(m: Notice, n: Notice)
    requires m != n
    ensures Message(m) != Message(n)
  {
  }

  // ----- The cart invariant over any run of operations -----

  /** One call of an operation, with what the lookups answer. */
  datatype Op =
    | AddOp(id: int, stock: Response<int>, catalog: Response<ProductData>)
    | RemoveOp(id: int)
    | UpdateOp(id: int, amount: int, stock: Response<int>)

  function Step(cart: seq<Product>, op: Op): Outcome
  {
    match op
    case AddOp(id, stock, catalog) => AddOutcome(cart, id, stock, catalog)
    case RemoveOp(id) => RemoveOutcome(cart, id)
    case UpdateOp(id, amount, stock) => UpdateOutcome(cart, id, amount, stock)
  }

  function Run(cart: seq<Product>, ops: seq<Op>): seq<Product>
    decreases |ops|
  {
    if |ops| == 0 then cart else Run(After(cart, Step(cart, ops[0])), ops[1..])
  }

  /** Every catalog answer in the run is about the product it was asked for. */
  ghost predicate CatalogAnswers(ops: seq<Op>)
  {
    forall k :: 0 <= k < |ops| && ops[k].AddOp? ==> Answers(ops[k].catalog, ops[k].id)
  }

  /** Each operation keeps ids unique (given a truthful catalog) and keeps
      every quantity at least 1 when it was before. */
  lemma StepKeepsWellFormed(cart: seq<Product>, op: Op)
    ensures UniqueIds(cart) && (op.AddOp? ==> Answers(op.catalog, op.id))
      ==> UniqueIds(After(cart, Step(cart, op)))
    ensures Positive(cart) ==> Positive(After(cart, Step(cart, op)))
  {
    var o := Step(cart, op);
    if o.Commit? {
      match op
      case AddOp(id, stock, catalog) =>
        var found := IndexOf(cart, id);
        if found.Some? {
          if UniqueIds(cart) { SetAmountKeepsUnique(cart, found.value, cart[found.value].amount + 1); }
          if Positive(cart) { SetAmountKeepsPositive(cart, found.value, cart[found.value].amount + 1); }
        } else {
          if UniqueIds(cart) && Answers(catalog, id) { AppendKeepsUnique(cart, WithAmount(catalog.data, 1)); }
        }
      case RemoveOp(id) =>
        if UniqueIds(cart) { WithoutKeepsUnique(cart, id); }
      case UpdateOp(id, amount, stock) =>
        var i := IndexOf(cart, id).value;
        if UniqueIds(cart) { SetAmountKeepsUnique(cart, i, amount); }
        if Positive(cart) { SetAmountKeepsPositive(cart, i, amount); }
    }
  }

  /** Any run of operations from a cart whose quantities are all at least 1
      ends in such a cart, whatever the lookups answer. */
  lemma {:induction false} RunKeepsPositive(cart: seq<Product>, ops: seq<Op>)
    requires Positive(cart)
    ensures Positive(Run(cart, ops))
    decreases |ops|
  {
    if |ops| > 0 {
      StepKeepsWellFormed(cart, ops[0]);
      RunKeepsPositive(After(cart, Step(cart, ops[0])), ops[1..]);
    }
  }

  /** Any run of operations from a cart with unique ids ends in such a cart,
      provided every catalog answer is about the product asked for. */
  lemma {:induction false} RunKeepsUnique(cart: seq<Product>, ops: seq<Op>)
    requires UniqueIds(cart) && CatalogAnswers(ops)
    ensures UniqueIds(Run(cart, ops))
    decreases |ops|
  {
    if |ops| > 0 {
      StepKeepsWellFormed(cart, ops[0]);
      assert CatalogAnswers(ops[1..]) by {
        forall k | 0 <= k < |ops[1..]| && ops[1..][k].AddOp?
          ensures Answers(ops[1..][k].catalog, ops[1..][k].id)
        {
          assert ops[1..][k] == ops[k + 1];
        }
      }
      RunKeepsUnique(After(cart, Step(cart, ops[0])), ops[1..]);
    }
  }

  /** A committed add or update leaves the product's entry within the stock read. */
  lemma CommitWithinStock(cart: seq<Product>, op: Op)
    requires !op.RemoveOp? && UniqueIds(cart) && Step(cart, op).Commit?
    ensures var c := Step(cart, op).newCart;
      forall j :: 0 <= j < |c| && c[j].id == op.id ==> c[j].amount <= op.stock.data
  {
  }

  // ----- Concrete scenarios -----

  /** Empty cart, stock 5 for id 7, catalog answers a shoe: the cart becomes that shoe with quantity 1. */
  lemma ScenarioFirstAdd()
    ensures var shoe := ProductData(7, "Shoe", 100.0, "x");
      After([], AddOutcome([], 7, Ok(5), Ok(shoe))) == [Product(7, "Shoe", 100.0, "x", 1)]
  {
  }

  /** Cart holding 3 of id 7 with stock 3: setting 4 is refused out of stock. */
  lemma ScenarioUpdateBeyondStock()
    ensures var cart := [Product(7, "Shoe", 100.0, "x", 3)];
      UpdateOutcome(cart, 7, 4, Ok(3)) == Fail(OutOfStock)
      && After(cart, UpdateOutcome(cart, 7, 4, Ok(3))) == cart
  {
  }
}
