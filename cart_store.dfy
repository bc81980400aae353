/**
 * src/store/index.ts: the cart store. The cart is a list of products; each action computes the
 * next list from the previous one: append, drop every item with a given id, or empty it.
 */
module CartStore {
  /**
   * A product's `id` as JavaScript compares it with `!==`: a number, a string, or missing.
   * A number and a string are never strictly equal, so `1` and `"1"` are different ids.
   */
  datatype ProductId = NumberId(n: int) | TextId(s: string) | NoId

  datatype Product = Product(id: ProductId, name: string, price: int, image: string)

  /** The store's initial `cart`. */
  const INITIAL_CART: seq<Product> := []

  /** `addProductToCart`: `[...cart, product]`. */
  function AddProductToCart(cart: seq<Product>, product: Product): (next: seq<Product>)
    ensures |next| == |cart| + 1
    ensures next[..|cart|] == cart && next[|cart|] == product
  {
    cart + [product]
  }

  /** `removeProductFromCart`: `cart.filter(item => item.id !== productId)`. */
  function RemoveProductFromCart(cart: seq<Product>, productId: ProductId): (next: seq<Product>)
    ensures |next| <= |cart|
    ensures forall p :: p in next ==> p in cart && p.id != productId
  {
    if cart == [] then []
    else if cart[0].id != productId then [cart[0]] + RemoveProductFromCart(cart[1..], productId)
    else RemoveProductFromCart(cart[1..], productId)
  }

  /** `clearCart`: the empty cart, whatever the state. */
  function ClearCart(cart: seq<Product>): (next: seq<Product>)
    ensures next == INITIAL_CART && |next| == 0
  {
    []
  }

  // ---- removal is a filter ---------------------------------------------------------

  /** Removal works piece by piece: on a concatenation it removes from each part and keeps their order. */
  lemma {:induction false} RemoveDistributes(a: seq<Product>, b: seq<Product>, productId: ProductId)
    ensures RemoveProductFromCart(a + b, productId) ==
      RemoveProductFromCart(a, productId) + RemoveProductFromCart(b, productId)
  {
    if a != [] {
      assert (a + b)[1..] == a[1..] + b;
      RemoveDistributes(a[1..], b, productId);
    } else {
      assert a + b == b;
    }
  }

  /** Each item stays or goes on its own: kept exactly when its id differs. */
  lemma RemoveSingle(p: Product, productId: ProductId)
    ensures RemoveProductFromCart([p], productId) == if p.id != productId then [p] else []
  {
    assert [p][1..] == [];
  }

  /** Every item with another id is kept, as many times as it occurs; items with the id are all gone. */
  lemma {:induction false} RemoveCounts(cart: seq<Product>, productId: ProductId)
    ensures forall p :: multiset(RemoveProductFromCart(cart, productId))[p] ==
                        (if p.id == productId then 0 else multiset(cart)[p])
  {
    if cart != [] {
      RemoveCounts(cart[1..], productId);
      assert cart == [cart[0]] + cart[1..];
    }
  }

  /** Removing an id that no item carries changes nothing. */
  lemma {:induction false} RemoveAbsent(cart: seq<Product>, productId: ProductId)
    requires forall p :: p in cart ==> p.id != productId
    ensures RemoveProductFromCart(cart, productId) == cart
  {
    if cart != [] {
      assert cart[0] in cart;
      assert forall p :: p in cart[1..] ==> p in cart;
      RemoveAbsent(cart[1..], productId);
      assert cart == [cart[0]] + cart[1..];
    }
  }

  /** Removing the same id twice is the same as removing it once. */
  lemma RemoveIdempotent(cart: seq<Product>, productId: ProductId)
    ensures RemoveProductFromCart(RemoveProductFromCart(cart, productId), productId) ==
      RemoveProductFromCart(cart, productId)
  {
    RemoveAbsent(RemoveProductFromCart(cart, productId), productId);
  }

  /** Removing one id and then another gives the same cart in either order. */
  lemma {:induction false} RemoveCommutes(cart: seq<Product>, a: ProductId, b: ProductId)
    ensures RemoveProductFromCart(RemoveProductFromCart(cart, a), b) ==
      RemoveProductFromCart(RemoveProductFromCart(cart, b), a)
  {
    if cart != [] {
      RemoveCommutes(cart[1..], a, b);
    }
  }

  /** Removing after adding: the new product goes with the others of its id, or stays at the end. */
  lemma RemoveAfterAdd(cart: seq<Product>, product: Product, productId: ProductId)
    ensures RemoveProductFromCart(AddProductToCart(cart, product), productId) ==
      if product.id == productId then RemoveProductFromCart(cart, productId)
      else AddProductToCart(RemoveProductFromCart(cart, productId), product)
  {
    RemoveDistributes(cart, [product], productId);
    RemoveSingle(product, productId);
  }

  /** Adding the same product twice keeps both copies: duplicates are allowed. */
  lemma DuplicatesKept(cart: seq<Product>, product: Product)
    ensures multiset(AddProductToCart(AddProductToCart(cart, product), product))[product] ==
      multiset(cart)[product] + 2
  {
  }

  /** A number id and the string of the same digits are different ids: removing one keeps the other. */
  lemma NumberAndTextIdsDiffer(p: Product, n: int, s: string)
    requires p.id == NumberId(n)
    ensures RemoveProductFromCart([p], TextId(s)) == [p]
  {
    RemoveSingle(p, TextId(s));
  }
}
