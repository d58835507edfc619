/**
 * The cart engine of the restaurant detail page: the pure updaters inside
 * `addToCart` and `removeFromCart`, the cart's storage key and its
 * (de)serialisation, and the initial load.
 */
module Cart {
  import opened Wrappers
  import opened Types
  import opened Json

  /** `CartItemT`: one line of the cart; `price` in cents. */
  datatype CartItem = CartItem(id: string, name: string, price: nat, quantity: nat)

  type CartItems = seq<CartItem>

  predicate HasLine(cart: CartItems, id: string)
  {
    exists i :: 0 <= i < |cart| && cart[i].id == id
  }

  predicate IdsDistinct(cart: CartItems)
  {
    forall i, j :: 0 <= i < j < |cart| ==> cart[i].id != cart[j].id
  }

  predicate QuantitiesPositive(cart: CartItems)
  {
    forall i :: 0 <= i < |cart| ==> cart[i].quantity >= 1
  }

  /** The invariant every cart built by the page keeps. */
  predicate WellFormed(cart: CartItems)
  {
    IdsDistinct(cart) && QuantitiesPositive(cart)
  }

  /** The line a menu item gets when it enters the cart. */
  function NewLine(m: MenuItem): CartItem
  {
    CartItem(m.id, m.name, m.price, 1)
  }

  /** `prev.map(...)`: every line with the id gets one more of it. */
  function IncrementLines(cart: CartItems, id: string): (r: CartItems)
    ensures |r| == |cart|
  {
    seq(|cart|, i requires 0 <= i < |cart| =>
      if cart[i].id == id then cart[i].(quantity := cart[i].quantity + 1) else cart[i])
  }

  /** The updater of `addToCart`. */
  function AddToCart(cart: CartItems, m: MenuItem): CartItems
  {
    if HasLine(cart, m.id) then IncrementLines(cart, m.id) else cart + [NewLine(m)]
  }

  /** The updater of `removeFromCart`: `prev.filter(item => id !== item._id)`. */
  function RemoveFromCart(cart: CartItems, id: string): (r: CartItems)
    ensures |r| <= |cart|
    ensures forall i :: 0 <= i < |r| ==> r[i].id != id
  {
    if cart == [] then []
    else if cart[0].id == id then RemoveFromCart(cart[1..], id)
    else [cart[0]] + RemoveFromCart(cart[1..], id)
  }

  /** The quantity of a line with the id, 0 when there is none. */
  function QuantityOf(cart: CartItems, id: string): nat
  {
    if cart == [] then 0
    else if cart[0].id == id then cart[0].quantity
    else QuantityOf(cart[1..], id)
  }

  // ------------------------------------------------------------ add to cart

  /** Adding an item already in the cart adds one to that line and changes nothing else. */
  lemma AddExisting(cart: CartItems, m: MenuItem, k: nat)
    requires IdsDistinct(cart) && k < |cart| && cart[k].id == m.id
    ensures |AddToCart(cart, m)| == |cart|
    ensures AddToCart(cart, m)[k] == cart[k].(quantity := cart[k].quantity + 1)
    ensures forall i :: 0 <= i < |cart| && i != k ==> AddToCart(cart, m)[i] == cart[i]
  {
  }

  /** Adding an item not in the cart appends its line with quantity 1. */
  lemma AddNew(cart: CartItems, m: MenuItem)
    requires !HasLine(cart, m.id)
    ensures AddToCart(cart, m) == cart + [CartItem(m.id, m.name, m.price, 1)]
  {
  }

  /** Adding the same item twice to an empty cart gives one line of two. */
  lemma AddTwiceToEmpty(m: MenuItem)
    ensures AddToCart(AddToCart([], m), m) == [CartItem(m.id, m.name, m.price, 2)]
  {
    assert AddToCart([], m) == [NewLine(m)];
    assert [NewLine(m)][0].id == m.id;
  }

  lemma {:induction false} QuantityOfAt(cart: CartItems, k: nat)
    requires IdsDistinct(cart) && k < |cart|
    ensures QuantityOf(cart, cart[k].id) == cart[k].quantity
  {
    if k > 0 {
      assert IdsDistinct(cart[1..]);
      QuantityOfAt(cart[1..], k - 1);
    }
  }

  lemma {:induction false} QuantityOfAbsent(cart: CartItems, id: string)
    requires !HasLine(cart, id)
    ensures QuantityOf(cart, id) == 0
  {
    if cart != [] {
      assert !HasLine(cart[1..], id) by {
        forall i | 0 <= i < |cart| - 1 ensures cart[1..][i].id != id {
          assert cart[i + 1].id != id;
        }
      }
      QuantityOfAbsent(cart[1..], id);
    }
  }

  lemma QuantityOfAppend(cart: CartItems, line: CartItem)
    requires !HasLine(cart, line.id)
    ensures QuantityOf(cart + [line], line.id) == line.quantity
  {
    var c := cart + [line];
    assert c[|cart|] == line;
    QuantityOfFirst(c, |cart|);
  }

  lemma {:induction false} QuantityOfFirst(cart: CartItems, k: nat)
    requires k < |cart|
    requires forall i :: 0 <= i < k ==> cart[i].id != cart[k].id
    ensures QuantityOf(cart, cart[k].id) == cart[k].quantity
  {
    if k > 0 {
      QuantityOfFirst(cart[1..], k - 1);
    }
  }

  /** Each add raises the item's quantity in the cart by exactly one. */
  lemma AddRaisesQuantity(cart: CartItems, m: MenuItem)
    requires IdsDistinct(cart)
    ensures QuantityOf(AddToCart(cart, m), m.id) == QuantityOf(cart, m.id) + 1
  {
    if HasLine(cart, m.id) {
      var k :| 0 <= k < |cart| && cart[k].id == m.id;
      AddPreservesWellFormedIds(cart, m);
      QuantityOfAt(cart, k);
      QuantityOfAt(AddToCart(cart, m), k);
    } else {
      QuantityOfAbsent(cart, m.id);
      QuantityOfAppend(cart, NewLine(m));
    }
  }

  lemma AddPreservesWellFormedIds(cart: CartItems, m: MenuItem)
    requires IdsDistinct(cart)
    ensures IdsDistinct(AddToCart(cart, m))
  {
  }

  /** Any cart adding twice raises the item's quantity by two. */
  lemma AddTwiceRaisesByTwo(cart: CartItems, m: MenuItem)
    requires IdsDistinct(cart)
    ensures QuantityOf(AddToCart(AddToCart(cart, m), m), m.id) == QuantityOf(cart, m.id) + 2
  {
    AddRaisesQuantity(cart, m);
    AddPreservesWellFormedIds(cart, m);
    AddRaisesQuantity(AddToCart(cart, m), m);
  }

  // ------------------------------------------------------- remove from cart

  /** Removing an id with no line leaves the cart as it was. */
  lemma {:induction false} RemoveAbsent(cart: CartItems, id: string)
    requires !HasLine(cart, id)
    ensures RemoveFromCart(cart, id) == cart
  {
    if cart != [] {
      assert cart[0].id != id;
      assert !HasLine(cart[1..], id) by {
        forall i | 0 <= i < |cart| - 1 ensures cart[1..][i].id != id {
          assert cart[i + 1].id != id;
        }
      }
      RemoveAbsent(cart[1..], id);
      assert [cart[0]] + cart[1..] == cart;
    }
  }

  /** Removing the id of line k drops that whole line and keeps the others in order. */
  lemma {:induction false} RemoveLine(cart: CartItems, k: nat)
    requires IdsDistinct(cart) && k < |cart|
    ensures RemoveFromCart(cart, cart[k].id) == cart[..k] + cart[k + 1..]
  {
    var id := cart[k].id;
    if k == 0 {
      assert !HasLine(cart[1..], id) by {
        forall i | 0 <= i < |cart| - 1 ensures cart[1..][i].id != id {
          assert cart[i + 1].id != cart[0].id;
        }
      }
      RemoveAbsent(cart[1..], id);
    } else {
      assert IdsDistinct(cart[1..]);
      RemoveLine(cart[1..], k - 1);
      assert cart[1..][k - 1] == cart[k];
      assert cart[..k] + cart[k + 1..] == [cart[0]] + (cart[1..][..k - 1] + cart[1..][k..]);
    }
  }

  /** The lines kept by a removal are exactly the cart's lines with another id. */
  lemma {:induction false} RemoveKeeps(cart: CartItems, id: string)
    ensures forall x :: x in RemoveFromCart(cart, id) <==> x in cart && x.id != id
  {
    if cart != [] {
      RemoveKeeps(cart[1..], id);
      assert cart == [cart[0]] + cart[1..];
    }
  }

  // ------------------------------------------------------------- invariants

  lemma {:induction false} RemovePreservesWellFormed(cart: CartItems, id: string)
    requires WellFormed(cart)
    ensures WellFormed(RemoveFromCart(cart, id))
  {
    if cart != [] {
      var tail := cart[1..];
      assert WellFormed(tail);
      RemovePreservesWellFormed(tail, id);
      if cart[0].id != id {
        var rt := RemoveFromCart(tail, id);
        RemoveKeeps(tail, id);
        assert forall j :: 0 <= j < |rt| ==> rt[j].id != cart[0].id by {
          forall j | 0 <= j < |rt| ensures rt[j].id != cart[0].id {
            assert rt[j] in tail;
            var t :| 0 <= t < |tail| && tail[t] == rt[j];
            assert cart[t + 1] == rt[j];
          }
        }
        ConsWellFormed(cart[0], rt);
      }
    }
  }

  /** A line in front of a well-formed cart that lacks its id keeps the cart well-formed. */
  lemma ConsWellFormed(c: CartItem, rt: CartItems)
    requires WellFormed(rt) && c.quantity >= 1
    requires forall j :: 0 <= j < |rt| ==> rt[j].id != c.id
    ensures WellFormed([c] + rt)
  {
    var r := [c] + rt;
    forall i, j | 0 <= i < j < |r| ensures r[i].id != r[j].id {
      assert r[j] == rt[j - 1];
      if i > 0 { assert r[i] == rt[i - 1]; }
    }
    forall i | 0 <= i < |r| ensures r[i].quantity >= 1 {
      if i > 0 { assert r[i] == rt[i - 1]; }
    }
  }

  lemma AddPreservesWellFormed(cart: CartItems, m: MenuItem)
    requires WellFormed(cart)
    ensures WellFormed(AddToCart(cart, m))
  {
  }

  /** A user action on the cart. */
  datatype CartAction = Add(item: MenuItem) | Remove(id: string)

  function Apply(cart: CartItems, a: CartAction): CartItems
  {
    match a
    case Add(m) => AddToCart(cart, m)
    case Remove(id) => RemoveFromCart(cart, id)
  }

  function ApplyAll(cart: CartItems, actions: seq<CartAction>): CartItems
    decreases |actions|
  {
    if actions == [] then cart else ApplyAll(Apply(cart, actions[0]), actions[1..])
  }

  /** From a well-formed cart, any sequence of adds and removes keeps ids distinct and quantities positive. */
  lemma {:induction false} ActionsPreserveWellFormed(cart: CartItems, actions: seq<CartAction>)
    requires WellFormed(cart)
    ensures WellFormed(ApplyAll(cart, actions))
    decreases |actions|
  {
    if actions != [] {
      match actions[0] {
        case Add(m) => AddPreservesWellFormed(cart, m);
        case Remove(id) => RemovePreservesWellFormed(cart, id);
      }
      ActionsPreserveWellFormed(Apply(cart, actions[0]), actions[1..]);
    }
  }

  // ---------------------------------------------------------- persistence

  /** The session-storage key of a restaurant's cart. */
  function CartKey(restaurantId: string): string
  {
    "cartItems-" + restaurantId
  }

  lemma CartKeyInjective(a: string, b: string)
    ensures CartKey(a) == CartKey(b) <==> a == b
  {
    if CartKey(a) == CartKey(b) {
      assert a == CartKey(a)[10..] && b == CartKey(b)[10..];
    }
  }

  function ItemToJson(c: CartItem): Json
  {
    JObj([Member("_id", JStr(c.id)), Member("name", JStr(c.name)),
          Member("price", JNum(c.price)), Member("quantity", JNum(c.quantity))])
  }

  function CartToJson(cart: CartItems): (j: Json)
    ensures j.JArr? && |j.items| == |cart|
  {
    JArr(seq(|cart|, i requires 0 <= i < |cart| => ItemToJson(cart[i])))
  }

  function ItemFromJson(j: Json): Option<CartItem>
  {
    if j.JObj? && |j.members| == 4
       && j.members[0].key == "_id" && j.members[0].value.JStr?
       && j.members[1].key == "name" && j.members[1].value.JStr?
       && j.members[2].key == "price" && j.members[2].value.JNum?
       && j.members[3].key == "quantity" && j.members[3].value.JNum?
       && j.members[2].value.n >= 0 && j.members[3].value.n >= 0
    then Some(CartItem(j.members[0].value.s, j.members[1].value.s,
                       j.members[2].value.n, j.members[3].value.n))
    else None
  }

  function ItemsFromJson(js: seq<Json>): Option<CartItems>
  {
    if js == [] then Some([])
    else match (ItemFromJson(js[0]), ItemsFromJson(js[1..]))
      case (Some(c), Some(cs)) => Some([c] + cs)
      case _ => None
  }

  function CartFromJson(j: Json): Option<CartItems>
  {
    match j
    case JArr(js) => ItemsFromJson(js)
    case _ => None
  }

  /** The text stored under the cart key: `JSON.stringify(cartItems)`. */
  function SerializeCart(cart: CartItems): string
  {
    Serialize(CartToJson(cart))
  }

  lemma {:induction false} ItemsRoundTrip(cart: CartItems)
    ensures ItemsFromJson(CartToJson(cart).items) == Some(cart)
    decreases |cart|
  {
    var js := CartToJson(cart).items;
    if cart != [] {
      assert js[1..] == CartToJson(cart[1..]).items;
      ItemsRoundTrip(cart[1..]);
      assert ItemFromJson(js[0]) == Some(cart[0]);
      assert [cart[0]] + cart[1..] == cart;
    }
  }

  /** Parsing the stored text of a cart gives the cart back. */
  lemma CartRoundTrip(cart: CartItems)
    ensures Deserialize(SerializeCart(cart)).Some?
    ensures CartFromJson(Deserialize(SerializeCart(cart)).value) == Some(cart)
  {
    DeserializeSerialize(CartToJson(cart));
    ItemsRoundTrip(cart);
  }

  datatype LoadError = MalformedCart

  /**
   * The `useState` initialiser: the stored cart, or an empty cart when the key
   * is absent or holds the empty string. The parse is not guarded, so text
   * that is not a stored cart is an error, not an empty cart.
   */
  function LoadCart(session: map<string, string>, restaurantId: string): (r: Result<CartItems, LoadError>)
  {
    var key := CartKey(restaurantId);
    if key !in session || session[key] == "" then Ok([])
    else match Deserialize(session[key])
      case Some(j) =>
        (match CartFromJson(j)
         case Some(cart) => Ok(cart)
         case None => Err(MalformedCart))
      case None => Err(MalformedCart)
  }

  /** A fresh page load after a save starts from exactly the saved cart. */
  lemma LoadAfterSave(session: map<string, string>, restaurantId: string, cart: CartItems)
    ensures LoadCart(session[CartKey(restaurantId) := SerializeCart(cart)], restaurantId) == Ok(cart)
  {
    CartRoundTrip(cart);
    assert SerializeCart(cart) != "" by {
      assert Serialize(CartToJson(cart))[0] == 'a';
    }
  }

  /** Saving one restaurant's cart does not change what another restaurant loads. */
  lemma LoadOtherUnaffected(session: map<string, string>, restaurantId: string, cart: CartItems, other: string)
    requires other != restaurantId
    ensures LoadCart(session[CartKey(restaurantId) := SerializeCart(cart)], other) == LoadCart(session, other)
  {
    CartKeyInjective(restaurantId, other);
  }

  /**
   * Stored text that is not JSON, or JSON that does not describe a cart, fails
   * the load; nothing else does.
   */
  lemma LoadCorruptFails(session: map<string, string>, restaurantId: string)
    requires CartKey(restaurantId) in session && session[CartKey(restaurantId)] != ""
    ensures Deserialize(session[CartKey(restaurantId)]).None? ==> LoadCart(session, restaurantId) == Err(MalformedCart)
    ensures Deserialize(session[CartKey(restaurantId)]).Some? && CartFromJson(Deserialize(session[CartKey(restaurantId)]).value).None?
            ==> LoadCart(session, restaurantId) == Err(MalformedCart)
    ensures LoadCart(session, restaurantId).Err? ==>
            || Deserialize(session[CartKey(restaurantId)]).None?
            || CartFromJson(Deserialize(session[CartKey(restaurantId)]).value).None?
  {
  }

  /** An illustration of the above: truncated text, a lone `{`, fails the load. */
  lemma LoadTruncatedFails(restaurantId: string)
    ensures LoadCart(map[CartKey(restaurantId) := "{"], restaurantId) == Err(MalformedCart)
  {
  }
}
