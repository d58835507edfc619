/**
 * The restaurant detail page: the cart it holds, mirrored to session storage
 * under the restaurant's key, and the checkout request it builds from it.
 */
module DetailPage {
  import opened Wrappers
  import opened Types
  import opened Decimal
  import opened Json
  import opened WebStorage
  import opened Cart
  import opened UserProfileForm

  /** One line of the checkout request: no price is sent. */
  datatype CheckoutLine = CheckoutLine(menuItemId: string, name: string, quantity: string)

  /** Where to deliver; `email` is passed through as the form holds it. */
  datatype DeliveryDetails = DeliveryDetails(name: string, addressLine1: string, city: string, email: Option<string>)

  datatype CheckoutRequest = CheckoutRequest(
    cartItems: seq<CheckoutLine>,
    restaurantId: string,
    deliveryDetails: DeliveryDetails)

  /** The request's `cartItems`: one entry per line, in cart order. */
  function CheckoutLines(cart: CartItems): (r: seq<CheckoutLine>)
    ensures |r| == |cart|
  {
    seq(|cart|, i requires 0 <= i < |cart| =>
      CheckoutLine(cart[i].id, cart[i].name, NatToString(cart[i].quantity)))
  }

  /** `onCheckout`: nothing when the restaurant is not loaded, otherwise the request. */
  function BuildCheckout(restaurant: Option<Restaurant>, cart: CartItems, form: UserFormData): (r: Option<CheckoutRequest>)
    ensures r.Some? <==> restaurant.Some?
    ensures r.Some? ==> r.value.restaurantId == restaurant.value.id && |r.value.cartItems| == |cart|
  {
    match restaurant
    case None => None
    case Some(rest) =>
      Some(CheckoutRequest(
        CheckoutLines(cart),
        rest.id,
        DeliveryDetails(form.name, form.addressLine1, form.country, form.email)))
  }

  /** Each line names its menu item and carries its quantity as decimal text that reads back. */
  lemma CheckoutLinesFaithful(cart: CartItems, i: nat)
    requires i < |cart|
    ensures CheckoutLines(cart)[i].menuItemId == cart[i].id
    ensures CheckoutLines(cart)[i].name == cart[i].name
    ensures AllDigits(CheckoutLines(cart)[i].quantity)
    ensures DigitsValue(CheckoutLines(cart)[i].quantity) == cart[i].quantity
  {
    NatToStringShape(cart[i].quantity);
    NatToStringRoundTrip(cart[i].quantity);
  }

  /** No price reaches the request: carts that differ only in prices give the same lines. */
  lemma CheckoutIgnoresPrices(a: CartItems, b: CartItems)
    requires |a| == |b|
    requires forall i :: 0 <= i < |a| ==> a[i].(price := 0) == b[i].(price := 0)
    ensures CheckoutLines(a) == CheckoutLines(b)
  {
    forall i | 0 <= i < |a|
      ensures CheckoutLines(a)[i] == CheckoutLines(b)[i]
    {
      assert a[i].(price := 0) == b[i].(price := 0);
    }
  }

  /** The delivery city is taken from the form's country, not from its city. */
  lemma DeliveryCityIsCountry(restaurant: Restaurant, cart: CartItems, form: UserFormData)
    ensures BuildCheckout(Some(restaurant), cart, form).value.deliveryDetails.city == form.country
    ensures form.city != form.country ==>
      BuildCheckout(Some(restaurant), cart, form).value.deliveryDetails.city != form.city
  {
  }

  /** The page state: the cart in React state and the shared session storage. */
  class Page {
    const restaurantId: string
    const session: Storage
    var cartItems: CartItems

    /** The stored cart and the cart in state agree. */
    predicate Synced()
      reads this, session
    {
      LoadCart(session.items, restaurantId) == Ok(cartItems)
    }

    constructor (restaurantId: string, session: Storage, initial: CartItems)
      ensures this.restaurantId == restaurantId && this.session == session
      ensures cartItems == initial
    {
      this.restaurantId := restaurantId;
      this.session := session;
      cartItems := initial;
    }

    /** `addToCart`: update the cart and write it under this restaurant's key. */
    method AddToCart(m: MenuItem)
      modifies this, session
      ensures cartItems == Cart.AddToCart(old(cartItems), m)
      ensures session.items == old(session.items)[CartKey(restaurantId) := SerializeCart(cartItems)]
      ensures Synced()
      ensures WellFormed(old(cartItems)) ==> WellFormed(cartItems)
    {
      var updated := Cart.AddToCart(cartItems, m);
      session.SetItem(CartKey(restaurantId), SerializeCart(updated));
      cartItems := updated;
      LoadAfterSave(old(session.items), restaurantId, updated);
      if WellFormed(old(cartItems)) {
        AddPreservesWellFormed(old(cartItems), m);
      }
    }

    /** `removeFromCart`: drop the line and write the cart under this restaurant's key. */
    method RemoveFromCart(line: CartItem)
      modifies this, session
      ensures cartItems == Cart.RemoveFromCart(old(cartItems), line.id)
      ensures session.items == old(session.items)[CartKey(restaurantId) := SerializeCart(cartItems)]
      ensures Synced()
      ensures WellFormed(old(cartItems)) ==> WellFormed(cartItems)
    {
      var updated := Cart.RemoveFromCart(cartItems, line.id);
      session.SetItem(CartKey(restaurantId), SerializeCart(updated));
      cartItems := updated;
      LoadAfterSave(old(session.items), restaurantId, updated);
      if WellFormed(old(cartItems)) {
        RemovePreservesWellFormed(old(cartItems), line.id);
      }
    }
  }

  /**
   * Mounting the page: the initial cart is what the session holds for this
   * restaurant (empty when nothing is stored); corrupt stored text fails.
   */
  method Mount(restaurantId: string, session: Storage) returns (r: Result<Page, LoadError>)
    ensures r.Ok? <==> LoadCart(session.items, restaurantId).Ok?
    ensures r.Ok? ==> fresh(r.value) && r.value.restaurantId == restaurantId && r.value.session == session
    ensures r.Ok? ==> r.value.cartItems == LoadCart(session.items, restaurantId).value && r.value.Synced()
  {
    match LoadCart(session.items, restaurantId)
    case Ok(cart) =>
      var page := new Page(restaurantId, session, cart);
      r := Ok(page);
    case Err(e) =>
      r := Err(e);
  }
}
