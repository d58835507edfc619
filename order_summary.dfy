/**
 * The order summary card: the total in integer cents and the three amounts it
 * displays with two decimals (the header total, each line, the delivery charge).
 */
module OrderSummary {
  import opened Wrappers
  import opened Types
  import opened Cart
  import opened Decimal

  /** `price * quantity` of one line, in cents. */
  function LineAmount(c: CartItem): nat
  {
    c.price * c.quantity
  }

  /** The `reduce` in `getTotalCost`: the sum of the line amounts. */
  function Subtotal(cart: CartItems): nat
  {
    if cart == [] then 0 else LineAmount(cart[0]) + Subtotal(cart[1..])
  }

  /** `total + restaurant.deliveryPrice`, in cents. */
  function TotalCost(cart: CartItems, restaurant: Restaurant): nat
  {
    Subtotal(cart) + restaurant.deliveryPrice
  }

  /** The header amount: `(totalWithDelivery / 100).toFixed(2)`. */
  function TotalText(cart: CartItems, restaurant: Restaurant): string
  {
    ToFixed2(TotalCost(cart, restaurant))
  }

  /** The amount beside one line. */
  function LineText(c: CartItem): string
  {
    ToFixed2(LineAmount(c))
  }

  /** The delivery charge row. */
  function DeliveryText(restaurant: Restaurant): string
  {
    ToFixed2(restaurant.deliveryPrice)
  }

  lemma {:induction false} SubtotalAppend(a: CartItems, b: CartItems)
    ensures Subtotal(a + b) == Subtotal(a) + Subtotal(b)
    decreases |a|
  {
    if a == [] {
      assert a + b == b;
    } else {
      assert (a + b)[1..] == a[1..] + b;
      SubtotalAppend(a[1..], b);
    }
  }

  /** An empty cart costs exactly the delivery price. */
  lemma EmptyCartTotal(restaurant: Restaurant)
    ensures TotalCost([], restaurant) == restaurant.deliveryPrice
    ensures TotalText([], restaurant) == ToFixed2(restaurant.deliveryPrice)
  {
  }

  /** The worked example: 850 x 2 + 300 x 1 + 199 = 2199 cents, shown as 21.99. */
  lemma WorkedExample(restaurant: Restaurant)
    requires restaurant.deliveryPrice == 199
    ensures TotalCost([CartItem("a", "A", 850, 2), CartItem("b", "B", 300, 1)], restaurant) == 2199
    ensures TotalText([CartItem("a", "A", 850, 2), CartItem("b", "B", 300, 1)], restaurant) == "21.99"
  {
    var cart := [CartItem("a", "A", 850, 2), CartItem("b", "B", 300, 1)];
    assert cart[1..][1..] == [];
    assert NatToString(21) == "21" by {
      assert NatToString(2) == "2";
      assert NatToString(1) == "1";
    }
    assert TwoDigits(99) == "99" by {
      assert NatToString(9) == "9";
    }
  }

  /** Changing one line changes the sum by the difference of that line's amounts. */
  lemma {:induction false} SubtotalPointUpdate(a: CartItems, b: CartItems, k: nat)
    requires |a| == |b| && k < |a|
    requires forall i :: 0 <= i < |a| && i != k ==> a[i] == b[i]
    ensures Subtotal(b) + LineAmount(a[k]) == Subtotal(a) + LineAmount(b[k])
    decreases |a|
  {
    if k == 0 {
      assert a[1..] == b[1..];
    } else {
      SubtotalPointUpdate(a[1..], b[1..], k - 1);
    }
  }

  lemma OneMoreUnit(c: CartItem)
    ensures LineAmount(c.(quantity := c.quantity + 1)) == LineAmount(c) + c.price
  {
    calc {
      LineAmount(c.(quantity := c.quantity + 1));
      c.price * (c.quantity + 1);
      c.price * c.quantity + c.price;
    }
  }

  lemma SubtotalIncrementOnly(cart: CartItems, k: nat)
    requires IdsDistinct(cart) && k < |cart|
    ensures Subtotal(IncrementLines(cart, cart[k].id)) == Subtotal(cart) + cart[k].price
  {
    var line := cart[k];
    var inc := IncrementLines(cart, line.id);
    forall i | 0 <= i < |cart| && i != k
      ensures inc[i] == cart[i]
    {
      assert cart[i].id != line.id;
    }
    assert inc[k] == line.(quantity := line.quantity + 1);
    OneMoreUnit(line);
    SubtotalPointUpdate(cart, inc, k);
    assert LineAmount(inc[k]) == LineAmount(line) + line.price;
  }

  /** Adding an item already in the cart raises the total by that line's unit price. */
  lemma AddExistingRaisesTotal(cart: CartItems, m: MenuItem, k: nat, restaurant: Restaurant)
    requires IdsDistinct(cart) && k < |cart| && cart[k].id == m.id
    ensures TotalCost(AddToCart(cart, m), restaurant) == TotalCost(cart, restaurant) + cart[k].price
  {
    SubtotalIncrementOnly(cart, k);
  }

  /** Adding an item not in the cart raises the total by the item's price. */
  lemma AddNewRaisesTotal(cart: CartItems, m: MenuItem, restaurant: Restaurant)
    requires !HasLine(cart, m.id)
    ensures TotalCost(AddToCart(cart, m), restaurant) == TotalCost(cart, restaurant) + m.price
  {
    SubtotalAppend(cart, [NewLine(m)]);
  }

  /** Removing a line lowers the total by that line's price times quantity. */
  lemma RemoveLowersTotal(cart: CartItems, k: nat, restaurant: Restaurant)
    requires IdsDistinct(cart) && k < |cart|
    ensures TotalCost(RemoveFromCart(cart, cart[k].id), restaurant)
         == TotalCost(cart, restaurant) - cart[k].price * cart[k].quantity
  {
    var line := cart[k];
    RemoveLine(cart, k);
    SubtotalRemoveAt(cart, k);
    assert Subtotal(RemoveFromCart(cart, line.id)) == Subtotal(cart) - LineAmount(line);
  }

  /** The total does not depend on the order of the lines. */
  lemma {:induction false} TotalOrderIndependent(a: CartItems, b: CartItems)
    requires multiset(a) == multiset(b)
    ensures Subtotal(a) == Subtotal(b)
    decreases |a|
  {
    if a == [] {
      assert |b| == |multiset(b)| == 0;
    } else {
      var x := a[0];
      assert x in multiset(b);
      var k :| 0 <= k < |b| && b[k] == x;
      var rest := b[..k] + b[k + 1..];
      RestAfterMatch(a, b, k);
      TotalOrderIndependent(a[1..], rest);
      SubtotalRemoveAt(b, k);
    }
  }

  /** Taking the same line out of two permutations of each other leaves permutations of each other. */
  lemma RestAfterMatch(a: CartItems, b: CartItems, k: nat)
    requires a != [] && k < |b| && b[k] == a[0]
    requires multiset(a) == multiset(b)
    ensures multiset(a[1..]) == multiset(b[..k] + b[k + 1..])
  {
    var x, rest := a[0], b[..k] + b[k + 1..];
    assert b == b[..k] + [x] + b[k + 1..];
    assert a == [x] + a[1..];
    assert multiset(b) == multiset(b[..k]) + multiset([x]) + multiset(b[k + 1..]);
    assert multiset(rest) == multiset(b[..k]) + multiset(b[k + 1..]);
    assert multiset(a) == multiset([x]) + multiset(a[1..]);
    forall y
      ensures multiset(a[1..])[y] == multiset(rest)[y]
    {
      assert multiset(a)[y] == multiset([x])[y] + multiset(a[1..])[y];
      assert multiset(b)[y] == multiset([x])[y] + multiset(rest)[y];
    }
  }

  /** The sum is line k's amount plus the sum of the other lines. */
  lemma SubtotalRemoveAt(b: CartItems, k: nat)
    requires k < |b|
    ensures Subtotal(b) == LineAmount(b[k]) + Subtotal(b[..k] + b[k + 1..])
  {
    var front, line, back := b[..k], b[k], b[k + 1..];
    assert b == front + ([line] + back);
    SubtotalAppend(front, [line] + back);
    SubtotalAppend(front, back);
    assert ([line] + back)[0] == line && ([line] + back)[1..] == back;
  }

  /** Each displayed amount read back as cents; None where one does not read. */
  function ReadEach(texts: seq<string>): (r: seq<Option<nat>>)
    ensures |r| == |texts|
  {
    seq(|texts|, i requires 0 <= i < |texts| => ParseFixed2(texts[i]))
  }

  /** The sum of the read-back amounts; None if any of them did not read. */
  function SumRead(xs: seq<Option<nat>>): Option<nat>
  {
    if xs == [] then Some(0)
    else
      var rest := SumRead(xs[1..]);
      if xs[0].Some? && rest.Some? then Some(xs[0].value + rest.value) else None
  }

  /** The sum of displayed amounts read back as cents; None if one does not read. */
  function ReadAmounts(texts: seq<string>): Option<nat>
  {
    SumRead(ReadEach(texts))
  }

  /** The amount column of the summary: one entry per cart line. */
  function LineTexts(cart: CartItems): seq<string>
  {
    seq(|cart|, i requires 0 <= i < |cart| => LineText(cart[i]))
  }

  /** The line amounts, each read back, sum to the subtotal. */
  lemma {:induction false} LineAmountsAddUp(cart: CartItems, xs: seq<Option<nat>>)
    requires |xs| == |cart|
    requires forall i :: 0 <= i < |cart| ==> xs[i] == Some(LineAmount(cart[i]))
    ensures SumRead(xs) == Some(Subtotal(cart))
    decreases |cart|
  {
    if cart != [] {
      LineAmountsAddUp(cart[1..], xs[1..]);
    }
  }

  /** Every displayed line amount reads back as that line's cents, and they add up to the subtotal. */
  lemma LineTextsAddUp(cart: CartItems)
    ensures ReadAmounts(LineTexts(cart)) == Some(Subtotal(cart))
  {
    var xs := ReadEach(LineTexts(cart));
    forall i | 0 <= i < |cart|
      ensures xs[i] == Some(LineAmount(cart[i]))
    {
      ToFixed2RoundTrip(LineAmount(cart[i]));
    }
    LineAmountsAddUp(cart, xs);
  }

  /** The displayed line amounts and delivery charge add up to the displayed total. */
  lemma DisplayedAmountsAddUp(cart: CartItems, restaurant: Restaurant)
    ensures ReadAmounts([DeliveryText(restaurant)] + LineTexts(cart)) == ParseFixed2(TotalText(cart, restaurant))
  {
    ShownAmountsSum(cart, restaurant);
    ToFixed2RoundTrip(TotalCost(cart, restaurant));
  }

  lemma ShownAmountsSum(cart: CartItems, restaurant: Restaurant)
    ensures ReadAmounts([DeliveryText(restaurant)] + LineTexts(cart)) == Some(TotalCost(cart, restaurant))
  {
    ToFixed2RoundTrip(restaurant.deliveryPrice);
    LineTextsAddUp(cart);
    ReadPrepended(DeliveryText(restaurant), LineTexts(cart), restaurant.deliveryPrice, Subtotal(cart));
  }

  /** One more amount in front adds its value to the sum. */
  lemma ReadPrepended(t: string, ts: seq<string>, x: nat, sum: nat)
    requires ParseFixed2(t) == Some(x) && ReadAmounts(ts) == Some(sum)
    ensures ReadAmounts([t] + ts) == Some(x + sum)
  {
    var xs := ReadEach([t] + ts);
    assert xs[0] == Some(x);
    assert xs[1..] == ReadEach(ts);
  }
}
