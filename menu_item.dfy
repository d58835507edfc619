/**
 * The menu item card on the detail page: its price label, and the image it
 * looks up in local storage under a key built from the price in cents.
 */
module MenuItemCard {
  import opened Wrappers
  import opened Types
  import opened Decimal
  import opened WebStorage
  import opened ManageRestaurantForm
  import opened MenuItemInput

  /** The card's key: `String(price / 100)` after the name. */
  function CardKey(m: MenuItem): string
  {
    "menuItem_" + m.name + "_" + JsNumberText(m.price)
  }

  /** `$` and the price with exactly two decimals. */
  function PriceLabel(m: MenuItem): string
  {
    "$" + ToFixed2(m.price)
  }

  lemma PriceLabelReadsBack(m: MenuItem)
    ensures PriceLabel(m)[0] == '$'
    ensures ParseFixed2(PriceLabel(m)[1..]) == Some(m.price)
  {
    assert PriceLabel(m)[1..] == ToFixed2(m.price);
    ToFixed2RoundTrip(m.price);
  }

  /** The card's key prints 850 cents as "8.5" and 800 cents as "8". */
  lemma CardKeyExamples(name: string)
    ensures CardKey(MenuItem("", name, 850)) == "menuItem_" + name + "_8.5"
    ensures CardKey(MenuItem("", name, 800)) == "menuItem_" + name + "_8"
  {
    assert NatToString(8) == "8";
    assert DigitChar(5) == '5';
  }

  lemma {:induction false} KeysWithSameNameAgree(name: string, a: string, b: string)
    ensures "menuItem_" + name + "_" + a == "menuItem_" + name + "_" + b <==> a == b
  {
    var p := "menuItem_" + name + "_";
    if p + a == p + b {
      assert a == (p + a)[|p|..];
      assert b == (p + b)[|p|..];
    }
  }

  /**
   * The image key of the form row loaded for this item is the key the card
   * reads exactly when the price is a whole number of dollars. (Below one
   * dollar the loaded price is 0, which is falsy, so the form writes nothing.)
   */
  lemma KeysAgreeIff(m: MenuItem)
    ensures ImageKey(m.name, Whole(LoadedPrice(m.price))) == CardKey(m) <==> m.price % 100 == 0
  {
    KeysWithSameNameAgree(m.name, IntToString(m.price / 100), JsNumberText(m.price));
    JsNumberTextHasPoint(m.price);
    NatToStringShape(m.price / 100);
    if m.price % 100 != 0 {
      assert '.' !in IntToString(m.price / 100) by {
        assert forall k :: 0 <= k < |NatToString(m.price / 100)| ==> IsDigit(NatToString(m.price / 100)[k]);
      }
    }
  }

  class Card {
    const item: MenuItem
    var imagePath: string
    var addToCartCalls: nat

    constructor (item: MenuItem)
      ensures this.item == item && imagePath == "" && addToCartCalls == 0
    {
      this.item := item;
      imagePath := "";
      addToCartCalls := 0;
    }

    /** The effect on `menuItem`: show the stored image when one is stored under the key. */
    method LoadImage(local: Storage)
      modifies this
      ensures addToCartCalls == old(addToCartCalls)
      ensures CardKey(item) in local.items && local.items[CardKey(item)] != "" ==>
        imagePath == local.items[CardKey(item)]
      ensures !(CardKey(item) in local.items && local.items[CardKey(item)] != "") ==>
        imagePath == old(imagePath)
    {
      var stored := local.GetItem(CardKey(item));
      if stored.Some? && stored.value != "" {
        imagePath := stored.value;
      }
    }

    /** A click on the card calls `addToCart` once. */
    method Click()
      modifies this
      ensures addToCartCalls == old(addToCartCalls) + 1 && imagePath == old(imagePath)
    {
      addToCartCalls := addToCartCalls + 1;
    }

    predicate ShowsImage()
      reads this
    {
      imagePath != ""
    }
  }
}
