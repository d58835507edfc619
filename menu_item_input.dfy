/**
 * One menu row of the restaurant form, with its image cached in local storage
 * under a key built from the row's name and price as typed.
 */
module MenuItemInput {
  import opened Wrappers
  import opened Decimal
  import opened WebStorage
  import opened ManageRestaurantForm

  /** The price as a template literal prints it: typed text as is, a number in decimal. */
  function PriceText(p: PriceField): string
  {
    match p
    case Text(s) => s
    case Whole(n) => IntToString(n)
  }

  /** JavaScript truthiness of the price: the empty text and the number 0 are false. */
  predicate PriceTruthy(p: PriceField)
  {
    match p
    case Text(s) => s != ""
    case Whole(n) => n != 0
  }

  function ImageKey(name: string, price: PriceField): string
  {
    "menuItem_" + name + "_" + PriceText(price)
  }

  /** The row's cache key, or None when the name or the price is falsy. */
  function CacheKey(row: MenuRow): (r: Option<string>)
    ensures r.Some? <==> row.name != "" && PriceTruthy(row.price)
    ensures r.Some? ==> r.value == ImageKey(row.name, row.price)
  {
    if row.name != "" && PriceTruthy(row.price) then Some(ImageKey(row.name, row.price)) else None
  }

  /** The text "0" is a truthy price, the number 0 is not. */
  lemma ZeroTextIsTruthy(name: string)
    requires name != ""
    ensures CacheKey(MenuRow(name, Text("0"))) == Some("menuItem_" + name + "_0")
    ensures CacheKey(MenuRow(name, Whole(0))) == None
    ensures CacheKey(MenuRow(name, Text(""))) == None
  {
    assert ImageKey(name, Text("0")) == "menuItem_" + name + "_0";
  }

  /** The image shown after the effect reads the cache for `row`. */
  function Refreshed(items: map<string, string>, row: MenuRow, shown: string): string
  {
    match CacheKey(row)
    case Some(key) => if key in items && items[key] != "" then items[key] else shown
    case None => shown
  }

  /** A row whose key holds nothing keeps whatever image it showed before. */
  lemma RefreshKeepsOldImage(items: map<string, string>, row: MenuRow, shown: string)
    requires CacheKey(row).None? || CacheKey(row).value !in items
    ensures Refreshed(items, row, shown) == shown
  {
  }

  /** A row whose key holds an image shows that image. */
  lemma RefreshShowsStored(items: map<string, string>, row: MenuRow, shown: string)
    requires CacheKey(row).Some? && CacheKey(row).value in items && items[CacheKey(row).value] != ""
    ensures Refreshed(items, row, shown) == items[ImageKey(row.name, row.price)]
  {
  }

  class RowInput {
    const local: Storage
    var imagePath: string

    constructor (local: Storage)
      ensures this.local == local && imagePath == ""
    {
      this.local := local;
      imagePath := "";
    }

    /** The effect on `[name, price]`: a guarded read that only ever sets the image. */
    method Refresh(row: MenuRow)
      modifies this
      ensures imagePath == Refreshed(local.items, row, old(imagePath))
    {
      match CacheKey(row)
      case Some(key) =>
        var stored := local.GetItem(key);
        if stored.Some? && stored.value != "" {
          imagePath := stored.value;
        }
      case None =>
    }

    /**
     * `handleImageUpload`: the data URL of the first selected file is stored
     * under the row's key and shown; with no file, or a falsy name or price,
     * nothing happens. The write is not guarded: when it throws (`writeFails`,
     * say an image larger than the quota) the exception escapes (`threw`)
     * before the preview is set, and nothing changes.
     */
    method HandleImageUpload(row: MenuRow, files: seq<string>, writeFails: bool) returns (threw: bool)
      modifies this, local
      ensures threw <==> files != [] && CacheKey(row).Some? && writeFails
      ensures files == [] || CacheKey(row).None? || writeFails ==>
        local.items == old(local.items) && imagePath == old(imagePath)
      ensures files != [] && CacheKey(row).Some? && !writeFails ==>
        local.items == old(local.items)[ImageKey(row.name, row.price) := files[0]] && imagePath == files[0]
    {
      threw := false;
      if files != [] {
        var path := files[0];
        if row.name != "" && PriceTruthy(row.price) {
          if writeFails {
            threw := true;
          } else {
            local.SetItem(ImageKey(row.name, row.price), path);
            imagePath := path;
          }
        }
      }
    }
  }

  /** After an upload, reading the row back finds the uploaded image. */
  lemma UploadThenRefresh(items: map<string, string>, row: MenuRow, path: string, shown: string)
    requires CacheKey(row).Some? && path != ""
    ensures Refreshed(items[ImageKey(row.name, row.price) := path], row, shown) == path
  {
  }
}
