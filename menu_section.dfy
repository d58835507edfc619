/** The menu block of the restaurant form: removing a row and adding a blank one. */
module MenuSection {
  import opened Wrappers
  import opened WebStorage
  import opened ManageRestaurantForm
  import opened MenuItemInput

  /** The cache after removing a row: its key goes when it has one, nothing else changes. */
  function AfterRemove(items: map<string, string>, row: MenuRow): map<string, string>
  {
    match CacheKey(row)
    case Some(key) => items - {key}
    case None => items
  }

  /** At most one entry is deleted, only when the row's name and price are truthy. */
  lemma AfterRemoveFrame(items: map<string, string>, row: MenuRow)
    ensures AfterRemove(items, row).Keys <= items.Keys
    ensures |items.Keys - AfterRemove(items, row).Keys| <= 1
    ensures forall k :: k in AfterRemove(items, row) ==> AfterRemove(items, row)[k] == items[k]
    ensures CacheKey(row).None? ==> AfterRemove(items, row) == items
    ensures CacheKey(row).Some? ==> AfterRemove(items, row).Keys == items.Keys - {CacheKey(row).value}
  {
    match CacheKey(row)
    case Some(key) =>
      assert items.Keys - AfterRemove(items, row).Keys <= {key};
    case None =>
      assert items.Keys - AfterRemove(items, row).Keys == {};
  }

  /** Dropping row i keeps every other row in its relative order. */
  function DropRow(rows: seq<MenuRow>, i: nat): (r: seq<MenuRow>)
    requires i < |rows|
    ensures |r| == |rows| - 1
    ensures forall k :: 0 <= k < i ==> r[k] == rows[k]
    ensures forall k :: i <= k < |r| ==> r[k] == rows[k + 1]
  {
    rows[..i] + rows[i + 1..]
  }

  /** An upload followed by removing the same row leaves no entry under its key. */
  lemma UploadThenRemove(items: map<string, string>, row: MenuRow, path: string)
    requires CacheKey(row).Some?
    ensures ImageKey(row.name, row.price) !in AfterRemove(items[ImageKey(row.name, row.price) := path], row)
  {
  }

  const BlankRow: MenuRow := MenuRow("", Text(""))

  class Section {
    const local: Storage
    var rows: seq<MenuRow>

    constructor (local: Storage, rows: seq<MenuRow>)
      ensures this.local == local && this.rows == rows
    {
      this.local := local;
      this.rows := rows;
    }

    /** `removeMenuItem` of row i: the guarded cache delete, then `remove(index)`. */
    method RemoveMenuItem(i: nat)
      requires i < |rows|
      modifies this, local
      ensures rows == DropRow(old(rows), i)
      ensures local.items == AfterRemove(old(local.items), old(rows)[i])
    {
      var row := rows[i];
      if row.name != "" && PriceTruthy(row.price) {
        local.RemoveItem(ImageKey(row.name, row.price));
      }
      rows := rows[..i] + rows[i + 1..];
    }

    /** "Add items": a blank row at the end. */
    method AppendBlank()
      modifies this
      ensures rows == old(rows) + [BlankRow]
    {
      rows := rows + [BlankRow];
    }
  }

  /** A blank row has no cache key and does not pass validation until filled in. */
  lemma BlankRowUnfilled()
    ensures CacheKey(BlankRow).None?
    ensures !RowValid(BlankRow)
  {
  }
}
