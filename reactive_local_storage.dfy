/**
 * A value kept in React state and mirrored to local storage under a key:
 * read once at start-up, written after every change, and refreshed when a
 * storage change is announced.
 */
module ReactiveLocalStorage {
  import opened Wrappers
  import opened Json
  import opened WebStorage

  /** The start-up read: the stored value, or `initial` for no key, no item, an empty item or bad text. */
  function InitialRead(items: map<string, string>, key: string, initial: Json): Json
  {
    if key == "" || key !in items || items[key] == "" then initial
    else match Deserialize(items[key])
      case Some(v) => v
      case None => initial
  }

  /** With no key, or nothing stored, the hook starts from `initial`; bad text falls back too. */
  lemma InitialReadFallbacks(items: map<string, string>, key: string, initial: Json)
    ensures key == "" ==> InitialRead(items, key, initial) == initial
    ensures key !in items ==> InitialRead(items, key, initial) == initial
    ensures key in items && items[key] == "" ==> InitialRead(items, key, initial) == initial
    ensures key in items && Deserialize(items[key]).None? ==> InitialRead(items, key, initial) == initial
  {
  }

  /** After a value is written, a fresh hook on the same key starts from that value. */
  lemma ReadAfterWrite(items: map<string, string>, key: string, v: Json, initial: Json)
    requires key != ""
    ensures InitialRead(items[key := Serialize(v)], key, initial) == v
  {
    DeserializeSerialize(v);
    DeserializeEmptyFails();
  }

  /** The hook's state; `local` is the browser's local storage. */
  class ReactiveValue {
    const key: string
    const local: Storage
    var value: Json

    /** The `useState` initialiser. */
    constructor (key: string, initial: Json, local: Storage)
      ensures this.key == key && this.local == local
      ensures value == InitialRead(local.items, key, initial)
    {
      this.key := key;
      this.local := local;
      if key == "" {
        value := initial;
      } else {
        var item := local.GetItem(key);
        if item.None? || item.value == "" {
          value := initial;
        } else {
          var parsed := Deserialize(item.value);
          value := if parsed.Some? then parsed.value else initial;
        }
      }
    }

    /**
     * The effect on `[key, storedValue]`: store the serialised value, then
     * announce a `storage` event to the window's listeners (`notified`). A
     * write that throws (`writeFails`, say a full quota) is swallowed and
     * announces nothing.
     */
    method WriteEffect(writeFails: bool) returns (notified: bool)
      modifies local
      ensures notified <==> key != "" && !writeFails
      ensures notified ==> local.items == old(local.items)[key := Serialize(value)]
      ensures !notified ==> local.items == old(local.items)
    {
      notified := false;
      if key != "" && !writeFails {
        local.SetItem(key, Serialize(value));
        notified := true;
      }
    }

    /** The setter followed by the write effect; the new value stays even when the write fails. */
    method Set(v: Json, writeFails: bool) returns (notified: bool)
      modifies this, local
      ensures value == v
      ensures notified <==> key != "" && !writeFails
      ensures notified ==> local.items == old(local.items)[key := Serialize(v)]
      ensures !notified ==> local.items == old(local.items)
    {
      value := v;
      notified := WriteEffect(writeFails);
    }

    /**
     * The `storage` listener: a present item replaces the value with its parse,
     * an absent one changes nothing. The parse is not guarded, so bad text
     * throws (`threw`) and leaves the value as it was.
     */
    method OnStorageEvent() returns (threw: bool)
      modifies this
      ensures key == "" ==> !threw && value == old(value)
      ensures key != "" && key !in local.items ==> !threw && value == old(value)
      ensures key != "" && key in local.items ==>
        match Deserialize(local.items[key])
        case Some(v) => !threw && value == v
        case None => threw && value == old(value)
    {
      threw := false;
      if key != "" {
        var item := local.GetItem(key);
        if item.Some? {
          var parsed := Deserialize(item.value);
          if parsed.Some? {
            value := parsed.value;
          } else {
            threw := true;
          }
        }
      }
    }
  }

  /** Mounting: the initial read, then the write effect's first run. */
  method Mount(key: string, initial: Json, local: Storage, writeFails: bool) returns (h: ReactiveValue, notified: bool)
    modifies local
    ensures fresh(h) && h.key == key && h.local == local
    ensures h.value == InitialRead(old(local.items), key, initial)
    ensures notified <==> key != "" && !writeFails
    ensures notified ==> local.items == old(local.items)[key := Serialize(h.value)]
    ensures !notified ==> local.items == old(local.items)
  {
    h := new ReactiveValue(key, initial, local);
    notified := h.WriteEffect(writeFails);
  }

  /**
   * A successful set on one hook, with the `storage` event it dispatches
   * delivered to that hook and to a second hook on the same key: both end up
   * holding the new value, and neither listener throws.
   */
  method SetSeenBySibling(a: ReactiveValue, b: ReactiveValue, v: Json) returns (threw: bool)
    requires a.key != "" && b.key == a.key && b.local == a.local
    modifies a, b, a.local
    ensures a.value == v && b.value == v && !threw
    ensures a.local.items == old(a.local.items)[a.key := Serialize(v)]
  {
    var notified := a.Set(v, false);
    DeserializeSerialize(v);
    var ownThrew := a.OnStorageEvent();
    var otherThrew := b.OnStorageEvent();
    threw := ownThrew || otherThrew;
  }
}
