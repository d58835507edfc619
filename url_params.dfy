/**
 * `URLSearchParams` before percent-encoding: an ordered list of name/value
 * pairs with the `set` and `append` operations of the WHATWG URL Standard
 * (section 6.2, "Interface URLSearchParams").
 */
module UrlParams {
  import opened Wrappers

  type Entry = (string, string)

  function Names(entries: seq<Entry>): set<string>
  {
    set i | 0 <= i < |entries| :: entries[i].0
  }

  lemma NamesCons(e: Entry, tail: seq<Entry>)
    ensures Names([e] + tail) == {e.0} + Names(tail)
  {
    var s := [e] + tail;
    forall n | n in Names(s) ensures n in {e.0} + Names(tail) {
      var i :| 0 <= i < |s| && s[i].0 == n;
      if i > 0 { assert tail[i - 1].0 == n; }
    }
    forall n | n in {e.0} + Names(tail) ensures n in Names(s) {
      if n == e.0 {
        assert s[0].0 == n;
      } else {
        var i :| 0 <= i < |tail| && tail[i].0 == n;
        assert s[i + 1].0 == n;
      }
    }
  }

  lemma NamesSplit(entries: seq<Entry>)
    requires entries != []
    ensures Names(entries) == {entries[0].0} + Names(entries[1..])
  {
    assert entries == [entries[0]] + entries[1..];
    NamesCons(entries[0], entries[1..]);
  }

  /** `get`: the value of the first pair with that name. */
  function Get(entries: seq<Entry>, name: string): (r: Option<string>)
    ensures r.Some? <==> name in Names(entries)
  {
    if entries == [] then None
    else if entries[0].0 == name then Some(entries[0].1)
    else
      NamesSplit(entries);
      Get(entries[1..], name)
  }

  lemma GetSkip(entries: seq<Entry>, name: string)
    requires entries != [] && entries[0].0 != name
    ensures Get(entries, name) == Get(entries[1..], name)
  {
  }

  function RemoveAll(entries: seq<Entry>, name: string): (r: seq<Entry>)
    ensures name !in Names(r)
    ensures Names(r) == Names(entries) - {name}
  {
    if entries == [] then []
    else
      NamesSplit(entries);
      var tail := RemoveAll(entries[1..], name);
      if entries[0].0 == name then tail
      else
        NamesCons(entries[0], tail);
        [entries[0]] + tail
  }

  function ReplaceFirst(entries: seq<Entry>, name: string, value: string): (r: seq<Entry>)
    requires name in Names(entries)
  {
    NamesSplit(entries);
    if entries[0].0 == name then [(name, value)] + RemoveAll(entries[1..], name)
    else [entries[0]] + ReplaceFirst(entries[1..], name, value)
  }

  /**
   * `set`: the first pair with the name gets the value and the others with
   * that name go; without such a pair, the pair is appended.
   */
  function SetEntry(entries: seq<Entry>, name: string, value: string): seq<Entry>
  {
    if name in Names(entries) then ReplaceFirst(entries, name, value)
    else entries + [(name, value)]
  }

  lemma NamesAppend(entries: seq<Entry>, e: Entry)
    ensures Names(entries + [e]) == Names(entries) + {e.0}
  {
    var s := entries + [e];
    forall n | n in Names(s) ensures n in Names(entries) + {e.0} {
      var i :| 0 <= i < |s| && s[i].0 == n;
      if i < |entries| { assert entries[i].0 == n; }
    }
    forall n | n in Names(entries) + {e.0} ensures n in Names(s) {
      if n == e.0 {
        assert s[|entries|].0 == n;
      } else {
        var i :| 0 <= i < |entries| && entries[i].0 == n;
        assert s[i].0 == n;
      }
    }
  }

  /** After `set`, `get` of that name answers the value just set. */
  lemma {:induction false} GetAfterSet(entries: seq<Entry>, name: string, value: string)
    ensures Get(SetEntry(entries, name, value), name) == Some(value)
  {
    if name !in Names(entries) {
      GetAppended(entries, name, value, name);
    } else {
      GetReplaceFirst(entries, name, value, name);
    }
  }

  /** `set` of one name leaves `get` of every other name as it was. */
  lemma {:induction false} GetOtherAfterSet(entries: seq<Entry>, name: string, value: string, other: string)
    requires other != name
    ensures Get(SetEntry(entries, name, value), other) == Get(entries, other)
  {
    if name !in Names(entries) {
      GetAppended(entries, name, value, other);
    } else {
      GetReplaceFirst(entries, name, value, other);
    }
  }

  lemma {:induction false} GetAppended(entries: seq<Entry>, name: string, value: string, probe: string)
    requires name !in Names(entries)
    ensures Get(entries + [(name, value)], probe)
         == if probe == name then Some(value) else Get(entries, probe)
    decreases |entries|
  {
    if entries != [] {
      NamesSplit(entries);
      assert (entries + [(name, value)])[1..] == entries[1..] + [(name, value)];
      GetAppended(entries[1..], name, value, probe);
    }
  }

  lemma {:induction false} GetRemoveAll(entries: seq<Entry>, name: string, probe: string)
    requires probe != name
    ensures Get(RemoveAll(entries, name), probe) == Get(entries, probe)
    decreases |entries|
  {
    if entries != [] {
      GetRemoveAll(entries[1..], name, probe);
    }
  }

  lemma {:induction false} GetReplaceFirst(entries: seq<Entry>, name: string, value: string, probe: string)
    requires name in Names(entries)
    ensures Get(ReplaceFirst(entries, name, value), probe)
         == if probe == name then Some(value) else Get(entries, probe)
    decreases |entries|
  {
    NamesSplit(entries);
    if entries[0].0 == name {
      if probe != name {
        GetRemoveAll(entries[1..], name, probe);
      }
    } else {
      GetReplaceFirst(entries[1..], name, value, probe);
    }
  }

  class SearchParams {
    var entries: seq<Entry>

    /** `new URLSearchParams()`. */
    constructor ()
      ensures entries == []
    {
      entries := [];
    }

    method Set(name: string, value: string)
      modifies this
      ensures entries == SetEntry(old(entries), name, value)
    {
      entries := SetEntry(entries, name, value);
    }

    method Append(name: string, value: string)
      modifies this
      ensures entries == old(entries) + [(name, value)]
    {
      entries := entries + [(name, value)];
    }
  }
}
