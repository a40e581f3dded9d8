/**
 * rplugin/python3/gdb/tstorage.py: a value per Neovim tab page, so that a
 * debugging session in one tab does not see another's. The current tab
 * page is read from Neovim by the source; here it is a parameter.
 */
module TStorage {
  import opened Common

  /** A tab page handle. */
  type Tab = int

  /** `data[tab]`, which raises KeyError for a tab without a value. */
  function Lookup<V>(data: map<Tab, V>, tab: Tab): (r: Result<V>)
    ensures r.Ok? <==> tab in data
    ensures r.Ok? ==> r.value == data[tab]
    ensures r.Raise? ==> r.exception == "KeyError"
  {
    if tab in data then Ok(data[tab]) else Raise("KeyError")
  }

  /** `del data[tab]`. */
  function Delete<V>(data: map<Tab, V>, tab: Tab): (r: Result<map<Tab, V>>)
    ensures r.Ok? <==> tab in data
    ensures r.Ok? ==> tab !in r.value && forall t :: t != tab ==> Lookup(r.value, t) == Lookup(data, t)
    ensures r.Raise? ==> r.exception == "KeyError"
  {
    if tab in data then Ok(data - {tab}) else Raise("KeyError")
  }

  /** What `init` stores is what `get` reads back in the same tab, and the
      other tabs read what they read before. */
  lemma InitThenGet<V>(data: map<Tab, V>, tab: Tab, val: V)
    ensures Lookup(data[tab := val], tab) == Ok(val)
    ensures forall t :: t != tab ==> Lookup(data[tab := val], t) == Lookup(data, t)
  {
  }

  /** `init` followed by `clear` of the same tab leaves the others as they
      were, and the tab without a value. */
  lemma InitThenClear<V>(data: map<Tab, V>, tab: Tab, val: V)
    ensures Delete(data[tab := val], tab) == Ok(data - {tab})
    ensures tab !in data ==> Delete(data[tab := val], tab) == Ok(data)
  {
    assert data[tab := val] - {tab} == data - {tab};
    if tab !in data {
      assert data - {tab} == data;
    }
  }

  /** `TStorage`, whose dictionary the methods update in place. */
  class TabStorage<V> {
    var data: map<Tab, V>

    /** `__init__`: no tab has a value. */
    constructor ()
      ensures data == map[]
    {
      data := map[];
    }

    /** `init(val)` in the current tab: a previous value is overwritten. */
    method Init(current: Tab, val: V)
      modifies this
      ensures data == old(data)[current := val]
    {
      data := data[current := val];
    }

    /** `get()` in the current tab. */
    method Get(current: Tab) returns (r: Result<V>)
      ensures current in data ==> r == Ok(data[current])
      ensures current !in data ==> r == Raise("KeyError")
    {
      if current in data {
        return Ok(data[current]);
      }
      return Raise("KeyError");
    }

    /** `getTab(tab)`. */
    method GetTab(tab: Tab) returns (r: Result<V>)
      ensures tab in data ==> r == Ok(data[tab])
      ensures tab !in data ==> r == Raise("KeyError")
    {
      if tab in data {
        return Ok(data[tab]);
      }
      return Raise("KeyError");
    }

    /** `clear(tab)`: removes that tab's value only; a tab without one
        raises KeyError and nothing changes. */
    method Clear(tab: Tab) returns (r: Result<()>)
      modifies this
      ensures tab in old(data) ==> r.Ok? && data == old(data) - {tab}
      ensures tab !in old(data) ==> r == Raise("KeyError") && data == old(data)
    {
      if tab !in data {
        return Raise("KeyError");
      }
      data := data - {tab};
      return Ok(());
    }
  }
}
