/**
 * The browser's localStorage as the session code uses it: two keys,
 * "tc2000_token" and "tc2000_user". The token entry holds the string the
 * token was converted to; the user entry holds the identity record itself
 * (its JSON text is read back as the same record).
 */
module Storage {
  import opened Js

  /** `TokenKey` is "tc2000_token" and `UserKey` is "tc2000_user". */
  datatype Key = TokenKey | UserKey

  class Store {
    var items: map<Key, Value>

    constructor (items: map<Key, Value>)
      ensures this.items == items
    {
      this.items := items;
    }

    /** `localStorage.getItem(k)`: null when the key is absent. */
    function GetItem(k: Key): Value
      reads this
    {
      if k in items then items[k] else Null
    }

    /** `localStorage.setItem(k, v)`. */
    method SetItem(k: Key, v: Value)
      modifies this
      ensures items == old(items)[k := v]
      ensures GetItem(k) == v
      ensures forall j :: j != k ==> GetItem(j) == old(GetItem(j))
    {
      items := items[k := v];
    }

    /** `localStorage.removeItem(k)`. */
    method RemoveItem(k: Key)
      modifies this
      ensures items == old(items) - {k}
      ensures GetItem(k) == Null
      ensures forall j :: j != k ==> GetItem(j) == old(GetItem(j))
    {
      items := items - {k};
    }
  }
}
