/**
 * The browser's `localStorage`, shared by every store of the page: a
 * string-keyed map of string values. `JSON.stringify` and `JSON.parse`
 * are not modelled here; the stores take them as function parameters.
 */
module LocalStorage {
  class Storage {
    var items: map<string, string>

    constructor (items: map<string, string>)
      ensures this.items == items
    {
      this.items := items;
    }

    /** `localStorage.setItem(key, value)`. */
    method SetItem(key: string, value: string)
      modifies this
      ensures items == old(items)[key := value]
    {
      items := items[key := value];
    }

    /** `localStorage.removeItem(key)`. */
    method RemoveItem(key: string)
      modifies this
      ensures items == old(items) - {key}
    {
      items := items - {key};
    }
  }
}
