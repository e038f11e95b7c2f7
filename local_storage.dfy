/**
 * The browser's `localStorage`, as far as the persistence code uses it: a
 * map from keys to string values, and whether the browser refuses further
 * writes (its quota is exhausted, so `setItem` throws).
 */
module LocalStorage {
  import opened Wrappers
  import opened Json

  /**
   * `STORAGE_KEY` and `STORAGE_VERSION`; their module is not part of this
   * model, so every operation receives them.
   */
  datatype StorageSettings = StorageSettings(key: string, version: string)

  class Storage {
    var items: map<string, string>
    var full: bool

    constructor (items: map<string, string>, full: bool)
      ensures this.items == items && this.full == full
    {
      this.items := items;
      this.full := full;
    }

    /** `getItem(key)`: `null` when nothing is stored under the key. */
    function GetItem(key: string): (r: Option<string>)
      reads this
      ensures r.Some? <==> key in items
      ensures r.Some? ==> r.value == items[key]
    {
      if key in items then Some(items[key]) else None
    }

    /** `setItem(key, value)`: throws `QuotaExceededError` when storage is full. */
    method SetItem(key: string, value: string) returns (error: Option<JsError>)
      modifies this
      ensures full == old(full)
      ensures old(full) ==> error == Some(QuotaExceededError) && items == old(items)
      ensures !old(full) ==> error == None && items == old(items)[key := value]
    {
      if full {
        error := Some(QuotaExceededError);
      } else {
        items := items[key := value];
        error := None;
      }
    }

    /** `removeItem(key)`: removing an absent key does nothing. */
    method RemoveItem(key: string)
      modifies this
      ensures full == old(full)
      ensures items == old(items) - {key}
    {
      items := items - {key};
    }
  }
}
