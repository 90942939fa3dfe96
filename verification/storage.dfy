/** The browser's `localStorage` as the two services use it, and the
    load step they share. `JSON.stringify` and `JSON.parse` are not modelled:
    each service is given a `Codec`, two function values standing for them. */
module Storage {
  import opened Wrappers
  import opened Models

  /** `JSON.stringify` of a record list, and `JSON.parse` of stored text
      (None when it throws). */
  datatype Codec = Codec(stringify: seq<MenuItem> -> string, parse: string -> Option<seq<MenuItem>>)

  /** A string-keyed store. When `available` is false every `setItem` throws
      (quota exceeded, storage blocked); the services catch and log that. */
  class LocalStorage {
    var entries: map<string, string>
    var available: bool

    constructor (entries: map<string, string>, available: bool)
      ensures this.entries == entries && this.available == available
    {
      this.entries := entries;
      this.available := available;
    }

    /** `getItem(key)`: null (None) when the key is absent. */
    function GetItem(key: string): (r: Option<string>)
      reads this
      ensures r.Some? <==> key in entries
      ensures r.Some? ==> r.value == entries[key]
    {
      if key in entries then Some(entries[key]) else None
    }

    /** `setItem(key, value)` inside the services' try/catch: the write
      happens when the store accepts it, and nothing changes otherwise. */
    method SetItem(key: string, value: string)
      modifies this
      ensures available == old(available)
      ensures entries == if available then old(entries)[key := value] else old(entries)
    {
      if available {
        entries := entries[key := value];
      }
    }
  }

  /** What `loadHistory` / `loadFavorites` leave in the list, starting from
      the empty list: absent or empty stored text (falsy) and text that
      fails to parse leave it empty; parsed text replaces it. */
  function LoadList(stored: Option<string>, codec: Codec): (r: seq<MenuItem>)
    ensures (stored.None? || stored == Some("")) ==> r == []
    ensures stored.Some? && stored.value != "" && codec.parse(stored.value).None? ==> r == []
    ensures stored.Some? && stored.value != "" && codec.parse(stored.value).Some? ==>
              r == codec.parse(stored.value).value
  {
    match stored
    case None => []
    case Some(text) =>
      if text == "" then []
      else codec.parse(text).GetOr([])
  }
}
