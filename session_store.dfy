/**
 * The session store of frontend/src/hooks/utilsAuth.js: `getStoredAuth`,
 * `setStoredAuth` and `clearStoredAuth` over the browser's `localStorage`.
 *
 * `localStorage` is a class holding a string-to-string map. Its `available`
 * flag is false in a browser that refuses storage access, where every
 * `getItem`, `setItem` and `removeItem` throws. `JSON.stringify` and
 * `JSON.parse` of the `{token, username}` record are replaced by a
 * length-prefixed text encoding whose round trip is proved below.
 */
module SessionStore {
  import opened Wrappers
  import opened Text

  /** The record the store holds: `{token, username}`. */
  datatype StoredAuth = StoredAuth(token: string, username: string)

  /** The browser's `localStorage`. */
  class LocalStorage {
    var items: map<string, string>
    var available: bool

    constructor (items0: map<string, string>, available0: bool)
      ensures items == items0 && available == available0
    {
      items := items0;
      available := available0;
    }
  }

  // ------------------------------------------------------------- encoding

  /** The text written for a record: the token's length, `:`, the token, the username. */
  function Serialize(r: StoredAuth): string
  {
    NatToString(|r.token|) + ":" + r.token + r.username
  }

  /** Reads a record back; `None` is a text that does not parse (no exception escapes). */
  function Parse(text: string): (r: Option<StoredAuth>)
    ensures r.Some? ==> |r.value.token| + |r.value.username| < |text|
  {
    match FirstIndexOf(text, ':')
    case None => None
    case Some(i) =>
      var prefix, rest := text[..i], text[i + 1..];
      if prefix == [] || !AllDigits(prefix) then None
      else
        var n := DigitsValue(prefix);
        if n > |rest| then None else Some(StoredAuth(rest[..n], rest[n..]))
  }

  /** Whatever record is written is read back unchanged. */
  lemma ParseSerialize(r: StoredAuth)
    ensures Parse(Serialize(r)) == Some(r)
  {
    var digits := NatToString(|r.token|);
    var text := Serialize(r);
    assert text == digits + ":" + (r.token + r.username);
    assert forall j :: 0 <= j < |digits| ==> text[j] == digits[j] && text[j] != ':';
    assert text[|digits|] == ':';
    assert FirstIndexOf(text, ':') == Some(|digits|);
    assert text[..|digits|] == digits;
    assert text[|digits| + 1..] == r.token + r.username;
    NatToStringRoundTrip(|r.token|);
  }

  // ------------------------------------------------------- store operations

  /**
   * What `getStoredAuth` returns for a given storage state: nothing when
   * storage throws, when the entry is missing or empty, or when its text does
   * not parse.
   */
  function ReadAuth(items: map<string, string>, available: bool, key: string): (r: Option<StoredAuth>)
    ensures r.Some? ==> available && key in items && items[key] != "" && Parse(items[key]) == r
  {
    if !available || key !in items || items[key] == "" then None else Parse(items[key])
  }

  /** Writing a record and reading it back gives that record. */
  lemma WriteThenRead(items: map<string, string>, key: string, r: StoredAuth)
    ensures ReadAuth(items[key := Serialize(r)], true, key) == Some(r)
  {
    ParseSerialize(r);
  }

  /** After the entry is cleared, reading returns nothing. */
  lemma ClearThenRead(items: map<string, string>, available: bool, key: string)
    ensures ReadAuth(items - {key}, available, key) == None
  {
  }

  /** `getStoredAuth`: reads and parses the entry; never throws. */
  method GetStoredAuth(storage: LocalStorage, key: string) returns (r: Option<StoredAuth>)
    ensures r == ReadAuth(storage.items, storage.available, key)
  {
    if !storage.available {
      // getItem throws; the catch block returns null
      return None;
    }
    if key !in storage.items || storage.items[key] == "" {
      return None;
    }
    r := Parse(storage.items[key]);
  }

  /** `setStoredAuth`: overwrites the entry; a storage error is swallowed. */
  method SetStoredAuth(storage: LocalStorage, key: string, r: StoredAuth)
    modifies storage
    ensures storage.available == old(storage.available)
    ensures storage.items == if old(storage.available) then old(storage.items)[key := Serialize(r)] else old(storage.items)
  {
    if storage.available {
      storage.items := storage.items[key := Serialize(r)];
    }
  }

  /**
   * `clearStoredAuth`: removes the entry and nothing else. It has no catch
   * block, so when storage throws the exception reaches the caller (`threw`).
   */
  method ClearStoredAuth(storage: LocalStorage, key: string) returns (threw: bool)
    modifies storage
    ensures threw == !old(storage.available)
    ensures storage.available == old(storage.available)
    ensures storage.items == if threw then old(storage.items) else old(storage.items) - {key}
  {
    threw := !storage.available;
    if !threw {
      storage.items := storage.items - {key};
    }
  }
}
