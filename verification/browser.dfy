/**
 * The browser state the client code reads and writes: `localStorage` and
 * the address `window.location.href` points at.
 */
module Browser {
  import opened Wrappers

  /** The storage key of the token. */
  const JwtKey: string := "jwt"

  class Window {
    /** The contents of `localStorage`. */
    var storage: map<string, string>
    var href: string

    constructor (href0: string)
      ensures storage == map[] && href == href0
    {
      storage, href := map[], href0;
    }

    /** `localStorage.getItem(key)`: null when absent. */
    function GetItem(key: string): (r: Option<string>)
      reads this
      ensures r.Some? <==> key in storage
      ensures r.Some? ==> r.value == storage[key]
    {
      if key in storage then Some(storage[key]) else None
    }

    method SetItem(key: string, value: string)
      modifies this
      ensures storage == old(storage)[key := value] && href == old(href)
    {
      storage := storage[key := value];
    }

    method RemoveItem(key: string)
      modifies this
      ensures storage == old(storage) - {key} && href == old(href)
    {
      storage := storage - {key};
    }

    method Navigate(to: string)
      modifies this
      ensures href == to && storage == old(storage)
    {
      href := to;
    }
  }

  /** JavaScript truthiness of a string that may be null: present and not empty. */
  predicate Truthy(s: Option<string>) {
    s.Some? && s.value != ""
  }
}
