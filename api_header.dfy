/**
 * The request line and header editor of the HTTP client page: the method
 * picker, the URL and its Send button, the ordered header dictionary with
 * its add, edit and remove controls, and the pending key/value inputs.
 * The URL, method, headers and loading flag belong to the page and are
 * handed down; they are fields here because the editor's handlers set them.
 */
module ApiHeader {
  import opened Wrappers
  import opened OrderedMaps
  import opened JsText

  /** The HTTP methods; the request's method is always one of them. */
  datatype HttpMethod = GET | POST | PUT | DELETE | PATCH

  const EmptyKeyMessage := "Header key cannot be empty"

  class HeaderEditor {
    var url: string
    var httpMethod: HttpMethod
    var headers: OMap<string, string>
    var isLoading: bool
    var newHeaderKey: string
    var newHeaderValue: string

    /** The headers form a dictionary. */
    predicate Valid()
      reads this
    {
      DistinctKeys(headers)
    }

    constructor (url: string, httpMethod: HttpMethod, headers: OMap<string, string>, isLoading: bool)
      requires DistinctKeys(headers)
      ensures Valid()
      ensures this.url == url && this.httpMethod == httpMethod && this.headers == headers
      ensures this.isLoading == isLoading
      ensures newHeaderKey == "" && newHeaderValue == ""
    {
      this.url := url;
      this.httpMethod := httpMethod;
      this.headers := headers;
      this.isLoading := isLoading;
      newHeaderKey := "";
      newHeaderValue := "";
    }

    method SetMethod(m: HttpMethod)
      requires Valid()
      modifies this`httpMethod
      ensures Valid() && httpMethod == m
    {
      httpMethod := m;
    }

    method SetUrl(u: string)
      requires Valid()
      modifies this`url
      ensures Valid() && url == u
    {
      url := u;
    }

    method SetPending(key: string, value: string)
      requires Valid()
      modifies this`newHeaderKey, this`newHeaderValue
      ensures Valid() && newHeaderKey == key && newHeaderValue == value
    {
      newHeaderKey := key;
      newHeaderValue := value;
    }

    /**
     * The Add button. A key that trims to nothing is refused with an error
     * message and nothing changes. Otherwise the key, exactly as typed, is
     * set to the pending value (in place when it exists, at the end when it
     * does not) and both inputs are cleared.
     */
    method AddHeader() returns (error: Option<string>)
      requires Valid()
      modifies this`headers, this`newHeaderKey, this`newHeaderValue
      ensures Valid()
      ensures Trim(old(newHeaderKey)) == [] ==>
        && error == Some(EmptyKeyMessage)
        && headers == old(headers)
        && newHeaderKey == old(newHeaderKey) && newHeaderValue == old(newHeaderValue)
      ensures Trim(old(newHeaderKey)) != [] ==>
        && error == None
        && headers == Put(old(headers), old(newHeaderKey), old(newHeaderValue))
        && newHeaderKey == "" && newHeaderValue == ""
    {
      if Trim(newHeaderKey) == [] {
        return Some(EmptyKeyMessage);
      }
      headers := Put(headers, newHeaderKey, newHeaderValue);
      newHeaderKey := "";
      newHeaderValue := "";
      error := None;
    }

    /** The trash button of row `key`: that entry goes, the rest keep their order. */
    method RemoveHeader(key: string)
      requires Valid()
      modifies this`headers
      ensures Valid()
      ensures headers == Delete(old(headers), key)
    {
      headers := Delete(headers, key);
    }

    /** Typing in the value box of row `key`. */
    method EditHeaderValue(key: string, value: string)
      requires Valid()
      modifies this`headers
      ensures Valid()
      ensures headers == Put(old(headers), key, value)
    {
      headers := Put(headers, key, value);
    }

    /** The Send button is disabled while the URL is empty or a request is in flight. */
    predicate SendEnabled()
      reads this
    {
      !(url == "" || isLoading)
    }
  }

  /**
   * What adding a non-blank key promises about the dictionary: the key now
   * maps to the value, every other entry is untouched, an existing key keeps
   * its place and the count does not grow, and a new key goes last.
   */
  lemma AddHeaderEffect(headers: OMap<string, string>, key: string, value: string)
    requires DistinctKeys(headers)
    ensures var r := Put(headers, key, value);
      && DistinctKeys(r)
      && ToMap(r)[key] == value
      && (forall k :: k in ToMap(headers) && k != key ==> k in ToMap(r) && ToMap(r)[k] == ToMap(headers)[k])
      && KeySet(r) == KeySet(headers) + {key}
      && (key in KeySet(headers) ==> |r| == |headers| && KeyList(r) == KeyList(headers))
      && (key !in KeySet(headers) ==> KeyList(r) == KeyList(headers) + [key])
  {
    var r := Put(headers, key, value);
    PutOrder(headers, key, value);
    if key !in KeySet(headers) {
      assert KeyList(r) == KeyList(headers) + [key];
    }
  }

  /**
   * What removing a row promises: the key is gone, every other entry keeps
   * its value and its place, and removing an absent key changes nothing.
   */
  lemma RemoveHeaderEffect(headers: OMap<string, string>, key: string)
    requires DistinctKeys(headers)
    ensures var r := Delete(headers, key);
      && key !in KeySet(r)
      && KeySet(r) == KeySet(headers) - {key}
      && (forall k :: k in ToMap(r) ==> ToMap(r)[k] == ToMap(headers)[k])
      && (key !in KeySet(headers) ==> r == headers)
      && (key in KeySet(headers) ==> exists i :: 0 <= i < |headers| && r == headers[..i] + headers[i + 1..])
  {
    DeleteOrder(headers, key);
  }
}
