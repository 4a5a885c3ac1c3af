/**
 * HTTP header tables as Node's `ServerResponse` and the fetch API's `Headers`
 * keep them: keyed by the lower-cased header name, so that setting a name
 * replaces any earlier value under any spelling and removing a name deletes it.
 */
module Headers {
  import opened Wrappers
  import opened Strings

  /** What `setHeader` was given: a string, or a number such as a byte length. */
  datatype HeaderValue = Text(text: string) | Number(n: int)

  /** Lower-cased header name to value. */
  type HeaderMap = map<string, HeaderValue>

  /** The table key of a header name. */
  function Key(name: string): (k: string)
    ensures |k| == |name|
  {
    ToLower(name)
  }

  /** `setHeader(name, value)` / `headers.set(name, value)`. */
  function WithHeader(h: HeaderMap, name: string, v: HeaderValue): (r: HeaderMap)
    ensures r.Keys == h.Keys + {Key(name)}
    ensures r[Key(name)] == v
    ensures forall k :: k in h && k != Key(name) ==> r[k] == h[k]
  {
    h[Key(name) := v]
  }

  /** `removeHeader(name)`. */
  function WithoutHeader(h: HeaderMap, name: string): (r: HeaderMap)
    ensures r.Keys == h.Keys - {Key(name)}
    ensures forall k :: k in r ==> r[k] == h[k]
  {
    h - {Key(name)}
  }

  /** `getHeader(name)`. */
  function HeaderOf(h: HeaderMap, name: string): Option<HeaderValue>
  {
    if Key(name) in h then Some(h[Key(name)]) else None
  }

  /** Names that differ only in the case of ASCII letters address the same entry. */
  lemma {:induction false} SameKeyIgnoringCase(a: string, b: string)
    requires |a| == |b|
    requires forall k :: 0 <= k < |a| ==> LowerChar(a[k]) == LowerChar(b[k])
    ensures forall h: HeaderMap, v :: WithHeader(h, a, v) == WithHeader(h, b, v)
    ensures forall h: HeaderMap :: HeaderOf(h, a) == HeaderOf(h, b)
  {
    assert Key(a) == Key(b);
  }

  /**
   * The part of Node's `http.ServerResponse` the core touches: the status
   * code, the header table, and the body handed to `end` (None until then).
   */
  class ServerResponse<B> {
    var statusCode: int
    var headers: HeaderMap
    var body: Option<B>

    /** A fresh response: status 200, no headers, not ended. */
    constructor ()
      ensures statusCode == 200 && headers == map[] && body == None
    {
      statusCode := 200;
      headers := map[];
      body := None;
    }

    method SetHeader(name: string, v: HeaderValue)
      modifies this`headers
      ensures headers == WithHeader(old(headers), name, v)
    {
      headers := WithHeader(headers, name, v);
    }

    method RemoveHeader(name: string)
      modifies this`headers
      ensures headers == WithoutHeader(old(headers), name)
    {
      headers := WithoutHeader(headers, name);
    }

    method End(b: B)
      modifies this`body
      ensures body == Some(b)
    {
      body := Some(b);
    }
  }
}
