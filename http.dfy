/**
 * The parts of Go's net/http the middleware touches: header maps, the
 * response writer's header and status, and the request with the principal
 * that `contextSetUser` attaches.
 */
module Http {
  import opened Wrappers
  import opened Data

  /** `url.Values` and `http.Header` alike: each key with its list of values. */
  type Values = map<string, seq<string>>

  /** `http.Header`, keyed by canonical header name. */
  type Header = Values

  /** `url.Values.Get` and `Header.Get`: the first value of the key, or "" when
      there is none. */
  function FirstValue(vs: Values, key: string): (v: string)
    ensures key !in vs || vs[key] == [] ==> v == ""
    ensures key in vs && vs[key] != [] ==> v == vs[key][0]
  {
    if key in vs && |vs[key]| > 0 then vs[key][0] else ""
  }

  /** `Header.Add`: appends a value to the key's values. */
  function HeaderAdd(h: Header, key: string, value: string): (r: Header)
    ensures r.Keys == h.Keys + {key}
    ensures r[key] == (if key in h then h[key] else []) + [value]
    ensures forall k :: k in h && k != key ==> r[k] == h[k]
  {
    h[key := (if key in h then h[key] else []) + [value]]
  }

  /** `Header.Set`: replaces the key's values by the one value. */
  function HeaderSet(h: Header, key: string, value: string): (r: Header)
    ensures r.Keys == h.Keys + {key}
    ensures r[key] == [value]
    ensures forall k :: k in h && k != key ==> r[k] == h[k]
  {
    h[key := [value]]
  }

  /** The observable state of an `http.ResponseWriter` before the body: its header
      map and the status written with `WriteHeader` (0 while none is written). */
  class ResponseWriter {
    var header: Header
    var status: int

    constructor ()
      ensures header == map[] && status == 0
    {
      header := map[];
      status := 0;
    }

    method Add(key: string, value: string)
      modifies this
      ensures header == HeaderAdd(old(header), key, value) && status == old(status)
    {
      header := HeaderAdd(header, key, value);
    }

    method Set(key: string, value: string)
      modifies this
      ensures header == HeaderSet(old(header), key, value) && status == old(status)
    {
      header := HeaderSet(header, key, value);
    }

    /** `WriteHeader`: the first status written is the one sent; a later call is
        superfluous and changes nothing. A code outside 100-999 makes net/http
        panic, so here it is a precondition. */
    method WriteHeader(code: int)
      requires 100 <= code <= 999
      modifies this
      ensures status == (if old(status) == 0 then code else old(status))
      ensures header == old(header)
    {
      if status == 0 {
        status := code;
      }
    }
  }

  /** An `http.Request` as the middleware sees it. `verb` is the HTTP method; `principal` is the user value in
      the request context: `None` until `authenticate` attaches one. */
  datatype Request = Request(verb: string, header: Header, principal: Option<Principal>)
}
