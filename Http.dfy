/** The request, response and outcome values both proxies share, and their fixed settings. */
module Http {
  import opened Js

  newtype byte = x: int | 0 <= x < 256
  type Bytes = seq<byte>

  /** The fixed upstream origin (`options.hostname`); requests go to it on port 80. */
  const UPSTREAM_HOST := "www.public.asu.edu"
  /** Lifetime of an issued identity cookie: ten minutes, in milliseconds. */
  const COOKIE_LIFETIME_MS := 1000 * 60 * 10

  /** Cookies as the cookie parser returns them: name to decoded value. A request without a
      Cookie header has none. */
  type Cookies = map<string, string>

  function CookieValue(cookies: Cookies, name: string): Option<string> {
    if name in cookies then Some(cookies[name]) else None
  }

  /** The identity cookie both proxies issue and read. */
  const CLIENT_COOKIE := "webproxy"

  /** The cookies a client sends back after being issued id `i`. */
  function CookiesOf(i: nat): Cookies {
    map[CLIENT_COOKIE := DecimalString(i)]
  }

  /** A JavaScript truth test on a cookie value: undefined and "" are false. */
  predicate Truthy(v: Option<string>)
    ensures Truthy(v) <==> v.Some? && |v.value| > 0
    ensures v == Some("0") ==> Truthy(v)
  {
    v.Some? && v.value != ""
  }

  /** An inbound request, already parsed: method (`verb`), path (with its query string), cookies, and
      for POST the buffered body with its Content-Type header. */
  datatype Request = Request(verb: string, path: string, cookies: Cookies,
                             contentType: string, body: Bytes)

  /** A (body, content-type, status) triple: what an upstream server answered, and what the
      cache stores under a path. */
  datatype Response = Response(body: Bytes, contentType: string, status: int)

  /** The text/html pages the proxy writes itself, one tag per message. */
  datatype Message = MaxedOut | MethodNotAllowed | ResetDone | Deleted | NotFound | InvalidRequest

  /** The Set-Cookie header the rate limiter attaches to the response, if any. */
  datatype SetCookie =
    | NoCookie
    | IssueId(id: nat, expiresAt: int)  // `webproxy=<id>;expires=<now + 10 minutes>`
    | BanMarker                         // `webproxyBanned=BANNED`
    | CounterValue(n: int)              // `webproxyCounter=<n>`

  datatype Reply =
    | Page(status: int, message: Message)         // a page of the proxy's own
    | Relay(response: Response)                   // a stored or upstream triple, verbatim
    | Redirect(status: int, location: string)     // empty body with a Location header

  /** The exceptions the code raises: an undeclared identifier or a method call on undefined. */
  datatype JsError =
    | ParamsUndefined          // `params.get` when the admin path has no query text
    | CachedElementUndefined   // `cached_element` read where `chached_element` was declared
    | AddToCacheUndefined      // `addToCache` called where `addtoCache` is declared
    | HostnameUndefined        // `hostname` read in a redirect branch
    | InvalidArrayLength       // a RangeError: `rate_limiter.push(1)` on an array of the greatest length

  /** How a request ends: a reply written, or an exception thrown out of the handler (which
      ends the Node process; the model stops at the throw). */
  datatype Result = Replied(reply: Reply) | Thrown(error: JsError)

  /** The request the proxy sends upstream (always to UPSTREAM_HOST). */
  datatype UpstreamCall =
    | GetCall(path: string)
    | PostCall(path: string, contentType: string, contentLength: nat, body: Bytes)

  /** What the synchronous part of a handler leaves behind: a finished request, or a request
      waiting for the upstream response (an I/O callback, run later by the event loop). */
  datatype Next = Finish(result: Result) | Await(call: UpstreamCall)

  datatype Handled = Handled(cookie: SetCookie, next: Next)

  /** The statuses both proxies treat as redirects. */
  predicate IsRedirect(status: int) {
    status == 301 || status == 302 || status == 303 || status == 307 || status == 308
  }

  /** Method dispatch of a request that is not served by the proxy itself: GET and POST go
      upstream with the same path (POST with the buffered body, its content type and its length),
      any other method gets a 405 page and nothing is sent upstream. */
  function Dispatch(req: Request): (n: Next)
    ensures n.Await? <==> req.verb == "GET" || req.verb == "POST"
    ensures n.Await? ==> n.call.path == req.path
    ensures n.Await? && n.call.PostCall? ==>
              req.verb == "POST" && n.call.body == req.body &&
              n.call.contentType == req.contentType && n.call.contentLength == |req.body|
    ensures n.Finish? ==> n.result == Replied(Page(405, MethodNotAllowed))
    ensures req.verb == "GET" ==> n == Await(GetCall(req.path))
    ensures req.verb == "POST" ==> n == Await(PostCall(req.path, req.contentType, |req.body|, req.body))
  {
    if req.verb == "GET" then Await(GetCall(req.path))
    else if req.verb == "POST" then
      Await(PostCall(req.path, req.contentType, |req.body|, req.body))
    else Finish(Replied(Page(405, MethodNotAllowed)))
  }
}
