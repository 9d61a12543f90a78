# WebProxy request handling, modelled in Dafny

Two forwarding HTTP proxies share one origin server, `www.public.asu.edu:80`:

- `WebProxy/simplewebproxy.js` relays GET and POST requests upstream.
- `WebProxy/cachewebproxy.js` also caches GET responses by path. It adds an admin route over
  the cache and a ban cookie.

Both proxies run a per-client rate limiter before doing anything else. Its state is two
globals: the array `rate_limiter` of request counters, indexed by client id, and `idCounter`,
the next id to issue. A client with no `webproxy` cookie is issued `webproxy=<idCounter>`
for ten minutes. A counter of 1 is pushed for it. A client that presents `webproxy=<i>`
increments `rate_limiter[i]` and is rejected with 405 once that value exceeds the quota
(15 in the caching proxy, 25 in the plain one).

The model covers these per-request decisions, each as a deterministic step over explicit
state:

- **JavaScript semantics** (module `Js`). The `++` and `>` operators on the values an array
  element can hold: a number, the placeholder `[]`, a hole, or NaN. What `t[i]++` does for
  every key `i`: it bumps an element, grows the array with holes, or writes a plain
  property. How `parseInt` reads a cookie value, and how an id is written into one.
- **The rate table** (module `RateLimit`). It is a value, with a class `RateTable` that
  updates it in place. Issuing an id and counting a request are its only changes.
- **The admin route** (module `AdminPath`). This is the unanchored regular expression on the
  path: the leftmost `/admin/` followed by five lower-case letters, then the query text.
- **The caching proxy** (module `CacheProxy`). Admission with the ban cookie, then
  `adminRequest`. Then the cache test of `clientGETRequest`. Last, the upstream 'end'
  callback, which stores non-redirect GET responses. The class `CacheServer` holds the rate
  table and the cache.
- **The plain proxy** (module `SimpleProxy`). Admission that reports the count in a cookie,
  method dispatch, and the relay of upstream responses.

A handler is modelled in two steps, because the event loop runs other requests between
them. `Handle` is the synchronous part, up to the upstream request. `Complete` is the
callback that runs when the upstream response has been read. The upstream response
(status, content type, body) is a parameter, and so are the current time and the query
parser. A `ReferenceError` or `TypeError` that the code throws is the outcome `Thrown(e)`.
State changed before the throw stays changed. In Node such an uncaught exception ends the
process.

Properties proved include:

- a banned request changes nothing;
- the table grows by exactly one element per issued id, and its length stays tied to
  `idCounter`;
- a request touches only its own counter;
- rejection happens exactly above the quota, and a rejected id stays rejected;
- ids that are not numbers are never rejected;
- two requests end the process: an id equal to the last array index stretches the table to
  the greatest array length, and the next new client's `push(1)` throws (see "## Findings");
- the quota each id really gets from a fresh start;
- the cache is changed only by an admin reset or delete, or by a non-redirect GET miss;
- a stored response is what the next GET of that path receives.

Where the code's behaviour is surprising, the model follows the code:

- Admin requests pass through the rate limiter like any other request.
- Admin GET `cache` never returns the entry. A stored key is read into the misspelt
  `chached_element`, and the next line reads `cached_element`, which is not declared, and
  throws.
- Admin PUT `cache` always throws, because `addToCache` is not defined. So a PUT followed by
  a GET never returns the value.
- A ban is only a client-side cookie. Dropping the cookie brings the client back to the
  counter check. The counter check still rejects the id, because counters never go down.
- An unknown or non-numeric id is not treated as a new client. It counts as NaN, gets no new
  id, and is never rejected.
- In the caching proxy the table starts as `[[]]`. Id `k` therefore counts in the element
  pushed when id `k - 1` was issued. Id 0 gets 15 requests after the one that issued it.
  Every later id gets 14 (`CacheProxy.QuotaPerId`). In the plain proxy every id gets 24
  (`SimpleProxy.QuotaPerId`).
- A new client is issued an id only while the table is shorter than 2^32 - 1 elements, the
  greatest array length. At that length `rate_limiter.push(1)` throws a RangeError before
  `idCounter++` runs and before any reply. Any client can bring the table to that length
  (`TwoRequestCrash`).
- On an upstream redirect, only the caching proxy's GET answers with a redirect, and its
  `Location` is the upstream host name. The caching proxy's POST and both of the plain
  proxy's calls throw on the undeclared `hostname`.

## Model

| member | source | states |
|---|---|---|
| `Js.PostIncrementAt` | WebProxy/cachewebproxy.js:60-61 | `rate_limiter[index]++` changes no element other than `index`. An index inside the array gives the incremented old value. An array index past the end grows the array to exactly index + 1, with holes in between and NaN at the index. Any other key (NaN, negative, beyond the last array index) leaves the elements as they are. Every key outside the array yields NaN. An array no longer than the greatest length stays so. |
| `Js.Incremented` | WebProxy/cachewebproxy.js:61 | `++` gives a number exactly for a number or `[]`, one more than its value with `[]` counting as 0. A hole (undefined) or NaN gives NaN. |
| `Js.GreaterThan` | WebProxy/cachewebproxy.js:62 | `> max_requests` can hold only for a number or `[]`. For a non-negative quota it holds exactly for a number above the quota, since NaN and undefined never compare greater. |
| `Js.OnlyNumbersExceed` | WebProxy/cachewebproxy.js:61-62 | The quota test can succeed only for an id that is an element of the table, and only when the element holds a number. |
| `Js.ParseIntOfDecimal` | WebProxy/cachewebproxy.js:60-70 | The id written into the `webproxy` cookie as decimal digits reads back through `parseInt` as the same id. |
| `Js.DecimalString` | WebProxy/cachewebproxy.js:70 | `'webproxy=' + idCounter` writes the id as a non-empty run of decimal digits with no leading zero. |
| `Js.ParseInt` | WebProxy/cachewebproxy.js:60 | `parseInt` gives a number only when, after leading white space, the value starts with a digit or a sign. A negative number needs a leading `-`. A value whose first character after white space is a digit, and that does not start with `0x`, always gives a non-negative number. |
| `Js.ParseIntNonNumeric` | WebProxy/cachewebproxy.js:60 | A cookie value that is empty, or starts with anything but white space, a sign or a digit, parses to NaN. |
| `Http.Dispatch` | WebProxy/simplewebproxy.js:58-76 | A GET goes upstream as a GET of the same path. A POST goes upstream as a POST of the same path, carrying the buffered body, its content type, and a Content-Length equal to the body's length. Any other method gets 405 and nothing goes upstream. |
| `Http.Truthy` | WebProxy/cachewebproxy.js:54-69 | A cookie counts as present exactly when it is defined and not the empty string. The value `0` of id 0 is a non-empty string, so it is present. |
| `RateLimit.Issued` | WebProxy/simplewebproxy.js:48-50 | A successful push on an array shorter than the greatest length keeps every existing element, appends exactly one element of value 1, and advances `idCounter` by one. |
| `RateLimit.Hit` | WebProxy/simplewebproxy.js:38-40 | `rate_limiter[index]++` never changes `idCounter`. An id inside the table gives the incremented element, and only that element changes. Any other key gives NaN, and every existing element keeps its value. |
| `RateLimit.IssueMany` | WebProxy/simplewebproxy.js:48-50 | n new clients lengthen the table by n and advance `idCounter` by n. |
| `RateLimit.HitOnlyOwnSlot` | WebProxy/simplewebproxy.js:38-39 | Presenting an id inside the table changes only that element, by `++`. The table length and `idCounter` stay the same. |
| `RateLimit.IssueKeepsCounters` | WebProxy/simplewebproxy.js:49-50 | Issuing an id lowers no counter and removes no element. |
| `RateLimit.HitKeepsCounters` | WebProxy/simplewebproxy.js:39 | `rate_limiter[index]++` lowers no counter and removes no element, for any key. |
| `RateLimit.RepeatCounts` | WebProxy/simplewebproxy.js:39 | After k requests in a row presenting the same id, its counter is its starting count plus k. `[]` counts as 0. |
| `RateLimit.RateTable.constructor` | WebProxy/simplewebproxy.js:17-18 | The globals start as the given array and `idCounter` 0. |
| `RateLimit.RateTable.Issue` | WebProxy/simplewebproxy.js:48-50 | In place: returns the old `idCounter` as the id, pushes 1, and increments `idCounter`. On an array of the greatest length the push throws a RangeError: no id, nothing changed. |
| `RateLimit.RateTable.Increment` | WebProxy/simplewebproxy.js:38-40 | In place: `rate_limiter[index]++`, returning the value then compared with the quota. |
| `AdminPath.FindFrom` | WebProxy/cachewebproxy.js:83 | Finds the leftmost position from which `/admin/` is followed by five lower-case letters, or reports that no such position exists. |
| `AdminPath.MatchAdmin` | WebProxy/cachewebproxy.js:83-84 | A path is an admin path exactly when the pattern occurs somewhere in it. The command is five lower-case letters. The query text, when present, is non-empty and contains no line terminator. |
| `AdminPath.MatchAdminLeftmost` | WebProxy/cachewebproxy.js:83-89 | At the leftmost occurrence, the command is the five letters after `/admin/` and the query text is what follows them. |
| `AdminPath.LinePrefix` | WebProxy/cachewebproxy.js:83 | `(.+)` takes the longest run of characters up to the first line terminator. |
| `AdminPath.QueryPresence` | WebProxy/cachewebproxy.js:83-88 | The query text exists exactly when a character other than a line terminator follows the command, after one optional `?` or `/`. |
| `AdminPath.QueryAfter` | WebProxy/cachewebproxy.js:83-88 | Group 4, when present, is non-empty text without line terminators. It starts right after the command, or after one `?` or `/` there, and runs to the end of the path or to the first line terminator. |
| `AdminPath.ExampleReset` | WebProxy/cachewebproxy.js:83-89 | `/admin/reset` is the command `reset` with no query text. |
| `AdminPath.ExampleCacheQuery` | WebProxy/cachewebproxy.js:83-89 | `/admin/cache?key=a` is the command `cache` with the query text `key=a`. |
| `AdminPath.ExampleUnanchored` | WebProxy/cachewebproxy.js:83-89 | The match is not anchored and stops after five letters: `/x/admin/cacheskey=a` is the command `cache` with the query text `skey=a`. |
| `AdminPath.ExampleUpperCase` | WebProxy/cachewebproxy.js:83 | `/admin/Reset` is not an admin path. |
| `CacheProxy.AdminRequest` | WebProxy/cachewebproxy.js:113-158 | An admin command never adds or alters a cache entry. The only changes are reset to empty (POST `reset`) and removal of a stored key (DELETE `cache`). A reply is a 200, 401 or 404 page. A throw happens only for GET, PUT or DELETE `cache`, and leaves the cache unchanged. |
| `CacheProxy.Admit` | WebProxy/cachewebproxy.js:47-78 | A request with a truthy `webproxyBanned` cookie, and only such a request, is rejected with no cookie set and nothing changed. Any other rejection sets the ban marker. An id is issued exactly when neither cookie is present and the table is shorter than the greatest array length. An issued id is the old `idCounter`, for ten minutes, with `push(1)` applied. Without an issue, `idCounter` stays. When neither cookie is present and the table has the greatest length, the handler throws a RangeError with nothing changed. |
| `CacheProxy.Route` | WebProxy/cachewebproxy.js:81-107 | An admin path, whatever its method, is answered with exactly what `adminRequest` does to the cache and how it ends, and never goes upstream. Only an admin path can change the cache. A non-admin GET of a stored path is answered with the stored triple. Every other request goes to method dispatch with the cache unchanged: a GET miss goes upstream with its path, a POST with its body, and anything else gets 405. |
| `CacheProxy.Serve` | WebProxy/cachewebproxy.js:45-107 | The table after a request is the one the rate-limiting prologue leaves, since routing never touches it. A request that is not admitted leaves the cache unchanged and goes nowhere upstream. Only an admin path changes the cache. An upstream call keeps the path and leaves the cache unchanged. |
| `CacheProxy.Completed` | WebProxy/cachewebproxy.js:171-193 | A non-redirect GET response is stored under its path as the exact (body, content-type, status) triple and relayed. A redirect is not stored and answers with the upstream host as `Location`. A POST never touches the cache. A non-redirect POST response is relayed verbatim, and a redirect throws on the undeclared `hostname` (cachewebproxy.js:224-234). |
| `CacheProxy.CacheServer.constructor` | WebProxy/cachewebproxy.js:12-15 | The program starts with the table `[[]]`, `idCounter` 0 and an empty cache. |
| `CacheProxy.CacheServer.Handle` | WebProxy/cachewebproxy.js:45-107 | In place: the handler's new table, new cache and outcome are those of `Serve`. `Serve` is the rate-limiting prologue, then the admin route, then the GET cache test or method dispatch. |
| `CacheProxy.CacheServer.Screen` | WebProxy/cachewebproxy.js:47-78 | In place: the rate-limiting prologue changes the table and decides admission as `Admit` states. A ban cookie rejects with nothing changed. An id is counted and rejected above 15. A missing id is issued, or the push on a full-length table throws. |
| `CacheProxy.CacheServer.Forward` | WebProxy/cachewebproxy.js:81-107 | In place: an admitted request takes the admin route whenever the path matches, whatever its method. Otherwise a GET goes to the cache test, and any other method is dispatched. The cache changes as `Route` states. |
| `CacheProxy.CacheServer.Admin` | WebProxy/cachewebproxy.js:113-158 | In place: `adminRequest` changes the cache and ends the request as `AdminRequest` states. |
| `CacheProxy.CacheServer.Lookup` | WebProxy/cachewebproxy.js:168-201 | A stored path is answered with its stored triple and nothing goes upstream. A missing path is requested upstream with the same path. |
| `CacheProxy.CacheServer.Complete` | WebProxy/cachewebproxy.js:180-193 | In place: the upstream callback sets the cache and ends the request as `Completed` states. |
| `CacheProxy.BannedRequestIsInert` | WebProxy/cachewebproxy.js:49-58 | A request with a `webproxyBanned` cookie gets 405 and sets no cookie. The table, `idCounter` and cache are unchanged, even when it also carries a `webproxy` cookie. |
| `CacheProxy.NewClientAdmitted` | WebProxy/cachewebproxy.js:69-78 | A request without an id cookie, while the table is shorter than the greatest array length, is admitted. It is issued the old `idCounter` with an expiry of now + 600000 ms. The table gains one trailing element of value 1, `idCounter` grows by one, and routing proceeds. |
| `CacheProxy.ClientCountedInOwnSlot` | WebProxy/cachewebproxy.js:59-68 | Presenting id i inside the table changes only element i, by `++`. The request is rejected with 405 and `webproxyBanned=BANNED`, with the cache unchanged, exactly when the new value exceeds 15. Otherwise it is routed. |
| `CacheProxy.UnknownIdNeverRejected` | WebProxy/cachewebproxy.js:59-62 | A non-numeric id, or one outside the table, is never rejected and issues no id. No existing element changes. |
| `CacheProxy.RejectionStopsBeforeRouting` | WebProxy/cachewebproxy.js:54-68 | A rejected request ends with the 405 quota page before routing. There is no admin command, no cache change, no upstream call and no new id. |
| `CacheProxy.TableLengthTracksIds` | WebProxy/cachewebproxy.js:69-72 | Table length = `idCounter` + 1 is preserved by every request whose id, if any, lies inside the table. |
| `CacheProxy.CacheChangedOnlyByAdmin` | WebProxy/cachewebproxy.js:81-107 | Handling a request changes the cache only on an admin path. The change is either POST `reset` emptying it or DELETE `cache` removing one stored key. |
| `CacheProxy.CacheHitServesStored` | WebProxy/cachewebproxy.js:196-201 | An admitted non-admin GET of a stored path is answered with the stored status, type and body, and nothing goes upstream. |
| `CacheProxy.PostBypassesCache` | WebProxy/cachewebproxy.js:93-101 | An admitted non-admin POST leaves the cache unchanged. It forwards the body with its length, and its response leaves the cache unchanged too. |
| `CacheProxy.StoredResponseIsServed` | WebProxy/cachewebproxy.js:186-200 | After a non-redirect GET response is stored, the next GET of that path is answered with that same triple from the cache. |
| `CacheProxy.AdminReset` | WebProxy/cachewebproxy.js:114-119 | POST `reset` empties the cache and answers 200. |
| `CacheProxy.AdminDelete` | WebProxy/cachewebproxy.js:120-132 | DELETE `cache` removes a stored key and answers 200. It answers 404, with the cache unchanged, for a missing key. Without query text it throws on undefined `params`. |
| `CacheProxy.AdminGetNeverServes` | WebProxy/cachewebproxy.js:133-145 | GET `cache` never changes the cache. A stored key throws on `cached_element`, a missing key gets 404, and no query text throws on undefined `params`. |
| `CacheProxy.AdminPutNeverStores` | WebProxy/cachewebproxy.js:146-151 | PUT `cache` always throws on `addToCache`, which is not defined (the function is `addtoCache`, line 38). The cache is unchanged. |
| `CacheProxy.AdminOther` | WebProxy/cachewebproxy.js:152-157 | Every other method and command combination gets 401 with the cache unchanged. |
| `CacheProxy.IssueManyFromStart` | WebProxy/cachewebproxy.js:13-15 | From the start, after n ids are issued the table is `[]` followed by n elements of value 1, so its length is n + 1. |
| `CacheProxy.QuotaPerId` | WebProxy/cachewebproxy.js:59-72 | After n ids are issued from a fresh start, with no other request presenting id i in between, the holder of id i is rejected on its k-th cookie-bearing request exactly when k > 15 for id 0 and k > 14 for any later id. |
| `CacheProxy.AdmitKeepsCounters` | WebProxy/cachewebproxy.js:54-72 | The rate-limiting prologue lowers no counter and removes no element. |
| `CacheProxy.AdmitAllKeepsCounters` | WebProxy/cachewebproxy.js:54-72 | No run of requests lowers a counter or removes an element. |
| `CacheProxy.RejectionIsSticky` | WebProxy/cachewebproxy.js:59-68 | Once an id's request has been rejected for its count, the same cookies are rejected again after any run of other requests. |
| `CacheProxy.FullTableCrashes` | WebProxy/cachewebproxy.js:69-72 | A request without cookies, when the table has the greatest array length, throws a RangeError on `push(1)`. No id is issued and nothing changes. |
| `CacheProxy.TwoRequestCrash` | WebProxy/cachewebproxy.js:59-72 | Presenting `webproxy=4294967294` on a table no longer than that is admitted without a cookie, is routed as usual, and stretches the table to the greatest array length. The next request without cookies throws. |
| `CacheProxy.GuardedAdmitAllTracksIds` | WebProxy/cachewebproxy.js:59-72 | With ids outside the table not counted, table length = `idCounter` + 1 holds after any run of requests. |
| `CacheProxy.GuardedCrashNeedsAllIds` | WebProxy/cachewebproxy.js:59-72 | With ids outside the table not counted, the push can fail only after every id below the last array index has been issued. |
| `SimpleProxy.Completed` | WebProxy/simplewebproxy.js:98-108 | Exactly the statuses 301, 302, 303, 307 and 308 throw on the undeclared `hostname`. Any other response is relayed with its status, content type and body verbatim. |
| `SimpleProxy.Admit` | WebProxy/simplewebproxy.js:31-56 | A rejection reports a count above 25 in `webproxyCounter`. An id is issued exactly when there is no id cookie and the table is shorter than the greatest array length. An issued id is the old `idCounter`, for ten minutes, with `push(1)` applied. Without an issue, `idCounter` stays. With no id cookie and a full-length table, the handler throws a RangeError with nothing changed. |
| `SimpleProxy.Serve` | WebProxy/simplewebproxy.js:29-76 | The table after a request is the one the prologue leaves. Only an admitted request reaches method dispatch. A rejection ends with the 405 quota page and the count cookie. A failed push ends in the RangeError. |
| `SimpleProxy.Handle` | WebProxy/simplewebproxy.js:29-76 | In place: the handler's new table and outcome are those of `Serve`, the rate-limiting prologue followed by method dispatch. |
| `SimpleProxy.NewClientAdmitted` | WebProxy/simplewebproxy.js:47-56 | A request without an id cookie, while the table is shorter than the greatest array length, is admitted. It is issued the old `idCounter` with an expiry of now + 600000 ms, one trailing element of value 1 is pushed, `idCounter` grows by one, and the request is dispatched. |
| `SimpleProxy.ClientCountedInOwnSlot` | WebProxy/simplewebproxy.js:37-46 | Presenting id i inside the table changes only element i, by `++`. The request is rejected with 405 and `webproxyCounter=<new value>`, before dispatch, exactly when the new value exceeds 25. |
| `SimpleProxy.UnknownIdNeverRejected` | WebProxy/simplewebproxy.js:37-40 | A non-numeric id, or one outside the table, is never rejected and issues no id. No existing element changes. |
| `SimpleProxy.CounterCookieIgnored` | WebProxy/simplewebproxy.js:32-36 | The `webproxyCounter` cookie has no effect: the outcome and new table are the same whatever it holds, or without it. |
| `SimpleProxy.TableLengthTracksIds` | WebProxy/simplewebproxy.js:47-50 | Table length = `idCounter` is preserved by every request whose id, if any, lies inside the table. |
| `SimpleProxy.RejectionStopsBeforeDispatch` | WebProxy/simplewebproxy.js:40-46 | A rejected request ends with the 405 quota page before method dispatch, with nothing sent upstream and no new id. |
| `SimpleProxy.IssueManyFromStart` | WebProxy/simplewebproxy.js:17-18 | From the start, after n ids are issued the table is n elements of value 1. |
| `SimpleProxy.QuotaPerId` | WebProxy/simplewebproxy.js:37-50 | After n ids are issued from a fresh start, with no other request presenting id i in between, the holder of id i is rejected on its k-th cookie-bearing request exactly when k > 24. |
| `SimpleProxy.AdmitKeepsCounters` | WebProxy/simplewebproxy.js:37-56 | The rate-limiting prologue lowers no counter and removes no element. |
| `SimpleProxy.AdmitAllKeepsCounters` | WebProxy/simplewebproxy.js:37-56 | No run of requests lowers a counter or removes an element. |
| `SimpleProxy.RejectionIsSticky` | WebProxy/simplewebproxy.js:39-46 | Once an id has been rejected, the same cookies are rejected again after any run of other requests, with a strictly higher count in the cookie. |
| `SimpleProxy.FullTableCrashes` | WebProxy/simplewebproxy.js:47-50 | A request without an id cookie, when the table has the greatest array length, throws a RangeError on `push(1)`. No id is issued and nothing changes. |
| `SimpleProxy.TwoRequestCrash` | WebProxy/simplewebproxy.js:37-50 | Presenting `webproxy=4294967294` on a table no longer than that is admitted and dispatched without a cookie, and stretches the table to the greatest array length. The next request without an id cookie throws. |
| `SimpleProxy.GuardedAdmitAllTracksIds` | WebProxy/simplewebproxy.js:37-50 | With ids outside the table not counted, table length = `idCounter` holds after any run of requests. |
| `SimpleProxy.GuardedCrashNeedsAllIds` | WebProxy/simplewebproxy.js:37-50 | With ids outside the table not counted, the push can fail only after 2^32 - 1 ids have been issued. |

## Findings

| source | as written | input that shows it | evidently intended | confidence | as-written member | corrected member |
|---|---|---|---|---|---|---|
| WebProxy/cachewebproxy.js:60-72 | `rate_limiter[index]++` accepts any array index a client sends, so one request can stretch the table to the greatest array length; the next new client's `push(1)` throws a RangeError that ends the process | `Cookie: webproxy=4294967294`, then any request without cookies | only ids inside the table are counted, so the table stays one element longer than the ids issued | high; not executed | `CacheProxy.TwoRequestCrash` | `CacheProxy.GuardedCrashNeedsAllIds` |
| WebProxy/simplewebproxy.js:38-50 | the same unchecked index; the second request's `push(1)` throws | `Cookie: webproxy=4294967294`, then any request without a `webproxy` cookie | only ids inside the table are counted, so the table holds one element per id issued | high; not executed | `SimpleProxy.TwoRequestCrash` | `SimpleProxy.GuardedCrashNeedsAllIds` |

The corrected prologues (`GuardedAdmit`, which counts only ids the table has, through
`RateLimit.HitIssued`) stand beside the handlers. The handlers themselves keep the code's
prologue, so the model still describes the proxies as they are.

## Left out

- Sockets and streams are not modelled: `http.createServer`/`listen`, `http.request`, the
  `'data'`/`'end'`/`'error'` listeners and `Buffer.concat`. The request body and the upstream
  (status, content type, body) are inputs. Upstream failures are left out, as I/O. The
  upstream request objects (`cliReq`, `postReq`) have no `'error'` listener
  (cachewebproxy.js:171 and :215, simplewebproxy.js:89 and :125). So a refused connection, a
  DNS failure or a reset before the response is an unhandled `'error'` event that ends the
  process. Errors on the upstream response stream are swallowed by an empty listener
  (cachewebproxy.js:178 and :222, simplewebproxy.js:96 and :132). After one of those,
  `'end'` need not fire, so the client may never get a reply.
- Which requests interleave between `Handle` and `Complete` is left open. The model has both
  steps but does not enumerate schedules.
- The cache is a plain map with has/get/set/del/reset. The `lru-cache` library is not shown,
  so its behaviour is left out: byte-length sizing, the 1 MiB capacity and LRU eviction, the
  10-second `maxAge` expiry, `dispose`, and the recency update on `get`.
- The `setTimeout`/`peek` reaper in `addtoCache` is left out. It is timer-driven and only
  drops expired entries inside the library.
- Library parsers are taken as given: `cookie.parse` (cookies arrive as a name-to-value map),
  `url.parse` (the path arrives as a string) and `URLSearchParams` (a lookup function
  parameter). `parseInt` and the admin regular expression are modelled.
- Date formatting is left out: the cookie expiry is recorded as now + 600000 ms, not as a
  `toUTCString` date. `console.log` is left out.
- Page bodies are left out. The proxy's own HTML pages are one tag per message, and the
  `'binary'` encoding of relayed bodies is not modelled.
- Content types are strings. An undefined Content-Type header, which Node refuses to set,
  is not modelled.
- The handlers use the prologue as written, not the guarded one from "## Findings", so that
  the model describes the program as it runs.
- Table keys that are not array indexes are not kept. This includes the key 4294967295 that
  the failing `push(1)` writes before it throws. Writes under NaN, negative numbers or
  numbers beyond 2^32 - 2 go to plain properties of the array. Their value is NaN after
  every `++`, so they never affect a decision.
- Counters are unbounded integers. A JavaScript number stops counting at 2^53, which a
  counter cannot reach in practice.
- The process ending after an uncaught throw is not modelled. A single request stops at the
  throw, with the state as it was then. Runs of requests (`AdmitAll`, and the
  `AdmitAllKeepsCounters` lemmas) carry on past a throwing prologue as if the process had
  survived. This is harmless: a failed push leaves the table unchanged, and a restarted
  process would start from a fresh table anyway.
- Configuration values that no decision reads (`local_port`, `port`, `method`) are left out.
