/** The caching proxy (WebProxy/cachewebproxy.js): rate limiting with a ban cookie, the admin
    route over the cache, and GET responses served from or stored into the cache. */
module CacheProxy {
  import opened Js
  import opened Http
  import opened RateLimit
  import opened AdminPath

  const MAX_REQUESTS := 15
  const BANNED_COOKIE := "webproxyBanned"

  /** The table as the program starts it: `[[]]`, one placeholder element and no id issued yet.
      Issuing id k pushes element k + 1, so a client's requests count in the element pushed
      when the previous id was issued. */
  const INITIAL_TABLE := Table([EmptyArr], 0)

  /** The response cache: path to the stored (body, content-type, status) triple. */
  type Cache = map<string, Response>

  /** `new URLSearchParams(text).get(name)`: the query parser, taken as given. */
  type ParamLookup = (string, string) -> Option<string>

  datatype State = State(table: Table, cache: Cache)

  // ------------------------------------------------------------------ admission

  /** The rate-limiting prologue of the request handler. */
  function Admit(t: Table, cookies: Cookies, now: int): (r: (Table, Admission))
    ensures r.1 == Rejected(NoCookie) <==> Truthy(CookieValue(cookies, BANNED_COOKIE))
    ensures r.1 == Rejected(NoCookie) ==> r.0 == t
    ensures r.1.Rejected? ==> r.1.cookie == NoCookie || r.1.cookie == BanMarker
    ensures r.1.Admitted? ==> r.1.cookie.NoCookie? || r.1.cookie.IssueId?
    ensures IssuesId(r.1) ==>
              && |t.counters| < MAX_ARRAY_LENGTH && r.0 == Issued(t)
              && r.1.cookie == IssueId(t.idCounter, now + COOKIE_LIFETIME_MS)
    ensures !IssuesId(r.1) ==> r.0.idCounter == t.idCounter
    ensures var noCookies := !Truthy(CookieValue(cookies, BANNED_COOKIE)) &&
                             !Truthy(CookieValue(cookies, CLIENT_COOKIE));
      && (r.1.Failed? <==> noCookies && |t.counters| >= MAX_ARRAY_LENGTH)
      && (IssuesId(r.1) <==> noCookies && |t.counters| < MAX_ARRAY_LENGTH)
    ensures r.1.Failed? ==> r == (t, Failed(InvalidArrayLength))
  {
    var banned := CookieValue(cookies, BANNED_COOKIE);
    var client := CookieValue(cookies, CLIENT_COOKIE);
    if Truthy(banned) then
      (t, Rejected(NoCookie))
    else if Truthy(client) then
      var (t', v) := Hit(t, ParseInt(client.value));
      (t', if GreaterThan(v, MAX_REQUESTS) then Rejected(BanMarker) else Admitted(NoCookie))
    else if |t.counters| >= MAX_ARRAY_LENGTH then
      (t, Failed(InvalidArrayLength))
    else
      (Issued(t), Admitted(IssueId(t.idCounter, now + COOKIE_LIFETIME_MS)))
  }

  // ---------------------------------------------------------------- admin route

  /** `adminRequest`: what an admin command does to the cache and how the request ends. */
  function AdminRequest(cache: Cache, verb: string, command: string, params: Option<string>,
                        get: ParamLookup): (r: (Cache, Result))
    ensures r.0.Keys <= cache.Keys && forall k :: k in r.0 ==> r.0[k] == cache[k]
    ensures r.0 != cache ==>
              || (verb == "POST" && command == "reset" && r.0 == map[])
              || (verb == "DELETE" && command == "cache" && params.Some? &&
                  var key := get(params.value, "key");
                  key.Some? && key.value in cache && r.0 == cache - {key.value})
    ensures r.1.Replied? ==> r.1.reply.Page? && r.1.reply.status in {200, 401, 404}
    ensures r.1.Thrown? ==>
              r.0 == cache && command == "cache" && verb in {"GET", "PUT", "DELETE"}
  {
    if verb == "POST" && command == "reset" then
      (map[], Replied(Page(200, ResetDone)))
    else if verb == "DELETE" && command == "cache" then
      if params.None? then (cache, Thrown(ParamsUndefined))
      else
        var key := get(params.value, "key");
        if key.Some? && key.value in cache then
          (cache - {key.value}, Replied(Page(200, Deleted)))
        else (cache, Replied(Page(404, NotFound)))
    else if verb == "GET" && command == "cache" then
      if params.None? then (cache, Thrown(ParamsUndefined))
      else
        var key := get(params.value, "key");
        if key.Some? && key.value in cache then (cache, Thrown(CachedElementUndefined))
        else (cache, Replied(Page(404, NotFound)))
    else if verb == "PUT" && command == "cache" then
      // the callee is looked up before the arguments are evaluated
      (cache, Thrown(AddToCacheUndefined))
    else
      (cache, Replied(Page(401, InvalidRequest)))
  }

  // ------------------------------------------------------------ request handler

  /** What an admitted request does: the admin route first, whatever the method; otherwise a
      GET is served from the cache when its path is there, and the rest is dispatched. */
  function Route(cache: Cache, req: Request, get: ParamLookup): (r: (Cache, Next))
    ensures MatchAdmin(req.path).Some? ==> r.1.Finish?
    ensures r.0 != cache ==> MatchAdmin(req.path).Some?
    ensures MatchAdmin(req.path).None? && req.verb == "GET" && req.path in cache ==>
              r == (cache, Finish(Replied(Relay(cache[req.path]))))
    ensures r.1.Await? ==>
              r.0 == cache && r.1.call.path == req.path && !(req.verb == "GET" && req.path in cache)
    ensures MatchAdmin(req.path).Some? ==>
              var m := MatchAdmin(req.path).value;
              var (c, result) := AdminRequest(cache, req.verb, m.command, m.query, get);
              r == (c, Finish(result))
    ensures MatchAdmin(req.path).None? && !(req.verb == "GET" && req.path in cache) ==>
              r == (cache, Dispatch(req))
  {
    match MatchAdmin(req.path)
    case Some(m) =>
      var (c, result) := AdminRequest(cache, req.verb, m.command, m.query, get);
      (c, Finish(result))
    case None =>
      if req.verb == "GET" && req.path in cache then (cache, Finish(Replied(Relay(cache[req.path]))))
      else (cache, Dispatch(req))
  }

  /** The synchronous part of the request handler, up to the upstream call if there is one. */
  function Serve(s: State, req: Request, now: int, get: ParamLookup): (r: (State, Handled))
    ensures r.0.table == Admit(s.table, req.cookies, now).0
    ensures !Admit(s.table, req.cookies, now).1.Admitted? ==> r.0.cache == s.cache && r.1.next.Finish?
    ensures r.0.cache != s.cache ==> MatchAdmin(req.path).Some?
    ensures r.1.next.Await? ==> r.0.cache == s.cache && r.1.next.call.path == req.path
  {
    var (t, a) := Admit(s.table, req.cookies, now);
    match a
    case Rejected(c) => (State(t, s.cache), Handled(c, Finish(Replied(Page(405, MaxedOut)))))
    case Failed(e) => (State(t, s.cache), Handled(NoCookie, Finish(Thrown(e))))
    case Admitted(c) =>
      var (cache, next) := Route(s.cache, req, get);
      (State(t, cache), Handled(c, next))
  }

  /** The upstream 'end' callback: a GET stores a non-redirect response under its path and
      answers a redirect with the upstream host as Location; a POST relays a non-redirect
      response and throws on a redirect. */
  function Completed(cache: Cache, call: UpstreamCall, up: Response): (r: (Cache, Result))
    ensures call.GetCall? && !IsRedirect(up.status) ==>
              r.0 == cache[call.path := up] && r.1 == Replied(Relay(up))
    ensures call.GetCall? && IsRedirect(up.status) ==>
              r.0 == cache && r.1 == Replied(Redirect(up.status, UPSTREAM_HOST))
    ensures call.PostCall? ==> r.0 == cache
    ensures call.PostCall? ==> (r.1.Thrown? <==> IsRedirect(up.status))
    ensures call.PostCall? ==>
              r.1 == if IsRedirect(up.status) then Thrown(HostnameUndefined) else Replied(Relay(up))
    ensures r.1.Replied? && r.1.reply.Relay? ==> r.1.reply.response == up
  {
    match call
    case GetCall(path) =>
      if IsRedirect(up.status) then (cache, Replied(Redirect(up.status, UPSTREAM_HOST)))
      else (cache[path := up], Replied(Relay(up)))
    case PostCall(_, _, _, _) =>
      (cache, if IsRedirect(up.status) then Thrown(HostnameUndefined) else Replied(Relay(up)))
  }

  // -------------------------------------------------------------------- server

  /** The process-wide state: the rate table and the LRU cache, updated in place. */
  class CacheServer {
    const limiter: RateTable
    var cache: Cache

    function Value(): State
      reads this, limiter
    {
      State(limiter.Value(), cache)
    }

    constructor ()
      ensures fresh(limiter)
      ensures Value() == State(INITIAL_TABLE, map[])
    {
      limiter := new RateTable([EmptyArr]);
      cache := map[];
    }

    /** The request handler registered with `createServer`. */
    method Handle(req: Request, now: int, get: ParamLookup) returns (h: Handled)
      modifies this, limiter
      ensures (Value(), h) == Serve(old(Value()), req, now, get)
    {
      var a := Screen(req.cookies, now);
      match a
      case Rejected(c) =>
        h := Handled(c, Finish(Replied(Page(405, MaxedOut))));
      case Failed(e) =>
        h := Handled(NoCookie, Finish(Thrown(e)));
      case Admitted(c) =>
        var next := Forward(req, get);
        h := Handled(c, next);
    }

    /** The rate-limiting prologue of the handler, over `rate_limiter` and `idCounter`. */
    method Screen(cookies: Cookies, now: int) returns (a: Admission)
      modifies limiter
      ensures (limiter.Value(), a) == Admit(old(limiter.Value()), cookies, now)
    {
      var client := CookieValue(cookies, CLIENT_COOKIE);
      var banned := CookieValue(cookies, BANNED_COOKIE);
      if Truthy(banned) {
        a := Rejected(NoCookie);
      } else if Truthy(client) {
        var count := limiter.Increment(ParseInt(client.value));
        a := if GreaterThan(count, MAX_REQUESTS) then Rejected(BanMarker) else Admitted(NoCookie);
      } else {
        var id := limiter.Issue();
        a := if id.Some? then Admitted(IssueId(id.value, now + COOKIE_LIFETIME_MS))
             else Failed(InvalidArrayLength);
      }
    }

    /** The rest of the handler once the request is admitted: the admin route, the cache test
        of a GET, or the upstream call. */
    method Forward(req: Request, get: ParamLookup) returns (next: Next)
      modifies this
      ensures (cache, next) == Route(old(cache), req, get)
    {
      var m := MatchAdmin(req.path);
      if m.Some? {
        var result := Admin(req.verb, m.value.command, m.value.query, get);
        next := Finish(result);
      } else if req.verb == "GET" {
        next := Lookup(req.path);
      } else {
        next := Dispatch(req);
      }
    }

    /** `adminRequest`, mutating the cache. */
    method Admin(verb: string, command: string, params: Option<string>, get: ParamLookup)
      returns (result: Result)
      modifies this
      ensures (cache, result) == AdminRequest(old(cache), verb, command, params, get)
    {
      if verb == "POST" && command == "reset" {
        cache := map[];
        result := Replied(Page(200, ResetDone));
      } else if verb == "DELETE" && command == "cache" {
        if params.None? {
          return Thrown(ParamsUndefined);
        }
        var key := get(params.value, "key");
        if key.Some? && key.value in cache {
          cache := cache - {key.value};
          result := Replied(Page(200, Deleted));
        } else {
          result := Replied(Page(404, NotFound));
        }
      } else if verb == "GET" && command == "cache" {
        if params.None? {
          return Thrown(ParamsUndefined);
        }
        var key := get(params.value, "key");
        if key.Some? && key.value in cache {
          result := Thrown(CachedElementUndefined);
        } else {
          result := Replied(Page(404, NotFound));
        }
      } else if verb == "PUT" && command == "cache" {
        result := Thrown(AddToCacheUndefined);
      } else {
        result := Replied(Page(401, InvalidRequest));
      }
    }

    /** The cache test of `clientGETRequest`: a stored triple is served as it is, without
        asking upstream; otherwise the same path is requested upstream. */
    method Lookup(path: string) returns (next: Next)
      ensures next.Finish? <==> path in cache
      ensures next.Finish? ==> next.result == Replied(Relay(cache[path]))
      ensures next.Await? ==> next.call == GetCall(path)
    {
      if path in cache {
        next := Finish(Replied(Relay(cache[path])));
      } else {
        next := Await(GetCall(path));
      }
    }

    /** The upstream 'end' callback; `addtoCache` is the `set` on the cache. */
    method Complete(call: UpstreamCall, up: Response) returns (result: Result)
      modifies this
      ensures (cache, result) == Completed(old(cache), call, up)
    {
      if IsRedirect(up.status) {
        if call.GetCall? {
          result := Replied(Redirect(up.status, UPSTREAM_HOST));
        } else {
          result := Thrown(HostnameUndefined);
        }
      } else {
        if call.GetCall? {
          cache := cache[call.path := up];
        }
        result := Replied(Relay(up));
      }
    }
  }

  // -------------------------------------------------------------------- lemmas

  /** A request carrying a ban cookie gets 405 and changes nothing, whatever else it carries. */
  lemma BannedRequestIsInert(s: State, req: Request, now: int, get: ParamLookup)
    requires Truthy(CookieValue(req.cookies, BANNED_COOKIE))
    ensures Serve(s, req, now, get) == (s, Handled(NoCookie, Finish(Replied(Page(405, MaxedOut)))))
  {
  }

  /** A request without an id cookie, while the table is shorter than the greatest array
      length, is admitted and issued the next id, for ten minutes; the table gains one trailing
      counter of 1. */
  lemma NewClientAdmitted(s: State, req: Request, now: int, get: ParamLookup)
    requires !Truthy(CookieValue(req.cookies, BANNED_COOKIE))
    requires !Truthy(CookieValue(req.cookies, CLIENT_COOKIE))
    requires |s.table.counters| < MAX_ARRAY_LENGTH
    ensures var (s', h) := Serve(s, req, now, get);
      && s'.table.counters == s.table.counters + [Num(1)]
      && s'.table.idCounter == s.table.idCounter + 1
      && h.cookie == IssueId(s.table.idCounter, now + 600000)
      && (s'.cache, h.next) == Route(s.cache, req, get)
  {
  }

  /** A request presenting id i, an element of the table, changes that counter by one and
      nothing else in the table; it is rejected with the ban cookie, before any routing,
      exactly when the new count exceeds the quota. */
  lemma ClientCountedInOwnSlot(s: State, req: Request, now: int, get: ParamLookup, i: int)
    requires !Truthy(CookieValue(req.cookies, BANNED_COOKIE))
    requires Truthy(CookieValue(req.cookies, CLIENT_COOKIE))
    requires ParseInt(CookieValue(req.cookies, CLIENT_COOKIE).value) == Some(i)
    requires 0 <= i < |s.table.counters|
    ensures var (s', h) := Serve(s, req, now, get);
      var count := Incremented(s.table.counters[i]);
      && s'.table == Table(s.table.counters[i := count], s.table.idCounter)
      && (GreaterThan(count, MAX_REQUESTS) ==>
            s'.cache == s.cache && h == Handled(BanMarker, Finish(Replied(Page(405, MaxedOut)))))
      && (!GreaterThan(count, MAX_REQUESTS) ==>
            h.cookie == NoCookie && (s'.cache, h.next) == Route(s.cache, req, get))
  {
    HitOnlyOwnSlot(s.table, i);
  }

  /** An id that is not a number, or not an element of the table, counts as NaN: the request
      is never rejected, and no counter already in the table changes. */
  lemma UnknownIdNeverRejected(s: State, req: Request, now: int, get: ParamLookup)
    requires !Truthy(CookieValue(req.cookies, BANNED_COOKIE))
    requires Truthy(CookieValue(req.cookies, CLIENT_COOKIE))
    requires var index := ParseInt(CookieValue(req.cookies, CLIENT_COOKIE).value);
      index.None? || index.value < 0 || index.value >= |s.table.counters|
    ensures var (s', h) := Serve(s, req, now, get);
      && h.cookie == NoCookie
      && (s'.cache, h.next) == Route(s.cache, req, get)
      && s'.table.idCounter == s.table.idCounter
      && s'.table.counters[..|s.table.counters|] == s.table.counters
  {
  }

  /** A rejected request ends with 405 before routing: no admin command, no cache access,
      no upstream call, no id issued. */
  lemma RejectionStopsBeforeRouting(s: State, req: Request, now: int, get: ParamLookup)
    requires Admit(s.table, req.cookies, now).1.Rejected?
    ensures var (s', h) := Serve(s, req, now, get);
      && s'.cache == s.cache
      && s'.table.idCounter == s.table.idCounter
      && h.next == Finish(Replied(Page(405, MaxedOut)))
  {
  }

  /** The table keeps one element more than the ids issued, as long as only ids inside the
      table (or none) are presented. */
  lemma TableLengthTracksIds(s: State, req: Request, now: int, get: ParamLookup)
    requires |s.table.counters| == s.table.idCounter + 1
    requires var client := CookieValue(req.cookies, CLIENT_COOKIE);
      client.Some? && ParseInt(client.value).Some? ==> ParseInt(client.value).value < |s.table.counters|
    ensures var s' := Serve(s, req, now, get).0;
      |s'.table.counters| == s'.table.idCounter + 1
  {
  }

  /** Only an admin reset or an admin delete of a stored key changes the cache while a
      request is handled; a GET miss stores its response later, in Completed. */
  lemma CacheChangedOnlyByAdmin(s: State, req: Request, now: int, get: ParamLookup)
    ensures var s' := Serve(s, req, now, get).0;
      s'.cache != s.cache ==>
        && MatchAdmin(req.path).Some?
        && var m := MatchAdmin(req.path).value;
        || (req.verb == "POST" && m.command == "reset" && s'.cache == map[])
        || (req.verb == "DELETE" && m.command == "cache" &&
            exists k :: k in s.cache && s'.cache == s.cache - {k})
  {
    var (t, a) := Admit(s.table, req.cookies, now);
    if a.Admitted? {
      match MatchAdmin(req.path)
      case Some(m) =>
        var (c, _) := AdminRequest(s.cache, req.verb, m.command, m.query, get);
        if c != s.cache && req.verb == "DELETE" {
          var key := get(m.query.value, "key").value;
          assert c == s.cache - {key};
        }
      case None =>
    }
  }

  /** An admitted GET of a stored path that is not an admin path is answered from the cache
      and sends nothing upstream. */
  lemma CacheHitServesStored(s: State, req: Request, now: int, get: ParamLookup)
    requires Admit(s.table, req.cookies, now).1.Admitted?
    requires req.verb == "GET" && MatchAdmin(req.path).None? && req.path in s.cache
    ensures var (s', h) := Serve(s, req, now, get);
      s'.cache == s.cache && h.next == Finish(Replied(Relay(s.cache[req.path])))
  {
  }

  /** An admitted POST that is not an admin path leaves the cache alone, forwards its body with
      its length, and the response leaves the cache alone too. */
  lemma PostBypassesCache(s: State, req: Request, now: int, get: ParamLookup, up: Response)
    requires Admit(s.table, req.cookies, now).1.Admitted?
    requires req.verb == "POST" && MatchAdmin(req.path).None?
    ensures var (s', h) := Serve(s, req, now, get);
      && s'.cache == s.cache
      && h.next == Await(PostCall(req.path, req.contentType, |req.body|, req.body))
      && Completed(s'.cache, h.next.call, up).0 == s'.cache
  {
  }

  /** A response stored by a GET miss is what the next GET of that path gets, byte for byte,
      without going upstream. */
  lemma StoredResponseIsServed(cache: Cache, path: string, up: Response, req: Request,
                               get: ParamLookup)
    requires !IsRedirect(up.status)
    requires req.verb == "GET" && req.path == path && MatchAdmin(path).None?
    ensures var cache' := Completed(cache, GetCall(path), up).0;
      Route(cache', req, get) == (cache', Finish(Replied(Relay(up))))
  {
  }

  /** Admin POST `reset` empties the cache and answers 200. */
  lemma AdminReset(cache: Cache, params: Option<string>, get: ParamLookup)
    ensures AdminRequest(cache, "POST", "reset", params, get) == (map[], Replied(Page(200, ResetDone)))
  {
  }

  /** Admin DELETE `cache`: 200 and the key removed when it is stored, otherwise 404 and
      nothing changed; without query text `params` is undefined and the handler throws. */
  lemma AdminDelete(cache: Cache, params: Option<string>, get: ParamLookup)
    ensures var r := AdminRequest(cache, "DELETE", "cache", params, get);
      if params.None? then r == (cache, Thrown(ParamsUndefined))
      else
        var key := get(params.value, "key");
        if key.Some? && key.value in cache then r == (cache - {key.value}, Replied(Page(200, Deleted)))
        else r == (cache, Replied(Page(404, NotFound)))
  {
  }

  /** Admin GET `cache` never serves the entry: a stored key is read into `chached_element`
      and then `cached_element`, which is not declared, throws; a missing key is 404. */
  lemma AdminGetNeverServes(cache: Cache, params: Option<string>, get: ParamLookup)
    ensures var r := AdminRequest(cache, "GET", "cache", params, get);
      var stored := params.Some? && get(params.value, "key").Some? &&
                    get(params.value, "key").value in cache;
      && r.0 == cache
      && (params.None? ==> r.1 == Thrown(ParamsUndefined))
      && (stored ==> r.1 == Thrown(CachedElementUndefined))
      && (params.Some? && !stored ==> r.1 == Replied(Page(404, NotFound)))
  {
  }

  /** Admin PUT `cache` always throws (it calls `addToCache`, which does not exist) and never
      stores anything. */
  lemma AdminPutNeverStores(cache: Cache, params: Option<string>, get: ParamLookup)
    ensures AdminRequest(cache, "PUT", "cache", params, get) == (cache, Thrown(AddToCacheUndefined))
  {
  }

  /** Any other method and command: 401 and nothing changed. */
  lemma AdminOther(cache: Cache, verb: string, command: string, params: Option<string>,
                   get: ParamLookup)
    requires !(verb == "POST" && command == "reset")
    requires command != "cache" || verb !in {"DELETE", "GET", "PUT"}
    ensures AdminRequest(cache, verb, command, params, get) == (cache, Replied(Page(401, InvalidRequest)))
  {
  }

  // ------------------------------------------------------ quota and stickiness

  lemma {:induction false} IssueManyFromStart(n: nat)
    requires n < MAX_ARRAY_LENGTH
    ensures IssueMany(INITIAL_TABLE, n).idCounter == n
    ensures |IssueMany(INITIAL_TABLE, n).counters| == n + 1
    ensures IssueMany(INITIAL_TABLE, n).counters[0] == EmptyArr
    ensures forall j :: 1 <= j <= n ==> IssueMany(INITIAL_TABLE, n).counters[j] == Num(1)
  {
    if n > 0 {
      IssueManyFromStart(n - 1);
    }
  }

  /** From a fresh start with `n` ids issued, the holder of id `i` sending its cookie for the
      k-th time is rejected exactly when k exceeds 15 for id 0 and 14 for every later id: the
      placeholder `[]` makes id 0 count from 0, while every other id counts from the 1 pushed
      when the id before it was issued. */
  lemma QuotaPerId(n: nat, i: nat, k: nat, now: int)
    requires i < n < MAX_ARRAY_LENGTH && k >= 1
    ensures var t := Repeat(IssueMany(INITIAL_TABLE, n), i, k - 1);
      Admit(t, CookiesOf(i), now).1.Rejected? <==>
        k > (if i == 0 then MAX_REQUESTS else MAX_REQUESTS - 1)
  {
    var t := Repeat(IssueMany(INITIAL_TABLE, n), i, k - 1);
    SlotBeforeRequest(n, i, k);
    AdmitOwnCookie(t, i, now);
  }

  /** Before the k-th request with id `i`, its element holds what the issuing pushed plus the
      k - 1 requests already counted. */
  lemma SlotBeforeRequest(n: nat, i: nat, k: nat)
    requires i < n < MAX_ARRAY_LENGTH && k >= 1
    ensures var t := Repeat(IssueMany(INITIAL_TABLE, n), i, k - 1);
      && i < |t.counters|
      && Incremented(t.counters[i]) == Num(if i == 0 then k else k + 1)
  {
    var t0 := IssueMany(INITIAL_TABLE, n);
    IssueManyFromStart(n);
    RepeatCounts(t0, i, k - 1);
  }

  /** A request carrying exactly the cookie of id `i`, an element of the table, is rejected
      exactly when the incremented element exceeds the quota. */
  lemma AdmitOwnCookie(t: Table, i: nat, now: int)
    requires i < |t.counters|
    ensures Admit(t, CookiesOf(i), now).1.Rejected? <==>
              GreaterThan(Incremented(t.counters[i]), MAX_REQUESTS)
  {
    ParseIntOfDecimal(i);
    assert CookieValue(CookiesOf(i), CLIENT_COOKIE) == Some(DecimalString(i));
    assert CookieValue(CookiesOf(i), BANNED_COOKIE) == None;
    HitOnlyOwnSlot(t, i);
  }

  /** The table after a run of requests with the given cookies. */
  function AdmitAll(t: Table, cs: seq<Cookies>, now: int): Table
    decreases |cs|
  {
    if cs == [] then t else AdmitAll(Admit(t, cs[0], now).0, cs[1..], now)
  }

  lemma AdmitKeepsCounters(t: Table, cookies: Cookies, now: int)
    ensures NoneDecreased(t, Admit(t, cookies, now).0)
  {
    if |t.counters| < MAX_ARRAY_LENGTH {
      IssueKeepsCounters(t);
    }
    var client := CookieValue(cookies, CLIENT_COOKIE);
    if client.Some? {
      HitKeepsCounters(t, ParseInt(client.value));
    }
  }

  lemma {:induction false} AdmitAllKeepsCounters(t: Table, cs: seq<Cookies>, now: int)
    ensures NoneDecreased(t, AdmitAll(t, cs, now))
    decreases |cs|
  {
    if cs != [] {
      var t' := Admit(t, cs[0], now).0;
      AdmitKeepsCounters(t, cs[0], now);
      AdmitAllKeepsCounters(t', cs[1..], now);
      NoneDecreasedTransitive(t, t', AdmitAll(t', cs[1..], now));
    }
  }

  /** Once an id has been rejected for its count, the same cookies are rejected again after
      any run of other requests: counters never go down. */
  lemma RejectionIsSticky(t: Table, cookies: Cookies, others: seq<Cookies>, now: int, later: int)
    requires Admit(t, cookies, now).1 == Rejected(BanMarker)
    ensures Admit(AdmitAll(Admit(t, cookies, now).0, others, now), cookies, later).1 == Rejected(BanMarker)
  {
    var client := CookieValue(cookies, CLIENT_COOKIE);
    var index := ParseInt(client.value);
    OnlyNumbersExceed(t.counters, index, MAX_REQUESTS);
    var t1 := Admit(t, cookies, now).0;
    var t2 := AdmitAll(t1, others, now);
    AdmitAllKeepsCounters(t1, others, now);
    HitOnlyOwnSlot(t, index.value);
    HitOnlyOwnSlot(t2, index.value);
  }

  // ------------------------------------------------- the array-length crash

  /** A new client arriving when the table has the greatest array length ends the process:
      `push(1)` throws a RangeError before `idCounter++` and before any reply. */
  lemma FullTableCrashes(s: State, req: Request, now: int, get: ParamLookup)
    requires !Truthy(CookieValue(req.cookies, BANNED_COOKIE))
    requires !Truthy(CookieValue(req.cookies, CLIENT_COOKIE))
    requires |s.table.counters| >= MAX_ARRAY_LENGTH
    ensures Serve(s, req, now, get) == (s, Handled(NoCookie, Finish(Thrown(InvalidArrayLength))))
  {
  }

  /** Any client can end the process with two requests: presenting the last array index as
      its id grows the table to the greatest array length and is admitted, and the next
      request without cookies throws on the push. */
  lemma TwoRequestCrash(s: State, id: nat, first: Request, second: Request, now: int, later: int,
                        get: ParamLookup)
    requires id == MAX_ARRAY_INDEX && |s.table.counters| <= id
    requires first.cookies == CookiesOf(id)
    requires !Truthy(CookieValue(second.cookies, BANNED_COOKIE))
    requires !Truthy(CookieValue(second.cookies, CLIENT_COOKIE))
    ensures var (s1, h1) := Serve(s, first, now, get);
      && h1.cookie == NoCookie
      && (s1.cache, h1.next) == Route(s.cache, first, get)
      && s1.table.idCounter == s.table.idCounter
      && |s1.table.counters| == MAX_ARRAY_LENGTH
      && Serve(s1, second, later, get) == (s1, Handled(NoCookie, Finish(Thrown(InvalidArrayLength))))
  {
    ParseIntOfDecimal(id);
    assert CookieValue(CookiesOf(id), CLIENT_COOKIE) == Some(DecimalString(id));
    assert CookieValue(CookiesOf(id), BANNED_COOKIE) == None;
    UnknownIdNeverRejected(s, first, now, get);
    var s1 := Serve(s, first, now, get).0;
    FullTableCrashes(s1, second, later, get);
  }

  /** The prologue as the id check evidently intends it: an id the table does not have is
      not counted, so only issuing an id makes the table longer. */
  function GuardedAdmit(t: Table, cookies: Cookies, now: int): (Table, Admission) {
    var banned := CookieValue(cookies, BANNED_COOKIE);
    var client := CookieValue(cookies, CLIENT_COOKIE);
    if Truthy(banned) then
      (t, Rejected(NoCookie))
    else if Truthy(client) then
      var (t', v) := HitIssued(t, ParseInt(client.value));
      (t', if GreaterThan(v, MAX_REQUESTS) then Rejected(BanMarker) else Admitted(NoCookie))
    else if |t.counters| >= MAX_ARRAY_LENGTH then
      (t, Failed(InvalidArrayLength))
    else
      (Issued(t), Admitted(IssueId(t.idCounter, now + COOKIE_LIFETIME_MS)))
  }

  function GuardedAdmitAll(t: Table, cs: seq<Cookies>, now: int): Table
    decreases |cs|
  {
    if cs == [] then t else GuardedAdmitAll(GuardedAdmit(t, cs[0], now).0, cs[1..], now)
  }

  lemma {:induction false} GuardedAdmitAllTracksIds(t: Table, cs: seq<Cookies>, now: int)
    requires |t.counters| == t.idCounter + 1
    ensures var t' := GuardedAdmitAll(t, cs, now);
      |t'.counters| == t'.idCounter + 1
    decreases |cs|
  {
    if cs != [] {
      GuardedAdmitAllTracksIds(GuardedAdmit(t, cs[0], now).0, cs[1..], now);
    }
  }

  /** With the guarded prologue the table stays one element longer than the ids issued, so
      the push can fail only once every id below the last array index has been issued. */
  lemma GuardedCrashNeedsAllIds(cs: seq<Cookies>, cookies: Cookies, now: int)
    ensures var t := GuardedAdmitAll(INITIAL_TABLE, cs, now);
      GuardedAdmit(t, cookies, now).1.Failed? ==> t.idCounter >= MAX_ARRAY_INDEX
  {
    GuardedAdmitAllTracksIds(INITIAL_TABLE, cs, now);
  }
}
