/** The plain proxy (WebProxy/simplewebproxy.js): rate limiting that reports the count in a
    cookie, and GET and POST forwarded upstream with no cache. */
module SimpleProxy {
  import opened Js
  import opened Http
  import opened RateLimit

  const MAX_REQUESTS := 25
  /** Read by the handler into the undeclared `bannedCookie`, which sloppy mode makes an
      implicit global; nothing reads it, so it never throws and never matters. */
  const COUNTER_COOKIE := "webproxyCounter"

  /** The table as the program starts it: empty, no id issued. Issuing id k pushes element k. */
  const INITIAL_TABLE := Table([], 0)

  /** The rate-limiting prologue of the request handler. A rejection reports the count. */
  function Admit(t: Table, cookies: Cookies, now: int): (r: (Table, Admission))
    ensures r.1.Rejected? ==> r.1.cookie.CounterValue? && r.1.cookie.n > MAX_REQUESTS
    ensures r.1.Admitted? ==> r.1.cookie.NoCookie? || r.1.cookie.IssueId?
    ensures IssuesId(r.1) ==>
              && |t.counters| < MAX_ARRAY_LENGTH && r.0 == Issued(t)
              && r.1.cookie == IssueId(t.idCounter, now + COOKIE_LIFETIME_MS)
    ensures !IssuesId(r.1) ==> r.0.idCounter == t.idCounter
    ensures var noCookie := !Truthy(CookieValue(cookies, CLIENT_COOKIE));
      && (r.1.Failed? <==> noCookie && |t.counters| >= MAX_ARRAY_LENGTH)
      && (IssuesId(r.1) <==> noCookie && |t.counters| < MAX_ARRAY_LENGTH)
    ensures r.1.Failed? ==> r == (t, Failed(InvalidArrayLength))
  {
    var client := CookieValue(cookies, CLIENT_COOKIE);
    if Truthy(client) then
      var (t', v) := Hit(t, ParseInt(client.value));
      (t', if GreaterThan(v, MAX_REQUESTS) then Rejected(CounterValue(Base(v))) else Admitted(NoCookie))
    else if |t.counters| >= MAX_ARRAY_LENGTH then
      (t, Failed(InvalidArrayLength))
    else
      (Issued(t), Admitted(IssueId(t.idCounter, now + COOKIE_LIFETIME_MS)))
  }

  /** The synchronous part of the request handler, up to the upstream call if there is one. */
  function Serve(t: Table, req: Request, now: int): (r: (Table, Handled))
    ensures r.0 == Admit(t, req.cookies, now).0
    ensures r.1.next.Await? ==> Admit(t, req.cookies, now).1.Admitted? && r.1.next == Dispatch(req)
    ensures Admit(t, req.cookies, now).1.Rejected? ==>
              r.1 == Handled(Admit(t, req.cookies, now).1.cookie, Finish(Replied(Page(405, MaxedOut))))
    ensures Admit(t, req.cookies, now).1.Failed? ==>
              r.1 == Handled(NoCookie, Finish(Thrown(InvalidArrayLength)))
  {
    var (t', a) := Admit(t, req.cookies, now);
    match a
    case Rejected(c) => (t', Handled(c, Finish(Replied(Page(405, MaxedOut)))))
    case Failed(e) => (t', Handled(NoCookie, Finish(Thrown(e))))
    case Admitted(c) => (t', Handled(c, Dispatch(req)))
  }

  /** The upstream 'end' callback of `clientGETRequest` and `clientPOSTRequest`: exactly the
      five redirect statuses throw (`hostname` is not declared); every other response is
      relayed with its status, content type and body. */
  function Completed(call: UpstreamCall, up: Response): (r: Result)
    ensures r.Thrown? <==> IsRedirect(up.status)
    ensures r.Thrown? ==> r.error == HostnameUndefined
    ensures r.Replied? ==> r.reply == Relay(up)
  {
    if IsRedirect(up.status) then Thrown(HostnameUndefined) else Replied(Relay(up))
  }

  /** The request handler registered with `createServer`, over the globals `rate_limiter` and
      `idCounter`. */
  method Handle(limiter: RateTable, req: Request, now: int) returns (h: Handled)
    modifies limiter
    ensures (limiter.Value(), h) == Serve(old(limiter.Value()), req, now)
  {
    var client := CookieValue(req.cookies, CLIENT_COOKIE);
    var counter := CookieValue(req.cookies, COUNTER_COOKIE);  // written, never read
    var cookie := NoCookie;
    if Truthy(client) {
      var count := limiter.Increment(ParseInt(client.value));
      if GreaterThan(count, MAX_REQUESTS) {
        return Handled(CounterValue(Base(count)), Finish(Replied(Page(405, MaxedOut))));
      }
    } else {
      var id := limiter.Issue();
      if id.None? {
        return Handled(NoCookie, Finish(Thrown(InvalidArrayLength)));
      }
      cookie := IssueId(id.value, now + COOKIE_LIFETIME_MS);
    }
    h := Handled(cookie, Dispatch(req));
  }

  // -------------------------------------------------------------------- lemmas

  /** A request without an id cookie, while the table is shorter than the greatest array
      length, is admitted and issued the next id, for ten minutes; the table gains one trailing
      counter of 1. */
  lemma NewClientAdmitted(t: Table, req: Request, now: int)
    requires !Truthy(CookieValue(req.cookies, CLIENT_COOKIE))
    requires |t.counters| < MAX_ARRAY_LENGTH
    ensures var (t', h) := Serve(t, req, now);
      && t'.counters == t.counters + [Num(1)]
      && t'.idCounter == t.idCounter + 1
      && h == Handled(IssueId(t.idCounter, now + 600000), Dispatch(req))
  {
  }

  /** A request presenting id i, an element of the table, changes that counter by one and
      nothing else; it is rejected with 405 and the new count in a cookie, before dispatch,
      exactly when the new count exceeds 25. */
  lemma ClientCountedInOwnSlot(t: Table, req: Request, now: int, i: int)
    requires Truthy(CookieValue(req.cookies, CLIENT_COOKIE))
    requires ParseInt(CookieValue(req.cookies, CLIENT_COOKIE).value) == Some(i)
    requires 0 <= i < |t.counters|
    ensures var (t', h) := Serve(t, req, now);
      var count := Incremented(t.counters[i]);
      && t' == Table(t.counters[i := count], t.idCounter)
      && (GreaterThan(count, MAX_REQUESTS) ==>
            count.Num? && h == Handled(CounterValue(count.n), Finish(Replied(Page(405, MaxedOut)))))
      && (!GreaterThan(count, MAX_REQUESTS) ==> h == Handled(NoCookie, Dispatch(req)))
  {
    HitOnlyOwnSlot(t, i);
  }

  /** An id that is not a number, or not an element of the table, counts as NaN and the
      request is never rejected; no counter already in the table changes. */
  lemma UnknownIdNeverRejected(t: Table, req: Request, now: int)
    requires Truthy(CookieValue(req.cookies, CLIENT_COOKIE))
    requires var index := ParseInt(CookieValue(req.cookies, CLIENT_COOKIE).value);
      index.None? || index.value < 0 || index.value >= |t.counters|
    ensures var (t', h) := Serve(t, req, now);
      && h == Handled(NoCookie, Dispatch(req))
      && t'.idCounter == t.idCounter
      && t'.counters[..|t.counters|] == t.counters
  {
  }

  /** The `webproxyCounter` cookie has no effect: the outcome is the same whatever it holds,
      or without it. */
  lemma CounterCookieIgnored(t: Table, req: Request, now: int, v: string)
    ensures Serve(t, req.(cookies := req.cookies[COUNTER_COOKIE := v]), now) == Serve(t, req, now)
    ensures Serve(t, req.(cookies := req.cookies - {COUNTER_COOKIE}), now) == Serve(t, req, now)
  {
    assert CookieValue(req.cookies[COUNTER_COOKIE := v], CLIENT_COOKIE) == CookieValue(req.cookies, CLIENT_COOKIE);
    assert CookieValue(req.cookies - {COUNTER_COOKIE}, CLIENT_COOKIE) == CookieValue(req.cookies, CLIENT_COOKIE);
  }

  /** The table keeps one element per id issued, as long as only ids inside the table (or
      none) are presented. */
  lemma TableLengthTracksIds(t: Table, req: Request, now: int)
    requires |t.counters| == t.idCounter
    requires var client := CookieValue(req.cookies, CLIENT_COOKIE);
      client.Some? && ParseInt(client.value).Some? ==> ParseInt(client.value).value < |t.counters|
    ensures var t' := Serve(t, req, now).0;
      |t'.counters| == t'.idCounter
  {
  }

  /** A rejected request ends with 405 before method dispatch: nothing is sent upstream. */
  lemma RejectionStopsBeforeDispatch(t: Table, req: Request, now: int)
    requires Admit(t, req.cookies, now).1.Rejected?
    ensures var (t', h) := Serve(t, req, now);
      && t'.idCounter == t.idCounter
      && h.next == Finish(Replied(Page(405, MaxedOut)))
  {
  }

  lemma {:induction false} IssueManyFromStart(n: nat)
    requires n <= MAX_ARRAY_LENGTH
    ensures IssueMany(INITIAL_TABLE, n).idCounter == n
    ensures |IssueMany(INITIAL_TABLE, n).counters| == n
    ensures forall j :: 0 <= j < n ==> IssueMany(INITIAL_TABLE, n).counters[j] == Num(1)
  {
    if n > 0 {
      IssueManyFromStart(n - 1);
    }
  }

  /** From a fresh start with `n` ids issued, the holder of id `i` sending its cookie for the
      k-th time is rejected exactly when k exceeds 24: with the request that issued the id,
      every client gets 25 requests through. */
  lemma QuotaPerId(n: nat, i: nat, k: nat, now: int)
    requires i < n <= MAX_ARRAY_LENGTH && k >= 1
    ensures var t := Repeat(IssueMany(INITIAL_TABLE, n), i, k - 1);
      Admit(t, CookiesOf(i), now).1.Rejected? <==> k > MAX_REQUESTS - 1
  {
    var t := Repeat(IssueMany(INITIAL_TABLE, n), i, k - 1);
    SlotBeforeRequest(n, i, k);
    AdmitOwnCookie(t, i, now);
  }

  /** Before the k-th request with id `i`, its element holds the 1 pushed when the id was
      issued plus the k - 1 requests already counted. */
  lemma SlotBeforeRequest(n: nat, i: nat, k: nat)
    requires i < n <= MAX_ARRAY_LENGTH && k >= 1
    ensures var t := Repeat(IssueMany(INITIAL_TABLE, n), i, k - 1);
      && i < |t.counters|
      && Incremented(t.counters[i]) == Num(k + 1)
  {
    var t0 := IssueMany(INITIAL_TABLE, n);
    IssueManyFromStart(n);
    RepeatCounts(t0, i, k - 1);
  }

  /** A request carrying exactly the cookie of id `i`, an element of the table, is rejected
      exactly when the incremented element exceeds the quota. */
  lemma AdmitOwnCookie(t: Table, i: nat, now: int)
    requires i < |t.counters|
    ensures Admit(t, CookiesOf(i), now).1.Rejected? <==>
              GreaterThan(Incremented(t.counters[i]), MAX_REQUESTS)
  {
    ParseIntOfDecimal(i);
    assert CookieValue(CookiesOf(i), CLIENT_COOKIE) == Some(DecimalString(i));
    HitOnlyOwnSlot(t, i);
  }

  /** The table after a run of requests with the given cookies. */
  function AdmitAll(t: Table, cs: seq<Cookies>, now: int): Table
    decreases |cs|
  {
    if cs == [] then t else AdmitAll(Admit(t, cs[0], now).0, cs[1..], now)
  }

  lemma AdmitKeepsCounters(t: Table, cookies: Cookies, now: int)
    ensures NoneDecreased(t, Admit(t, cookies, now).0)
  {
    if |t.counters| < MAX_ARRAY_LENGTH {
      IssueKeepsCounters(t);
    }
    var client := CookieValue(cookies, CLIENT_COOKIE);
    if client.Some? {
      HitKeepsCounters(t, ParseInt(client.value));
    }
  }

  /** Counters never go down and elements are never removed, over any run of requests. */
  lemma {:induction false} AdmitAllKeepsCounters(t: Table, cs: seq<Cookies>, now: int)
    ensures NoneDecreased(t, AdmitAll(t, cs, now))
    decreases |cs|
  {
    if cs != [] {
      var t' := Admit(t, cs[0], now).0;
      AdmitKeepsCounters(t, cs[0], now);
      AdmitAllKeepsCounters(t', cs[1..], now);
      NoneDecreasedTransitive(t, t', AdmitAll(t', cs[1..], now));
    }
  }

  /** Once an id has been rejected, the same cookies are rejected again after any run of
      other requests, with a count at least as high. */
  lemma RejectionIsSticky(t: Table, cookies: Cookies, others: seq<Cookies>, now: int, later: int)
    requires Admit(t, cookies, now).1.Rejected?
    ensures var a := Admit(t, cookies, now).1;
      var a' := Admit(AdmitAll(Admit(t, cookies, now).0, others, now), cookies, later).1;
      a'.Rejected? && a'.cookie.CounterValue? && a'.cookie.n > a.cookie.n
  {
    var client := CookieValue(cookies, CLIENT_COOKIE);
    var index := ParseInt(client.value);
    OnlyNumbersExceed(t.counters, index, MAX_REQUESTS);
    var t1 := Admit(t, cookies, now).0;
    var t2 := AdmitAll(t1, others, now);
    AdmitAllKeepsCounters(t1, others, now);
    HitOnlyOwnSlot(t, index.value);
    HitOnlyOwnSlot(t2, index.value);
  }

  // ------------------------------------------------- the array-length crash

  /** A new client arriving when the table has the greatest array length ends the process:
      `push(1)` throws a RangeError before `idCounter++` and before any reply. */
  lemma FullTableCrashes(t: Table, req: Request, now: int)
    requires !Truthy(CookieValue(req.cookies, CLIENT_COOKIE))
    requires |t.counters| >= MAX_ARRAY_LENGTH
    ensures Serve(t, req, now) == (t, Handled(NoCookie, Finish(Thrown(InvalidArrayLength))))
  {
  }

  /** Any client can end the process with two requests: presenting the last array index as
      its id grows the table to the greatest array length and is admitted, and the next
      request without an id cookie throws on the push. */
  lemma TwoRequestCrash(t: Table, id: nat, first: Request, second: Request, now: int, later: int)
    requires id == MAX_ARRAY_INDEX && |t.counters| <= id
    requires first.cookies == CookiesOf(id)
    requires !Truthy(CookieValue(second.cookies, CLIENT_COOKIE))
    ensures var (t1, h1) := Serve(t, first, now);
      && h1 == Handled(NoCookie, Dispatch(first))
      && t1.idCounter == t.idCounter
      && |t1.counters| == MAX_ARRAY_LENGTH
      && Serve(t1, second, later) == (t1, Handled(NoCookie, Finish(Thrown(InvalidArrayLength))))
  {
    ParseIntOfDecimal(id);
    assert CookieValue(CookiesOf(id), CLIENT_COOKIE) == Some(DecimalString(id));
    var t1 := Serve(t, first, now).0;
    FullTableCrashes(t1, second, later);
  }

  /** The prologue as the id check evidently intends it: an id the table does not have is
      not counted, so only issuing an id makes the table longer. */
  function GuardedAdmit(t: Table, cookies: Cookies, now: int): (Table, Admission) {
    var client := CookieValue(cookies, CLIENT_COOKIE);
    if Truthy(client) then
      var (t', v) := HitIssued(t, ParseInt(client.value));
      (t', if GreaterThan(v, MAX_REQUESTS) then Rejected(CounterValue(Base(v))) else Admitted(NoCookie))
    else if |t.counters| >= MAX_ARRAY_LENGTH then
      (t, Failed(InvalidArrayLength))
    else
      (Issued(t), Admitted(IssueId(t.idCounter, now + COOKIE_LIFETIME_MS)))
  }

  function GuardedAdmitAll(t: Table, cs: seq<Cookies>, now: int): Table
    decreases |cs|
  {
    if cs == [] then t else GuardedAdmitAll(GuardedAdmit(t, cs[0], now).0, cs[1..], now)
  }

  lemma {:induction false} GuardedAdmitAllTracksIds(t: Table, cs: seq<Cookies>, now: int)
    requires |t.counters| == t.idCounter
    ensures var t' := GuardedAdmitAll(t, cs, now);
      |t'.counters| == t'.idCounter
    decreases |cs|
  {
    if cs != [] {
      GuardedAdmitAllTracksIds(GuardedAdmit(t, cs[0], now).0, cs[1..], now);
    }
  }

  /** With the guarded prologue the table holds exactly one element per id issued, so the
      push can fail only once every id up to the last array index has been issued. */
  lemma GuardedCrashNeedsAllIds(cs: seq<Cookies>, cookies: Cookies, now: int)
    ensures var t := GuardedAdmitAll(INITIAL_TABLE, cs, now);
      GuardedAdmit(t, cookies, now).1.Failed? ==> t.idCounter >= MAX_ARRAY_LENGTH
  {
    GuardedAdmitAllTracksIds(INITIAL_TABLE, cs, now);
  }
}
