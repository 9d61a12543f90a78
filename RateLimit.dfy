/** The rate table both proxies keep as two globals: the array `rate_limiter` of per-id
    request counters and the next id to issue, `idCounter`. The only changes the code makes
    are `rate_limiter.push(1); idCounter++` for a new client and `rate_limiter[index]++`
    for a client presenting an id. */
module RateLimit {
  import opened Js
  import opened Http

  datatype Table = Table(counters: seq<Slot>, idCounter: nat)

  /** How the rate-limiting prologue ends: the request goes on, it is turned away, or the
      handler throws (the push for a new client on a full-length array). */
  datatype Admission =
    | Admitted(cookie: SetCookie)
    | Rejected(cookie: SetCookie)
    | Failed(error: JsError)

  /** The prologue issued a new id. */
  predicate IssuesId(a: Admission) {
    a.Admitted? && a.cookie.IssueId?
  }

  /** A new client: one counter of 1 is pushed and the next id advances. The push succeeds
      only while the array is shorter than the greatest array length; at that length it throws
      before `idCounter++` runs, and the handlers take that branch before this one. */
  function Issued(t: Table): (r: Table)
    requires |t.counters| < MAX_ARRAY_LENGTH
    ensures |r.counters| == |t.counters| + 1 && r.idCounter == t.idCounter + 1
    ensures r.counters[..|t.counters|] == t.counters && r.counters[|t.counters|] == Num(1)
  {
    Table(t.counters + [Num(1)], t.idCounter + 1)
  }

  /** A client presenting an id: `rate_limiter[index]++`; the value is what the element holds
      afterwards, the one compared with the quota. */
  function Hit(t: Table, index: Option<int>): (r: (Table, Slot))
    ensures r.0.idCounter == t.idCounter
    ensures index.Some? && 0 <= index.value < |t.counters| ==>
              && r.1 == Incremented(t.counters[index.value])
              && r.0.counters == t.counters[index.value := r.1]
    ensures !(index.Some? && 0 <= index.value < |t.counters|) ==>
              && r.1 == NaN
              && |r.0.counters| >= |t.counters|
              && r.0.counters[..|t.counters|] == t.counters
  {
    var b := PostIncrementAt(t.counters, index);
    (t.(counters := b.table), b.value)
  }

  /** `rate_limiter[index]++` restricted to ids the table already has: any other key leaves the
      table as it is and reads as NaN. */
  function HitIssued(t: Table, index: Option<int>): (r: (Table, Slot))
    ensures |r.0.counters| == |t.counters| && r.0.idCounter == t.idCounter
    ensures index.Some? && 0 <= index.value < |t.counters| ==> r == Hit(t, index)
    ensures !(index.Some? && 0 <= index.value < |t.counters|) ==> r == (t, NaN)
  {
    if index.Some? && 0 <= index.value < |t.counters| then Hit(t, index) else (t, NaN)
  }

  /** The table after `n` new clients. */
  function IssueMany(t: Table, n: nat): (r: Table)
    requires |t.counters| + n <= MAX_ARRAY_LENGTH
    ensures |r.counters| == |t.counters| + n && r.idCounter == t.idCounter + n
  {
    if n == 0 then t else Issued(IssueMany(t, n - 1))
  }

  /** The later table has every counter of the earlier one, none of them smaller. */
  ghost predicate NoneDecreased(t: Table, t': Table) {
    && |t'.counters| >= |t.counters|
    && t'.idCounter >= t.idCounter
    && (forall j :: 0 <= j < |t.counters| && t.counters[j].Num? ==>
         t'.counters[j].Num? && t'.counters[j].n >= t.counters[j].n)
    && (forall j :: 0 <= j < |t.counters| && t.counters[j].EmptyArr? ==>
         t'.counters[j].EmptyArr? || (t'.counters[j].Num? && t'.counters[j].n >= 0))
  }

  lemma IssueKeepsCounters(t: Table)
    requires |t.counters| < MAX_ARRAY_LENGTH
    ensures NoneDecreased(t, Issued(t))
  {
  }

  lemma {:induction false} HitKeepsCounters(t: Table, index: Option<int>)
    ensures NoneDecreased(t, Hit(t, index).0)
  {
  }

  lemma NoneDecreasedTransitive(t: Table, t': Table, t'': Table)
    requires NoneDecreased(t, t') && NoneDecreased(t', t'')
    ensures NoneDecreased(t, t'')
  {
  }

  /** Presenting an id that is an element of the table changes that counter by one and nothing
      else. */
  lemma HitOnlyOwnSlot(t: Table, i: int)
    requires 0 <= i < |t.counters|
    ensures var (t', v) := Hit(t, Some(i));
      && t'.idCounter == t.idCounter
      && |t'.counters| == |t.counters|
      && t'.counters[i] == v == Incremented(t.counters[i])
      && forall j :: 0 <= j < |t.counters| && j != i ==> t'.counters[j] == t.counters[j]
  {
  }

  /** The number a counter counts up from: `[]` counts as 0. */
  function Base(v: Slot): int {
    match v
    case Num(n) => n
    case _ => 0
  }

  /** The table after `k` requests in a row presenting element `i`. */
  function Repeat(t: Table, i: int, k: nat): Table {
    if k == 0 then t else Hit(Repeat(t, i, k - 1), Some(i)).0
  }

  lemma {:induction false} RepeatCounts(t: Table, i: int, k: nat)
    requires 0 <= i < |t.counters|
    requires t.counters[i].Num? || t.counters[i].EmptyArr?
    ensures |Repeat(t, i, k).counters| == |t.counters|
    ensures k > 0 ==> Repeat(t, i, k).counters[i] == Num(Base(t.counters[i]) + k)
    ensures Repeat(t, i, k).idCounter == t.idCounter
  {
    if k > 0 {
      RepeatCounts(t, i, k - 1);
    }
  }

  /** The two globals, updated in place. */
  class RateTable {
    var counters: seq<Slot>
    var idCounter: nat

    function Value(): Table
      reads this
    {
      Table(counters, idCounter)
    }

    constructor (initial: seq<Slot>)
      ensures Value() == Table(initial, 0)
    {
      counters := initial;
      idCounter := 0;
    }

    /** `rate_limiter.push(1); idCounter++`, returning the id the cookie carries. On an array
        of the greatest length the push throws a RangeError before `idCounter++`: None, with
        nothing changed. */
    method Issue() returns (id: Option<nat>)
      modifies this
      ensures old(|counters|) < MAX_ARRAY_LENGTH ==>
                id == Some(old(idCounter)) && Value() == Issued(old(Value()))
      ensures old(|counters|) >= MAX_ARRAY_LENGTH ==> id == None && Value() == old(Value())
    {
      if |counters| >= MAX_ARRAY_LENGTH {
        return None;
      }
      id := Some(idCounter);
      counters := counters + [Num(1)];
      idCounter := idCounter + 1;
    }

    /** `rate_limiter[index]++`, returning what the element then holds. */
    method Increment(index: Option<int>) returns (value: Slot)
      modifies this
      ensures (Value(), value) == Hit(old(Value()), index)
    {
      if index.Some? && 0 <= index.value < |counters| {
        value := Incremented(counters[index.value]);
        counters := counters[index.value := value];
      } else if index.Some? && |counters| <= index.value <= MAX_ARRAY_INDEX {
        counters := counters + Holes(index.value - |counters|) + [NaN];
        value := NaN;
      } else {
        value := NaN;
      }
    }
  }
}
