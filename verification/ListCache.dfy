/** The TTL cache in front of the "list everything to find one" lookups
    (internal/netbirdutil/cache.go). */
module ListCaches {
  import opened Api

  /** Thirty seconds, in nanoseconds. */
  const LIST_CACHE_TTL: int := 30_000_000_000

  /** The fetch closure of one call: the answer to its k-th invocation. */
  type Fetch<!T> = nat -> Reply<seq<T>>

  datatype Cache<+T> = Cache(items: seq<T>, ok: bool, expires: int)

  /** A successful fetch and the clock reading it was stamped with. */
  datatype Stamped<+T> = Stamped(at: int, items: seq<T>)

  datatype Found<+T> = Hit(item: T) | Miss | Broken(err: Err)

  /** What one lookup leaves behind and answers; fetches lists the successful
      fetches it made, calls counts every attempt. */
  datatype Looked<+T> = Looked(cache: Cache<T>, found: Found<T>, calls: nat, fetches: seq<Stamped<T>>)

  predicate Fresh<T>(c: Cache<T>, now: int) {
    c.ok && now < c.expires
  }

  function Store<T>(c: Cache<T>, now: int, reply: Reply<seq<T>>): Cache<T> {
    if reply.Ok? then Cache(reply.value, true, now + LIST_CACHE_TTL) else c
  }

  /** x is the earliest item of items that satisfies match. */
  ghost predicate FirstMatch<T>(items: seq<T>, match_: T -> bool, x: T) {
    exists i :: 0 <= i < |items| && items[i] == x && match_(x) && forall j :: 0 <= j < i ==> !match_(items[j])
  }

  ghost predicate NoMatch<T>(items: seq<T>, match_: T -> bool) {
    forall i :: 0 <= i < |items| ==> !match_(items[i])
  }

  function Scan<T>(items: seq<T>, match_: T -> bool): (r: Option<T>)
    ensures r.Some? ==> FirstMatch(items, match_, r.value)
    ensures r.None? <==> NoMatch(items, match_)
  {
    if items == [] then None
    else if match_(items[0]) then
      Some(items[0])
    else
      var r := Scan(items[1..], match_);
      assert r.Some? ==> FirstMatch(items, match_, r.value) by {
        if r.Some? {
          var i :| 0 <= i < |items[1..]| && items[1..][i] == r.value && match_(r.value)
                   && forall j :: 0 <= j < i ==> !match_(items[1..][j]);
          assert items[i + 1] == r.value;
          assert forall j :: 0 <= j < i + 1 ==> !match_(items[j]) by {
            forall j | 0 <= j < i + 1 ensures !match_(items[j]) {
              if j > 0 { assert items[j] == items[1..][j - 1]; }
            }
          }
        }
      }
      assert r.None? ==> NoMatch(items, match_) by {
        if r.None? {
          forall i | 0 <= i < |items| ensures !match_(items[i]) {
            if i > 0 { assert items[i] == items[1..][i - 1]; }
          }
        }
      }
      assert !r.None? ==> !NoMatch(items, match_);
      r
  }

  function Verdict<T>(items: seq<T>, match_: T -> bool): Found<T> {
    var r := Scan(items, match_);
    if r.Some? then Hit(r.value) else Miss
  }

  /** The second look: a fetch that bypasses the freshness check. */
  function Refreshed<T>(c: Cache<T>, now: int, fetch: Fetch<T>, match_: T -> bool, calls: nat,
                        fetches: seq<Stamped<T>>): Looked<T> {
    var reply := fetch(calls);
    if reply.Fail? then Looked(c, Broken(reply.err), calls + 1, fetches)
    else Looked(Store(c, now, reply), Verdict(reply.value, match_), calls + 1,
                fetches + [Stamped(now, reply.value)])
  }

  function LookedUp<T>(c: Cache<T>, now: int, fetch: Fetch<T>, match_: T -> bool): Looked<T> {
    if Fresh(c, now) then
      if Verdict(c.items, match_).Hit? then Looked(c, Verdict(c.items, match_), 0, [])
      else Refreshed(c, now, fetch, match_, 0, [])
    else
      var reply := fetch(0);
      if reply.Fail? then Looked(c, Broken(reply.err), 1, [])
      else if Verdict(reply.value, match_).Hit? then
        Looked(Store(c, now, reply), Verdict(reply.value, match_), 1, [Stamped(now, reply.value)])
      else Refreshed(Store(c, now, reply), now, fetch, match_, 1, [Stamped(now, reply.value)])
  }

  class ListCache<T> {
    var items: seq<T>
    var ok: bool
    var expires: int

    function State(): Cache<T> reads this { Cache(items, ok, expires) }

    constructor ()
      ensures State() == Cache([], false, 0)
    {
      items, ok, expires := [], false, 0;
    }

    /** A failed fetch leaves the cache alone; a successful one replaces it
        and starts a new lifetime of thirty seconds. */
    method FetchLocked(now: int, reply: Reply<seq<T>>) returns (r: Reply<seq<T>>)
      modifies this
      ensures r == reply
      ensures reply.Fail? ==> State() == old(State())
      ensures reply.Ok? ==> items == reply.value && ok && expires == now + LIST_CACHE_TTL
    {
      if reply.Fail? {
        return Fail(reply.err);
      }
      items := reply.value;
      ok := true;
      expires := now + LIST_CACHE_TTL;
      return Ok(items);
    }

    /** calls is how often the fetch closure has been invoked before. */
    method List(now: int, fetch: Fetch<T>, calls: nat) returns (r: Reply<seq<T>>, calls': nat)
      modifies this
      ensures calls' == if old(Fresh(State(), now)) then calls else calls + 1
      ensures r == if old(Fresh(State(), now)) then Ok(old(items)) else fetch(calls)
      ensures State() == if old(Fresh(State(), now)) then old(State()) else Store(old(State()), now, r)
    {
      if ok && now < expires {
        return Ok(items), calls;
      }
      r := FetchLocked(now, fetch(calls));
      calls' := calls + 1;
    }

    method Refresh(now: int, fetch: Fetch<T>, calls: nat) returns (r: Reply<seq<T>>, calls': nat)
      modifies this
      ensures calls' == calls + 1 && r == fetch(calls)
      ensures State() == Store(old(State()), now, r)
    {
      r := FetchLocked(now, fetch(calls));
      calls' := calls + 1;
    }

    method Lookup(now: int, fetch: Fetch<T>, match_: T -> bool) returns (found: Found<T>, calls: nat)
      modifies this
      ensures var l := LookedUp(old(State()), now, fetch, match_);
              State() == l.cache && found == l.found && calls == l.calls
    {
      var listed;
      listed, calls := List(now, fetch, 0);
      if listed.Fail? {
        return Broken(listed.err), calls;
      }
      var i := IndexFunc(listed.value, match_);
      if i < |listed.value| {
        return Hit(listed.value[i]), calls;
      }
      listed, calls := Refresh(now, fetch, calls);
      if listed.Fail? {
        return Broken(listed.err), calls;
      }
      i := IndexFunc(listed.value, match_);
      if i < |listed.value| {
        return Hit(listed.value[i]), calls;
      }
      return Miss, calls;
    }
  }

  /** slices.IndexFunc, with the length instead of -1 for "none". */
  method IndexFunc<T>(items: seq<T>, match_: T -> bool) returns (i: nat)
    ensures i <= |items|
    ensures i < |items| ==> Scan(items, match_) == Some(items[i])
    ensures i == |items| ==> Scan(items, match_) == None
  {
    i := 0;
    while i < |items|
      invariant i <= |items|
      invariant Scan(items, match_) == Scan(items[i..], match_)
    {
      if match_(items[i]) {
        return;
      }
      assert items[i..][1..] == items[i + 1..];
      i := i + 1;
    }
  }

  // ---- Every history of lookups ----

  datatype Query<!T> = Query(now: int, fetch: Fetch<T>, match_: T -> bool)

  /** The cache together with all successful fetches so far, oldest first. */
  datatype Logged<+T> = Logged(cache: Cache<T>, log: seq<Stamped<T>>)

  function Ask<T>(s: Logged<T>, q: Query<T>): Logged<T> {
    var l := LookedUp(s.cache, q.now, q.fetch, q.match_);
    Logged(l.cache, s.log + l.fetches)
  }

  function History<T>(qs: seq<Query<T>>): Logged<T> {
    if qs == [] then Logged(Cache([], false, 0), [])
    else Ask(History(qs[..|qs| - 1]), qs[|qs| - 1])
  }

  /** What the cache holds is exactly the latest successful fetch. */
  ghost predicate Backed<T>(s: Logged<T>) {
    s.cache.ok ==>
      s.log != [] && s.log[|s.log| - 1] == Stamped(s.cache.expires - LIST_CACHE_TTL, s.cache.items)
  }

  lemma {:induction false} HistoryIsBacked<T>(qs: seq<Query<T>>)
    ensures Backed(History(qs))
  {
    if qs != [] {
      HistoryIsBacked(qs[..|qs| - 1]);
    }
  }

  /** A correct answer of a lookup: a hit is the first match of the latest fetch
      in the log, which is less than thirty seconds old; a miss is a fetch made
      during this very call in which nothing matches; an error is the error of
      this call's last fetch and keeps whatever this call had fetched before it;
      and no call fetches more than twice. */
  ghost predicate Faithful<T>(before: Cache<T>, l: Looked<T>, log: seq<Stamped<T>>, q: Query<T>) {
    && l.calls <= 2
    && (l.found.Hit? ==>
          && log != []
          && q.now < log[|log| - 1].at + 30_000_000_000
          && FirstMatch(log[|log| - 1].items, q.match_, l.found.item))
    && (l.found.Miss? ==>
          && l.calls > 0 && l.fetches != []
          && q.fetch(l.calls - 1) == Ok(l.fetches[|l.fetches| - 1].items)
          && NoMatch(l.fetches[|l.fetches| - 1].items, q.match_))
    && (l.found.Broken? ==>
          && l.calls > 0 && q.fetch(l.calls - 1) == Fail(l.found.err)
          && l.cache == if l.fetches == [] then before
                        else Cache(l.fetches[0].items, true, q.now + LIST_CACHE_TTL))
  }

  lemma LookupIsFaithful<T>(s: Logged<T>, q: Query<T>)
    requires Backed(s)
    ensures Faithful(s.cache, LookedUp(s.cache, q.now, q.fetch, q.match_), Ask(s, q).log, q)
  {
    var l := LookedUp(s.cache, q.now, q.fetch, q.match_);
    var log := s.log + l.fetches;
    if l.fetches == [] {
      assert log == s.log;
    } else {
      assert log[|log| - 1] == l.fetches[|l.fetches| - 1];
    }
  }

  /** After any history whatsoever, whatever the clock and the server did, the
      next lookup answers as a direct list would. */
  lemma CacheRefinesDirectList<T>(qs: seq<Query<T>>, q: Query<T>)
    ensures Faithful(History(qs).cache, LookedUp(History(qs).cache, q.now, q.fetch, q.match_), History(qs + [q]).log, q)
  {
    HistoryIsBacked(qs);
    LookupIsFaithful(History(qs), q);
    assert (qs + [q])[..|qs|] == qs;
  }

  /** While the server's list does not change during a lookup, the cache ends up
      with what it had or with that list; a miss means nothing on the live list
      matches, and a hit by an expired cache is the live list's first match. */
  lemma LookupOfSteadyList<T>(c: Cache<T>, now: int, fetch: Fetch<T>, match_: T -> bool, live: seq<T>)
    requires forall k: nat :: fetch(k).Ok? ==> fetch(k).value == live
    ensures var l := LookedUp(c, now, fetch, match_);
            && (l.cache == c || l.cache == Cache(live, true, now + LIST_CACHE_TTL))
            && (l.found.Miss? ==> NoMatch(live, match_) && l.calls > 0)
            && (l.found.Hit? ==> FirstMatch(c.items, match_, l.found.item) || FirstMatch(live, match_, l.found.item))
            && (l.found.Hit? && !Fresh(c, now) ==> FirstMatch(live, match_, l.found.item))
  {
    assert fetch(0).Ok? ==> fetch(0).value == live;
    assert fetch(1).Ok? ==> fetch(1).value == live;
  }
}
