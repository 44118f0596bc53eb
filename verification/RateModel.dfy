/** The sliding-window login limiter as a function on its memory, and the limiter that never forgets which
    it must agree with. */
module RateModel {
  import opened Common

  datatype Request = Request(key: string, now: Time)

  type Log = map<string, seq<Time>>

  const MANY_KEYS := 10000

  function Get(log: Log, key: string): seq<Time> { if key in log then log[key] else [] }

  /** The times after `cutoff`, in order. */
  function Recent(s: seq<Time>, cutoff: Time): seq<Time> {
    if s == [] then []
    else
      var front := Recent(s[..|s| - 1], cutoff);
      if s[|s| - 1] > cutoff then front + [s[|s| - 1]] else front
  }

  predicate Stale(s: seq<Time>, cutoff: Time) { |s| == 0 || s[|s| - 1] < cutoff }

  function Collected(log: Log, cutoff: Time): Log {
    map k | k in log && !Stale(log[k], cutoff) :: log[k]
  }

  function Decide(limit: int, window: Time, log: Log, r: Request): bool {
    |Recent(Get(log, r.key), r.now - window)| < limit
  }

  /** What a key's times are once a request for it has been served. */
  function Times(limit: int, window: Time, s: seq<Time>, now: Time): seq<Time> {
    var kept := Recent(s, now - window);
    if |kept| < limit then kept + [now] else kept
  }

  /** Only a granted request can make the map collect its stale keys. */
  function Next(limit: int, window: Time, log: Log, r: Request): Log {
    var served := log[r.key := Times(limit, window, Get(log, r.key), r.now)];
    if Decide(limit, window, log, r) && |served| > MANY_KEYS then Collected(served, r.now - window) else served
  }

  /** The memory after serving the requests, oldest first. */
  function LogAfter(limit: int, window: Time, rs: seq<Request>): Log {
    if rs == [] then map[]
    else Next(limit, window, LogAfter(limit, window, rs[..|rs| - 1]), rs[|rs| - 1])
  }

  /** Whether the i-th request is granted when the requests are served in turn. */
  predicate Granted(limit: int, window: Time, rs: seq<Request>, i: nat)
    requires i < |rs|
  {
    Decide(limit, window, LogAfter(limit, window, rs[..i]), rs[i])
  }

  // The limiter that never forgets: it keeps every grant there ever was.

  function GrantsOf(grants: seq<Request>, key: string): seq<Time> {
    if grants == [] then []
    else
      var g := grants[|grants| - 1];
      var front := GrantsOf(grants[..|grants| - 1], key);
      if g.key == key then front + [g.now] else front
  }

  predicate IdealAllows(limit: int, window: Time, grants: seq<Request>, r: Request) {
    |Recent(GrantsOf(grants, r.key), r.now - window)| < limit
  }

  function GrantsWith(limit: int, window: Time, grants: seq<Request>, r: Request): seq<Request> {
    if IdealAllows(limit, window, grants, r) then grants + [r] else grants
  }

  function Grants(limit: int, window: Time, rs: seq<Request>): seq<Request> {
    if rs == [] then []
    else GrantsWith(limit, window, Grants(limit, window, rs[..|rs| - 1]), rs[|rs| - 1])
  }

  /** Requests in the order of the clock, none after `now`. */
  predicate UpTo(rs: seq<Request>, now: Time) {
    rs == [] || (rs[|rs| - 1].now <= now && UpTo(rs[..|rs| - 1], rs[|rs| - 1].now))
  }

  /** The clock never steps back. */
  predicate Ordered(rs: seq<Request>) {
    rs == [] || UpTo(rs[..|rs| - 1], rs[|rs| - 1].now)
  }

  /** Times in order, none after `now`. */
  predicate SortedTo(s: seq<Time>, now: Time) {
    s == [] || (s[|s| - 1] <= now && SortedTo(s[..|s| - 1], s[|s| - 1]))
  }

  // ---- Recent ------------------------------------------------------------------------------------------

  lemma RecentSnoc(s: seq<Time>, t: Time, cutoff: Time)
    ensures Recent(s + [t], cutoff) == Recent(s, cutoff) + if t > cutoff then [t] else []
  {
    assert (s + [t])[..|s|] == s;
  }

  lemma {:induction false} RecentTwice(s: seq<Time>, early: Time, late: Time)
    requires early <= late
    ensures Recent(Recent(s, early), late) == Recent(s, late)
  {
    if s != [] {
      var front, t := s[..|s| - 1], s[|s| - 1];
      RecentTwice(front, early, late);
      if t > early {
        RecentSnoc(Recent(front, early), t, late);
      }
    }
  }

  lemma SortedSnoc(s: seq<Time>, t: Time, now: Time)
    requires SortedTo(s, t) && t <= now
    ensures SortedTo(s + [t], now)
  {
    assert (s + [t])[..|s|] == s;
  }

  lemma {:induction false} NothingRecent(s: seq<Time>, cutoff: Time)
    requires SortedTo(s, cutoff)
    ensures Recent(s, cutoff) == [] && forall i | 0 <= i < |s| :: s[i] <= cutoff
  {
    if s != [] {
      var front := s[..|s| - 1];
      NothingRecent(front, s[|s| - 1]);
      NothingRecent(front, cutoff);
      assert forall i | 0 <= i < |front| :: s[i] == front[i];
    }
  }

  lemma {:induction false} RecentIsSorted(s: seq<Time>, now: Time, cutoff: Time)
    requires SortedTo(s, now)
    ensures SortedTo(Recent(s, cutoff), now)
  {
    if s != [] {
      RecentIsSorted(s[..|s| - 1], s[|s| - 1], cutoff);
      SortedSnoc(Recent(s[..|s| - 1], cutoff), s[|s| - 1], now);
    }
  }

  /** Fewer than `limit` times are recent exactly when the `limit`-th from the end is not. */
  lemma {:induction false} CountRecent(s: seq<Time>, now: Time, cutoff: Time, limit: int)
    requires SortedTo(s, now) && limit > 0
    ensures |Recent(s, cutoff)| < limit <==> |s| < limit || s[|s| - limit] <= cutoff
  {
    if s != [] {
      if s[|s| - 1] <= cutoff {
        NothingRecent(s, cutoff);
      } else if limit > 1 {
        CountRecent(s[..|s| - 1], s[|s| - 1], cutoff, limit - 1);
      }
    }
  }

  // ---- The forgetful limiter decides as the one that never forgets --------------------------------------

  /** The memory `s` for a key against all its grants `g`: from the window's start on they are the same. */
  ghost predicate Remembers(s: seq<Time>, g: seq<Time>, now: Time, window: Time) {
    SortedTo(s, now) && SortedTo(g, now) && Recent(s, now - window) == Recent(g, now - window)
  }

  lemma LaterStillRemembers(s: seq<Time>, g: seq<Time>, early: Time, late: Time, window: Time)
    requires early <= late && Remembers(s, g, early, window)
    ensures Remembers(s, g, late, window)
  {
    RecentTwice(s, early - window, late - window);
    RecentTwice(g, early - window, late - window);
  }

  lemma FilteredStillRemembers(s: seq<Time>, g: seq<Time>, now: Time, window: Time)
    requires Remembers(s, g, now, window)
    ensures Remembers(Recent(s, now - window), g, now, window)
  {
    RecentIsSorted(s, now, now - window);
    RecentTwice(s, now - window, now - window);
  }

  lemma GrantIsRemembered(s: seq<Time>, g: seq<Time>, now: Time, window: Time)
    requires Remembers(s, g, now, window)
    ensures Remembers(s + [now], g + [now], now, window)
  {
    SortedSnoc(s, now, now);
    SortedSnoc(g, now, now);
    RecentSnoc(s, now, now - window);
    RecentSnoc(g, now, now - window);
  }

  /** Collecting drops only times that no later window reaches. */
  lemma CollectingForgetsNothing(s: seq<Time>, g: seq<Time>, now: Time, window: Time)
    requires Remembers(s, g, now, window) && Stale(s, now - window)
    ensures Remembers([], g, now, window)
  {
    NothingRecent(s, now - window);
  }

  lemma NextAt(limit: int, window: Time, log: Log, r: Request, key: string)
    ensures var s := if key == r.key then Times(limit, window, Get(log, key), r.now) else Get(log, key);
            var next := Get(Next(limit, window, log, r), key);
            next == s || (Stale(s, r.now - window) && next == [])
  {
  }

  lemma GrantsOfSnoc(grants: seq<Request>, r: Request, key: string)
    ensures GrantsOf(grants + [r], key) ==
            if r.key == key then GrantsOf(grants, key) + [r.now] else GrantsOf(grants, key)
  {
    assert (grants + [r])[..|grants|] == grants;
  }

  lemma TimesRemember(limit: int, window: Time, s: seq<Time>, g: seq<Time>, now: Time)
    requires Remembers(s, g, now, window)
    ensures Remembers(Times(limit, window, s, now), if |Recent(g, now - window)| < limit then g + [now] else g,
                      now, window)
  {
    FilteredStillRemembers(s, g, now, window);
    GrantIsRemembered(Recent(s, now - window), g, now, window);
  }

  lemma OwnKeyRemembers(limit: int, window: Time, log: Log, grants: seq<Request>, r: Request)
    requires Remembers(Get(log, r.key), GrantsOf(grants, r.key), r.now, window)
    ensures Remembers(Times(limit, window, Get(log, r.key), r.now),
                      GrantsOf(GrantsWith(limit, window, grants, r), r.key), r.now, window)
  {
    hide GrantsOf, Recent, Remembers, Times, Get;
    var s, g := Get(log, r.key), GrantsOf(grants, r.key);
    TimesRemember(limit, window, s, g, r.now);
    assert GrantsOf(GrantsWith(limit, window, grants, r), r.key) ==
           if |Recent(g, r.now - window)| < limit then g + [r.now] else g by { GrantsOfSnoc(grants, r, r.key); }
  }

  lemma MaybeCollected(s: seq<Time>, next: seq<Time>, g: seq<Time>, now: Time, window: Time)
    requires Remembers(s, g, now, window)
    requires next == s || (Stale(s, now - window) && next == [])
    ensures Remembers(next, g, now, window)
  {
    if next != s { CollectingForgetsNothing(s, g, now, window); }
  }

  lemma {:induction false} NextRemembers(
    limit: int, window: Time, log: Log, grants: seq<Request>, r: Request, key: string)
    requires Remembers(Get(log, r.key), GrantsOf(grants, r.key), r.now, window)
    requires Remembers(Get(log, key), GrantsOf(grants, key), r.now, window)
    ensures Remembers(Get(Next(limit, window, log, r), key),
                      GrantsOf(GrantsWith(limit, window, grants, r), key), r.now, window)
  {
    var g, next := GrantsOf(GrantsWith(limit, window, grants, r), key), Get(Next(limit, window, log, r), key);
    NextAt(limit, window, log, r, key);
    if key == r.key {
      OwnKeyRemembers(limit, window, log, grants, r);
      MaybeCollected(Times(limit, window, Get(log, key), r.now), next, g, r.now, window);
    } else {
      GrantsOfSnoc(grants, r, key);
      MaybeCollected(Get(log, key), next, g, r.now, window);
    }
  }

  lemma {:induction false} MemoryAfter(limit: int, window: Time, rs: seq<Request>, key: string, now: Time)
    requires UpTo(rs, now)
    ensures Remembers(Get(LogAfter(limit, window, rs), key), GrantsOf(Grants(limit, window, rs), key), now, window)
  {
    if rs != [] {
      var front, last := rs[..|rs| - 1], rs[|rs| - 1];
      MemoryAfter(limit, window, front, key, last.now);
      MemoryAfter(limit, window, front, last.key, last.now);
      NextRemembers(limit, window, LogAfter(limit, window, front), Grants(limit, window, front), last, key);
      LaterStillRemembers(Get(LogAfter(limit, window, rs), key), GrantsOf(Grants(limit, window, rs), key),
                          last.now, now, window);
    }
  }

  lemma DecidesAsIdeal(limit: int, window: Time, rs: seq<Request>, r: Request)
    requires UpTo(rs, r.now)
    ensures Decide(limit, window, LogAfter(limit, window, rs), r) ==
            IdealAllows(limit, window, Grants(limit, window, rs), r)
  {
    MemoryAfter(limit, window, rs, r.key, r.now);
  }

  lemma {:induction false} OrderedUpTo(rs: seq<Request>, i: nat)
    requires Ordered(rs) && i < |rs|
    ensures UpTo(rs[..i], rs[i].now)
  {
    var front := rs[..|rs| - 1];
    if i < |front| {
      OrderedUpTo(front, i);
      assert front[..i] == rs[..i];
    }
  }

  /** Filtering and collecting change no decision: every request is answered as if every grant ever made
      were still remembered. */
  lemma ForgettingChangesNothing(limit: int, window: Time, rs: seq<Request>, i: nat)
    requires Ordered(rs) && i < |rs|
    ensures Granted(limit, window, rs, i) == IdealAllows(limit, window, Grants(limit, window, rs[..i]), rs[i])
  {
    OrderedUpTo(rs, i);
    DecidesAsIdeal(limit, window, rs[..i], rs[i]);
  }

  // ---- What that gives a caller -------------------------------------------------------------------------

  /** With a positive limit the request is granted exactly when the `limit`-th most recent grant for its key is
      missing or already at least `window` old; nothing else, in particular no refused attempt, matters. */
  lemma GrantedExactlyWhen(limit: int, window: Time, rs: seq<Request>, r: Request)
    requires limit > 0 && UpTo(rs, r.now)
    ensures Decide(limit, window, LogAfter(limit, window, rs), r) <==>
            var g := GrantsOf(Grants(limit, window, rs), r.key);
            |g| < limit || r.now - g[|g| - limit] >= window
  {
    DecidesAsIdeal(limit, window, rs, r);
    IdealAllowsExactlyWhen(limit, window, rs, r);
  }

  lemma IdealAllowsExactlyWhen(limit: int, window: Time, rs: seq<Request>, r: Request)
    requires limit > 0 && UpTo(rs, r.now)
    ensures IdealAllows(limit, window, Grants(limit, window, rs), r) <==>
            var g := GrantsOf(Grants(limit, window, rs), r.key);
            |g| < limit || r.now - g[|g| - limit] >= window
  {
    hide Grants, GrantsOf, LogAfter, Get;
    MemoryAfter(limit, window, rs, r.key, r.now);
    CountRecent(GrantsOf(Grants(limit, window, rs), r.key), r.now, r.now - window, limit);
  }

  /** Any limit + 1 consecutive grants for one key span at least the window. */
  lemma {:induction false} GrantsAreSpaced(limit: int, window: Time, rs: seq<Request>, key: string, i: nat)
    requires Ordered(rs) && limit >= 0
    requires i + limit < |GrantsOf(Grants(limit, window, rs), key)|
    ensures var g := GrantsOf(Grants(limit, window, rs), key);
            limit > 0 && g[i + limit] - g[i] >= window
  {
    var front, last := rs[..|rs| - 1], rs[|rs| - 1];
    var before := Grants(limit, window, front);
    GrantsOfSnoc(before, last, key);
    if i + limit < |GrantsOf(before, key)| {
      GrantsAreSpaced(limit, window, front, key, i);
    } else {
      GrantIsSpaced(limit, window, front, last);
    }
  }

  lemma GrantIsSpaced(limit: int, window: Time, rs: seq<Request>, r: Request)
    requires UpTo(rs, r.now) && limit >= 0 && IdealAllows(limit, window, Grants(limit, window, rs), r)
    ensures var g := GrantsOf(Grants(limit, window, rs), r.key);
            limit > 0 && (|g| >= limit ==> r.now - g[|g| - limit] >= window)
  {
    if limit > 0 { IdealAllowsExactlyWhen(limit, window, rs, r); }
  }

  function Without(rs: seq<Request>, i: nat): (r: seq<Request>)
    requires i < |rs|
    ensures |r| == |rs| - 1
  {
    rs[..i] + rs[i + 1..]
  }

  lemma WithoutLater(rs: seq<Request>, i: nat)
    requires i < |rs| - 1
    ensures Without(rs, i) == Without(rs[..|rs| - 1], i) + [rs[|rs| - 1]]
    ensures Without(rs, i)[..|rs| - 2] == Without(rs[..|rs| - 1], i)
  {
  }

  /** A refused attempt prolongs nothing: every later request is answered as if it had not been made. */
  lemma RefusalsLeaveNoTrace(limit: int, window: Time, rs: seq<Request>, i: nat, later: Request)
    requires UpTo(rs, later.now) && i < |rs| && !Granted(limit, window, rs, i)
    ensures Decide(limit, window, LogAfter(limit, window, Without(rs, i)), later) ==
            Decide(limit, window, LogAfter(limit, window, rs), later)
  {
    ForgettingChangesNothing(limit, window, rs, i);
    RefusalAddsNoGrant(limit, window, rs, i);
    WithoutIsUpTo(rs, i, later.now);
    DecidesAsIdeal(limit, window, rs, later);
    DecidesAsIdeal(limit, window, Without(rs, i), later);
  }

  lemma {:induction false} WithoutIsUpTo(rs: seq<Request>, i: nat, now: Time)
    requires i < |rs| && UpTo(rs, now)
    ensures UpTo(Without(rs, i), now)
  {
    var front := rs[..|rs| - 1];
    if i == |front| {
      assert Without(rs, i) == front;
    } else {
      WithoutIsUpTo(front, i, rs[|rs| - 1].now);
      WithoutLater(rs, i);
    }
  }

  lemma {:induction false} RefusalAddsNoGrant(limit: int, window: Time, rs: seq<Request>, i: nat)
    requires i < |rs| && !IdealAllows(limit, window, Grants(limit, window, rs[..i]), rs[i])
    ensures Grants(limit, window, Without(rs, i)) == Grants(limit, window, rs)
  {
    var front, last := rs[..|rs| - 1], rs[|rs| - 1];
    if i == |rs| - 1 {
      assert Without(rs, i) == front;
    } else {
      assert front[..i] == rs[..i];
      RefusalAddsNoGrant(limit, window, front, i);
      WithoutLater(rs, i);
      GrantsSnoc(limit, window, Without(front, i), last);
    }
  }

  lemma GrantsSnoc(limit: int, window: Time, rs: seq<Request>, r: Request)
    ensures Grants(limit, window, rs + [r]) ==
            GrantsWith(limit, window, Grants(limit, window, rs), r)
  {
    assert (rs + [r])[..|rs|] == rs;
  }

  /** The memory is bounded by the window once it holds many keys: a granted request that finds or makes it more than
      10000 leaves only keys with a time at least as late as the window's beginning. */
  lemma ManyKeysAreCollected(limit: int, window: Time, log: Log, r: Request, key: string)
    requires Decide(limit, window, log, r) && |log[r.key := [r.now]]| > 10000
    requires key in Next(limit, window, log, r)
    ensures var s := Next(limit, window, log, r)[key]; s != [] && s[|s| - 1] >= r.now - window
  {
    assert log[r.key := [r.now]].Keys == log[r.key := Times(limit, window, Get(log, r.key), r.now)].Keys;
    SameSize(log[r.key := [r.now]], log[r.key := Times(limit, window, Get(log, r.key), r.now)]);
  }

  lemma SameSize(a: Log, b: Log)
    requires a.Keys == b.Keys
    ensures |a| == |b|
  {
    assert |a| == |a.Keys| && |b| == |b.Keys|;
  }
}
