/** The limiter as it runs: one growable slice of grant times per key, filtered in place over its own backing
    array, and a map that is cleared of idle keys once it grows past 10000. */
module RateLimiter {
  import opened Common
  import opened RateModel

  /** A Go slice of times: the first `size` cells of its backing array. */
  datatype Slice = Slice(data: array<Time>, size: nat)

  ghost predicate Holds(s: Slice, times: seq<Time>)
    reads s.data
  {
    s.size <= s.data.Length && s.data[..s.size] == times
  }

  /** kept = s[:0]; for each t of s after the cutoff, append it to kept: reads run ahead of the writes. */
  method FilterInPlace(data: array<Time>, size: nat, cutoff: Time) returns (kept: nat)
    requires size <= data.Length
    modifies data
    ensures kept <= size && data[..kept] == Recent(old(data[..size]), cutoff)
  {
    kept := 0;
    ghost var was := data[..];
    for i := 0 to size
      invariant kept <= i
      invariant data[..kept] == Recent(was[..i], cutoff)
      invariant data[i..] == was[i..]
    {
      assert data[i] == data[i..][0] == was[i];
      assert was[..i + 1][..i] == was[..i];
      if data[i] > cutoff {
        data[kept] := data[i];
        kept := kept + 1;
        assert data[..kept] == Recent(was[..i], cutoff) + [was[i]];
      }
      assert data[i + 1..] == was[i + 1..];
    }
    assert was[..size] == old(data[..size]);
  }

  /** append: in place while the backing array has room, otherwise into a larger copy. */
  method Append(s: Slice, t: Time) returns (r: Slice)
    requires s.size <= s.data.Length
    modifies s.data
    ensures r.size == s.size + 1 <= r.data.Length && r.data[..r.size] == old(s.data[..s.size]) + [t]
    ensures r.data == s.data || fresh(r.data)
  {
    var data := s.data;
    if s.size == data.Length {
      data := new Time[2 * s.size + 1](i requires 0 <= i reads s.data =>
        if i < s.size && i < s.data.Length then s.data[i] else 0);
    }
    ghost var was := data[..s.size];
    assert was == old(s.data[..s.size]);
    data[s.size] := t;
    r := Slice(data, s.size + 1);
    assert data[..s.size] == was;
  }

  /** `log` is the map's content as a value. */
  class Limiter {
    const limit: int
    const window: Time
    var attempts: map<string, Slice>
    ghost var log: Log

    ghost function Arrays(): set<array<Time>>
      reads this
    {
      set k | k in attempts :: attempts[k].data
    }

    ghost predicate Valid()
      reads this, Arrays()
    {
      && log.Keys == attempts.Keys
      && (forall k | k in attempts :: Holds(attempts[k], log[k]))
      && (forall k, l | k in attempts && l in attempts && k != l :: attempts[k].data != attempts[l].data)
    }

    constructor (limit: int, window: Time)
      ensures Valid() && log == map[] && this.limit == limit && this.window == window
    {
      this.limit, this.window, attempts, log := limit, window, map[], map[];
    }

    method Allow(key: string, now: Time) returns (ok: bool)
      requires Valid()
      modifies this, Arrays()
      ensures Valid()
      ensures log == Next(limit, window, old(log), Request(key, now))
      ensures ok == Decide(limit, window, old(log), Request(key, now))
    {
      hide Recent, Times, Get;
      ok := Serve(key, now);
      assert |attempts| == |log| by { assert attempts.Keys == log.Keys; }
      if ok && |attempts| > MANY_KEYS {
        Collect(now - window);
      }
    }

    /** Filters the key's times and appends the grant when there is room under the limit. */
    method Serve(key: string, now: Time) returns (ok: bool)
      requires Valid()
      modifies this, Arrays()
      ensures Valid()
      ensures log == old(log)[key := Times(limit, window, Get(old(log), key), now)]
      ensures ok == Decide(limit, window, old(log), Request(key, now))
    {
      hide Recent;
      var s, kept := Filtered(key, now - window);
      ok := kept < limit;
      if ok {
        var grown := Append(Slice(s.data, kept), now);
        s, kept := grown, grown.size;
      }
      Put(key, Slice(s.data, kept), Times(limit, window, Get(log, key), now));
    }

    /** l.attempts[key] = s. */
    method Put(key: string, s: Slice, ghost times: seq<Time>)
      requires log.Keys == attempts.Keys && Holds(s, times)
      requires forall k | k in attempts && k != key :: Holds(attempts[k], log[k]) && attempts[k].data != s.data
      requires forall k, l | k in attempts && l in attempts && k != l :: attempts[k].data != attempts[l].data
      modifies this
      ensures Valid() && log == old(log)[key := times]
    {
      log := log[key := times];
      attempts := attempts[key := s];
    }

    /** l.attempts[key] filtered over its own backing array; a key not seen yet has a nil slice. */
    method Filtered(key: string, cutoff: Time) returns (s: Slice, kept: nat)
      requires Valid()
      modifies if key in attempts then {attempts[key].data} else {}
      ensures kept <= s.data.Length && s.data[..kept] == Recent(Get(log, key), cutoff)
      ensures if key in attempts then s == attempts[key] else fresh(s.data)
    {
      if key in attempts {
        s := attempts[key];
        kept := FilterInPlace(s.data, s.size, cutoff);
      } else {
        var none := new Time[0];
        s, kept := Slice(none, 0), 0;
      }
    }

    /** Deletes every key whose newest time is before the cutoff, or that has none. */
    method Collect(cutoff: Time)
      requires Valid()
      modifies this
      ensures Valid() && log == Collected(old(log), cutoff)
    {
      Sweep(cutoff);
      log := Collected(log, cutoff);
      assert log.Keys == attempts.Keys;
    }

    method Sweep(cutoff: Time)
      requires Valid()
      modifies this`attempts
      ensures attempts == Swept(old(attempts), log, {}, cutoff)
    {
      var all := attempts;
      var todo := attempts.Keys;
      assert attempts == Swept(all, log, todo, cutoff);
      while todo != {}
        invariant todo <= all.Keys
        invariant attempts == Swept(all, log, todo, cutoff)
      {
        ghost var some := SomeElement(todo);
        var k :| k in todo;
        var s := all[k];
        StaleSlice(s, log[k], cutoff);
        SweptStep(all, log, todo, k, cutoff);
        todo := todo - {k};
        if s.size == 0 || s.data[s.size - 1] < cutoff {
          attempts := attempts - {k};
        }
      }
    }
  }

  lemma StaleSlice(s: Slice, times: seq<Time>, cutoff: Time)
    requires Holds(s, times)
    ensures Stale(times, cutoff) <==> s.size == 0 || s.data[s.size - 1] < cutoff
  {
  }

  /** The entries left while `todo` has still to be looked at. */
  ghost function Swept(all: map<string, Slice>, log: Log, todo: set<string>, cutoff: Time): map<string, Slice>
    requires all.Keys == log.Keys
  {
    map k | k in all && (k in todo || !Stale(log[k], cutoff)) :: all[k]
  }

  lemma SweptStep(all: map<string, Slice>, log: Log, todo: set<string>, k: string, cutoff: Time)
    requires all.Keys == log.Keys && k in todo && k in all
    ensures Swept(all, log, todo - {k}, cutoff) ==
            if Stale(log[k], cutoff) then Swept(all, log, todo, cutoff) - {k} else Swept(all, log, todo, cutoff)
  {
  }
}
