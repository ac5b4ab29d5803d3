/**
 The in-memory sliding-window rate limiter.

 The times of a bucket live in a slice: a backing array and a length. Pruning filters the slice over
 its own array; an accepted call is appended in place while there is room.
 */
module RateLimiter {
  // ----- one bucket, as values -----------------------------------------------------------------------

  // The times after the cutoff, in order.
  function After(times: seq<int>, cutoff: int): seq<int> {
    if times == [] then []
    else
      var front, last := After(times[..|times| - 1], cutoff), times[|times| - 1];
      if last > cutoff then front + [last] else front
  }

  predicate Allows(times: seq<int>, limit: int, window: int, now: int) { |After(times, now - window)| < limit }

  function Recorded(times: seq<int>, limit: int, window: int, now: int): seq<int> {
    After(times, now - window) + if Allows(times, limit, window, now) then [now] else []
  }

  function Bucket(scope: string, key: string): string { scope + ":" + key }

  // The scopes requests are limited under.
  const SCOPES := [
    "buyer:miniapp_login:device", "buyer:miniapp_login:ip", "buyer:guest_merge", "buyer:favorites:add",
    "buyer:favorites:delete", "buyer:histories:view", "buyer:histories:delete", "buyer:intent:min",
    "buyer:intent:day"]

  predicate Apart(s: string, t: string) { !(s + ":" <= t + ":") && !(t + ":" <= s + ":") }

  lemma OneBeginsTheOther(a: string, k: string, b: string, l: string)
    requires a + k == b + l
    ensures a <= b || b <= a
  {
    var all := a + k;
    assert all[..|a|] == a && all[..|b|] == b;
    if |a| <= |b| { assert b[..|a|] == all[..|a|]; } else { assert a[..|b|] == all[..|b|]; }
  }

  lemma ApartScopes(s: string, k: string, t: string, l: string)
    requires Apart(s, t)
    ensures Bucket(s, k) != Bucket(t, l)
  {
    if Bucket(s, k) == Bucket(t, l) { OneBeginsTheOther(s + ":", k, t + ":", l); }
  }

  // Where two scopes differ.
  lemma DifferAt(s: string, t: string, i: nat)
    requires i < |s| && i < |t| && s[i] != t[i]
    ensures Apart(s, t) && Apart(t, s)
  {
    assert (s + ":")[i] != (t + ":")[i];
  }

  lemma ScopesAreApart(i: nat, j: nat)
    requires i < j < |SCOPES|
    ensures Apart(SCOPES[i], SCOPES[j])
  {
    var s, t := SCOPES[i], SCOPES[j];
    if s[6] != t[6] { DifferAt(s, t, 6); }
    else if i == 0 { DifferAt(s, t, 20); }
    else if i == 3 { DifferAt(s, t, 16); }
    else if i == 5 { DifferAt(s, t, 16); }
    else { DifferAt(s, t, 13); }
  }

  /** Two requests share a bucket only if they are limited under the same scope and key. */
  lemma BucketsAreSeparate(i: nat, k: string, j: nat, l: string)
    requires i < |SCOPES| && j < |SCOPES|
    ensures Bucket(SCOPES[i], k) == Bucket(SCOPES[j], l) <==> i == j && k == l
  {
    if i < j { ScopesAreApart(i, j); ApartScopes(SCOPES[i], k, SCOPES[j], l); }
    if j < i { ScopesAreApart(j, i); ApartScopes(SCOPES[j], l, SCOPES[i], k); }
    if i == j {
      var s := SCOPES[i] + ":";
      assert (s + k)[|s|..] == k && (s + l)[|s|..] == l;
    }
  }

  // ----- the limiter -----------------------------------------------------------------------------------

  datatype Slice = Slice(data: array<int>, len: nat)

  class Limiter {
    var hits: map<string, Slice>

    ghost predicate Valid()
      reads this
    {
      && (forall b | b in hits :: hits[b].len <= hits[b].data.Length)
      && (forall b, c | b in hits && c in hits && b != c :: hits[b].data != hits[c].data)
    }

    ghost function Backing(): set<array<int>>
      reads this
    { set b | b in hits :: hits[b].data }

    ghost function Times(b: string): seq<int>
      requires Valid()
      reads this, Backing()
    { if b in hits then hits[b].data[..hits[b].len] else [] }

    constructor ()
      ensures Valid() && hits == map[]
    {
      hits := map[];
    }

    /** One call at time `now`; a limit that is not positive means no limit. */
    method Allow(scope: string, key: string, limit: int, window: int, now: int) returns (ok: bool)
      requires Valid()
      modifies this, Backing()
      ensures Valid()
      ensures forall a | a in Backing() - old(Backing()) :: fresh(a)
      ensures limit <= 0 ==> ok && forall b :: Times(b) == old(Times(b))
      ensures limit > 0 ==>
                var b, was := Bucket(scope, key), old(Times(Bucket(scope, key)));
                ok == Allows(was, limit, window, now) && Times(b) == Recorded(was, limit, window, now)
      ensures forall b | b != Bucket(scope, key) :: Times(b) == old(Times(b))
    {
      if limit <= 0 { return true; }
      var bucket := Bucket(scope, key);
      var history;
      if bucket in hits {
        history := hits[bucket];
      } else {
        var none := new int[0];
        history := Slice(none, 0);
      }
      var kept := Prune(history, now - window);
      var pruned := Slice(history.data, kept);
      if kept >= limit {
        hits := hits[bucket := pruned];
        return false;
      }
      pruned := Append(pruned, now);
      hits := hits[bucket := pruned];
      return true;
    }

    // In place while there is room, otherwise into a larger copy.
    static method Append(s: Slice, t: int) returns (r: Slice)
      requires s.len <= s.data.Length
      modifies s.data
      ensures r.data == s.data || fresh(r.data)
      ensures r.len <= r.data.Length && r.data[..r.len] == old(s.data[..s.len]) + [t]
    {
      var data := s.data;
      if s.len == data.Length { data := Grow(data); }
      data[s.len] := t;
      return Slice(data, s.len + 1);
    }

    // pruned := history[:0]; every append overwrites a place already read.
    static method Prune(history: Slice, cutoff: int) returns (kept: nat)
      requires history.len <= history.data.Length
      modifies history.data
      ensures kept <= history.len
      ensures history.data[..kept] == After(old(history.data[..history.len]), cutoff)
    {
      var data := history.data;
      ghost var was := data[..history.len];
      kept := 0;
      var i := 0;
      while i < history.len
        invariant 0 <= kept <= i <= history.len
        invariant data[..kept] == After(was[..i], cutoff)
        invariant forall k | i <= k < history.len :: data[k] == was[k]
      {
        assert was[..i + 1][..i] == was[..i];
        if data[i] > cutoff {
          data[kept] := data[i];
          kept := kept + 1;
          assert data[..kept] == data[..kept - 1] + [was[i]];
        }
        i := i + 1;
      }
      assert was[..i] == was;
    }

    // A larger array with the same contents.
    static method Grow(data: array<int>) returns (larger: array<int>)
      ensures fresh(larger) && larger.Length > data.Length && larger[..data.Length] == data[..]
    {
      larger := new int[2 * data.Length + 1];
      var i := 0;
      while i < data.Length
        invariant 0 <= i <= data.Length && larger[..i] == data[..i]
      {
        larger[i] := data[i];
        i := i + 1;
      }
    }
  }

  // ----- runs ------------------------------------------------------------------------------------------

  datatype Call = Call(bucket: string, limit: int, window: int, now: int)

  // What the limiter holds for a bucket after a run of calls to any buckets.
  function Held(calls: seq<Call>, b: string): seq<int> {
    if calls == [] then []
    else
      var c, before := calls[|calls| - 1], Held(calls[..|calls| - 1], b);
      if c.bucket != b || c.limit <= 0 then before else Recorded(before, c.limit, c.window, c.now)
  }

  // Every accepted call of a bucket, nothing pruned.
  function Accepted(calls: seq<Call>, b: string): seq<int> {
    if calls == [] then []
    else
      var c, before := calls[|calls| - 1], calls[..|calls| - 1];
      Accepted(before, b) +
        if c.bucket == b && c.limit > 0 && Allows(Held(before, b), c.limit, c.window, c.now) then [c.now] else []
  }

  predicate Clock(calls: seq<Call>) { forall i, j | 0 <= i < j < |calls| :: calls[i].now <= calls[j].now }

  predicate Fixed(calls: seq<Call>, b: string, limit: int, window: int) {
    && limit > 0
    && forall k | 0 <= k < |calls| && calls[k].bucket == b :: calls[k].limit == limit && calls[k].window == window
  }

  function CountFrom(times: seq<int>, from: int, to: int): nat {
    if times == [] then 0
    else
      var last := times[|times| - 1];
      CountFrom(times[..|times| - 1], from, to) + if from <= last < to then 1 else 0
  }

  lemma {:induction false} AfterTwice(times: seq<int>, early: int, late: int)
    requires early <= late
    ensures After(After(times, early), late) == After(times, late)
  {
    if times != [] {
      var front := times[..|times| - 1];
      AfterTwice(front, early, late);
      var kept := After(front, early);
      assert (kept + [times[|times| - 1]])[..|kept|] == kept;
    }
  }

  lemma {:induction false} AfterAppend(times: seq<int>, x: int, cutoff: int)
    ensures After(times + [x], cutoff) == After(times, cutoff) + if x > cutoff then [x] else []
  {
    assert (times + [x])[..|times|] == times;
  }

  lemma AfterRecorded(times: seq<int>, limit: int, window: int, now: int, cutoff: int)
    requires now - window <= cutoff
    ensures After(Recorded(times, limit, window, now), cutoff)
         == After(times, cutoff) + if Allows(times, limit, window, now) && now > cutoff then [now] else []
  {
    AfterTwice(times, now - window, cutoff);
    if Allows(times, limit, window, now) {
      AfterAppend(After(times, now - window), now, cutoff);
    } else {
      assert Recorded(times, limit, window, now) == After(times, now - window);
    }
  }

  // Pruning drops only what no later decision looks at.
  lemma {:induction false} HeldIsRecentPart(calls: seq<Call>, b: string, limit: int, window: int, cutoff: int)
    requires Clock(calls) && Fixed(calls, b, limit, window)
    requires forall k | 0 <= k < |calls| :: calls[k].now - window <= cutoff
    ensures After(Held(calls, b), cutoff) == After(Accepted(calls, b), cutoff)
  {
    if calls != [] {
      var c, before := calls[|calls| - 1], calls[..|calls| - 1];
      HeldIsRecentPart(before, b, limit, window, cutoff);
      if c.bucket == b {
        AfterRecorded(Held(before, b), limit, window, c.now, cutoff);
        AfterAppend(Accepted(before, b), c.now, cutoff);
      }
      assert Accepted(before, b) + [] == Accepted(before, b);
    }
  }

  /** Deciding on the pruned list is deciding on the whole log of accepted calls. */
  lemma PrunedListDecidesLikeTheLog(calls: seq<Call>, b: string, limit: int, window: int, now: int)
    requires Clock(calls) && Fixed(calls, b, limit, window) && forall k | 0 <= k < |calls| :: calls[k].now <= now
    ensures Allows(Held(calls, b), limit, window, now) <==> |After(Accepted(calls, b), now - window)| < limit
  {
    HeldIsRecentPart(calls, b, limit, window, now - window);
  }

  // A window that reaches up to the present holds no more than the times after its start.
  lemma {:induction false} CountIsRecent(times: seq<int>, from: int, to: int, cutoff: int)
    requires from > cutoff
    ensures CountFrom(times, from, to) <= |After(times, cutoff)|
  {
    if times != [] { CountIsRecent(times[..|times| - 1], from, to, cutoff); }
  }

  /** Every half-open interval as long as the window holds at most `limit` accepted calls. */
  lemma {:induction false} AtMostLimitPerWindow(calls: seq<Call>, b: string, limit: int, window: int, from: int)
    requires Clock(calls) && Fixed(calls, b, limit, window)
    ensures CountFrom(Accepted(calls, b), from, from + window) <= limit
  {
    if calls != [] {
      var c, before := calls[|calls| - 1], calls[..|calls| - 1];
      AtMostLimitPerWindow(before, b, limit, window, from);
      var log := Accepted(before, b);
      if c.bucket == b && Allows(Held(before, b), limit, window, c.now) {
        assert (log + [c.now])[..|log|] == log;
        if from <= c.now < from + window {
          PrunedListDecidesLikeTheLog(before, b, limit, window, c.now);
          CountIsRecent(log, from, from + window, c.now - window);
        }
      } else {
        assert Accepted(calls, b) == log;
      }
    }
  }

  lemma {:induction false} AcceptedByThen(calls: seq<Call>, b: string, now: int)
    requires forall k | 0 <= k < |calls| :: calls[k].now <= now
    ensures forall k | 0 <= k < |Accepted(calls, b)| :: Accepted(calls, b)[k] <= now
  {
    if calls != [] { AcceptedByThen(calls[..|calls| - 1], b, now); }
  }

  lemma {:induction false} RecentIsCounted(times: seq<int>, cutoff: int, now: int)
    requires forall k | 0 <= k < |times| :: times[k] <= now
    ensures |After(times, cutoff)| == CountFrom(times, cutoff + 1, now + 1)
  {
    if times != [] { RecentIsCounted(times[..|times| - 1], cutoff, now); }
  }

  /**
   A call is accepted if and only if fewer than `limit` calls were accepted in the window that ends now;
   one that is exactly as old as the window counts no more.
   */
  lemma AcceptedIff(calls: seq<Call>, b: string, limit: int, window: int, now: int)
    requires Clock(calls) && Fixed(calls, b, limit, window) && forall k | 0 <= k < |calls| :: calls[k].now <= now
    ensures Allows(Held(calls, b), limit, window, now)
       <==> CountFrom(Accepted(calls, b), now - window + 1, now + 1) < limit
  {
    hide Accepted, Held, After, CountFrom, Allows;
    PrunedListDecidesLikeTheLog(calls, b, limit, window, now);
    AcceptedByThen(calls, b, now);
    RecentIsCounted(Accepted(calls, b), now - window, now);
  }
}
