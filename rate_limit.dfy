/**
 * The fixed-window limiter of `src/middlewares/rate-limit.ts`. The module-level
 * `rateLimitStore` is a RateLimiter object; `rateLimit(limit, windowMs)` is its
 * method RateLimit, run on each request with the clock reading `now`.
 */
module RateLimit {
  import opened Wrappers
  import opened Http
  import opened RequestEmail

  /** A bucket: requests counted since the window opened, and when it closes. */
  datatype Entry = Entry(count: int, resetTime: int)

  const KeyPrefix := "rate-limit:"

  /** The bucket key: the raw email, not normalised. */
  function Key(email: string): string {
    KeyPrefix + email
  }

  /** Distinct email strings get distinct buckets, even when they normalise alike. */
  lemma KeyInjective(a: string, b: string)
    ensures Key(a) == Key(b) <==> a == b
  {
    if Key(a) == Key(b) {
      assert a == Key(a)[|KeyPrefix|..];
      assert b == Key(b)[|KeyPrefix|..];
    }
  }

  /** The fixed-window rule for one request at `now`: whether it is let through,
      and the bucket kept afterwards. */
  function Consume(e: Option<Entry>, limit: int, windowMs: int, now: int): (bool, Entry) {
    match e
    case None => (true, Entry(1, now + windowMs))
    case Some(entry) =>
      if entry.resetTime > now then
        if entry.count >= limit then (false, entry)
        else (true, entry.(count := entry.count + 1))
      else (true, Entry(1, now + windowMs))
  }

  /** Every bucket is within `limit`. */
  ghost predicate WithinLimit(store: map<string, Entry>, limit: int) {
    forall k | k in store :: 1 <= store[k].count <= limit
  }

  /** With `limit >= 1` a bucket never counts past the limit. */
  lemma ConsumeKeepsBounds(e: Option<Entry>, limit: int, windowMs: int, now: int)
    requires limit >= 1
    requires e.Some? ==> 1 <= e.value.count <= limit
    ensures 1 <= Consume(e, limit, windowMs, now).1.count <= limit
  {
  }

  /** The verdicts for requests to one key at the times `times`, in order. */
  function Replay(e: Option<Entry>, limit: int, windowMs: int, times: seq<int>): (r: seq<bool>)
    ensures |r| == |times|
    decreases |times|
  {
    if times == [] then []
    else
      var (ok, next) := Consume(e, limit, windowMs, times[0]);
      [ok] + Replay(Some(next), limit, windowMs, times[1..])
  }

  /** The verdicts for a prefix of the requests are a prefix of the verdicts. */
  lemma {:induction false} ReplayPrefix(e: Option<Entry>, limit: int, windowMs: int, times: seq<int>, n: int)
    requires 0 <= n <= |times|
    ensures Replay(e, limit, windowMs, times)[..n] == Replay(e, limit, windowMs, times[..n])
    decreases n
  {
    if n > 0 {
      var next := Consume(e, limit, windowMs, times[0]).1;
      ReplayPrefix(Some(next), limit, windowMs, times[1..], n - 1);
      assert times[..n][1..] == times[1..][..n - 1];
    }
  }

  /** Inside a live window that has counted `count` requests, the i-th further
      request is let through exactly when `count + i < limit`. */
  lemma {:induction false} LiveWindowVerdicts(count: int, resetTime: int, limit: int, windowMs: int, times: seq<int>)
    requires forall i | 0 <= i < |times| :: times[i] < resetTime
    ensures forall i | 0 <= i < |times| ::
              Replay(Some(Entry(count, resetTime)), limit, windowMs, times)[i] == (count + i < limit)
    decreases |times|
  {
    if times != [] {
      var r := Replay(Some(Entry(count, resetTime)), limit, windowMs, times);
      var next := if count >= limit then count else count + 1;
      LiveWindowVerdicts(next, resetTime, limit, windowMs, times[1..]);
      assert r[1..] == Replay(Some(Entry(next, resetTime)), limit, windowMs, times[1..]);
      forall i | 1 <= i < |times|
        ensures r[i] == (count + i < limit)
      {
        assert r[i] == r[1..][i - 1];
      }
    }
  }

  /** A key with no bucket admits the first `limit` requests of a window opened at
      `start` and refuses every later one in it. */
  lemma FreshWindowAdmitsLimit(limit: int, windowMs: int, start: int, later: seq<int>)
    requires forall i | 0 <= i < |later| :: later[i] < start + windowMs
    ensures forall i | 0 <= i < |later| + 1 ::
              Replay(None, limit, windowMs, [start] + later)[i] == (i < limit || i == 0)
  {
    LiveWindowVerdicts(1, start + windowMs, limit, windowMs, later);
    var r := Replay(None, limit, windowMs, [start] + later);
    assert ([start] + later)[1..] == later;
    forall i | 1 <= i < |later| + 1
      ensures r[i] == (i < limit)
    {
      assert r[i] == Replay(Some(Entry(1, start + windowMs)), limit, windowMs, later)[i - 1];
    }
  }

  /** Once the window has closed, the next request is let through and opens a new one. */
  lemma ExpiredWindowReopens(count: int, resetTime: int, limit: int, windowMs: int, now: int)
    requires resetTime <= now
    ensures Consume(Some(Entry(count, resetTime)), limit, windowMs, now) == (true, Entry(1, now + windowMs))
  {
  }

  /** The store shared by every `rateLimit` middleware. */
  class RateLimiter {
    var store: map<string, Entry>

    constructor ()
      ensures store == map[]
    {
      store := map[];
    }

    /** One request through `rateLimit(limit, windowMs)` at the clock reading `now`. */
    method RateLimit(limit: int, windowMs: int, body: RequestBody, isEmail: string -> bool, now: int)
      returns (r: Gate<string>)
      modifies this
      ensures limit >= 1 && old(WithinLimit(store, limit)) ==> WithinLimit(store, limit)
      ensures RequiredEmail(body, isEmail).Failure? ==>
                r == Reject(RequiredEmail(body, isEmail).error) && store == old(store)
      ensures RequiredEmail(body, isEmail).Success? ==>
                var key := Key(body.email.value);
                var e := if key in old(store) then Some(old(store)[key]) else None;
                && (r.Next? <==> Consume(e, limit, windowMs, now).0)
                && (r.Next? ==> r.value == body.email.value)
                && (r.Reject? ==> r.reply == Reply(TOO_MANY_REQUESTS, Message("Rate limit exceeded")))
                && store == old(store)[key := Consume(e, limit, windowMs, now).1]
      ensures RequiredEmail(body, isEmail).Success? ==>
                var key := Key(body.email.value);
                && (key !in old(store) ==> r.Next? && store[key] == Entry(1, now + windowMs))
                && (key in old(store) && old(store)[key].resetTime > now && old(store)[key].count >= limit ==>
                      r.Reject? && store == old(store))
                && (key in old(store) && old(store)[key].resetTime > now && old(store)[key].count < limit ==>
                      r.Next? && store[key] == old(store)[key].(count := old(store)[key].count + 1))
                && (key in old(store) && old(store)[key].resetTime <= now ==>
                      r.Next? && store[key] == Entry(1, now + windowMs))
                && forall k | k != key :: (k in store <==> k in old(store)) && (k in store ==> store[k] == old(store)[k])
    {
      var checked := RequiredEmail(body, isEmail);
      if checked.Failure? {
        return Reject(checked.error);
      }
      var email := checked.value;
      var key := Key(email);
      if key in store {
        var entry := store[key];
        if entry.resetTime > now {
          if entry.count >= limit {
            return Reject(Reply(TOO_MANY_REQUESTS, Message("Rate limit exceeded")));
          }
          store := store[key := entry.(count := entry.count + 1)];
        } else {
          store := store[key := entry.(count := 1)];
          store := store[key := store[key].(resetTime := now + windowMs)];
        }
      } else {
        store := store[key := Entry(1, now + windowMs)];
      }
      return Next(email);
    }
  }
}
