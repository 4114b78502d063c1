// The fixed-window rate limiter of the server (src/server.rs).

module RateSpec {
  const MAX_RATE_KEYS: nat := 2_048

  datatype RateKey = HandshakeIp(ip: nat) | Ip(ip: nat) | Client(key: nat)
  datatype Bucket = Bucket(started: int, count: nat)
  type State = map<RateKey, Bucket>

  function Kept(s: State, window: int, now: int): State {
    map k | k in s && now - s[k].started < window :: s[k]
  }

  function Allow(s: State, key: RateKey, limit: nat, window: int, now: int): (State, bool) {
    var kept := Kept(s, window, now);
    if key !in kept && |kept| >= MAX_RATE_KEYS then
      (kept, false)
    else
      var bucket := if key in kept then kept[key] else Bucket(now, 0);
      if bucket.count >= limit then (kept[key := bucket], false)
      else (kept[key := bucket.(count := bucket.count + 1)], true)
  }

  /** A call is granted exactly when the key's window is open and below the limit, or a window can be opened for it:
      the limit is not 0, and fewer than 2048 windows are open. The windows of other keys stay as they are. */
  lemma AllowExactly(s: State, key: RateKey, limit: nat, window: int, now: int)
    requires window > 0
    ensures var (after, allowed) := Allow(s, key, limit, window, now);
            var running := key in s && now < s[key].started + window;
            && (allowed <==> if running then s[key].count < limit
                             else limit > 0 && |set k | k in s && now < s[k].started + window| < 2048)
            && (allowed ==> key in after && after[key] == if running then Bucket(s[key].started, s[key].count + 1)
                                                          else Bucket(now, 1))
            && (!allowed && running ==> key in after && after[key] == s[key])
            && (forall k :: k in after && k != key ==> k in s && after[k] == s[k])
            && (forall k :: k in s && k != key ==> (k in after <==> now < s[k].started + window))
  {
    var kept := Kept(s, window, now);
    assert kept.Keys == set k | k in s && now < s[k].started + window;
    assert |kept| == |kept.Keys|;
  }
}

module RateObject {
  import opened RateSpec
  import Spec = RateSpec

  class RateLimiter {
    var buckets: State

    constructor ()
      ensures buckets == map[]
    {
      buckets := map[];
    }

    method Allow(key: RateKey, limit: nat, window: nat, now: int) returns (allowed: bool)
      modifies this
      ensures (buckets, allowed) == Spec.Allow(old(buckets), key, limit, window, now)
    {
      buckets := map k | k in buckets && now - buckets[k].started < window :: buckets[k];
      if |buckets| >= MAX_RATE_KEYS && key !in buckets {
        return false;
      }
      if key !in buckets {
        buckets := buckets[key := Bucket(now, 0)];
      }
      var bucket := buckets[key];
      if now - bucket.started >= window {
        bucket := Bucket(now, 0);
      }
      if bucket.count >= limit {
        assert buckets[key := bucket] == buckets;
        return false;
      }
      buckets := buckets[key := bucket.(count := bucket.count + 1)];
      assert buckets == Kept(old(buckets), window, now)[key := bucket.(count := bucket.count + 1)];
      return true;
    }
  }
}

module RateRuns {
  import opened Common
  import opened RateSpec

  datatype Call = Call(key: RateKey, limit: nat, now: int, before: State, after: State, allowed: bool)

  predicate CallAt(calls: seq<Call>, window: int, i: nat)
    requires i < |calls|
  {
    var c := calls[i];
    && c.before == (if i == 0 then map[] else calls[i - 1].after)
    && (c.after, c.allowed) == Allow(c.before, c.key, c.limit, window, c.now)
    && (i > 0 ==> calls[i - 1].now <= c.now)
  }

  /** One window for the whole run; each call brings its own limit and key, under a clock that does not run
      backwards. */
  ghost predicate Valid(calls: seq<Call>, window: int) {
    forall i: nat :: i < |calls| ==> CallAt(calls, window, i)
  }

  predicate Granted(c: Call, key: RateKey, from: int, to: int) {
    c.key == key && c.allowed && from <= c.now < to
  }

  /** How many of the calls were granted to `key` from time `from` to before `to`. */
  function Grants(calls: seq<Call>, key: RateKey, from: int, to: int): nat {
    if calls == [] then 0
    else
      Grants(calls[..|calls| - 1], key, from, to) + if Granted(calls[|calls| - 1], key, from, to) then 1 else 0
  }

  function Bound(limit: nat): int {
    if limit == 0 then 0 else 2 * limit - 1
  }

  /** What the grants of one interval so far say about the bucket that `s` keeps after a call at time `now`. */
  predicate Budget(s: State, key: RateKey, limit: nat, from: int, window: int, now: int, grants: nat) {
    && grants <= Bound(limit)
    && (key in s ==> s[key].count <= limit && s[key].started <= now && (limit > 0 ==> s[key].count > 0))
    && (now < from ==> grants == 0)
    && (from <= now < from + window ==>
          if key !in s then grants < limit || grants == 0
          else if s[key].started < from then grants < s[key].count || grants == 0
          else grants == 0 || grants + 1 <= limit + s[key].count)
  }

  lemma CallKeepsBudget(c: Call, key: RateKey, limit: nat, from: int, window: int, earlier: int, grants: nat)
    requires (c.after, c.allowed) == Allow(c.before, c.key, c.limit, window, c.now) && earlier <= c.now
    requires c.key == key ==> c.limit == limit
    requires window > 0 && Budget(c.before, key, limit, from, window, earlier, grants)
    ensures Budget(c.after, key, limit, from, window, c.now,
                   grants + if Granted(c, key, from, from + window) then 1 else 0)
  {
  }

  /**
   * Wherever an interval one window long starts, it holds at most 2 * limit - 1 grants: a bucket
   * that reaches into it from before has spent at least its first grant already.
   */
  lemma {:induction false} AtMostTwiceTheLimit(calls: seq<Call>, window: int, key: RateKey, limit: nat, from: int)
    requires window > 0 && Valid(calls, window)
    requires forall c :: c in calls && c.key == key ==> c.limit == limit
    ensures Grants(calls, key, from, from + window) <= Bound(limit)
    ensures calls != [] ==>
              var last := calls[|calls| - 1];
              Budget(last.after, key, limit, from, window, last.now, Grants(calls, key, from, from + window))
  {
    if calls == [] {
    } else {
      var k := |calls| - 1;
      var before := calls[..k];
      assert CallAt(calls, window, k);
      forall i: nat | i < k
        ensures CallAt(before, window, i)
      {
        assert CallAt(calls, window, i);
      }
      AtMostTwiceTheLimit(before, window, key, limit, from);
      var earlier := if k == 0 then calls[0].now else calls[k - 1].now;
      CallKeepsBudget(calls[k], key, limit, from, window, earlier, Grants(before, key, from, from + window));
    }
  }

  // ----- The bound is tight -----

  function CallOn(before: State, key: RateKey, limit: nat, window: int, now: int): Call {
    var result := Allow(before, key, limit, window, now);
    Call(key, limit, now, before, result.0, result.1)
  }

  function Final(calls: seq<Call>): State {
    if calls == [] then map[] else calls[|calls| - 1].after
  }

  /** The bucket that `now` finds is `Bucket(started, count)`, or a new one. */
  predicate Finds(s: State, key: RateKey, window: int, now: int, started: int, count: nat) {
    if s == map[key := Bucket(started, count)] then now - started < window
    else started == now && count == 0 && s.Keys <= {key} && (key in s ==> now - s[key].started >= window)
  }

  lemma GrantAlone(s: State, key: RateKey, limit: nat, window: int, now: int, started: int, count: nat)
    requires window > 0 && count < limit && Finds(s, key, window, now, started, count)
    ensures var c := CallOn(s, key, limit, window, now);
            c.allowed && c.after == map[key := Bucket(started, count + 1)]
  {
    var kept := Kept(s, window, now);
    assert kept == map[] || kept == s;
    SubsetCardinality(kept.Keys, {key});
  }

  lemma OneMoreCall(calls: seq<Call>, key: RateKey, limit: nat, window: int, now: int)
    requires Valid(calls, window) && (calls != [] ==> calls[|calls| - 1].now <= now)
    ensures Valid(calls + [CallOn(Final(calls), key, limit, window, now)], window)
  {
    hide Allow;
    var run := calls + [CallOn(Final(calls), key, limit, window, now)];
    forall i: nat | i < |run|
      ensures CallAt(run, window, i)
    {
      assert i < |calls| ==> CallAt(calls, window, i);
    }
  }

  lemma LastCall(calls: seq<Call>, c: Call, key: RateKey, from: int, to: int)
    ensures Grants(calls + [c], key, from, to) ==
            Grants(calls, key, from, to) + if Granted(c, key, from, to) then 1 else 0
  {
    assert (calls + [c])[..|calls|] == calls;
  }

  /** A run that may go on at `now`, all of it under one limit. */
  ghost predicate Extendable(calls: seq<Call>, limit: nat, window: int, now: int) {
    && Valid(calls, window) && (calls != [] ==> calls[|calls| - 1].now <= now)
    && forall c <- calls :: c.limit == limit
  }

  /** `n` calls at one moment while the bucket has room: all are granted. */
  lemma {:induction false} Burst(calls: seq<Call>, key: RateKey, limit: nat, window: int, now: int, n: nat,
                                 started: int, count: nat, from: int, to: int)
    returns (run: seq<Call>)
    requires window > 0 && n > 0 && count + n <= limit && Extendable(calls, limit, window, now)
    requires Finds(Final(calls), key, window, now, started, count)
    ensures Extendable(run, limit, window, now) && run != []
    ensures Final(run) == map[key := Bucket(started, count + n)]
    ensures Grants(run, key, from, to) == Grants(calls, key, from, to) + if from <= now < to then n else 0
    decreases n
  {
    hide Allow, CallAt;
    var c := CallOn(Final(calls), key, limit, window, now);
    GrantAlone(Final(calls), key, limit, window, now, started, count);
    OneMoreCall(calls, key, limit, window, now);
    LastCall(calls, c, key, from, to);
    run := calls + [c];
    if n == 1 {
    } else {
      run := Burst(run, key, limit, window, now, n - 1, started, count + 1, from, to);
    }
  }

  /** For every limit and window there is a run that meets the bound: one grant, then as many as possible around
      the reset. */
  lemma BoundIsReached(key: RateKey, limit: nat, window: int)
    requires limit >= 2 && window >= 2
    ensures exists calls: seq<Call> ::
              Valid(calls, window) && (forall c <- calls :: c.limit == limit) &&
              Grants(calls, key, window - 1, 2 * window - 1) == Bound(limit)
  {
    hide CallAt;
    var from, to := window - 1, 2 * window - 1;
    var a := Burst([], key, limit, window, 0, 1, 0, 0, from, to);
    var b := Burst(a, key, limit, window, window - 1, limit - 1, 0, 1, from, to);
    var c := Burst(b, key, limit, window, window, limit, window, 0, from, to);
  }

  /** The run grants `key` no more than the plain limit in the window that starts at `from`. */
  predicate WithinLimit(calls: seq<Call>, key: RateKey, limit: nat, window: int, from: int) {
    Grants(calls, key, from, from + window) <= limit
  }

  ghost predicate Limited(calls: seq<Call>, key: RateKey, limit: nat, window: int) {
    Valid(calls, window) && forall c <- calls :: c.key == key ==> c.limit == limit
  }

  /** Every run keeps the plain limit in every window if and only if the limit is at most one. */
  lemma PlainLimitHoldsExactly(key: RateKey, limit: nat, window: int)
    requires window >= 2
    ensures limit <= 1 <==>
            forall calls, from ::
              Limited(calls, key, limit, window) ==> WithinLimit(calls, key, limit, window, from)
  {
    if limit <= 1 {
      forall calls, from | Limited(calls, key, limit, window)
        ensures WithinLimit(calls, key, limit, window, from)
      {
        AtMostTwiceTheLimit(calls, window, key, limit, from);
      }
    } else {
      BoundIsReached(key, limit, window);
      var calls: seq<Call> :| Valid(calls, window) && (forall c <- calls :: c.limit == limit) &&
                              Grants(calls, key, window - 1, 2 * window - 1) == Bound(limit);
      assert Limited(calls, key, limit, window) && !WithinLimit(calls, key, limit, window, window - 1);
    }
  }

  /** The map never holds more than MAX_RATE_KEYS buckets. */
  lemma {:induction false} BucketsStayBounded(calls: seq<Call>, window: int, i: nat)
    requires Valid(calls, window) && i < |calls|
    ensures |calls[i].after| <= MAX_RATE_KEYS
  {
    assert CallAt(calls, window, i);
    if i == 0 {
    } else {
      BucketsStayBounded(calls, window, i - 1);
    }
    var kept := Kept(calls[i].before, window, calls[i].now);
    SubsetCardinality(kept.Keys, calls[i].before.Keys);
    if calls[i].key in kept {
      assert calls[i].after.Keys == kept.Keys;
    }
  }
}
