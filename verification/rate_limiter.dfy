/**
 * The per-client rate limiter: one token bucket per remote address, each
 * holding at most 100 tokens; a request is let through when its client's
 * bucket gives up one token. The bucket's timed refill is an explicit step
 * here, since the clock is outside the model.
 */
module RateLimiter {
  import opened Wrappers

  /** Bucket capacity, and the number of tokens refilled per minute. */
  const Capacity: nat := 100

  /** The outcome of `performIfAllowed` before the supplier runs. */
  datatype Admission =
    | Forbidden        // no request in scope: 403, supplier not run
    | TooManyRequests  // bucket empty: 429, supplier not run
    | Allowed          // one token consumed: the supplier's response

  type Buckets = map<string, nat>

  /** Every bucket holds at most `Capacity` tokens. */
  predicate BucketsValid(buckets: Buckets) {
    forall ip :: ip in buckets ==> buckets[ip] <= Capacity
  }

  /** The tokens a client has: a client seen for the first time gets a full bucket. */
  function Tokens(buckets: Buckets, ip: string): nat {
    if ip in buckets then buckets[ip] else Capacity
  }

  /**
   * One call of `performIfAllowed` for the client address `clientIp`
   * (absent when no request is bound to the thread): the admission and
   * the new buckets.
   */
  function Admit(buckets: Buckets, clientIp: Option<string>): (r: (Admission, Buckets))
    ensures clientIp.None? <==> r.0 == Forbidden
    ensures clientIp.None? ==> r.1 == buckets
    ensures clientIp.Some? ==> (r.0 == Allowed <==> Tokens(buckets, clientIp.value) >= 1)
    ensures clientIp.Some? ==> r.1.Keys == buckets.Keys + {clientIp.value}
    ensures clientIp.Some? ==>
      r.1[clientIp.value] == (if r.0 == Allowed then Tokens(buckets, clientIp.value) - 1 else Tokens(buckets, clientIp.value))
    ensures forall ip :: ip in buckets && Some(ip) != clientIp ==> ip in r.1 && r.1[ip] == buckets[ip]
    ensures BucketsValid(buckets) ==> BucketsValid(r.1)
  {
    match clientIp
    case None => (Forbidden, buckets)
    case Some(ip) =>
      var bucket := Tokens(buckets, ip);
      if bucket >= 1 then (Allowed, buckets[ip := bucket - 1])
      else (TooManyRequests, buckets[ip := bucket])
  }

  /** The admissions of `n` calls in a row from one client, with no refill in between. */
  function Burst(buckets: Buckets, ip: string, n: nat): seq<Admission>
    decreases n
  {
    if n == 0 then []
    else
      var (a, next) := Admit(buckets, Some(ip));
      [a] + Burst(next, ip, n - 1)
  }

  /**
   * In a burst of calls from one client, exactly the first `Tokens`
   * calls are allowed and every later one is refused with 429.
   */
  lemma {:induction false} BurstAllowsTokens(buckets: Buckets, ip: string, n: nat)
    ensures |Burst(buckets, ip, n)| == n
    ensures forall k :: 0 <= k < n ==>
      Burst(buckets, ip, n)[k] == if k < Tokens(buckets, ip) then Allowed else TooManyRequests
    decreases n
  {
    if n > 0 {
      var (a, next) := Admit(buckets, Some(ip));
      BurstAllowsTokens(next, ip, n - 1);
      var tail := Burst(next, ip, n - 1);
      assert Burst(buckets, ip, n) == [a] + tail;
      if Tokens(buckets, ip) >= 1 {
        assert Tokens(next, ip) == Tokens(buckets, ip) - 1;
      } else {
        assert Tokens(next, ip) == 0;
      }
    }
  }

  /** A client seen for the first time gets 100 requests through, then 429s. */
  lemma NewClientBurst(buckets: Buckets, ip: string, n: nat)
    requires ip !in buckets
    ensures |Burst(buckets, ip, n)| == n
    ensures forall k :: 0 <= k < n ==>
      Burst(buckets, ip, n)[k] == if k < 100 then Allowed else TooManyRequests
  {
    BurstAllowsTokens(buckets, ip, n);
  }

  /**
   * The timed refill, as a step: `tokens` more for one client, never above
   * capacity; every other bucket is left alone.
   */
  function Refilled(buckets: Buckets, ip: string, tokens: nat): (r: Buckets)
    requires ip in buckets && buckets[ip] <= Capacity
    ensures r.Keys == buckets.Keys
    ensures buckets[ip] <= r[ip] <= Capacity
    ensures r[ip] == Capacity || r[ip] == buckets[ip] + tokens
    ensures forall other :: other in buckets && other != ip ==> r[other] == buckets[other]
    ensures BucketsValid(buckets) ==> BucketsValid(r)
  {
    var t := buckets[ip] + tokens;
    buckets[ip := if t > Capacity then Capacity else t]
  }

  class RateLimiterServiceImpl {
    /** The bucket of each client address: its available tokens. */
    var buckets: Buckets

    ghost predicate Valid()
      reads this
    {
      BucketsValid(buckets)
    }

    constructor ()
      ensures buckets == map[] && Valid()
    {
      buckets := map[];
    }

    /**
     * `performIfAllowed` for the current request's client address: whether
     * the supplier may run, with the bucket of that client created on
     * first use and charged one token when allowed.
     */
    method PerformIfAllowed(clientIp: Option<string>) returns (a: Admission)
      requires Valid()
      modifies this
      ensures (a, buckets) == Admit(old(buckets), clientIp)
      ensures Valid()
    {
      if clientIp.None? {
        return Forbidden;
      }
      var ip := clientIp.value;
      if ip !in buckets {
        buckets := buckets[ip := Capacity];
      }
      var bucket := buckets[ip];
      assert bucket == Tokens(old(buckets), ip);
      if bucket >= 1 {
        buckets := buckets[ip := bucket - 1];
        a := Allowed;
      } else {
        a := TooManyRequests;
      }
      assert buckets == old(buckets)[ip := buckets[ip]];
    }

    /** Time passing for one client: `tokens` refilled into its bucket. */
    method Refill(ip: string, tokens: nat)
      requires Valid()
      modifies this
      ensures ip in old(buckets) ==> buckets == Refilled(old(buckets), ip, tokens)
      ensures ip !in old(buckets) ==> buckets == old(buckets)
      ensures Valid()
    {
      if ip in buckets {
        buckets := Refilled(buckets, ip, tokens);
      }
    }
  }
}
