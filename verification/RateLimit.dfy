/**
 * The fixed-window rate limiter (internal/ratelimit/ratelimit.go). The client address is a parameter,
 * and so is the clock, which never goes back.
 */
module RateLimit {
  import opened Wrappers

  const MAX_KEYS: nat := 10000

  datatype Key = Key(scope: string, ip: string)

  datatype Bucket = Bucket(start: int, count: int, window: int)

  type Buckets = map<Key, Bucket>

  predicate Finished(b: Bucket, t: int) {
    t - b.start >= b.window
  }

  function Unfinished(bs: Buckets, t: int): Buckets {
    map k | k in bs && !Finished(bs[k], t) :: bs[k]
  }

  /** A map over the bound loses its finished windows, and everything if that is not enough. */
  function Sweep(bs: Buckets, t: int): Buckets {
    if |bs| <= MAX_KEYS then bs
    else if |Unfinished(bs, t)| <= MAX_KEYS then Unfinished(bs, t)
    else map[]
  }

  /** Counting without any eviction. */
  function Count(bs: Buckets, k: Key, t: int, limit: int, window: int): (Buckets, bool) {
    if k !in bs || t - bs[k].start >= window then (bs[k := Bucket(t, 1, window)], true)
    else if bs[k].count >= limit then (bs, false)
    else (bs[k := bs[k].(count := bs[k].count + 1)], true)
  }

  function Decide(bs: Buckets, k: Key, t: int, limit: int, window: int): (Buckets, bool) {
    Count(Sweep(bs, t), k, t, limit, window)
  }

  class Limiter {
    var buckets: Buckets

    constructor ()
      ensures buckets == map[]
    {
      buckets := map[];
    }

    method Allow(k: Key, t: int, limit: int, window: int) returns (ok: bool)
      modifies this
      ensures (buckets, ok) == Decide(old(buckets), k, t, limit, window)
      ensures |old(buckets)| <= MAX_KEYS + 1 ==> |buckets| <= MAX_KEYS + 1
    {
      if |buckets| > MAX_KEYS {
        Evict(t);
        if |buckets| > MAX_KEYS {
          buckets := map[];
        }
      }
      assert buckets == Sweep(old(buckets), t);
      if k !in buckets || t - buckets[k].start >= window {
        buckets := buckets[k := Bucket(t, 1, window)];
        return true;
      }
      if buckets[k].count >= limit {
        return false;
      }
      buckets := buckets[k := buckets[k].(count := buckets[k].count + 1)];
      return true;
    }

    /** The loop that deletes the finished windows, in any order. */
    method Evict(t: int)
      modifies this
      ensures buckets == Unfinished(old(buckets), t)
    {
      var keys := buckets.Keys;
      while keys != {}
        invariant buckets.Keys <= old(buckets).Keys && keys <= buckets.Keys
        invariant forall k <- buckets :: buckets[k] == old(buckets)[k] && (k !in keys ==> !Finished(buckets[k], t))
        invariant forall k <- old(buckets) :: k !in buckets ==> Finished(old(buckets)[k], t)
        decreases |keys|
      {
        var k :| k in keys;
        keys := keys - {k};
        if t - buckets[k].start >= buckets[k].window {
          buckets := buckets - {k};
        }
      }
    }
  }

  /**
   * When and what a sweep takes: nothing up to 10000 keys; beyond that the windows that have ended, and if more
   * than 10000 are left, everything.
   */
  lemma SweepMeans(bs: Buckets, t: int)
    ensures |bs| <= 10000 ==> Sweep(bs, t) == bs
    ensures |bs| > 10000 ==>
              || (|Unfinished(bs, t)| > 10000 && Sweep(bs, t) == map[])
              || (|Unfinished(bs, t)| <= 10000
                  && forall k :: k in Sweep(bs, t) <==> k in bs && t < bs[k].start + bs[k].window)
    ensures forall k <- Sweep(bs, t) :: k in bs && Sweep(bs, t)[k] == bs[k]
  {
  }

  // ----- Runs -----

  datatype Request = Request(key: Key, at: int)

  /** One limit and one window per scope. */
  datatype Policy = Policy(limit: int, window: int)

  ghost predicate Proper(policy: string -> Policy) {
    forall scope :: policy(scope).limit >= 1 && policy(scope).window > 0
  }

  ghost predicate Monotone(reqs: seq<Request>) {
    forall i, j :: 0 <= i < j < |reqs| ==> reqs[i].at <= reqs[j].at
  }

  function Answer(evict: bool, bs: Buckets, r: Request, policy: string -> Policy): (Buckets, bool) {
    var p := policy(r.key.scope);
    Count(if evict then Sweep(bs, r.at) else bs, r.key, r.at, p.limit, p.window)
  }

  /** The map after a run, with or without eviction. */
  function After(evict: bool, reqs: seq<Request>, policy: string -> Policy): Buckets {
    if reqs == [] then map[]
    else Answer(evict, After(evict, reqs[..|reqs| - 1], policy), reqs[|reqs| - 1], policy).0
  }

  predicate Admitted(evict: bool, reqs: seq<Request>, policy: string -> Policy, i: nat)
    requires i < |reqs|
  {
    Answer(evict, After(evict, reqs[..i], policy), reqs[i], policy).1
  }

  lemma {:induction false} NeverOverfull(reqs: seq<Request>, policy: string -> Policy)
    ensures |After(true, reqs, policy)| <= MAX_KEYS + 1
  {
  }

  // ----- Eviction is invisible -----

  /** No sweep of the run had to clear the whole map. */
  ghost predicate NeverCleared(reqs: seq<Request>, policy: string -> Policy) {
    forall i :: 0 <= i < |reqs| ==> |Unfinished(After(true, reqs[..i], policy), reqs[i].at)| <= MAX_KEYS
  }

  /** The evicting map has the other's buckets, except some that are finished. */
  ghost predicate Agrees(bs: Buckets, full: Buckets, t: int, policy: string -> Policy) {
    && (forall k <- full :: full[k].window == policy(k.scope).window && full[k].start <= t)
    && (forall k <- bs :: k in full && bs[k] == full[k])
    && (forall k <- full :: k !in bs ==> Finished(full[k], t))
  }

  /** Time and sweeps only take finished buckets away. */
  lemma AgreesSwept(bs: Buckets, full: Buckets, t: int, at: int, policy: string -> Policy)
    requires Agrees(bs, full, t, policy) && t <= at && |Unfinished(bs, at)| <= MAX_KEYS
    ensures Agrees(Sweep(bs, at), full, at, policy)
  {
    forall k <- full | k !in Sweep(bs, at) ensures Finished(full[k], at) {
      if k !in bs {
        assert Finished(full[k], t);
      }
    }
  }

  lemma AgreesCount(bs: Buckets, full: Buckets, k: Key, t: int, policy: string -> Policy)
    requires Agrees(bs, full, t, policy)
    ensures var p := policy(k.scope);
            && Count(bs, k, t, p.limit, p.window).1 == Count(full, k, t, p.limit, p.window).1
            && Agrees(Count(bs, k, t, p.limit, p.window).0, Count(full, k, t, p.limit, p.window).0, t, policy)
  {
  }

  lemma AgreesStep(bs: Buckets, full: Buckets, t: int, r: Request, policy: string -> Policy)
    requires Agrees(bs, full, t, policy) && t <= r.at && |Unfinished(bs, r.at)| <= MAX_KEYS
    ensures Answer(true, bs, r, policy).1 == Answer(false, full, r, policy).1
    ensures Agrees(Answer(true, bs, r, policy).0, Answer(false, full, r, policy).0, r.at, policy)
  {
    AgreesSwept(bs, full, t, r.at, policy);
    AgreesCount(Sweep(bs, r.at), full, r.key, r.at, policy);
  }

  lemma NeverClearedBefore(reqs: seq<Request>, policy: string -> Policy, n: nat)
    requires NeverCleared(reqs, policy) && n <= |reqs|
    ensures NeverCleared(reqs[..n], policy)
  {
    forall i | 0 <= i < n ensures |Unfinished(After(true, reqs[..n][..i], policy), reqs[..n][i].at)| <= MAX_KEYS {
      assert reqs[..n][..i] == reqs[..i];
    }
  }

  lemma {:induction false} AgreesRun(reqs: seq<Request>, policy: string -> Policy, t: int)
    requires Monotone(reqs) && NeverCleared(reqs, policy) && forall i :: 0 <= i < |reqs| ==> reqs[i].at <= t
    ensures Agrees(After(true, reqs, policy), After(false, reqs, policy), t, policy)
  {
    if reqs != [] {
      var n := |reqs| - 1;
      NeverClearedBefore(reqs, policy, n);
      AgreesRun(reqs[..n], policy, reqs[n].at);
      AgreesStep(After(true, reqs[..n], policy), After(false, reqs[..n], policy), reqs[n].at, reqs[n], policy);
    }
  }

  /** As long as no sweep clears the map, every answer is that of a limiter that never evicts. */
  lemma EvictionIsInvisible(reqs: seq<Request>, policy: string -> Policy, i: nat)
    requires Monotone(reqs) && NeverCleared(reqs, policy) && i < |reqs|
    ensures Admitted(true, reqs, policy, i) == Admitted(false, reqs, policy, i)
  {
    NeverClearedBefore(reqs, policy, i);
    AgreesRun(reqs[..i], policy, reqs[i].at);
    AgreesStep(After(true, reqs[..i], policy), After(false, reqs[..i], policy), reqs[i].at, reqs[i], policy);
  }

  /**
   * A sweep changes the answer to a request exactly if it clears the whole map while the key's own
   * window is unfinished and used up.
   */
  lemma SweepChangesAnswerExactly(bs: Buckets, k: Key, t: int, limit: int, window: int)
    requires k in bs ==> bs[k].window == window
    ensures Decide(bs, k, t, limit, window).1 != Count(bs, k, t, limit, window).1 <==>
            |Unfinished(bs, t)| > MAX_KEYS && k in bs && !Finished(bs[k], t) && bs[k].count >= limit
  {
    if |bs| <= MAX_KEYS {
      assert Unfinished(bs, t).Keys <= bs.Keys;
      SmallerDomain(Unfinished(bs, t).Keys, bs.Keys);
    }
  }

  lemma {:induction false} SmallerDomain(a: set<Key>, b: set<Key>)
    requires a <= b
    ensures |a| <= |b|
  {
    if a != {} {
      var k :| k in a;
      SmallerDomain(a - {k}, b - {k});
    }
  }

  // ----- Which are admitted -----

  /** The request that opened k's window: windows begin with the first request at or after the end of the last one. */
  function Opener(reqs: seq<Request>, k: Key, window: int, n: nat): (o: Option<nat>)
    requires n <= |reqs|
    ensures o.Some? ==> o.value < n
  {
    if n == 0 then None
    else
      var before := Opener(reqs, k, window, n - 1);
      if reqs[n - 1].key != k then before
      else if before.Some? && reqs[n - 1].at < reqs[before.value].at + window then before
      else Some(n - 1)
  }

  /** How many of the requests from from to n are for k. */
  function Asked(reqs: seq<Request>, k: Key, from: nat, n: nat): nat
    requires from <= n <= |reqs|
  {
    if n == from then 0 else Asked(reqs, k, from, n - 1) + if reqs[n - 1].key == k then 1 else 0
  }

  /** A bucket holds where its window began and how many were admitted in it. */
  lemma {:induction false} BucketIs(reqs: seq<Request>, policy: string -> Policy, k: Key, n: nat)
    requires Proper(policy) && n <= |reqs|
    ensures var bs, p := After(false, reqs[..n], policy), policy(k.scope);
            match Opener(reqs, k, p.window, n)
            case None => k !in bs
            case Some(o) =>
              var asked := Asked(reqs, k, o, n);
              k in bs && bs[k] == Bucket(reqs[o].at, if asked < p.limit then asked else p.limit, p.window)
  {
    if n > 0 {
      BucketIs(reqs, policy, k, n - 1);
      assert reqs[..n][..n - 1] == reqs[..n - 1] && reqs[..n][n - 1] == reqs[n - 1];
    }
  }

  /** A request is admitted exactly if it is among the first limit of its key in its window. */
  lemma AdmittedExactly(reqs: seq<Request>, policy: string -> Policy, i: nat)
    requires Monotone(reqs) && Proper(policy) && NeverCleared(reqs, policy) && i < |reqs|
    ensures var k := reqs[i].key;
            var p := policy(k.scope);
            var o := Opener(reqs, k, p.window, i + 1);
            o.Some? && (Admitted(true, reqs, policy, i) <==> Asked(reqs, k, o.value, i) < p.limit)
  {
    EvictionIsInvisible(reqs, policy, i);
    BucketIs(reqs, policy, reqs[i].key, i);
  }

  // ----- How many are admitted -----

  /** How many of the first n requests are admitted for k in the half-open window from a. */
  function Admits(evict: bool, reqs: seq<Request>, policy: string -> Policy, n: nat, k: Key, a: int): nat
    requires n <= |reqs|
  {
    if n == 0 then 0
    else
      Admits(evict, reqs, policy, n - 1, k, a) +
      if && reqs[n - 1].key == k && a <= reqs[n - 1].at < a + policy(k.scope).window
         && Admitted(evict, reqs, policy, n - 1)
      then 1 else 0
  }

  /** The number of admissions that the bucket b of k allows for windows from a. */
  ghost predicate Bounded(b: Bucket, limit: int, window: int, admits: nat, a: int) {
    && admits <= 2 * limit - 1
    && (a > b.start - window ==> admits <= limit - 1 + b.count)
    && (a >= b.start ==> admits <= b.count)
    && (a > b.start ==> admits <= b.count - 1)
    && (a >= b.start + window ==> admits == 0)
  }

  ghost predicate BucketOk(b: Bucket, p: Policy, t: int) {
    b.start <= t && 1 <= b.count <= p.limit && b.window == p.window
  }

  lemma {:induction false} AdmitsAreBounded(reqs: seq<Request>, policy: string -> Policy, n: nat, k: Key, a: int)
    requires Monotone(reqs) && Proper(policy) && n <= |reqs|
    ensures var bs := After(false, reqs[..n], policy);
            var p := policy(k.scope);
            if k in bs then
              n > 0 && BucketOk(bs[k], p, reqs[n - 1].at)
                  && Bounded(bs[k], p.limit, p.window, Admits(false, reqs, policy, n, k, a), a)
            else Admits(false, reqs, policy, n, k, a) == 0
  {
    if n > 0 {
      AdmitsAreBounded(reqs, policy, n - 1, k, a);
      assert reqs[..n][..n - 1] == reqs[..n - 1];
      assert n > 1 ==> reqs[n - 2].at <= reqs[n - 1].at;
    }
  }

  /**
   * Any half-open interval one window long admits at most 2 * limit - 1 requests of a key: the request
   * that opens a bucket never shares such an interval with the next bucket.
   */
  lemma WindowBound(reqs: seq<Request>, policy: string -> Policy, k: Key, a: int)
    requires Monotone(reqs) && Proper(policy) && NeverCleared(reqs, policy)
    ensures Admits(true, reqs, policy, |reqs|, k, a) <= 2 * policy(k.scope).limit - 1
  {
    AdmitsAreBounded(reqs, policy, |reqs|, k, a);
    SameAdmits(reqs, policy, |reqs|, k, a);
  }

  lemma {:induction false} SameAdmits(reqs: seq<Request>, policy: string -> Policy, n: nat, k: Key, a: int)
    requires Monotone(reqs) && NeverCleared(reqs, policy) && n <= |reqs|
    ensures Admits(true, reqs, policy, n, k, a) == Admits(false, reqs, policy, n, k, a)
  {
    if n > 0 {
      SameAdmits(reqs, policy, n - 1, k, a);
      EvictionIsInvisible(reqs, policy, n - 1);
    }
  }

  // ----- The bound is reached -----

  /** One request at time 0, the rest of the limit at the end of the window, and the whole limit right after it. */
  function Burst(k: Key, limit: nat, window: int): seq<Request> {
    seq(2 * limit, i requires 0 <= i < 2 * limit =>
      Request(k, if i == 0 then 0 else if i < limit then window - 1 else window))
  }

  /** The map after n requests of the burst. */
  function BurstBuckets(k: Key, limit: nat, window: int, n: nat): Buckets {
    if n == 0 then map[] else map[k := if n <= limit then Bucket(0, n, window) else Bucket(window, n - limit, window)]
  }

  lemma BurstAnswer(policy: string -> Policy, k: Key, limit: nat, window: int, n: nat)
    requires policy(k.scope) == Policy(limit, window) && limit >= 1 && window >= 2 && n < 2 * limit
    ensures Answer(true, BurstBuckets(k, limit, window, n), Burst(k, limit, window)[n], policy) ==
            (BurstBuckets(k, limit, window, n + 1), true)
  {
    var bs, r := BurstBuckets(k, limit, window, n), Burst(k, limit, window)[n];
    assert |bs| <= 1 && Sweep(bs, r.at) == bs;
    assert Count(bs, k, r.at, limit, window).0 == BurstBuckets(k, limit, window, n + 1);
  }

  lemma {:induction false} BurstState(policy: string -> Policy, k: Key, limit: nat, window: int, n: nat)
    requires policy(k.scope) == Policy(limit, window) && limit >= 1 && window >= 2 && n <= 2 * limit
    ensures After(true, Burst(k, limit, window)[..n], policy) == BurstBuckets(k, limit, window, n)
  {
    if n > 0 {
      var reqs := Burst(k, limit, window);
      assert reqs[..n][..n - 1] == reqs[..n - 1] && reqs[..n][n - 1] == reqs[n - 1];
      BurstState(policy, k, limit, window, n - 1);
      BurstAnswer(policy, k, limit, window, n - 1);
    }
  }

  lemma BurstIsAdmitted(policy: string -> Policy, k: Key, limit: nat, window: int, n: nat)
    requires policy(k.scope) == Policy(limit, window) && limit >= 1 && window >= 2 && n < 2 * limit
    ensures Admitted(true, Burst(k, limit, window), policy, n)
  {
    BurstState(policy, k, limit, window, n);
    BurstAnswer(policy, k, limit, window, n);
  }

  lemma {:induction false} BurstAdmits(policy: string -> Policy, k: Key, limit: nat, window: int, n: nat)
    requires policy(k.scope) == Policy(limit, window) && limit >= 1 && window >= 2 && n <= 2 * limit
    ensures Admits(true, Burst(k, limit, window), policy, n, k, window - 1) == if n == 0 then 0 else n - 1
  {
    if n > 0 {
      BurstAdmits(policy, k, limit, window, n - 1);
      BurstIsAdmitted(policy, k, limit, window, n - 1);
      var at := Burst(k, limit, window)[n - 1].at;
      assert window - 1 <= at < window - 1 + window <==> n > 1;
    }
  }

  /** For every limit, and every window of at least two ticks, some run reaches the bound. */
  lemma WindowBoundIsReached(policy: string -> Policy, k: Key, limit: nat, window: int)
    requires policy(k.scope) == Policy(limit, window) && limit >= 1 && window >= 2
    ensures var reqs := Burst(k, limit, window);
            && Monotone(reqs) && NeverCleared(reqs, policy)
            && Admits(true, reqs, policy, |reqs|, k, window - 1) == 2 * limit - 1
  {
    var reqs := Burst(k, limit, window);
    BurstAdmits(policy, k, limit, window, 2 * limit);
    forall i | 0 <= i < |reqs| ensures |Unfinished(After(true, reqs[..i], policy), reqs[i].at)| <= MAX_KEYS {
      BurstState(policy, k, limit, window, i);
      var bs := After(true, reqs[..i], policy);
      assert Unfinished(bs, reqs[i].at).Keys <= {k};
      SmallerDomain(Unfinished(bs, reqs[i].at).Keys, {k});
    }
  }
}
