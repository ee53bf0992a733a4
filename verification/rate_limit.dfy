/**
 * The fixed-window rate limiter, written out twice in the routers (login per
 * client address, send per user) with the same steps: read the counter;
 * create it as "1" with a 60-second expiry when absent; refuse, changing
 * nothing, once it has reached the ceiling; otherwise `incr` it.
 */
module RateLimit {
  import opened Prelude
  import opened KeyValue
  import Decimal

  const WindowSeconds: nat := 60

  /** Allowed and Rejected (HTTP 429), or the exception `int(current)` raised. */
  datatype Verdict = Allowed | Rejected | Failed(error: string)

  /** One check-and-increment on a store: the verdict and the store afterwards. */
  function Attempt(st: Store, key: string, limit: int): (r: (Verdict, Store))
    ensures key !in st ==> r == (Allowed, st[key := Text("1")])
    ensures r.0.Rejected? <==> key in st && IntOf(st[key]).Some? && IntOf(st[key]).value >= limit
    ensures r.0.Failed? <==> key in st && IntOf(st[key]).None?
    ensures !r.0.Allowed? ==> r.1 == st
    ensures r.0.Allowed? ==>
              key in r.1 && IntOf(r.1[key]).Some?
              && IntOf(r.1[key]).value == (if key in st then IntOf(st[key]).value else 0) + 1
              && forall k :: k != key ==> Lookup(r.1, k) == Lookup(st, k)
  {
    if key !in st then
      Decimal.IntRoundTrip(1);
      (Allowed, st[key := Text("1")])
    else match IntOf(st[key])
      case None => (Failed("ValueError"), st)
      case Some(count) =>
        if count >= limit then (Rejected, st)
        else
          Decimal.IntRoundTrip(count + 1);
          (Allowed, st[key := Text(Decimal.IntToString(count + 1))])
  }

  /**
   * The limiter inline in the routers, on the store. The expiry is set only
   * when the window is created; `incr` keeps it, so the window is fixed from
   * its first request and further traffic does not extend it.
   */
  method CheckAndIncrement(redis: FakeRedis, key: string, limit: int) returns (v: Verdict)
    modifies redis
    ensures (v, redis.store) == Attempt(old(redis.store), key, limit)
    ensures key !in old(redis.store) ==> redis.ttl == old(redis.ttl)[key := WindowSeconds]
    ensures key in old(redis.store) ==> redis.ttl == old(redis.ttl)
  {
    var current := redis.Get(key);
    match current {
      case None =>
        redis.Set(key, Text("1"), Some(WindowSeconds));
        v := Allowed;
      case Some(value) =>
        var count := IntOf(value);
        if count.None? {
          return Failed("ValueError");
        }
        if count.value >= limit {
          return Rejected;
        }
        var _ := redis.Incr(key);
        v := Allowed;
    }
  }

  /** The counter under `key` reads as `c`; zero stands for no window. */
  ghost predicate HoldsCount(st: Store, key: string, c: nat)
  {
    if c == 0 then key !in st else key in st && IntOf(st[key]) == Some(c)
  }

  /** `n` attempts in a row: their verdicts and the final store. */
  function Attempts(st: Store, key: string, limit: int, n: nat): (r: (seq<Verdict>, Store))
    ensures |r.0| == n
    decreases n
  {
    if n == 0 then ([], st)
    else
      var (v, st1) := Attempt(st, key, limit);
      var (vs, st2) := Attempts(st1, key, limit, n - 1);
      ([v] + vs, st2)
  }

  /** One attempt within a window: the counter never passes the ceiling. */
  lemma AttemptStep(st: Store, key: string, limit: nat, c: nat)
    requires 1 <= limit && c <= limit && HoldsCount(st, key, c)
    ensures Attempt(st, key, limit).0 == if c < limit then Allowed else Rejected
    ensures HoldsCount(Attempt(st, key, limit).1, key, if c < limit then c + 1 else c)
  {
  }

  /**
   * From a counter at `c` (no window when zero), a run of attempts is allowed
   * while the count stays under the ceiling and rejected afterwards; the
   * counter ends at min(c + n, limit).
   */
  lemma {:induction false} AttemptsFromCount(st: Store, key: string, limit: nat, c: nat, n: nat)
    requires 1 <= limit && c <= limit && HoldsCount(st, key, c)
    ensures forall i :: 0 <= i < n ==>
              Attempts(st, key, limit, n).0[i] == if c + i < limit then Allowed else Rejected
    ensures HoldsCount(Attempts(st, key, limit, n).1, key, Min(c + n, limit))
    decreases n
  {
    if n > 0 {
      AttemptStep(st, key, limit, c);
      var (v, st1) := Attempt(st, key, limit);
      var c1 := if c < limit then c + 1 else c;
      AttemptsFromCount(st1, key, limit, c1, n - 1);
      var vs := Attempts(st, key, limit, n).0;
      forall i | 1 <= i < n
        ensures vs[i] == if c + i < limit then Allowed else Rejected
      {
        assert vs[i] == Attempts(st1, key, limit, n - 1).0[i - 1];
      }
    }
  }

  /**
   * A window that has reached its ceiling rejects and stays as it is; once it
   * expires the next attempt opens a new window at 1.
   */
  lemma ExhaustedUntilExpiry(st: Store, key: string, limit: nat)
    requires 1 <= limit && HoldsCount(st, key, limit)
    ensures Attempt(st, key, limit) == (Rejected, st)
    ensures Attempt(st - {key}, key, limit).0 == Allowed
    ensures HoldsCount(Attempt(st - {key}, key, limit).1, key, 1)
  {
  }
}
