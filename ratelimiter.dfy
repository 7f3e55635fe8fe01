/** The token-bucket rate limiter: one bucket per client key, refilled
    continuously at `capacity / windowMs` tokens per millisecond up to
    `capacity`; a request takes one token or is rejected with 429. */
module RateLimit {
  import opened Types

  /** The capacity and window used when the options leave them out
      (the environment overrides are not modelled). */
  const DefaultCapacity: real := 60.0
  const DefaultWindowMs: real := 60000.0
  const AdminRole: string := "ADMIN"

  /** The parts of a request the limiter looks at. */
  datatype Request = Request(userId: Option<string>, userRole: Option<string>, ip: Option<string>,
                             forwardedFor: Option<string>, remoteAddress: Option<string>)

  /** What the middleware does with a request: pass it on unmetered (admin
      bypass), pass it on with the remaining-tokens header, or answer 429. */
  datatype Decision =
    | Bypassed(limit: real)
    | Allowed(limit: real, remaining: int)
    | Rejected(limit: real, retryAfterSeconds: int)

  predicate Truthy(o: Option<string>) {
    o.Some? && o.value != ""
  }

  /** The client key: the user id when there is one, else the first address
      the request carries, else "anon". */
  function GetKey(req: Request): (key: string)
    ensures |key| >= 2
  {
    if Truthy(req.userId) then "u:" + req.userId.value
    else "ip:" + (if Truthy(req.ip) then req.ip.value
                  else if Truthy(req.forwardedFor) then req.forwardedFor.value
                  else if Truthy(req.remoteAddress) then req.remoteAddress.value
                  else "anon")
  }

  /** A signed-in user never shares a bucket with an anonymous address, and
      two users share one only when their ids are equal. */
  lemma KeysSeparate(a: Request, b: Request)
    ensures Truthy(a.userId) && !Truthy(b.userId) ==> GetKey(a) != GetKey(b)
    ensures Truthy(a.userId) && Truthy(b.userId) ==> (GetKey(a) == GetKey(b) <==> a.userId == b.userId)
  {
    if Truthy(a.userId) && !Truthy(b.userId) {
      assert GetKey(a)[0] == 'u' && GetKey(b)[0] == 'i';
    }
    if Truthy(a.userId) && Truthy(b.userId) && GetKey(a) == GetKey(b) {
      assert a.userId.value == GetKey(a)[2..];
      assert b.userId.value == GetKey(b)[2..];
    }
  }

  function MaxReal(a: real, b: real): real {
    if a >= b then a else b
  }

  function MinReal(a: real, b: real): real {
    if a <= b then a else b
  }

  /** The tokens after refilling at `now` a bucket last refilled at
      `lastRefill`: time going backwards adds nothing, and the bucket
      never holds more than `capacity`. */
  function RefilledTokens(tokens: real, lastRefill: int, now: int, capacity: real, refillRate: real): (t: real)
    requires refillRate >= 0.0
    ensures t <= capacity
    ensures tokens <= capacity ==> t >= tokens
    ensures now <= lastRefill ==> t == MinReal(capacity, tokens)
  {
    MinReal(capacity, tokens + MaxReal(0.0, (now - lastRefill) as real) * refillRate)
  }

  /** Math.ceil */
  function Ceil(x: real): (c: int)
    ensures x <= c as real < x + 1.0
  {
    -((-x).Floor)
  }

  /** ceil(ceil((1 - tokens) / refillRate) / 1000): the whole seconds until
      one token is back. */
  function RetryAfterSeconds(tokens: real, refillRate: real): (s: int)
    requires tokens < 1.0 && refillRate > 0.0
    ensures s >= 1
  {
    var ms := Ceil((1.0 - tokens) / refillRate);
    assert ms >= 1;
    Ceil(ms as real / 1000.0)
  }

  /** A rejected request with a non-empty bucket waits at most the time one
      token takes to come back, rounded up to whole seconds. */
  lemma RetryAfterBounded(tokens: real, refillRate: real)
    requires 0.0 <= tokens < 1.0 && refillRate > 0.0
    ensures RetryAfterSeconds(tokens, refillRate) <= Ceil(Ceil(1.0 / refillRate) as real / 1000.0)
  {
    var a := (1.0 - tokens) / refillRate;
    var b := 1.0 / refillRate;
    assert a <= b by {
      assert 1.0 - tokens <= 1.0;
    }
    assert Ceil(a) <= Ceil(b);
    assert Ceil(a) as real / 1000.0 <= Ceil(b) as real / 1000.0;
  }

  class Bucket {
    var tokens: real
    var lastRefill: int

    constructor (tokens: real, lastRefill: int)
      ensures this.tokens == tokens && this.lastRefill == lastRefill
    {
      this.tokens := tokens;
      this.lastRefill := lastRefill;
    }
  }

  class Limiter {
    const capacity: real
    const windowMs: real
    const adminBypass: bool
    /** tokens per millisecond */
    const refillRate: real
    var store: map<string, Bucket>

    /** Every bucket holds between 0 and `capacity` tokens, and no two keys
        share a bucket. */
    ghost predicate Valid()
      reads this, store.Values
    {
      && capacity > 0.0 && windowMs > 0.0 && refillRate == capacity / windowMs && refillRate > 0.0
      && (forall k :: k in store ==> 0.0 <= store[k].tokens <= capacity)
      && (forall k1, k2 :: k1 in store && k2 in store && k1 != k2 ==> store[k1] != store[k2])
    }

    /** The middleware factory: a falsy capacity or window (absent or 0)
        takes the default, and the admin bypass is on unless it is
        explicitly false. */
    constructor (capacityOpt: Option<real>, windowOpt: Option<real>, bypassOpt: Option<bool>)
      requires capacityOpt.Some? ==> capacityOpt.value >= 0.0
      requires windowOpt.Some? ==> windowOpt.value >= 0.0
      ensures Valid() && store == map[]
      ensures capacity == if capacityOpt.None? || capacityOpt.value == 0.0 then DefaultCapacity else capacityOpt.value
      ensures windowMs == if windowOpt.None? || windowOpt.value == 0.0 then DefaultWindowMs else windowOpt.value
      ensures adminBypass <==> bypassOpt != Some(false)
    {
      var c := if capacityOpt.None? || capacityOpt.value == 0.0 then DefaultCapacity else capacityOpt.value;
      var w := if windowOpt.None? || windowOpt.value == 0.0 then DefaultWindowMs else windowOpt.value;
      capacity := c;
      windowMs := w;
      adminBypass := bypassOpt != Some(false);
      refillRate := c / w;
      store := map[];
    }

    /** refill(bucket, now) */
    method Refill(bucket: Bucket, now: int)
      requires refillRate >= 0.0
      modifies bucket
      ensures bucket.tokens == RefilledTokens(old(bucket.tokens), old(bucket.lastRefill), now, capacity, refillRate)
      ensures bucket.lastRefill == now
    {
      var elapsed := MaxReal(0.0, (now - bucket.lastRefill) as real);
      var add := elapsed * refillRate;
      bucket.tokens := MinReal(capacity, bucket.tokens + add);
      bucket.lastRefill := now;
    }

    /** The tokens the request's bucket holds once refilled at `now`; a key
        without a bucket starts full. */
    ghost function TokensAt(key: string, now: int): real
      requires refillRate >= 0.0
      reads this, store.Values
    {
      if key in store then RefilledTokens(store[key].tokens, store[key].lastRefill, now, capacity, refillRate)
      else capacity
    }

    /** One request at time `now`. */
    method Handle(req: Request, now: int) returns (d: Decision)
      requires Valid()
      modifies this, store.Values
      ensures Valid()
      ensures adminBypass && req.userRole == Some(AdminRole) ==>
                d == Bypassed(capacity) && store == old(store)
                && forall k :: k in store ==> unchanged(store[k])
      ensures !(adminBypass && req.userRole == Some(AdminRole)) ==>
                var key := GetKey(req);
                var t := old(TokensAt(key, now));
                && key in store
                && (key in old(store) ==> store == old(store))
                && (key !in old(store) ==> fresh(store[key]) && store == old(store)[key := store[key]])
                && store[key].lastRefill == now
                && (t >= 1.0 ==> d == Allowed(capacity, (t - 1.0).Floor) && store[key].tokens == t - 1.0)
                && (t < 1.0 ==> d == Rejected(capacity, RetryAfterSeconds(t, refillRate)) && store[key].tokens == t)
                && (forall k :: k in old(store) && k != key ==> unchanged(old(store)[k]))
    {
      if adminBypass && req.userRole == Some(AdminRole) {
        return Bypassed(capacity);
      }
      var key := GetKey(req);
      var bucket: Bucket;
      if key in store {
        bucket := store[key];
      } else {
        bucket := new Bucket(capacity, now);
        store := store[key := bucket];
      }
      Refill(bucket, now);
      if bucket.tokens >= 1.0 {
        bucket.tokens := bucket.tokens - 1.0;
        d := Allowed(capacity, bucket.tokens.Floor);
      } else {
        d := Rejected(capacity, RetryAfterSeconds(bucket.tokens, refillRate));
      }
    }
  }
}
