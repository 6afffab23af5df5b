/** The API key pool: least-used selection, error cooldowns, and how evenly usage spreads. */
module KeyPool {
  import opened Options
  import opened Powers

  datatype Status = Available | Cooldown | Exhausted | Invalid

  datatype Meta = Meta(status: Status, requests: int, successes: int, usage: int, errors: nat, cooldownUntil: real)

  /** The part of an error response the pool looks at: the status code and which of three kinds of
      phrases its message contains. */
  datatype ApiError = ApiError(code: int, projectMismatch: bool, oauthRequired: bool, mentionsQuota: bool)

  type Pool = map<string, Meta>

  function Refresh(m: Meta, now: real): Meta {
    if m.status.Cooldown? && now >= m.cooldownUntil then m.(status := Available, errors := 0) else m
  }

  function Refreshed(pool: Pool, now: real): Pool { map k | k in pool :: Refresh(pool[k], now) }

  predicate Usable(pool: Pool, k: string) { k in pool && pool[k].status.Available? }

  /** The first key, in the pool's order, of least usage among the available ones. */
  function LeastUsed(order: seq<string>, pool: Pool): (best: Option<string>)
    ensures best.None? <==> forall k :: k in order ==> !Usable(pool, k)
    ensures best.Some? ==> best.value in order && Usable(pool, best.value)
    ensures best.Some? ==> forall k :: k in order && Usable(pool, k) ==> pool[best.value].usage <= pool[k].usage
  {
    if order == [] then None else
      var k := order[|order| - 1];
      var before := LeastUsed(order[..|order| - 1], pool);
      assert order == order[..|order| - 1] + [k];
      if Usable(pool, k) && (before.None? || pool[k].usage < pool[before.value].usage) then Some(k) else before
  }

  function AfterSelect(order: seq<string>, pool: Pool, now: real): Pool {
    var ready := Refreshed(pool, now);
    match LeastUsed(order, ready)
    case None => ready
    case Some(k) => ready[k := ready[k].(requests := ready[k].requests + 1)]
  }

  function AfterUsage(pool: Pool, k: string, units: int): Pool {
    if k in pool then pool[k := pool[k].(usage := pool[k].usage + units)] else pool
  }

  function AfterSuccess(pool: Pool, k: string): Pool {
    if k in pool then pool[k := pool[k].(errors := 0, successes := pool[k].successes + 1)] else pool
  }

  /** Exponential backoff, capped at five minutes. */
  function Backoff(base: nat, errors: nat): nat
    requires errors >= 1
  {
    if base * Pow2(errors - 1) < 300 then base * Pow2(errors - 1) else 300
  }

  function Punish(m: Meta, e: ApiError, now: real): Meta {
    var c := m.(errors := m.errors + 1);
    if e.projectMismatch then c
    else if e.code == 401 then if e.oauthRequired then c else c.(status := Invalid)
    else if e.code == 403 then
      if e.mentionsQuota then c.(status := Exhausted, cooldownUntil := now + 86400.0)
      else c.(status := Cooldown, cooldownUntil := now + 300.0)
    else if e.code == 429 then c.(status := Cooldown, cooldownUntil := now + Backoff(30, c.errors) as real)
    else c.(status := Cooldown, cooldownUntil := now + Backoff(15, c.errors) as real)
  }

  function AfterError(pool: Pool, k: string, e: ApiError, now: real): Pool {
    if k in pool then pool[k := Punish(pool[k], e, now)] else pool
  }

  class ApiKeyPool {
    const order: seq<string>
    var keys: Pool

    constructor (order: seq<string>)
      ensures this.order == order
      ensures Valid() && keys == map k | k in order :: Meta(Available, 0, 0, 0, 0, 0.0)
    {
      this.order := order;
      keys := map k | k in order :: Meta(Available, 0, 0, 0, 0, 0.0);
    }

    ghost predicate Valid()
      reads this
    {
      forall k :: k in keys <==> k in order
    }

    /** The first pass: keys whose cooldown is over become available again. */
    method RefreshKeys(now: real)
      requires Valid()
      modifies this`keys
      ensures Valid() && keys == Refreshed(old(keys), now)
    {
      ghost var was := keys;
      for i := 0 to |order|
        invariant keys.Keys == was.Keys && was == old(keys)
        invariant forall k :: k in keys ==> keys[k] == was[k] || keys[k] == Refresh(was[k], now)
        invariant forall k :: k in order[..i] ==> keys[k] == Refresh(was[k], now)
      {
        var k := order[i];
        if keys[k].status == Cooldown && now >= keys[k].cooldownUntil {
          keys := keys[k := keys[k].(status := Available, errors := 0)];
        }
      }
    }

    /** The second pass: the least used of the available keys. */
    method FindLeastUsed() returns (key: Option<string>)
      requires Valid()
      ensures key == LeastUsed(order, keys)
    {
      key := None;
      for i := 0 to |order|
        invariant key == LeastUsed(order[..i], keys)
      {
        var k := order[i];
        assert order[..i + 1][..i] == order[..i];
        if keys[k].status == Available {
          if key.None? || keys[k].usage < keys[key.value].usage {
            key := Some(k);
          }
        }
      }
      assert order[..|order|] == order;
    }

    method GetAvailableKey(now: real) returns (key: Option<string>)
      requires Valid()
      modifies this`keys
      ensures Valid() && keys == AfterSelect(order, old(keys), now)
      ensures key == LeastUsed(order, Refreshed(old(keys), now))
    {
      RefreshKeys(now);
      key := FindLeastUsed();
      if key.Some? {
        keys := keys[key.value := keys[key.value].(requests := keys[key.value].requests + 1)];
      }
    }

    method RecordUsage(key: string, units: int)
      modifies this`keys
      ensures keys == AfterUsage(old(keys), key, units)
    {
      if key in keys {
        keys := keys[key := keys[key].(usage := keys[key].usage + units)];
      }
    }

    method RecordSuccess(key: string)
      modifies this`keys
      ensures keys == AfterSuccess(old(keys), key)
    {
      if key in keys {
        keys := keys[key := keys[key].(errors := 0)];
        keys := keys[key := keys[key].(successes := keys[key].successes + 1)];
      }
    }

    method RecordError(key: string, e: ApiError, now: real)
      modifies this`keys
      ensures keys == AfterError(old(keys), key, e, now)
    {
      if key !in keys {
        return;
      }
      var m := keys[key];
      m := m.(errors := m.errors + 1);
      keys := keys[key := m];
      if e.projectMismatch {
        return;
      }
      if e.code == 401 {
        if e.oauthRequired {
          return;
        }
        m := m.(status := Invalid);
      } else if e.code == 403 {
        if e.mentionsQuota {
          m := m.(status := Exhausted, cooldownUntil := now + 86400.0);
        } else {
          m := m.(status := Cooldown, cooldownUntil := now + 300.0);
        }
      } else {
        var seconds := Backoff(if e.code == 429 then 30 else 15, m.errors);
        m := m.(status := Cooldown, cooldownUntil := now + seconds as real);
      }
      keys := keys[key := m];
    }
  }

  /** Errors reported one after the other, with neither a success nor a selection between. */
  function PunishAll(m: Meta, errors: seq<(ApiError, real)>): Meta {
    if errors == [] then m else
      Punish(PunishAll(m, errors[..|errors| - 1]), errors[|errors| - 1].0, errors[|errors| - 1].1)
  }

  lemma {:induction false} EveryErrorCounts(m: Meta, errors: seq<(ApiError, real)>)
    ensures PunishAll(m, errors).errors == m.errors + |errors|
    ensures PunishAll(m, errors).usage == m.usage && PunishAll(m, errors).requests == m.requests
  {
    if errors != [] {
      EveryErrorCounts(m, errors[..|errors| - 1]);
    }
  }

  lemma {:induction false} BackoffGrows(base: nat, n: nat, k: nat)
    requires base >= 1 && 1 <= n <= k
    ensures 1 <= Backoff(base, n) <= Backoff(base, k) <= 300
  {
    if n < k {
      BackoffGrows(base, n, k - 1);
      assert base * Pow2(k - 1) == 2 * (base * Pow2(k - 2));
    } else {
      PowIsPositive(n - 1);
    }
  }

  lemma {:induction false} PowIsPositive(n: nat)
    ensures Pow2(n) >= 1
  {
    if n > 0 {
      PowIsPositive(n - 1);
    }
  }

  /** Rate-limit and server errors cool a key down for a time that doubles from 30 or 15 seconds with every
      error of a row, whatever the other errors of the row were, and never exceeds five minutes. */
  lemma CooldownDoubles(m: Meta, errors: seq<(ApiError, real)>)
    requires errors != [] && m.errors == 0
    requires var e := errors[|errors| - 1].0; !e.projectMismatch && e.code != 401 && e.code != 403
    ensures var (e, at) := errors[|errors| - 1];
            var end, base := PunishAll(m, errors), if e.code == 429 then 30 else 15;
            && end.status.Cooldown?
            && end.cooldownUntil == at + Backoff(base, |errors|) as real
            && at < end.cooldownUntil <= at + 300.0
  {
    EveryErrorCounts(m, errors[..|errors| - 1]);
    var base := if errors[|errors| - 1].0.code == 429 then 30 else 15;
    BackoffGrows(base, |errors|, |errors|);
  }

  /** A cooldown that was served ends the row: the next error of a key just selected again cools it down for
      the base time only, however many errors came before. */
  lemma ServedCooldownRestarts(m: Meta, e: ApiError, now: real, at: real)
    requires m.status.Cooldown? && now >= m.cooldownUntil && !e.projectMismatch && e.code != 401 && e.code != 403
    ensures Punish(Refresh(m, now), e, at).cooldownUntil == at + (if e.code == 429 then 30.0 else 15.0)
  {
  }
}
