/** When a key is put aside, for how long, and when it comes back. */
module KeyPoolMeaning {
  import opened Options
  import opened Powers
  import opened KeyPool
  import opened KeyPoolBalance

  function Capped(seconds: nat): nat { if seconds < 300 then seconds else 300 }

  /** The backoff starts at the base, doubles with every further error, and is capped at five minutes. */
  lemma BackoffDoubles(base: nat, errors: nat)
    requires base >= 1 && errors >= 1
    ensures Backoff(base, 1) == Capped(base)
    ensures Backoff(base, errors + 1) == Capped(2 * Backoff(base, errors))
  {
    assert Pow2(0) == 1;
    DoublesOnce(base, errors);
  }

  lemma DoublesOnce(base: nat, errors: nat)
    requires base >= 1 && errors >= 1
    ensures base * Pow2(errors) == 2 * (base * Pow2(errors - 1))
  {
  }

  /** The key can be selected at this moment. */
  predicate ReadyAt(m: Meta, now: real) { m.status.Available? || (m.status.Cooldown? && now >= m.cooldownUntil) }

  /** A selection sees exactly the ready keys as available, and a key that comes back starts without errors. */
  lemma RefreshMakesReady(m: Meta, now: real)
    ensures Refresh(m, now).status.Available? <==> ReadyAt(m, now)
    ensures m.status.Cooldown? && now >= m.cooldownUntil ==> Refresh(m, now).errors == 0
    ensures !(m.status.Cooldown? && now >= m.cooldownUntil) ==> Refresh(m, now) == m
    ensures Refresh(m, now).usage == m.usage && Refresh(m, now).requests == m.requests
  {
  }

  /** Main result: when a key can be selected again after an error reported at `at`. Errors that are not the key's
      fault leave it as it was; an invalid or exhausted key does not come back; a forbidden one does after five
      minutes, a rate-limited one after a backoff from 30 seconds, and any other after one from 15. */
  lemma ReadyAfterError(m: Meta, e: ApiError, at: real, now: real)
    ensures var ready := ReadyAt(Punish(m, e, at), now);
            if e.projectMismatch || (e.code == 401 && e.oauthRequired) then ready <==> ReadyAt(m, now)
            else if e.code == 401 || (e.code == 403 && e.mentionsQuota) then !ready
            else if e.code == 403 then ready <==> now >= at + 300.0
            else if e.code == 429 then ready <==> now >= at + Backoff(30, m.errors + 1) as real
            else ready <==> now >= at + Backoff(15, m.errors + 1) as real
    ensures Punish(m, e, at).errors == m.errors + 1 && Punish(m, e, at).usage == m.usage
  {
  }

  /** A recorded success ends a row of errors: the next cooldown is the base one. */
  lemma SuccessEndsRow(pool: Pool, k: string, e: ApiError, at: real)
    requires k in pool && !e.projectMismatch && e.code != 401 && e.code != 403
    ensures var m := Punish(AfterSuccess(pool, k)[k], e, at);
            m.status.Cooldown? && m.cooldownUntil == at + if e.code == 429 then 30.0 else 15.0
    ensures forall j :: j in pool && j != k ==> j in AfterSuccess(pool, k) && AfterSuccess(pool, k)[j] == pool[j]
    ensures AfterSuccess(pool, k)[k].status == pool[k].status && AfterSuccess(pool, k)[k].usage == pool[k].usage
  {
    assert Pow2(0) == 1;
  }

  /** Errors and usage recorded on one key leave the others alone. */
  lemma OnlyThisKey(pool: Pool, k: string, units: int, e: ApiError, at: real)
    requires k in pool
    ensures AfterUsage(pool, k, units) == pool[k := pool[k].(usage := pool[k].usage + units)]
    ensures AfterError(pool, k, e, at).Keys == pool.Keys
    ensures forall j :: j in pool && j != k ==> AfterError(pool, k, e, at)[j] == pool[j]
  {
  }

  /** Of the available keys of least usage the selection takes the first in the pool's order. */
  lemma {:induction false} FirstOfLeastUsed(order: seq<string>, pool: Pool)
    ensures var best := LeastUsed(order, pool);
            best.Some? ==>
              exists i :: 0 <= i < |order| && order[i] == best.value
                && forall j :: 0 <= j < i && Usable(pool, order[j]) ==> pool[order[j]].usage > pool[best.value].usage
  {
    if order != [] {
      var n := |order| - 1;
      var before, best := LeastUsed(order[..n], pool), LeastUsed(order, pool);
      FirstOfLeastUsed(order[..n], pool);
      if best.Some? && before == best {
        var i :| 0 <= i < n && order[..n][i] == before.value
          && forall j :: 0 <= j < i && Usable(pool, order[..n][j]) ==>
               pool[order[..n][j]].usage > pool[before.value].usage;
        assert order[i] == best.value;
        assert forall j :: 0 <= j < i ==> order[..n][j] == order[j];
      } else if best.Some? {
        assert order[n] == best.value;
        assert forall j :: 0 <= j < n ==> order[j] in order[..n];
      }
    }
  }

  /** A selection refreshes every key and counts one request on the chosen one. */
  lemma SelectionRefreshesAll(order: seq<string>, pool: Pool, now: real, k: string)
    requires k in pool
    ensures var after, chosen := AfterSelect(order, pool, now), LeastUsed(order, Refreshed(pool, now));
            && after.Keys == pool.Keys
            && after[k] == if chosen == Some(k) then Refresh(pool[k], now).(requests := pool[k].requests + 1)
                           else Refresh(pool[k], now)
  {
  }

  // ----- coming back, over runs -----

  lemma StepKeepsReady(w: World, step: Step, k: string, now: real)
    requires k in w.pool && ReadyAt(w.pool[k], now) && (step.Fail? ==> step.key != k)
    ensures k in Next(w, step).pool && ReadyAt(Next(w, step).pool[k], now)
  {
  }

  /** Main result: a key that will be ready at some time is ready then, whatever is selected, used and recorded in
      between, as long as no error of its own is: so a served cooldown always ends. */
  lemma {:induction false} ReadinessLasts(w: World, steps: seq<Step>, k: string, now: real)
    requires k in w.pool && ReadyAt(w.pool[k], now)
    requires forall i :: 0 <= i < |steps| && steps[i].Fail? ==> steps[i].key != k
    ensures var end := Run(w, steps);
            k in end.pool && ReadyAt(end.pool[k], now) && Usable(Refreshed(end.pool, now), k)
    decreases |steps|
  {
    if steps != [] {
      ReadinessLasts(w, steps[..|steps| - 1], k, now);
      StepKeepsReady(Run(w, steps[..|steps| - 1]), steps[|steps| - 1], k, now);
    }
  }
}
