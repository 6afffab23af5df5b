/** What the passing of time gives back to the requests: the budget of a new day, a cooled-down key, an open breaker. */
module ClientTime {
  import opened Options
  import opened Sums
  import Quota
  import opened ClientProtocol
  import KeyPool
  import CircuitBreaker

  ghost function CostsInFlight(calls: map<string, Call>): map<string, int> {
    map c | c in calls && InFlight(calls[c]) :: calls[c].cost
  }

  /** Nothing has been charged to a day to come. */
  predicate ChargedByDay(q: Quota.Quota, day: nat) { forall d :: d in q.charged ==> d <= day }

  lemma StepChargesToday(w: World, step: Step)
    requires ChargedByDay(w.quota, w.day)
    ensures ChargedByDay(Next(w, step).quota, Next(w, step).day) && Next(w, step).quota.limit == w.quota.limit
  {
  }

  lemma {:induction false} EveryRunChargesByDay(
      limit: int, order: seq<string>, pool: KeyPool.Pool, cfg: CircuitBreaker.Config, steps: seq<Step>)
    ensures var w := Run(Fresh(limit, order, pool, cfg), steps); ChargedByDay(w.quota, w.day) && w.quota.limit == limit
    decreases |steps|
  {
    if steps != [] {
      EveryRunChargesByDay(limit, order, pool, cfg, steps[..|steps| - 1]);
      StepChargesToday(Run(Fresh(limit, order, pool, cfg), steps[..|steps| - 1]), steps[|steps| - 1]);
    }
  }

  lemma BeginsOnNewDay(w: World, day: nat, now: real, c: string, cost: nat)
    requires WorldOk(w) && ChargedByDay(w.quota, w.day) && day > w.day && now >= w.now && c !in w.calls
    ensures c in Next(Next(w, Tick(day, now)), Begin(c, cost)).calls
            <==> Total(CostsInFlight(w.calls)) + cost <= w.quota.limit
  {
    assert Quota.ActiveUnits(w.quota.reservations) == CostsInFlight(w.calls);
    assert day !in w.quota.charged;
  }

  /** Main result: from any run, on a new day a request is taken exactly when its cost and the costs of the requests
      in flight fit the limit, whatever was charged on the days before. */
  lemma NewDayNewBudget(limit: int, order: seq<string>, pool: KeyPool.Pool, cfg: CircuitBreaker.Config,
                        steps: seq<Step>, day: nat, now: real, c: string, cost: nat)
    requires var w := Run(Fresh(limit, order, pool, cfg), steps); day > w.day && now >= w.now && c !in w.calls
    ensures var w := Run(Fresh(limit, order, pool, cfg), steps);
            c in Next(Next(w, Tick(day, now)), Begin(c, cost)).calls <==> Total(CostsInFlight(w.calls)) + cost <= limit
  {
    EveryRunIsOk(limit, order, pool, cfg, steps);
    EveryRunChargesByDay(limit, order, pool, cfg, steps);
    BeginsOnNewDay(Run(Fresh(limit, order, pool, cfg), steps), day, now, c, cost);
  }

  /** At its deadline an open breaker lets a waiting request through to its first send, and is half-open then. */
  lemma OpenBreakerIsTried(w: World, day: nat, now: real, c: string)
    requires c in w.calls && w.calls[c].pc.Keyed? && w.breaker.state.Open? && day >= w.day && now >= w.now
    ensures var after := Next(Next(w, Tick(day, now)), Admit(c));
            && c in after.calls
            && (now >= w.breaker.openUntil ==> after.calls[c].pc == Sending(w.calls[c].pc.key)
                                               && after.breaker.state.HalfOpen? && after.breaker.successes == 0)
            && (now < w.breaker.openUntil ==> after.calls[c].pc == Failing(OtherFailure) && after.breaker == w.breaker)
  {
  }

  /** A key in cooldown can be taken by a waiting request once its deadline has come. */
  lemma CooledKeyIsTaken(w: World, day: nat, now: real, c: string, k: string)
    requires c in w.calls && w.calls[c].pc.Holding? && day >= w.day && now >= w.now
    requires k in w.order && k in w.pool && w.pool[k].status.Cooldown? && now >= w.pool[k].cooldownUntil
    ensures var after := Next(Next(w, Tick(day, now)), GetKey(c));
            c in after.calls && after.calls[c].pc.Keyed? && after.calls[c].pc.key.Some?
  {
    assert KeyPool.Usable(KeyPool.Refreshed(w.pool, now), k);
  }
}
