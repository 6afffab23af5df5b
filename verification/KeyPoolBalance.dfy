/** How evenly concurrent calls spread over the keys that stay available. */
module KeyPoolBalance {
  import opened Options
  import opened Sums
  import opened KeyPool

  /** A call that was given `key` and may still record up to `budget` units on it. */
  datatype Outstanding = Outstanding(key: string, budget: nat)

  datatype World = World(order: seq<string>, pool: Pool, calls: map<string, Outstanding>)

  datatype Step =
    | Select(call: string, budget: nat, now: real)
    | Use(call: string, units: nat)
    | Finish(call: string)
    | Succeed(key: string)
    | Fail(key: string, error: ApiError, now: real)

  /** A call selects once, records within its budget while it is outstanding, and finishes; outcomes
      are recorded at any time. */
  function Next(w: World, step: Step): World {
    match step
    case Select(c, budget, now) =>
      if c in w.calls then w else
        var w' := w.(pool := AfterSelect(w.order, w.pool, now));
        (match LeastUsed(w.order, Refreshed(w.pool, now))
         case None => w'
         case Some(k) => w'.(calls := w.calls[c := Outstanding(k, budget)]))
    case Use(c, units) =>
      if c !in w.calls || units > w.calls[c].budget then w else
        w.(pool := AfterUsage(w.pool, w.calls[c].key, units),
           calls := w.calls[c := w.calls[c].(budget := w.calls[c].budget - units)])
    case Finish(c) => w.(calls := w.calls - {c})
    case Succeed(k) => w.(pool := AfterSuccess(w.pool, k))
    case Fail(k, e, now) => w.(pool := AfterError(w.pool, k, e, now))
  }

  function Run(w: World, steps: seq<Step>): World
    decreases |steps|
  {
    if steps == [] then w else Next(Run(w, steps[..|steps| - 1]), steps[|steps| - 1])
  }

  ghost function BudgetsOn(calls: map<string, Outstanding>, k: string): map<string, int> {
    map c | c in calls && calls[c].key == k :: calls[c].budget
  }

  /** Units that outstanding calls may still record on `k`. */
  ghost function Pending(w: World, k: string): int { Total(BudgetsOn(w.calls, k)) }

  ghost predicate AllUsable(w: World, stay: set<string>) {
    forall k :: k in stay ==> k in w.order && Usable(w.pool, k)
  }

  ghost predicate Bounded(w: World, calls: nat, cost: nat) {
    |w.calls| <= calls && forall c :: c in w.calls ==> w.calls[c].budget <= cost
  }

  /** In every state of the run the keys of `stay` are available, at most `calls` calls are
      outstanding, and none of them may record more than `cost`. */
  ghost predicate Within(w: World, steps: seq<Step>, stay: set<string>, calls: nat, cost: nat)
    decreases |steps|
  {
    && StateWithin(Run(w, steps), stay, calls, cost)
    && (steps == [] || Within(w, steps[..|steps| - 1], stay, calls, cost))
  }

  ghost predicate StateWithin(w: World, stay: set<string>, calls: nat, cost: nat) {
    AllUsable(w, stay) && Bounded(w, calls, cost)
  }

  /** Even if every outstanding call still records its whole budget, no key of `stay` gets more than
      `gap` ahead of another. */
  ghost predicate Balanced(w: World, stay: set<string>, gap: int)
    requires AllUsable(w, stay)
  {
    forall a, b :: a in stay && b in stay ==> w.pool[a].usage + Pending(w, a) <= w.pool[b].usage + gap
  }

  lemma OneTimesMore(n: nat, cost: nat)
    requires n > 0
    ensures n * cost == (n - 1) * cost + cost
  {
  }

  lemma {:induction false} TotalAtMost(m: map<string, int>, n: nat, cost: nat)
    requires |m| <= n && forall k :: k in m ==> m[k] <= cost
    ensures Total(m) <= n * cost
    decreases |m|
  {
    if m == map[] {
      assert n * cost >= 0;
    } else {
      var k :| k in m;
      var rest := m - {k};
      TotalRemove(m, k);
      assert |rest| == |m| - 1 by {
        assert rest.Keys == m.Keys - {k};
      }
      assert Total(rest) <= (n - 1) * cost by {
        TotalAtMost(rest, n - 1, cost);
      }
      OneTimesMore(n, cost);
    }
  }

  lemma PendingAtMost(w: World, k: string, calls: nat, cost: nat)
    requires Bounded(w, calls, cost)
    ensures Pending(w, k) <= calls * cost
  {
    var m := BudgetsOn(w.calls, k);
    SubsetSize(m.Keys, w.calls.Keys);
    assert |m| == |m.Keys| && |w.calls| == |w.calls.Keys|;
    TotalAtMost(m, calls, cost);
  }

  lemma {:induction false} SubsetSize(a: set<string>, b: set<string>)
    requires a <= b
    ensures |a| <= |b|
  {
    if a != {} {
      var x :| x in a;
      SubsetSize(a - {x}, b - {x});
    }
  }

  lemma SelectKeepsBalance(w: World, step: Step, stay: set<string>, gap: int)
    requires step.Select? && AllUsable(w, stay) && AllUsable(Next(w, step), stay) && Balanced(w, stay, gap)
    requires forall k :: Pending(Next(w, step), k) <= gap
    ensures Balanced(Next(w, step), stay, gap)
  {
    var after := Next(w, step);
    var ready := Refreshed(w.pool, step.now);
    forall k | k in stay ensures ready[k] == w.pool[k] && after.pool[k].usage == w.pool[k].usage {
      assert Usable(w.pool, k);
    }
    forall a, b | a in stay && b in stay
      ensures after.pool[a].usage + Pending(after, a) <= after.pool[b].usage + gap
    {
      if LeastUsed(w.order, ready) == Some(a) {
        assert Usable(ready, b);
      } else {
        assert BudgetsOn(after.calls, a) == BudgetsOn(w.calls, a);
      }
    }
  }

  lemma BudgetsAfterUse(calls: map<string, Outstanding>, c: string, units: nat, a: string)
    requires c in calls && units <= calls[c].budget
    ensures var after := calls[c := calls[c].(budget := calls[c].budget - units)];
            Total(BudgetsOn(after, a)) == Total(BudgetsOn(calls, a)) - (if a == calls[c].key then units else 0)
  {
    var after := calls[c := calls[c].(budget := calls[c].budget - units)];
    if a == calls[c].key {
      TotalUpdate(BudgetsOn(calls, a), c, after[c].budget);
      assert BudgetsOn(after, a) == BudgetsOn(calls, a)[c := after[c].budget];
    } else {
      assert BudgetsOn(after, a) == BudgetsOn(calls, a);
    }
  }

  lemma UseKeepsBalance(w: World, step: Step, stay: set<string>, gap: int)
    requires step.Use? && AllUsable(w, stay) && AllUsable(Next(w, step), stay) && Balanced(w, stay, gap)
    ensures Balanced(Next(w, step), stay, gap)
  {
    var after := Next(w, step);
    if step.call in w.calls && step.units <= w.calls[step.call].budget {
      var k := w.calls[step.call].key;
      forall a ensures Pending(after, a) == Pending(w, a) - (if a == k then step.units else 0) {
        BudgetsAfterUse(w.calls, step.call, step.units, a);
      }
    }
  }

  lemma FinishKeepsBalance(w: World, step: Step, stay: set<string>, gap: int)
    requires step.Finish? && AllUsable(w, stay) && Balanced(w, stay, gap)
    ensures Balanced(Next(w, step), stay, gap)
  {
    var after := Next(w, step);
    forall a ensures Pending(after, a) <= Pending(w, a) {
      var m := BudgetsOn(w.calls, a);
      assert BudgetsOn(after.calls, a) == m - {step.call};
      if step.call in m {
        TotalRemove(m, step.call);
      } else {
        assert m - {step.call} == m;
      }
    }
  }

  lemma StepKeepsBalance(w: World, step: Step, stay: set<string>, calls: nat, cost: nat)
    requires StateWithin(w, stay, calls, cost) && StateWithin(Next(w, step), stay, calls, cost)
    requires Balanced(w, stay, calls * cost)
    ensures Balanced(Next(w, step), stay, calls * cost)
  {
    match step {
      case Select(_, _, _) =>
        forall k ensures Pending(Next(w, step), k) <= calls * cost {
          PendingAtMost(Next(w, step), k, calls, cost);
        }
        SelectKeepsBalance(w, step, stay, calls * cost);
      case Use(_, _) => UseKeepsBalance(w, step, stay, calls * cost);
      case Finish(_) => FinishKeepsBalance(w, step, stay, calls * cost);
      case Succeed(k) => SamePending(w, step, stay);
      case Fail(k, _, _) => SamePending(w, step, stay);
    }
  }

  lemma SamePending(w: World, step: Step, stay: set<string>)
    requires step.Succeed? || step.Fail?
    ensures forall k :: Pending(Next(w, step), k) == Pending(w, k)
    ensures forall k :: k in w.pool ==> k in Next(w, step).pool && Next(w, step).pool[k].usage == w.pool[k].usage
  {
  }

  /** Main result: with at most `calls` calls outstanding at a time, each recording at most `cost`,
      and equal usage at the start, the usages of any two keys that stay available never differ by
      more than calls * cost, however selections, recordings and outcomes interleave. */
  lemma {:induction false} UsageStaysBalanced(w: World, steps: seq<Step>, stay: set<string>, calls: nat, cost: nat)
    requires w.calls == map[] && Within(w, steps, stay, calls, cost)
    requires forall a, b :: a in stay && b in stay && a in w.pool && b in w.pool ==> w.pool[a].usage == w.pool[b].usage
    ensures var end := Run(w, steps);
            && AllUsable(end, stay) && Balanced(end, stay, calls * cost)
            && forall a, b :: a in stay && b in stay ==> end.pool[a].usage - end.pool[b].usage <= calls * cost
    decreases |steps|
  {
    if steps == [] {
      forall a ensures Pending(w, a) == 0 {
        assert BudgetsOn(w.calls, a) == map[];
      }
      assert calls * cost >= 0;
    } else {
      var before := steps[..|steps| - 1];
      UsageStaysBalanced(w, before, stay, calls, cost);
      StepKeepsBalance(Run(w, before), steps[|steps| - 1], stay, calls, cost);
    }
    BalanceBoundsUsage(Run(w, steps), stay, calls * cost);
  }

  lemma BalanceBoundsUsage(w: World, stay: set<string>, gap: int)
    requires AllUsable(w, stay) && Balanced(w, stay, gap)
    ensures forall a, b :: a in stay && b in stay ==> w.pool[a].usage - w.pool[b].usage <= gap
  {
    forall a, b | a in stay && b in stay ensures w.pool[a].usage - w.pool[b].usage <= gap {
      TotalNonNegative(BudgetsOn(w.calls, a));
    }
  }

  // ----- keys that are out -----

  /** The key is not available at this time: exhausted or invalid for good, or in a cooldown that lasts. */
  predicate Out(m: Meta, now: real) {
    m.status.Exhausted? || m.status.Invalid? || (m.status.Cooldown? && now < m.cooldownUntil)
  }

  /** Selections of the run come before `until`, and it records no error on `k`. */
  predicate LeavesAlone(steps: seq<Step>, k: string, until: real) {
    forall i :: 0 <= i < |steps| ==>
      (steps[i].Select? ==> steps[i].now <= until) && (steps[i].Fail? ==> steps[i].key != k)
  }

  lemma StepLeavesOut(w: World, step: Step, k: string, until: real)
    requires k in w.pool && Out(w.pool[k], until) && LeavesAlone([step], k, until)
    ensures var after := Next(w, step);
            && k in after.pool && after.pool[k].status == w.pool[k].status
            && after.pool[k].cooldownUntil == w.pool[k].cooldownUntil
            && (step.Select? ==> LeastUsed(w.order, Refreshed(w.pool, step.now)) != Some(k))
  {
    assert [step][0] == step;
  }

  /** A key that is out is not selected again before its cooldown ends, whatever successes and usage are still
      recorded on it; an exhausted or invalid one never, unless a later error changes its status. */
  lemma {:induction false} OutKeysStayOut(w: World, steps: seq<Step>, k: string, until: real)
    requires k in w.pool && Out(w.pool[k], until) && LeavesAlone(steps, k, until)
    ensures var end := Run(w, steps);
            && k in end.pool && end.pool[k].status == w.pool[k].status && Out(end.pool[k], until)
            && forall now :: now <= until ==> LeastUsed(end.order, Refreshed(end.pool, now)) != Some(k)
    decreases |steps|
  {
    if steps != [] {
      var before, last := steps[..|steps| - 1], steps[|steps| - 1];
      OutKeysStayOut(w, before, k, until);
      assert [last][0] == last;
      StepLeavesOut(Run(w, before), last, k, until);
    }
  }
}
