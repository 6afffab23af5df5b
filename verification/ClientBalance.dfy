/** How evenly concurrent requests spread over the keys: every run of the client is a run of the pool in which
    a request may record its cost a number of times, at most once for each of its sends. */
module ClientBalance {
  import opened Options
  import opened Sums
  import opened ClientProtocol
  import KeyPool
  import CircuitBreaker
  import B = KeyPoolBalance

  /** The key of a request that may still record usage on it. */
  function KeyOf(pc: Pc): Option<string> {
    match pc
    case Keyed(k) => k
    case Sending(k) => k
    case Answered(k) => k
    case Credited(k) => k
    case Metered(k) => k
    case Refused(k, _) => k
    case Attempted(k, _) => k
    case _ => None
  }

  /** Usage a request may still record when it meters at most `most` sends. */
  function Budget(call: Call, most: nat): nat {
    if call.meters >= most then 0 else (most - call.meters) * call.cost
  }

  /** The request has not yet metered as often as it may when it is about to. */
  predicate MayMeter(call: Call, most: nat) { call.pc.Credited? ==> call.meters < most }

  function Spenders(calls: map<string, Call>, most: nat): map<string, B.Outstanding> {
    map c | c in calls && KeyOf(calls[c].pc).Some? :: B.Outstanding(KeyOf(calls[c].pc).value, Budget(calls[c], most))
  }

  /** A client world as the pool sees it. */
  function View(w: World, most: nat): B.World { B.World(w.order, w.pool, Spenders(w.calls, most)) }

  /** The pool's step for a step of a request; a use of no units changes nothing. */
  function PoolStep(now: real, step: Step, call: Call, after: Call, most: nat): B.Step
    requires !step.Tick? && !step.Begin?
  {
    var nothing := B.Use(step.c, 0);
    match (step, call.pc)
    case (GetKey(c), Holding) => B.Select(c, Budget(call, most), now)
    case (Credit(_), Answered(k)) => if k.Some? then B.Succeed(k.value) else nothing
    case (Meter(c), Credited(k)) => if k.Some? then B.Use(c, call.cost) else nothing
    case (Report(_), Refused(k, e)) => if k.Some? && !OauthError(e) then B.Fail(k.value, e, now) else nothing
    case _ => if KeyOf(call.pc).Some? && KeyOf(after.pc).None? then B.Finish(step.c) else nothing
  }

  lemma SpendersUpdate(calls: map<string, Call>, c: string, after: Call, most: nat)
    ensures Spenders(calls[c := after], most)
            == if KeyOf(after.pc).Some?
               then Spenders(calls, most)[c := B.Outstanding(KeyOf(after.pc).value, Budget(after, most))]
               else Spenders(calls, most) - {c}
  {
  }

  lemma MeterSpendsItsCost(call: Call, most: nat)
    requires MayMeter(call, most) && call.pc.Credited?
    ensures var after := call.(meters := call.meters + 1); Budget(call, most) == Budget(after, most) + call.cost
  {
    var left := most - call.meters;
    assert left * call.cost == (left - 1) * call.cost + call.cost;
  }

  /** A request that keeps its key keeps its budget, but for the one step that meters. */
  lemma BudgetAfter(step: Step, call: Call, picked: Option<string>, admitted: bool, most: nat)
    requires MayMeter(call, most)
    ensures var after := CallAfter(step, call, picked, admitted);
            && (step.Meter? && call.pc.Credited? ==> Budget(call, most) == Budget(after, most) + call.cost)
            && (!(step.Meter? && call.pc.Credited?) ==> Budget(after, most) == Budget(call, most))
            && (KeyOf(call.pc).Some? && KeyOf(after.pc).Some? ==> KeyOf(after.pc) == KeyOf(call.pc))
            && (KeyOf(call.pc).None? && KeyOf(after.pc).Some? ==>
                  step.GetKey? && call.pc.Holding? && KeyOf(after.pc) == picked)
  {
    if step.Meter? && call.pc.Credited? {
      MeterSpendsItsCost(call, most);
    }
  }

  lemma UseOfNothing(w: B.World, c: string)
    ensures B.Next(w, B.Use(c, 0)) == w
  {
    if c in w.calls {
      var same := w.calls[c := w.calls[c].(budget := w.calls[c].budget - 0)];
      assert same == w.calls;
      assert KeyPool.AfterUsage(w.pool, w.calls[c].key, 0) == w.pool;
    }
  }

  lemma ViewOfNext(w: World, step: Step, call: Call, most: nat)
    requires !step.Tick? && !step.Begin? && step.c in w.calls && w.calls[step.c] == call
    ensures var after := CallAfter(step, call, Picked(w), CircuitBreaker.Admits(w.breaker, w.now));
            View(Next(w, step), most)
            == B.World(w.order, PoolAfter(w.order, w.pool, w.now, step, call), Spenders(w.calls[step.c := after], most))
  {
  }

  lemma SpenderMoves(calls: map<string, Call>, step: Step, call: Call, after: Call, most: nat)
    requires !step.Tick? && !step.Begin? && step.c in calls && calls[step.c] == call && MayMeter(call, most)
    requires exists picked, admitted :: after == CallAfter(step, call, picked, admitted)
    requires !(step.GetKey? && call.pc.Holding?) && !(step.Meter? && call.pc.Credited?)
    ensures Spenders(calls[step.c := after], most)
            == if KeyOf(call.pc).Some? && KeyOf(after.pc).None? then Spenders(calls, most) - {step.c}
               else Spenders(calls, most)
  {
    var picked, admitted :| after == CallAfter(step, call, picked, admitted);
    BudgetAfter(step, call, picked, admitted, most);
    SpendersUpdate(calls, step.c, after, most);
  }

  lemma SelectIsSelect(w: World, c: string, call: Call, most: nat)
    requires c in w.calls && w.calls[c] == call && call.pc.Holding?
    ensures View(Next(w, GetKey(c)), most) == B.Next(View(w, most), B.Select(c, Budget(call, most), w.now))
  {
    var after := CallAfter(GetKey(c), call, Picked(w), CircuitBreaker.Admits(w.breaker, w.now));
    ViewOfNext(w, GetKey(c), call, most);
    SpendersUpdate(w.calls, c, after, most);
  }

  lemma MeterIsUse(w: World, c: string, call: Call, most: nat)
    requires c in w.calls && w.calls[c] == call && MayMeter(call, most) && call.pc.Credited? && call.pc.key.Some?
    ensures View(Next(w, Meter(c)), most) == B.Next(View(w, most), B.Use(c, call.cost))
  {
    var after := CallAfter(Meter(c), call, Picked(w), CircuitBreaker.Admits(w.breaker, w.now));
    ViewOfNext(w, Meter(c), call, most);
    MeterSpendsItsCost(call, most);
    SpendersUpdate(w.calls, c, after, most);
  }

  lemma OtherStepIsPoolStep(w: World, step: Step, call: Call, most: nat)
    requires !step.Tick? && !step.Begin? && step.c in w.calls && w.calls[step.c] == call && MayMeter(call, most)
    requires !(step.GetKey? && call.pc.Holding?) && !(step.Meter? && call.pc.Credited?)
    ensures var after := CallAfter(step, call, Picked(w), CircuitBreaker.Admits(w.breaker, w.now));
            View(Next(w, step), most) == B.Next(View(w, most), PoolStep(w.now, step, call, after, most))
  {
    var after := CallAfter(step, call, Picked(w), CircuitBreaker.Admits(w.breaker, w.now));
    ViewOfNext(w, step, call, most);
    SpenderMoves(w.calls, step, call, after, most);
    UseOfNothing(View(w, most), step.c);
  }

  lemma KeylessMeterIsNothing(w: World, c: string, call: Call, most: nat)
    requires c in w.calls && w.calls[c] == call && call.pc == Credited(None)
    ensures View(Next(w, Meter(c)), most) == B.Next(View(w, most), B.Use(c, 0))
  {
    var after := CallAfter(Meter(c), call, Picked(w), CircuitBreaker.Admits(w.breaker, w.now));
    ViewOfNext(w, Meter(c), call, most);
    SpendersUpdate(w.calls, c, after, most);
    UseOfNothing(View(w, most), c);
  }

  /** Every step of a request is one step of the pool. */
  lemma RequestStepIsPoolStep(w: World, step: Step, call: Call, most: nat)
    requires !step.Tick? && !step.Begin? && step.c in w.calls && w.calls[step.c] == call && MayMeter(call, most)
    ensures var after := CallAfter(step, call, Picked(w), CircuitBreaker.Admits(w.breaker, w.now));
            View(Next(w, step), most) == B.Next(View(w, most), PoolStep(w.now, step, call, after, most))
  {
    if step.GetKey? && call.pc.Holding? {
      SelectIsSelect(w, step.c, call, most);
    } else if step.Meter? && call.pc.Credited? && call.pc.key.Some? {
      MeterIsUse(w, step.c, call, most);
    } else if step.Meter? && call.pc.Credited? {
      KeylessMeterIsNothing(w, step.c, call, most);
    } else {
      OtherStepIsPoolStep(w, step, call, most);
    }
  }

  // ----- runs -----

  function Flying(calls: map<string, Call>): set<string> { set c | c in calls && InFlight(calls[c]) }

  /** The keys of `stay` are available and at most `requests` requests are in flight, of cost at most `cost`. */
  ghost predicate StateWithin(w: World, stay: set<string>, requests: nat, cost: nat) {
    && (forall k :: k in stay ==> k in w.order && KeyPool.Usable(w.pool, k))
    && |Flying(w.calls)| <= requests
    && forall c :: c in Flying(w.calls) ==> w.calls[c].cost <= cost
  }

  ghost predicate Within(w: World, steps: seq<Step>, stay: set<string>, requests: nat, cost: nat)
    decreases |steps|
  {
    && StateWithin(Run(w, steps), stay, requests, cost)
    && (steps == [] || Within(w, steps[..|steps| - 1], stay, requests, cost))
  }

  ghost predicate AllMayMeter(calls: map<string, Call>, most: nat) {
    forall c :: c in calls ==> MayMeter(calls[c], most)
  }

  /** In every state of the run each request meters at most `most` sends. */
  ghost predicate MetersAtMost(w: World, steps: seq<Step>, most: nat)
    decreases |steps|
  {
    AllMayMeter(Run(w, steps).calls, most) && (steps == [] || MetersAtMost(w, steps[..|steps| - 1], most))
  }

  lemma BudgetIsBounded(call: Call, cost: nat, most: nat)
    requires call.cost <= cost
    ensures Budget(call, most) <= most * cost
  {
    if call.meters < most {
      var left := most - call.meters;
      assert left * call.cost <= left * cost <= most * cost;
    }
  }

  lemma SpendersAreBounded(w: World, stay: set<string>, requests: nat, cost: nat, most: nat)
    requires StateWithin(w, stay, requests, cost)
    ensures B.StateWithin(View(w, most), stay, requests, most * cost)
  {
    var spenders := Spenders(w.calls, most);
    B.SubsetSize(spenders.Keys, Flying(w.calls));
    assert |spenders| == |spenders.Keys|;
    forall c | c in spenders ensures spenders[c].budget <= most * cost {
      assert c in Flying(w.calls);
      BudgetIsBounded(w.calls[c], cost, most);
    }
  }

  lemma OutsideStepsKeepView(w: World, step: Step, most: nat)
    requires step.Tick? || step.Begin? || step.c !in w.calls
    ensures View(Next(w, step), most) == View(w, most)
  {
    if step.Begin? {
      SpendersUpdate(w.calls, step.c, Call(step.cost, Holding, 0, 0, 0, 0), most);
    }
  }

  /** Each key of `stay` is available, and none can get more than `gap` ahead of another. */
  ghost predicate Even(v: B.World, stay: set<string>, gap: int) { B.AllUsable(v, stay) && B.Balanced(v, stay, gap) }

  ghost predicate IsPoolStep(v: B.World, after: B.World) { exists step :: after == B.Next(v, step) }

  lemma EveryStepIsPoolStep(w: World, step: Step, most: nat)
    requires AllMayMeter(w.calls, most)
    ensures IsPoolStep(View(w, most), View(Next(w, step), most))
  {
    if step.Tick? || step.Begin? || step.c !in w.calls {
      OutsideStepsKeepView(w, step, most);
      UseOfNothing(View(w, most), "");
    } else {
      RequestStepIsPoolStep(w, step, w.calls[step.c], most);
    }
  }

  lemma PoolStepKeepsEven(v: B.World, after: B.World, stay: set<string>, requests: nat, budget: nat)
    requires IsPoolStep(v, after) && Even(v, stay, requests * budget)
    requires B.StateWithin(v, stay, requests, budget) && B.StateWithin(after, stay, requests, budget)
    ensures Even(after, stay, requests * budget)
  {
    var step :| after == B.Next(v, step);
    B.StepKeepsBalance(v, step, stay, requests, budget);
  }

  lemma StepKeepsBalance(
      w: World, after: World, stay: set<string>, requests: nat, cost: nat, most: nat, budget: nat)
    requires IsPoolStep(View(w, most), View(after, most)) && budget == most * cost
    requires StateWithin(w, stay, requests, cost) && StateWithin(after, stay, requests, cost)
    requires Even(View(w, most), stay, requests * budget)
    ensures Even(View(after, most), stay, requests * budget)
  {
    assert B.StateWithin(View(w, most), stay, requests, budget) by {
      SpendersAreBounded(w, stay, requests, cost, most);
    }
    assert B.StateWithin(View(after, most), stay, requests, budget) by {
      SpendersAreBounded(after, stay, requests, cost, most);
    }
    PoolStepKeepsEven(View(w, most), View(after, most), stay, requests, budget);
  }

  ghost predicate EqualUsage(pool: KeyPool.Pool, stay: set<string>) {
    forall a, b :: a in stay && b in stay && a in pool && b in pool ==> pool[a].usage == pool[b].usage
  }

  lemma NothingPending(w: World, stay: set<string>, most: nat, gap: nat)
    requires w.calls == map[] && EqualUsage(w.pool, stay) && B.AllUsable(View(w, most), stay)
    ensures Even(View(w, most), stay, gap)
  {
    assert View(w, most).calls == map[];
    forall a ensures B.Pending(View(w, most), a) == 0 {
      assert B.BudgetsOn(View(w, most).calls, a) == map[];
    }
  }

  lemma {:induction false} RunStaysBalanced(
      w: World, steps: seq<Step>, stay: set<string>, requests: nat, cost: nat, most: nat, budget: nat)
    requires w.calls == map[] && EqualUsage(w.pool, stay) && budget == most * cost
    requires Within(w, steps, stay, requests, cost) && MetersAtMost(w, steps, most)
    ensures Even(View(Run(w, steps), most), stay, requests * budget)
    decreases |steps|
  {
    if steps == [] {
      assert requests * budget >= 0;
      NothingPending(w, stay, most, requests * budget);
    } else {
      var before := steps[..|steps| - 1];
      RunStaysBalanced(w, before, stay, requests, cost, most, budget);
      EveryStepIsPoolStep(Run(w, before), steps[|steps| - 1], most);
      StepKeepsBalance(Run(w, before), Run(w, steps), stay, requests, cost, most, budget);
    }
  }

  /** The keys of `stay` differ in usage by at most `gap`. */
  predicate UsageWithin(pool: KeyPool.Pool, stay: set<string>, gap: int) {
    forall a, b :: a in stay && b in stay ==> a in pool && b in pool && pool[a].usage - pool[b].usage <= gap
  }

  lemma MeteredUsageStaysBalanced(
      w: World, steps: seq<Step>, stay: set<string>, requests: nat, cost: nat, most: nat)
    requires w.calls == map[] && EqualUsage(w.pool, stay)
    requires Within(w, steps, stay, requests, cost) && MetersAtMost(w, steps, most)
    ensures UsageWithin(Run(w, steps).pool, stay, requests * (most * cost))
  {
    RunStaysBalanced(w, steps, stay, requests, cost, most, most * cost);
    B.BalanceBoundsUsage(View(Run(w, steps), most), stay, requests * (most * cost));
  }

  lemma {:induction false} EveryRunMetersThrice(
      limit: int, order: seq<string>, pool: KeyPool.Pool, cfg: CircuitBreaker.Config, steps: seq<Step>)
    ensures MetersAtMost(Fresh(limit, order, pool, cfg), steps, MAX_RETRIES + 1)
    decreases |steps|
  {
    EveryRunIsOk(limit, order, pool, cfg, steps);
    var calls := Run(Fresh(limit, order, pool, cfg), steps).calls;
    forall c | c in calls ensures MayMeter(calls[c], MAX_RETRIES + 1) {
      assert CountsOk(calls[c]);
    }
    if steps != [] {
      EveryRunMetersThrice(limit, order, pool, cfg, steps[..|steps| - 1]);
    }
  }

  /** Main result: with at most `requests` requests in flight at a time, each of cost at most `cost`, and equal
      usage at the start, the usages of any two keys that stay available never differ by more than
      requests * (MAX_RETRIES + 1) * cost, however the requests interleave: a request may record its cost once
      for each send. */
  lemma UsageStaysBalanced(limit: int, order: seq<string>, pool: KeyPool.Pool, cfg: CircuitBreaker.Config,
                           steps: seq<Step>, stay: set<string>, requests: nat, cost: nat)
    requires Within(Fresh(limit, order, pool, cfg), steps, stay, requests, cost) && EqualUsage(pool, stay)
    ensures UsageWithin(Run(Fresh(limit, order, pool, cfg), steps).pool, stay, requests * ((MAX_RETRIES + 1) * cost))
  {
    EveryRunMetersThrice(limit, order, pool, cfg, steps);
    MeteredUsageStaysBalanced(Fresh(limit, order, pool, cfg), steps, stay, requests, cost, MAX_RETRIES + 1);
  }

  // ----- replies that decode -----

  /** Every metered reply of the run decodes. */
  predicate AllDecode(steps: seq<Step>) { forall i :: 0 <= i < |steps| && steps[i].Parse? ==> steps[i].ok }

  /** A request that has metered once sends no more. */
  predicate MetersOnce(call: Call) {
    call.meters == 0
    || (call.meters == 1 && !call.pc.Holding? && !call.pc.Keyed? && !call.pc.Sending? && !call.pc.Answered?
        && !call.pc.Credited? && !call.pc.Refused? && !call.pc.Attempted?)
  }

  lemma DecodedCallMetersOnce(step: Step, call: Call, picked: Option<string>, admitted: bool)
    requires MetersOnce(call) && (step.Parse? ==> step.ok)
    ensures MetersOnce(CallAfter(step, call, picked, admitted))
  {
  }

  ghost predicate AllMeterOnce(calls: map<string, Call>) { forall c :: c in calls ==> MetersOnce(calls[c]) }

  lemma DecodedStepMetersOnce(w: World, step: Step)
    requires AllMeterOnce(w.calls) && (step.Parse? ==> step.ok)
    ensures AllMeterOnce(Next(w, step).calls)
  {
    if !step.Tick? && !step.Begin? && step.c in w.calls {
      DecodedCallMetersOnce(step, w.calls[step.c], Picked(w), CircuitBreaker.Admits(w.breaker, w.now));
    }
  }

  lemma {:induction false} DecodedRunMetersOnce(w: World, steps: seq<Step>)
    requires w.calls == map[] && AllDecode(steps)
    ensures MetersAtMost(w, steps, 1) && AllMeterOnce(Run(w, steps).calls)
    decreases |steps|
  {
    if steps != [] {
      var n := |steps| - 1;
      DecodedRunMetersOnce(w, steps[..n]);
      DecodedStepMetersOnce(Run(w, steps[..n]), steps[n]);
    }
  }

  /** Main result: on runs in which every metered reply decodes, the keys stay within requests * cost. */
  lemma DecodedUsageStaysBalanced(
      limit: int, order: seq<string>, pool: KeyPool.Pool, cfg: CircuitBreaker.Config,
      steps: seq<Step>, stay: set<string>, requests: nat, cost: nat)
    requires Within(Fresh(limit, order, pool, cfg), steps, stay, requests, cost) && EqualUsage(pool, stay)
    requires AllDecode(steps)
    ensures UsageWithin(Run(Fresh(limit, order, pool, cfg), steps).pool, stay, requests * cost)
  {
    DecodedRunMetersOnce(Fresh(limit, order, pool, cfg), steps);
    MeteredUsageStaysBalanced(Fresh(limit, order, pool, cfg), steps, stay, requests, cost, 1);
    assert 1 * cost == cost;
  }
}
